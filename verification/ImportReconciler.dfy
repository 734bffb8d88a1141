/** The import reconciler as it is written: one method per function of the controller, objects
    edited in place, requests sent one after the other. Before every request anybody else may
    act, and the request may be refused or its answer lost, as a script decides. Each pass is
    shown to be a run of the protocol, for every script. */
module ImportReconciler {
  import opened ApiServer
  import opened OwnerLabels
  import opened ImportDecision
  import opened ImportProtocol
  import opened Wrappers

  /** What happens around one request. */
  datatype Disturbance = Disturbance(before: seq<Action>, x: Choice)

  /** An answer, or the error the caller sees; a lost answer is an error that is not a conflict. */
  datatype Response<+T> = Value(value: T) | Conflicted | Failed

  /** Everybody's state, with the worker for `k` at `w`. */
  function At(s: System, k: Key, w: Worker): System {
    s.(workers := s.workers[k := w])
  }

  /** An action of somebody else than the worker for `k`. */
  predicate Foreign(a: Action, k: Key) {
    match a
    case Start(k') => k' != k
    case Step(k', _) => k' != k
    case Crash(k') => k' != k
    case _ => true
  }

  lemma ForeignLeavesWorker(s: System, k: Key, w: Worker, a: Action)
    requires Foreign(a, k)
    ensures Apply(At(s, k, w), a) == At(Apply(s, a), k, w)
  {
  }

  lemma OwnStep(s: System, k: Key, w: Worker, x: Choice)
    ensures var (c, w') := Work(s.cluster, k, w, x);
            Apply(At(s, k, w), Step(k, x)) == At(s.(cluster := c), k, w')
  {
  }

  class CAPIImportReconciler {
    const key: Key
    var system: System
    var script: seq<Disturbance>

    // The protocol's view: where the run began, the actions so far, and where the worker stands.
    ghost const origin: System
    ghost var run: seq<Action>
    ghost var worker: Worker

    ghost predicate Tracks()
      reads this
    {
      At(system, key, worker) == Run(origin, run) && Crash(key) !in run
    }

    constructor (key: Key, system: System, script: seq<Disturbance>)
      ensures Tracks() && worker.Idle? && run == []
      ensures this.key == key && this.system == system && this.script == script
      ensures origin == At(system, key, Idle)
    {
      this.key, this.system, this.script := key, system, script;
      origin, run, worker := At(system, key, Idle), [], Idle;
    }

    /** The others act; the result is what the next request meets. */
    method Await() returns (x: Choice)
      requires Tracks()
      modifies this
      ensures Tracks() && worker == old(worker) && old(run) <= run
    {
      x := Choice(Reply.Served, "", true, {});
      if script == [] {
        return;
      }
      x := script[0].x;
      var before := script[0].before;
      script := script[1..];
      for i := 0 to |before|
        invariant Tracks() && worker == old(worker) && old(run) <= run
      {
        if Foreign(before[i], key) {
          ForeignLeavesWorker(system, key, worker, before[i]);
          RunSnoc(origin, run, before[i]);
          system := Apply(system, before[i]);
          run := run + [before[i]];
        }
      }
    }

    /** The protocol takes the step that the request just sent amounts to. */
    ghost method Advance(before: Cluster, x: Choice)
      requires At(system.(cluster := before), key, worker) == Run(origin, run) && Crash(key) !in run
      requires Work(before, key, worker, x).0 == system.cluster
      modifies this`run, this`worker
      ensures Tracks() && old(run) <= run && worker == Work(before, key, old(worker), x).1
    {
      OwnStep(system.(cluster := before), key, worker, x);
      RunSnoc(origin, run, Step(key, x));
      run := run + [Step(key, x)];
      worker := Work(before, key, worker, x).1;
    }

    // ---- requests ----

    method GetCapi() returns (r: Response<Capi>)
      requires Tracks() && (worker.Fetch? || worker.FinalizerGet? || worker.CheckAuto?)
      modifies this
      ensures Tracks() && old(run) <= run && !r.Conflicted?
      ensures r.Value? ==> exists x: Choice ::
                && x.reply.Served? && key in system.cluster.capis.objects && r.value == system.cluster.capis.objects[key]
                && worker == Work(system.cluster, key, old(worker), x).1
      ensures !r.Value? ==> worker == if old(worker).CheckAuto? then FinalPatch(old(worker).base, old(worker).capi) else Idle
    {
      var x := Await();
      var objects := system.cluster.capis.objects;
      r := if x.reply.Served? && key in objects then Value(objects[key]) else Failed;
      Advance(system.cluster, x);
    }

    /** The request a worker that is about to write the CAPI cluster is about to send. */
    ghost predicate Writes(w: Worker, version: nat, capi: Capi) {
      match w
      case FinalizerPut(_, c) => version == c.version && capi == c
      case Annotate(base, _, _) => version == base.version && capi == MarkedImported(base)
      case Release(base) => version == base.version && capi == Released(base)
      case FinalPatch(base, c) => version == base.version && capi == c
      case _ => false
    }

    /** Update, or Patch with an optimistic lock. */
    method WriteCapi(version: nat, capi: Capi) returns (r: Response<Capi>)
      requires Tracks() && Writes(worker, version, capi)
      modifies this
      ensures Tracks() && old(run) <= run
      ensures match old(worker)
              case FinalizerPut(attempts, _) =>
                worker == (match r
                           case Value(stored) => AfterFinalizer(stored)
                           case Conflicted => if attempts > 1 then FinalizerGet(attempts - 1) else Idle
                           case Failed => Idle)
              case Annotate(base, name, rec) =>
                worker == if !r.Value? then FinalPatch(base, capi)
                          else if TURTLES in rec.finalizers then Strip(base, r.value, name, rec)
                          else FinalPatch(base, r.value)
              case Release(base) => worker == FinalPatch(base, if r.Value? then r.value else capi)
              case FinalPatch(_, _) => worker == Idle
              case _ => true
    {
      var x := Await();
      ghost var before := system.cluster;
      if x.reply.Refused? {
        r := Failed;
      } else {
        var (outcome, capis) := Update(system.cluster.capis, key, version, capi);
        r := if x.reply.Lost? then Failed
             else if outcome.Ok? then Value(Answer(capis, key, capi))
             else if outcome.Conflict? then Conflicted
             else Failed;
        system := system.(cluster := system.cluster.(capis := capis));
      }
      Advance(before, x);
    }

    /** The first record the selector finds, in no particular order. */
    method ListRecords() returns (r: Response<Option<(string, Record)>>, downstream: bool)
      requires Tracks() && worker.ListRecords?
      modifies this
      ensures Tracks() && old(run) <= run && !r.Conflicted?
      ensures var base := old(worker).base;
              var c := system.cluster;
              && (r.Value? ==>
                   worker == match r.value
                             case None => OnListed(c, key, base, "", None, downstream)
                             case Some((name, rec)) => OnListed(c, key, base, name, Some(rec), downstream))
              && (!r.Value? ==> worker == FinalPatch(base, base))
    {
      var x := Await();
      downstream := x.downstream;
      if !x.reply.Served? {
        r := Failed;
      } else if OwnedNames(system.cluster, key) == {} {
        r := Value(None);
      } else {
        var name :| name in OwnedNames(system.cluster, key);
        x := x.(name := name);
        r := Value(Some((name, system.cluster.records.objects[name])));
      }
      Advance(system.cluster, x);
    }

    method UpdateRecord(name: string, rec: Record) returns (ok: bool)
      requires Tracks()
      requires match worker
               case Strip(_, _, n, seen) => n == name && rec == seen.(finalizers := seen.finalizers - {TURTLES})
               case PatchRecord(_, _, n, seen) => n == name && rec == seen
               case _ => false
      modifies this
      ensures Tracks() && old(run) <= run && worker == FinalPatch(old(worker).base, old(worker).capi)
    {
      var x := Await();
      ghost var before := system.cluster;
      ok := false;
      if !x.reply.Refused? {
        var (outcome, records) := Update(system.cluster.records, name, rec.version, rec);
        system := system.(cluster := system.cluster.(records := records));
        ok := x.reply.Served? && outcome.Ok?;
      }
      Advance(before, x);
    }

    /** A collection delete may stop half-way. */
    method DeleteAllOf() returns (ok: bool)
      requires Tracks() && worker.DeleteAll?
      modifies this
      ensures Tracks() && old(run) <= run
      ensures var base := old(worker).base;
              worker == if ok && TURTLES in base.finalizers then Release(base) else FinalPatch(base, base)
    {
      var x := Await();
      ghost var before := system.cluster;
      var names := OwnedNames(system.cluster, key);
      ok := x.reply.Served?;
      var records := DeleteMany(system.cluster.records, if ok then names else names * x.partial);
      system := system.(cluster := system.cluster.(records := records));
      Advance(before, x);
    }

    method GetNamespace() returns (r: Response<Labels>)
      requires Tracks() && worker.CheckNamespace?
      modifies this
      ensures Tracks() && old(run) <= run && !r.Conflicted?
      ensures var w := old(worker);
              worker == if r.Value? && NamespaceVerdict(r.value) then ImportProtocol.CreateRecord(w.base, w.capi, w.rec)
                        else FinalPatch(w.base, w.capi)
    {
      var x := Await();
      var namespaces := system.cluster.namespaces;
      r := if x.reply.Served? && key.ns in namespaces then Value(namespaces[key.ns]) else Failed;
      Advance(system.cluster, x);
    }

    /** The server generates the name. */
    method CreateRecord(rec: Record) returns (ok: bool)
      requires Tracks() && worker.CreateRecord? && worker.rec == rec
      modifies this
      ensures Tracks() && old(run) <= run && worker == FinalPatch(old(worker).base, old(worker).capi)
    {
      var x := Await();
      ghost var before := system.cluster;
      ok := false;
      if !x.reply.Refused? {
        var (outcome, records) := Create(system.cluster.records, x.name, rec);
        system := system.(cluster := system.cluster.(records := records));
        ok := x.reply.Served? && outcome.Ok?;
      }
      Advance(before, x);
    }

    /** However many passes it has made, the reconciler has kept what the protocol keeps. */
    lemma PassesAreSafe(k: Key, n: string)
      requires Tracks() && Initial(origin)
      ensures Owned(system.cluster, n, k) && !system.cluster.records.objects[n].deleting ==> Held(system.cluster, k)
      ensures forall n' | Owned(system.cluster, n, k) && Owned(system.cluster, n', k) :: n == n'
    {
      NoOrphanedImport(origin, run, k, n);
      forall n' { AtMostOneRecord(origin, run, k, n, n'); }
    }

    // ---- the controller ----

    /** One pass: whatever happens around its requests, it is a run of the protocol, which begins
        with the pass and takes it to its end: the worker is idle again, and never by a crash. */
    method Reconcile()
      requires Tracks() && worker.Idle?
      modifies this
      ensures Tracks() && worker.Idle? && old(run) + [Start(key)] <= run
    {
      RunSnoc(origin, run, Start(key));
      run, worker := run + [Start(key)], Fetch;

      var got := GetCapi();
      if !got.Value? { return; }
      var capiCluster := got.value;

      if !capiCluster.deleting && IMPORTED !in capiCluster.annotations && TURTLES !in capiCluster.finalizers {
        var added;
        capiCluster, added := AddFinalizer(capiCluster);
        if !added { return; }
      }

      if !capiCluster.body || IMPORTED in capiCluster.annotations { return; }

      var patchBase := capiCluster;
      capiCluster := ReconcileCluster(patchBase);
      var _ := WriteCapi(patchBase.version, capiCluster);
    }

    /** Take hold of the CAPI cluster: read, add the finalizer, update; on a conflict try again. */
    method AddFinalizer(before: Capi) returns (capiCluster: Capi, added: bool)
      requires Tracks() && worker == FinalizerGet(RETRIES)
      modifies this
      ensures Tracks() && old(run) <= run
      ensures worker == if added then AfterFinalizer(capiCluster) else Idle
    {
      capiCluster, added := before, false;
      var attempts := RETRIES;
      while !added
        invariant Tracks() && old(run) <= run
        invariant if added then worker == AfterFinalizer(capiCluster)
                  else attempts > 0 && worker == FinalizerGet(attempts)
        decreases attempts, !added
      {
        var got := GetCapi();
        if !got.Value? { return; }
        capiCluster := WithFinalizer(got.value);
        var put := WriteCapi(capiCluster.version, capiCluster);
        match put {
          case Value(stored) => capiCluster, added := stored, true;
          case Conflicted => if attempts == 1 { return; } attempts := attempts - 1;
          case Failed => return;
        }
      }
    }

    /** `reconcile`; the result is the CAPI cluster as it stands in memory. */
    method ReconcileCluster(base: Capi) returns (capiCluster: Capi)
      requires Tracks() && worker == ImportProtocol.ListRecords(base)
      modifies this
      ensures Tracks() && old(run) <= run && worker == FinalPatch(base, capiCluster)
    {
      var listed, downstream := ListRecords();
      if !listed.Value? { return base; }

      if listed.value.Some? && listed.value.value.1.deleting {
        var (name, rec) := listed.value.value;
        var ok;
        capiCluster, ok := ReconcileDelete(base);
        if ok && TURTLES in rec.finalizers {
          var _ := UpdateRecord(name, rec.(finalizers := rec.finalizers - {TURTLES}));
        }
        return;
      }

      if base.deleting {
        var deleted := DeleteAllOf();
        if !deleted || TURTLES !in base.finalizers { return base; }
        capiCluster := Released(base);
        var put := WriteCapi(base.version, capiCluster);
        if put.Value? { capiCluster := put.value; }
        return;
      }

      capiCluster := ReconcileNormal(base, listed.value, downstream);
    }

    /** `reconcileDelete`: annotate the CAPI cluster and give up the hold on it, in one patch. */
    method ReconcileDelete(base: Capi) returns (capiCluster: Capi, ok: bool)
      requires Tracks() && worker.Annotate? && worker.base == base
      modifies this
      ensures Tracks() && old(run) <= run
      ensures var w := old(worker);
              worker == if ok && TURTLES in w.rec.finalizers then Strip(base, capiCluster, w.name, w.rec)
                        else FinalPatch(base, capiCluster)
    {
      capiCluster := MarkedImported(base);
      var put := WriteCapi(base.version, capiCluster);
      ok := put.Value?;
      if ok { capiCluster := put.value; }
    }

    /** `reconcileNormal` and the deferred patch of an existing record. */
    method ReconcileNormal(base: Capi, found: Option<(string, Record)>, downstream: bool) returns (capiCluster: Capi)
      requires Tracks()
      requires var c := system.cluster;
               worker == match found
                         case None => CheckAuto(base, Unfleeted(c, base), Amended(c, NewRecord(key), base))
                         case Some((name, rec)) =>
                           if downstream then PatchRecord(base, Unfleeted(c, base), name, Amended(c, rec, base))
                           else FinalPatch(base, Unfleeted(c, base))
      modifies this
      ensures Tracks() && old(run) <= run && worker == FinalPatch(base, capiCluster)
    {
      var config := system.cluster;
      capiCluster := Unfleeted(config, base);
      if found.Some? {
        var (name, seen) := found.value;
        var rancherCluster := Amended(config, seen, base);
        if downstream {
          var _ := UpdateRecord(name, rancherCluster);
        }
        return;
      }

      var rancherCluster := Amended(config, NewRecord(key), base);
      var autoImport;
      capiCluster, autoImport := ShouldAutoImportUncached(capiCluster);
      if autoImport {
        var _ := CreateRecord(rancherCluster);
      }
    }

    /** The decision is taken on a CAPI cluster read anew, which replaces the one in memory. */
    method ShouldAutoImportUncached(before: Capi) returns (capiCluster: Capi, autoImport: bool)
      requires Tracks() && worker.CheckAuto? && worker.capi == before
      modifies this
      ensures Tracks() && old(run) <= run
      ensures var w := old(worker);
              worker == if autoImport then ImportProtocol.CreateRecord(w.base, capiCluster, w.rec)
                        else FinalPatch(w.base, capiCluster)
    {
      var got := GetCapi();
      if !got.Value? { return before, false; }
      capiCluster := got.value;
      match ClusterVerdict(capiCluster.labels, capiCluster.annotations) {
        case Import => autoImport := true;
        case DoNotImport => autoImport := false;
        case AskNamespace =>
          var ns := GetNamespace();
          autoImport := ns.Value? && NamespaceVerdict(ns.value);
      }
    }
  }

  /** A controller that starts in an initial state and makes `n` passes, whatever the script lets
      happen around their requests: no orphaned record and no second one. */
  method Passes(key: Key, system: System, script: seq<Disturbance>, n: nat) returns (reconciler: CAPIImportReconciler)
    requires Initial(system)
    ensures reconciler.Tracks() && reconciler.worker.Idle? && reconciler.origin == At(system, key, Idle)
    ensures var c := reconciler.system.cluster;
            && (forall k, name | Owned(c, name, k) && !c.records.objects[name].deleting :: Held(c, k))
            && (forall k :: AtMostOne(c, k))
  {
    reconciler := new CAPIImportReconciler(key, system, script);
    for i := 0 to n
      invariant reconciler.Tracks() && reconciler.worker.Idle? && reconciler.origin == At(system, key, Idle)
      invariant fresh(reconciler)
    {
      reconciler.Reconcile();
    }
    ghost var c := reconciler.system.cluster;
    forall k, name | Owned(c, name, k)
      ensures !c.records.objects[name].deleting ==> Held(c, k)
      ensures forall other | Owned(c, other, k) :: name == other
    {
      reconciler.PassesAreSafe(k, name);
    }
  }
}

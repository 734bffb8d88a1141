/** Un-import sticks: while the cleanup reconciler stays out, a CAPI cluster that lost its
    Rancher record is not imported again until a user clears the `imported` annotation. */
module ImportSticks {
  import opened ApiServer
  import opened OwnerLabels
  import opened ImportDecision
  import opened ImportProtocol
  import opened Wrappers

  /** The action brings a record for `k` into being. */
  ghost predicate Creates(s: System, a: Action, k: Key) {
    exists n :: !Owned(s.cluster, n, k) && Owned(Apply(s, a).cluster, n, k)
  }

  /** A user takes the annotation off while `k` has no live record. */
  ghost predicate Clears(s: System, a: Action, k: Key) {
    && a.UserEditCapi? && a.k == k && k in s.cluster.capis.objects
    && IMPORTED in s.cluster.capis.objects[k].annotations
    && k in Apply(s, a).cluster.capis.objects
    && IMPORTED !in Apply(s, a).cluster.capis.objects[k].annotations
    && NoLive(s.cluster, k)
  }

  predicate IsCapi(c: Cluster, k: Key, u: nat) {
    k in c.capis.objects && c.capis.objects[k].uid == u
  }

  predicate Annotated(c: Cluster, k: Key) {
    k in c.capis.objects && IMPORTED in c.capis.objects[k].annotations
  }

  /** What an action means for the import of CAPI cluster `k` with UID `u`. */
  datatype Event = Creation | Clearing | Other

  ghost function EventOf(s: System, a: Action, k: Key, u: nat): Event {
    if Creates(s, a, k) && IsCapi(s.cluster, k, u) then Creation
    else if Clears(s, a, k) then Clearing
    else Other
  }

  ghost function EventsOf(s: System, actions: seq<Action>, k: Key, u: nat): (events: seq<Event>)
    ensures |events| == |actions|
  {
    seq(|actions|, i requires 0 <= i < |actions| => EventOf(Run(s, actions[..i]), actions[i], k, u))
  }

  /** A record was created and no clearing followed. */
  predicate Armed(events: seq<Event>) {
    if events == [] then false
    else match events[|events| - 1]
         case Creation => true
         case Clearing => false
         case Other => Armed(events[..|events| - 1])
  }

  // ---- the invariant behind it ----

  ghost predicate GuardedRecord(c: Cluster, k: Key) {
    exists n :: Owned(c, n, k) && TURTLES in c.records.objects[n].finalizers
  }

  ghost predicate LiveGuarded(c: Cluster, k: Key) {
    forall n | Owned(c, n, k) && !c.records.objects[n].deleting :: TURTLES in c.records.objects[n].finalizers
  }

  /** If the CAPI cluster still has the version `base` was read at, it is not annotated. */
  ghost predicate KnownBase(c: Cluster, k: Key, base: Capi) {
    base.version <= c.capis.clock && IMPORTED !in base.annotations &&
    (k in c.capis.objects && c.capis.objects[k].version == base.version ==> !Annotated(c, k))
  }

  ghost predicate KnownCopy(c: Cluster, k: Key, capi: Capi) {
    capi.version <= c.capis.clock &&
    (k in c.capis.objects && c.capis.objects[k].version == capi.version ==>
       c.capis.objects[k].annotations == capi.annotations)
  }

  ghost predicate KnownDeleting(c: Cluster, name: string, rec: Record) {
    rec.version <= c.records.clock &&
    (name in c.records.objects && c.records.objects[name].version == rec.version ==>
       c.records.objects[name].deleting)
  }

  ghost predicate StickWorker(c: Cluster, k: Key, w: Worker, u: nat, armed: bool) {
    match w
    case Idle => true
    case Fetch => true
    case FinalizerGet(_) => true
    case FinalizerPut(_, capi) => KnownCopy(c, k, capi)
    case ListRecords(base) => KnownBase(c, k, base) && (armed && base.uid == u ==> GuardedRecord(c, k))
    case Annotate(base, name, rec) => KnownBase(c, k, base) && KnownDeleting(c, name, rec)
    case Strip(base, capi, name, rec) =>
      KnownBase(c, k, base) && KnownDeleting(c, name, rec) && (armed && IsCapi(c, k, u) ==> Annotated(c, k))
    case DeleteAll(base) => KnownBase(c, k, base)
    case Release(base) => KnownBase(c, k, base)
    case CheckAuto(base, _, rec) => KnownBase(c, k, base) && !(armed && base.uid == u) && TURTLES in rec.finalizers
    case CheckNamespace(base, _, rec) => KnownBase(c, k, base) && !(armed && base.uid == u) && TURTLES in rec.finalizers
    case CreateRecord(base, _, rec) => KnownBase(c, k, base) && !(armed && base.uid == u) && TURTLES in rec.finalizers
    case PatchRecord(base, _, _, rec) => KnownBase(c, k, base) && TURTLES in rec.finalizers
    case FinalPatch(base, _) => KnownBase(c, k, base)
  }

  ghost predicate StickInv(c: Cluster, k: Key, w: Worker, u: nat, armed: bool) {
    && LiveGuarded(c, k)
    && (armed ==> u <= c.capis.clock)
    && (armed && IsCapi(c, k, u) ==> Annotated(c, k) || GuardedRecord(c, k))
    && StickWorker(c, k, w, u, armed)
  }

  /** What everybody else respects, clearings of the annotation aside. */
  ghost predicate StickRely(k: Key, c: Cluster, c': Cluster) {
    && c.capis.clock <= c'.capis.clock
    && (k in c'.capis.objects ==>
          || (k in c.capis.objects && c'.capis.objects[k] == c.capis.objects[k])
          || c.capis.clock < c'.capis.objects[k].version)
    && (k in c'.capis.objects && k !in c.capis.objects ==> c.capis.clock < c'.capis.objects[k].uid)
    && (k in c'.capis.objects && k in c.capis.objects ==> c'.capis.objects[k].uid == c.capis.objects[k].uid)
    && (forall n | Owned(c, n, k) && TURTLES in c.records.objects[n].finalizers ::
          Owned(c', n, k) && TURTLES in c'.records.objects[n].finalizers)
  }

  ghost predicate LosesAnnotation(k: Key, c: Cluster, c': Cluster) {
    Annotated(c, k) && k in c'.capis.objects && !Annotated(c', k)
  }

  lemma StickRelyKeeps(k: Key, c: Cluster, c': Cluster, w: Worker, u: nat, armed: bool, armed': bool)
    requires KeyInv(c, k, w) && StickInv(c, k, w, u, armed)
    requires Rely(k, c, c') && StickRely(k, c, c')
    requires armed' ==> armed
    requires LosesAnnotation(k, c, c') && armed' ==> !NoLive(c, k)
    ensures StickInv(c', k, w, u, armed')
  {
    assert GuardedRecord(c, k) ==> GuardedRecord(c', k);
    if LosesAnnotation(k, c, c') && armed' {
      var n :| Owned(c, n, k) && !c.records.objects[n].deleting;
      assert GuardedRecord(c, k);
    }
    forall n | Owned(c', n, k) && !c'.records.objects[n].deleting
      ensures TURTLES in c'.records.objects[n].finalizers
    {
      assert Owned(c, n, k);
    }
  }

  // ---- who respects the rely ----

  lemma RecordStickRely(k: Key, c: Cluster, c': Cluster, name: string)
    requires c' == c.(records := c'.records)
    requires OnlyTouches(c.records, c'.records, name)
    requires Owned(c, name, k) && TURTLES in c.records.objects[name].finalizers ==>
               Owned(c', name, k) && TURTLES in c'.records.objects[name].finalizers
    ensures StickRely(k, c, c') && !LosesAnnotation(k, c, c')
  {
    forall n | n in c.records.objects && n != name
      ensures n in c'.records.objects && c'.records.objects[n] == c.records.objects[n]
    {
      assert n in c.records.objects - {name};
    }
  }

  lemma CapiStickRely(k: Key, c: Cluster, c': Cluster, k': Key)
    requires c' == c.(capis := c'.capis)
    requires OnlyTouches(c.capis, c'.capis, k')
    ensures StickRely(k, c, c')
    ensures k != k' ==> !LosesAnnotation(k, c, c')
  {
    if k != k' {
      assert k in c.capis.objects <==> k in c.capis.objects - {k'};
      assert k in c'.capis.objects <==> k in c'.capis.objects - {k'};
    }
  }

  lemma EditRecordStickRely(k: Key, c: Cluster, name: string, version: nat, edited: Record)
    requires Owned(c, name, k) && c.records.objects[name].version == version ==>
               Owns(k, edited.labels) &&
               (TURTLES in c.records.objects[name].finalizers ==> TURTLES in edited.finalizers)
    ensures var c' := c.(records := Update(c.records, name, version, edited).1);
            StickRely(k, c, c') && !LosesAnnotation(k, c, c')
  {
    UpdateTouches(c.records, name, version, edited);
    RecordStickRely(k, c, c.(records := Update(c.records, name, version, edited).1), name);
  }

  lemma CreateRecordStickRely(k: Key, c: Cluster, name: string, rec: Record)
    ensures var c' := c.(records := Create(c.records, name, rec).1);
            StickRely(k, c, c') && !LosesAnnotation(k, c, c')
  {
    CreateTouches(c.records, name, rec);
    RecordStickRely(k, c, c.(records := Create(c.records, name, rec).1), name);
  }

  lemma DeleteManyStickRely(k: Key, c: Cluster, names: set<string>)
    ensures var c' := c.(records := DeleteMany(c.records, names));
            StickRely(k, c, c') && !LosesAnnotation(k, c, c')
  {
  }

  lemma KeepingOwnerKeepsOwner(k: Key, current: Labels, edited: Labels)
    ensures Owns(k, KeepingOwner(current, edited)) <==> Owns(k, current)
  {
    assert forall key | key in OWNER_KEYS ::
        key in KeepingOwner(current, edited) <==> key in current;
  }

  /** The cleanup reconciler takes the finalizer off a record of `k`. */
  ghost predicate CleansUp(c: Cluster, a: Action, k: Key) {
    a.Cleanup? && Owned(c, a.name, k) && Environment(c, a) != c
  }

  lemma CleanupStickRely(k: Key, c: Cluster, a: Action)
    requires a.Cleanup? && !CleansUp(c, a, k)
    ensures StickRely(k, c, Environment(c, a)) && !LosesAnnotation(k, c, Environment(c, a))
  {
    if a.name in c.records.objects && !Owned(c, a.name, k) {
      var cur := c.records.objects[a.name];
      EditRecordStickRely(k, c, a.name, a.version, cur.(finalizers := cur.finalizers - {TURTLES}));
    }
  }

  lemma EnvironmentStickRely(k: Key, c: Cluster, a: Action)
    requires !CleansUp(c, a, k)
    ensures StickRely(k, c, Environment(c, a))
    ensures LosesAnnotation(k, c, Environment(c, a)) ==> a.UserEditCapi? && a.k == k
  {
    match a
    case UserCreateCapi(k', finalizers, labels, annotations, ready) =>
      CreateTouches(c.capis, k', Object(0, 0, false, finalizers - {TURTLES}, labels, annotations, ready));
      CapiStickRely(k, c, Environment(c, a), k');
    case UserEditCapi(k', finalizers, labels, annotations, ready) =>
      if k' in c.capis.objects {
        var cur := c.capis.objects[k'];
        UpdateTouches(c.capis, k', cur.version,
                      cur.(finalizers := KeepingTurtles(cur.finalizers, finalizers),
                           labels := labels, annotations := annotations, body := ready));
        CapiStickRely(k, c, Environment(c, a), k');
      }
    case UserDeleteCapi(k') =>
      DeleteTouches(c.capis, k');
      CapiStickRely(k, c, Environment(c, a), k');
    case UserCreateRecord(name, finalizers, labels, annotations) =>
      CreateRecordStickRely(k, c, name,
        Object(0, 0, false, finalizers - {TURTLES}, labels - OWNER_KEYS, annotations, ()));
    case UserEditRecord(name, finalizers, labels, annotations) =>
      if name in c.records.objects {
        var cur := c.records.objects[name];
        KeepingOwnerKeepsOwner(k, cur.labels, labels);
        EditRecordStickRely(k, c, name, cur.version,
          cur.(finalizers := KeepingTurtles(cur.finalizers, finalizers),
               labels := KeepingOwner(cur.labels, labels), annotations := annotations));
      }
    case UserDeleteRecord(name) =>
      DeleteTouches(c.records, name);
      RecordStickRely(k, c, Environment(c, a), name);
    case Cleanup(_, _) => CleanupStickRely(k, c, a);
    case _ =>
  }

  lemma OtherCapiStickRely(k: Key, c: Cluster, k': Key, version: nat, capi: Capi)
    requires k != k'
    ensures var c' := c.(capis := Update(c.capis, k', version, capi).1);
            StickRely(k, c, c') && !LosesAnnotation(k, c, c')
  {
    UpdateTouches(c.capis, k', version, capi);
    CapiStickRely(k, c, c.(capis := Update(c.capis, k', version, capi).1), k');
  }

  lemma OtherStepStickRely(k: Key, c: Cluster, k': Key, w: Worker, x: Choice)
    requires k != k' && WorkerInv(c, k', w)
    ensures StickRely(k, c, Work(c, k', w, x).0)
    ensures !LosesAnnotation(k, c, Work(c, k', w, x).0)
  {
    match w
    case FinalizerPut(_, capi) => OtherCapiStickRely(k, c, k', capi.version, capi);
    case Annotate(base, _, _) => OtherCapiStickRely(k, c, k', base.version, MarkedImported(base));
    case Release(base) => OtherCapiStickRely(k, c, k', base.version, Released(base));
    case FinalPatch(base, capi) => OtherCapiStickRely(k, c, k', base.version, capi);
    case Strip(_, _, name, rec) =>
      EditRecordStickRely(k, c, name, rec.version, rec.(finalizers := rec.finalizers - {TURTLES}));
    case PatchRecord(_, _, name, rec) => EditRecordStickRely(k, c, name, rec.version, rec);
    case CreateRecord(_, _, rec) => CreateRecordStickRely(k, c, x.name, rec);
    case DeleteAll(base) =>
      DeleteManyStickRely(k, c, OwnedNames(c, k'));
      DeleteManyStickRely(k, c, OwnedNames(c, k') * x.partial);
    case _ =>
  }

  // ---- the worker's own steps ----

  ghost predicate CreatesRecord(c: Cluster, c': Cluster, k: Key) {
    exists n :: !Owned(c, n, k) && Owned(c', n, k)
  }

  /** The history after a step of the worker. */
  ghost predicate ArmedAfter(c: Cluster, c': Cluster, k: Key, u: nat, armed: bool) {
    (CreatesRecord(c, c', k) && IsCapi(c, k, u)) || armed
  }

  ghost predicate StickStep(c: Cluster, k: Key, w: Worker, x: Choice, u: nat, armed: bool) {
    var (c', w') := Work(c, k, w, x);
    && StickInv(c', k, w', u, ArmedAfter(c, c', k, u, armed))
    && (CreatesRecord(c, c', k) ==> !(armed && IsCapi(c, k, u)))
  }

  /** A write to the CAPI cluster that does not take the annotation off. */
  lemma CapiWriteSticks(c: Cluster, k: Key, version: nat, capi: Capi, u: nat, armed: bool)
    requires Valid(c.capis) && LiveGuarded(c, k)
    requires armed ==> u <= c.capis.clock
    requires armed && IsCapi(c, k, u) ==> Annotated(c, k) || GuardedRecord(c, k)
    requires k in c.capis.objects && c.capis.objects[k].version == version && Annotated(c, k) ==>
               IMPORTED in capi.annotations
    ensures var c' := c.(capis := Update(c.capis, k, version, capi).1);
            && !CreatesRecord(c, c', k) && LiveGuarded(c', k) && (armed ==> u <= c'.capis.clock)
            && (armed && IsCapi(c', k, u) ==> Annotated(c', k) || GuardedRecord(c', k))
            && (GuardedRecord(c, k) ==> GuardedRecord(c', k))
  {
    UpdateTouches(c.capis, k, version, capi);
    var c' := c.(capis := Update(c.capis, k, version, capi).1);
    assert forall n :: Owned(c', n, k) <==> Owned(c, n, k);
    assert GuardedRecord(c, k) ==> GuardedRecord(c', k);
  }

  lemma RecordWriteSticks(c: Cluster, k: Key, name: string, rec: Record, u: nat, armed: bool)
    requires Valid(c.records) && LiveGuarded(c, k) && SeenRecord(c, k, name, rec)
    requires armed && IsCapi(c, k, u) ==> Annotated(c, k) || GuardedRecord(c, k)
    requires TURTLES in rec.finalizers || (KnownDeleting(c, name, rec) && (armed && IsCapi(c, k, u) ==> Annotated(c, k)))
    ensures var c' := c.(records := Update(c.records, name, rec.version, rec).1);
            && !CreatesRecord(c, c', k) && LiveGuarded(c', k)
            && (armed && IsCapi(c, k, u) ==> Annotated(c', k) || GuardedRecord(c', k))
  {
    var c' := c.(records := Update(c.records, name, rec.version, rec).1);
    UpdateTouches(c.records, name, rec.version, rec);
    forall n | n != name ensures Owned(c', n, k) <==> Owned(c, n, k) {
      assert n in c'.records.objects <==> n in c'.records.objects - {name};
      assert n in c.records.objects <==> n in c.records.objects - {name};
    }
    if TURTLES in rec.finalizers && GuardedRecord(c, k) {
      var n :| Owned(c, n, k) && TURTLES in c.records.objects[n].finalizers;
      assert n != name ==> n in c.records.objects - {name};
      assert Owned(c', n, k) && TURTLES in c'.records.objects[n].finalizers;
    }
    forall n | Owned(c', n, k) && !c'.records.objects[n].deleting
      ensures TURTLES in c'.records.objects[n].finalizers
    {
      assert n != name ==> n in c'.records.objects - {name};
      assert Owned(c, n, k);
    }
  }

  lemma CapiStepSticks(c: Cluster, k: Key, w: Worker, x: Choice, u: nat, armed: bool)
    requires Valid(c.capis) && KeyInv(c, k, w) && StickInv(c, k, w, u, armed)
    requires w.Release? || w.FinalPatch?
    ensures StickStep(c, k, w, x, u, armed)
  {
    match w
    case Release(base) => CapiWriteSticks(c, k, base.version, Released(base), u, armed);
    case FinalPatch(base, capi) => CapiWriteSticks(c, k, base.version, capi, u, armed);
  }

  /** The annotating write: it goes through and annotates, or the base is stale. */
  lemma AnnotationWritten(c: Cluster, k: Key, base: Capi)
    requires Valid(c.capis) && KnownBase(c, k, base)
    ensures var (outcome, capis) := Update(c.capis, k, base.version, MarkedImported(base));
            var c' := c.(capis := capis);
            KnownBase(c', k, base) && (outcome.Ok? && k in capis.objects ==> Annotated(c', k))
  {
    UpdateTouches(c.capis, k, base.version, MarkedImported(base));
  }

  lemma AnnotateSticks(c: Cluster, k: Key, w: Worker, x: Choice, u: nat, armed: bool)
    requires Valid(c.capis) && KeyInv(c, k, w) && StickInv(c, k, w, u, armed) && w.Annotate?
    ensures StickStep(c, k, w, x, u, armed)
  {
    if !x.reply.Refused? {
      CapiWriteSticks(c, k, w.base.version, MarkedImported(w.base), u, armed);
      AnnotationWritten(c, k, w.base);
    }
  }

  lemma FetchSticks(c: Cluster, k: Key, capi: Capi, u: nat, armed: bool)
    requires Valid(c.capis) && LiveGuarded(c, k) && k in c.capis.objects && c.capis.objects[k] == capi
    requires armed && IsCapi(c, k, u) ==> Annotated(c, k) || GuardedRecord(c, k)
    ensures StickWorker(c, k, AfterFinalizer(capi), u, armed)
  {
  }

  lemma FinalizerPutSticks(c: Cluster, k: Key, w: Worker, x: Choice, u: nat, armed: bool)
    requires Valid(c.capis) && KeyInv(c, k, w) && StickInv(c, k, w, u, armed) && w.FinalizerPut?
    ensures StickStep(c, k, w, x, u, armed)
  {
    CapiWriteSticks(c, k, w.capi.version, w.capi, u, armed);
    UpdateTouches(c.capis, k, w.capi.version, w.capi);
    var (outcome, capis) := Update(c.capis, k, w.capi.version, w.capi);
    if outcome.Ok? {
      FetchSticks(c.(capis := capis), k, capis.objects[k], u, armed);
    }
  }

  lemma StripSticks(c: Cluster, k: Key, w: Worker, x: Choice, u: nat, armed: bool)
    requires Valid(c.records) && KeyInv(c, k, w) && StickInv(c, k, w, u, armed) && w.Strip?
    ensures StickStep(c, k, w, x, u, armed)
  {
    if !x.reply.Refused? {
      RecordWriteSticks(c, k, w.name, w.rec.(finalizers := w.rec.finalizers - {TURTLES}), u, armed);
    }
  }

  lemma PatchRecordSticks(c: Cluster, k: Key, w: Worker, x: Choice, u: nat, armed: bool)
    requires Valid(c.records) && KeyInv(c, k, w) && StickInv(c, k, w, u, armed) && w.PatchRecord?
    ensures StickStep(c, k, w, x, u, armed)
  {
    if !x.reply.Refused? {
      RecordWriteSticks(c, k, w.name, w.rec, u, armed);
    }
  }

  /** Deleting records, all or some, takes no finalizer off and creates none. */
  lemma DeletionGuards(c: Cluster, k: Key, names: set<string>)
    requires LiveGuarded(c, k)
    ensures var c' := c.(records := DeleteMany(c.records, names));
            LiveGuarded(c', k) && (GuardedRecord(c, k) ==> GuardedRecord(c', k)) && !CreatesRecord(c, c', k)
  {
    var c' := c.(records := DeleteMany(c.records, names));
    DeleteManyStickRely(k, c, names);
    forall n | Owned(c', n, k)
      ensures Owned(c, n, k) && (!c'.records.objects[n].deleting ==> TURTLES in c'.records.objects[n].finalizers)
    {
    }
  }

  lemma DeleteAllSticks(c: Cluster, k: Key, w: Worker, x: Choice, u: nat, armed: bool)
    requires KeyInv(c, k, w) && StickInv(c, k, w, u, armed) && w.DeleteAll?
    ensures StickStep(c, k, w, x, u, armed)
  {
    if x.reply.Served? {
      DeletionGuards(c, k, OwnedNames(c, k));
    } else {
      DeletionGuards(c, k, OwnedNames(c, k) * x.partial);
    }
  }

  /** What the worker goes on to after the list. */
  lemma OnListedSticks(c: Cluster, k: Key, base: Capi, name: string, rec: Option<Record>, downstream: bool, u: nat, armed: bool)
    requires Valid(c.records) && KnownBase(c, k, base)
    requires match rec
             case None => !(armed && base.uid == u)
             case Some(r) => name in c.records.objects && c.records.objects[name] == r
    ensures StickWorker(c, k, OnListed(c, k, base, name, rec, downstream), u, armed)
  {
  }

  lemma ListSticks(c: Cluster, k: Key, w: Worker, x: Choice, u: nat, armed: bool)
    requires Valid(c.records) && KeyInv(c, k, w) && StickInv(c, k, w, u, armed) && w.ListRecords?
    ensures StickStep(c, k, w, x, u, armed)
  {
    if x.reply.Served? && OwnedNames(c, k) == {} {
      forall n ensures !Owned(c, n, k) {
        assert n !in OwnedNames(c, k);
      }
      OnListedSticks(c, k, w.base, "", None, x.downstream, u, armed);
    } else if x.reply.Served? && Owned(c, x.name, k) {
      OnListedSticks(c, k, w.base, x.name, Some(c.records.objects[x.name]), x.downstream, u, armed);
    }
  }

  lemma CreateSticks(c: Cluster, k: Key, w: Worker, x: Choice, u: nat, armed: bool)
    requires Valid(c.capis) && Valid(c.records) && KeyInv(c, k, w) && StickInv(c, k, w, u, armed) && w.CreateRecord?
    ensures StickStep(c, k, w, x, u, armed)
  {
    var c' := Work(c, k, w, x).0;
    if !x.reply.Refused? && x.name !in c.records.objects {
      assert Owned(c', x.name, k) && TURTLES in c'.records.objects[x.name].finalizers;
      assert !Owned(c, x.name, k);
    }
    forall n | Owned(c', n, k) ensures n == x.name || Owned(c, n, k) {
    }
  }

  /** The remaining requests only read. */
  lemma ReadSticks(c: Cluster, k: Key, w: Worker, x: Choice, u: nat, armed: bool)
    requires Valid(c.capis) && KeyInv(c, k, w) && StickInv(c, k, w, u, armed)
    requires w.Idle? || w.Fetch? || w.FinalizerGet? || w.CheckAuto? || w.CheckNamespace?
    ensures StickStep(c, k, w, x, u, armed)
  {
    assert Work(c, k, w, x).0 == c;
    if w.Fetch? && k in c.capis.objects {
      FetchSticks(c, k, c.capis.objects[k], u, armed);
    }
  }

  lemma OwnStepSticks(c: Cluster, k: Key, w: Worker, x: Choice, u: nat, armed: bool)
    requires Valid(c.capis) && Valid(c.records) && KeyInv(c, k, w) && StickInv(c, k, w, u, armed)
    ensures StickStep(c, k, w, x, u, armed)
  {
    if w.FinalizerPut? {
      FinalizerPutSticks(c, k, w, x, u, armed);
    } else if w.Annotate? {
      AnnotateSticks(c, k, w, x, u, armed);
    } else if w.Release? || w.FinalPatch? {
      CapiStepSticks(c, k, w, x, u, armed);
    } else if w.Strip? {
      StripSticks(c, k, w, x, u, armed);
    } else if w.PatchRecord? {
      PatchRecordSticks(c, k, w, x, u, armed);
    } else if w.DeleteAll? {
      DeleteAllSticks(c, k, w, x, u, armed);
    } else if w.ListRecords? {
      ListSticks(c, k, w, x, u, armed);
    } else if w.CreateRecord? {
      CreateSticks(c, k, w, x, u, armed);
    } else {
      ReadSticks(c, k, w, x, u, armed);
    }
  }

  // ---- every run without cleanup ----

  /** No step of the cleanup reconciler takes the finalizer off a record of `k`. */
  ghost predicate WithoutCleanup(s: System, actions: seq<Action>, k: Key) {
    forall i | 0 <= i < |actions| :: !CleansUp(Run(s, actions[..i]).cluster, actions[i], k)
  }

  lemma WithoutCleanupPrefix(s: System, actions: seq<Action>, k: Key, n: nat)
    requires WithoutCleanup(s, actions, k) && n <= |actions|
    ensures WithoutCleanup(s, actions[..n], k)
  {
    forall i | 0 <= i < n ensures !CleansUp(Run(s, actions[..n][..i]).cluster, actions[..n][i], k) {
      assert actions[..n][..i] == actions[..i];
    }
  }

  lemma ApplySticks(s: System, a: Action, k: Key, u: nat, armed: bool)
    requires Inv(s) && !CleansUp(s.cluster, a, k)
    requires StickInv(s.cluster, k, WorkerOf(s, k), u, armed)
    ensures var s', e := Apply(s, a), EventOf(s, a, k, u);
            && StickInv(s'.cluster, k, WorkerOf(s', k), u, e.Creation? || (e.Other? && armed))
            && (e.Creation? ==> !armed)
  {
    var s' := Apply(s, a);
    var c, c', w := s.cluster, s'.cluster, WorkerOf(s, k);
    assert KeyInv(c, k, w);
    assert Creates(s, a, k) <==> CreatesRecord(c, c', k);
    if a.Step? && a.k == k {
      OwnStepSticks(c, k, w, a.x, u, armed);
    } else if a.Step? {
      assert KeyInv(c, a.k, WorkerOf(s, a.k));
      OtherStepRely(k, c, a.k, WorkerOf(s, a.k), a.x);
      OtherStepStickRely(k, c, a.k, WorkerOf(s, a.k), a.x);
      StickRelyKeeps(k, c, c', w, u, armed, armed);
    } else if a.Start? || a.Crash? {
      assert c' == c;
    } else {
      EnvironmentRely(k, c, a);
      EnvironmentStickRely(k, c, a);
      StickRelyKeeps(k, c, c', w, u, armed, armed && !Clears(s, a, k));
    }
  }

  lemma {:induction false} RunSticks(s: System, actions: seq<Action>, k: Key, u: nat)
    requires Initial(s) && WithoutCleanup(s, actions, k)
    ensures var s' := Run(s, actions);
            Inv(s') && StickInv(s'.cluster, k, WorkerOf(s', k), u, Armed(EventsOf(s, actions, k, u)))
    decreases |actions|
  {
    InitialHolds(s);
    RunKeeps(s, actions);
    if actions == [] {
      forall n ensures !Owned(s.cluster, n, k) {
        if n in s.cluster.records.objects {
          assert OWNER in OWNER_KEYS && OWNER !in s.cluster.records.objects[n].labels.Keys;
        }
      }
    } else {
      var n := |actions| - 1;
      WithoutCleanupPrefix(s, actions, k, n);
      RunSticks(s, actions[..n], k, u);
      EventsOfPrefix(s, actions, k, u, n);
      ApplySticks(Run(s, actions[..n]), actions[n], k, u, Armed(EventsOf(s, actions[..n], k, u)));
    }
  }

  lemma EventsOfPrefix(s: System, actions: seq<Action>, k: Key, u: nat, n: nat)
    requires n <= |actions|
    ensures EventsOf(s, actions[..n], k, u) == EventsOf(s, actions, k, u)[..n]
  {
    forall i | 0 <= i < n ensures EventsOf(s, actions[..n], k, u)[i] == EventsOf(s, actions, k, u)[i] {
      assert actions[..n][..i] == actions[..i];
    }
  }

  /** From a creation on, the history stays armed until a clearing. */
  lemma {:induction false} ArmedSince(events: seq<Event>, i: nat)
    requires i < |events| && events[i].Creation?
    requires forall m | i < m < |events| :: !events[m].Clearing?
    ensures Armed(events)
    decreases |events|
  {
    if i < |events| - 1 {
      ArmedSince(events[..|events| - 1], i);
    }
  }

  /** The `i`-th action creates a record for the CAPI cluster with this key and UID. */
  ghost predicate CreatesAt(s: System, actions: seq<Action>, i: nat, k: Key, u: nat)
    requires i < |actions|
  {
    Creates(Run(s, actions[..i]), actions[i], k) && IsCapi(Run(s, actions[..i]).cluster, k, u)
  }

  /** Un-import sticks. Between two creations of a record for one and the same CAPI cluster a
      user has cleared the `imported` annotation, at a time when no record of it was live. */
  lemma UnimportSticks(s: System, actions: seq<Action>, k: Key, u: nat, i: nat, j: nat)
    requires Initial(s) && WithoutCleanup(s, actions, k) && i < j < |actions|
    ensures CreatesAt(s, actions, i, k, u) && CreatesAt(s, actions, j, k, u) ==>
              exists m :: i < m < j && Clears(Run(s, actions[..m]), actions[m], k)
  {
    if CreatesAt(s, actions, i, k, u) && CreatesAt(s, actions, j, k, u) {
      var events := EventsOf(s, actions, k, u);
      if forall m | i < m < j :: !events[m].Clearing? {
        ArmedSince(events[..j], i);
        EventsOfPrefix(s, actions, k, u, j);
        WithoutCleanupPrefix(s, actions, k, j);
        RunSticks(s, actions[..j], k, u);
        ApplySticks(Run(s, actions[..j]), actions[j], k, u, true);
        assert false;
      }
      var m :| i < m < j && events[m].Clearing?;
      assert Clears(Run(s, actions[..m]), actions[m], k);
    }
  }
}

/** The credential reconciler and the AWS translator as they are written; each pass is shown to
    be a run of the protocol, whatever a script lets happen around its requests. */
module CredentialReconciler {
  import opened ApiServer
  import opened CredentialProtocol
  import opened Wrappers

  datatype Disturbance = Disturbance(before: seq<Action>, reply: Reply)

  datatype Lookup<+T> = Found(value: T) | Missing | Error

  function At(s: System, name: string, w: Worker): System {
    s.(workers := s.workers[name := w])
  }

  predicate Foreign(a: Action, name: string) {
    match a
    case Start(other) => other != name
    case Step(other, _) => other != name
    case Crash(other) => other != name
    case _ => true
  }

  lemma ForeignLeavesWorker(s: System, name: string, w: Worker, a: Action)
    requires Foreign(a, name)
    ensures Apply(At(s, name, w), a) == At(Apply(s, a), name, w)
  {
  }

  lemma OwnStep(s: System, name: string, w: Worker, r: Reply)
    ensures var (c, w') := Work(s.cluster, name, w, r);
            Apply(At(s, name, w), Step(name, r)) == At(s.(cluster := c), name, w')
  {
  }

  class RancherCredentialReconciler {
    const name: string
    var system: System
    var script: seq<Disturbance>

    // The protocol's view: where the run began, the actions so far, and where the worker stands.
    ghost const origin: System
    ghost var run: seq<Action>
    ghost var worker: Worker

    ghost predicate Tracks()
      reads this
    {
      At(system, name, worker) == Run(origin, run) && Crash(name) !in run
    }

    constructor (name: string, system: System, script: seq<Disturbance>)
      ensures Tracks() && worker.Idle? && run == []
      ensures this.name == name && this.system == system && this.script == script
      ensures origin == At(system, name, Idle)
    {
      this.name, this.system, this.script := name, system, script;
      origin, run, worker := At(system, name, Idle), [], Idle;
    }

    /** The others act; the result is how the next request fares. */
    method Await() returns (r: Reply)
      requires Tracks()
      modifies this
      ensures Tracks() && worker == old(worker) && old(run) <= run
    {
      r := Served;
      if script == [] {
        return;
      }
      r := script[0].reply;
      var before := script[0].before;
      script := script[1..];
      for i := 0 to |before|
        invariant Tracks() && worker == old(worker) && old(run) <= run
      {
        if Foreign(before[i], name) {
          ForeignLeavesWorker(system, name, worker, before[i]);
          RunSnoc(origin, run, before[i]);
          system := Apply(system, before[i]);
          run := run + [before[i]];
        }
      }
    }

    ghost method Advance(before: Cluster, r: Reply)
      requires At(system.(cluster := before), name, worker) == Run(origin, run) && Crash(name) !in run
      requires Work(before, name, worker, r).0 == system.cluster
      modifies this`run, this`worker
      ensures Tracks() && old(run) <= run && worker == Work(before, name, old(worker), r).1
    {
      OwnStep(system.(cluster := before), name, worker, r);
      RunSnoc(origin, run, Step(name, r));
      run := run + [Step(name, r)];
      worker := Work(before, name, worker, r).1;
    }

    // ---- requests ----

    method GetCredential() returns (got: Lookup<Credential>)
      requires Tracks() && worker.Fetch?
      modifies this
      ensures Tracks() && old(run) <= run
      ensures worker == if got.Found? && DRIVER in got.value.annotations && got.value.annotations[DRIVER] == "aws"
                        then CredentialProtocol.GetProvider(got.value) else Idle
    {
      var r := Await();
      var objects := system.cluster.credentials.objects;
      got := if !r.Served? then Error else if name !in objects then Missing else Found(objects[name]);
      Advance(system.cluster, r);
    }

    method GetProvider() returns (got: Lookup<Phase>)
      requires Tracks() && worker.GetProvider?
      modifies this
      ensures Tracks() && old(run) <= run
      ensures worker == if got.Found? then OnProvider(got.value, old(worker).cred) else Idle
      ensures got.Found? ==> !got.value.Absent?
    {
      var r := Await();
      var phase := system.cluster.providerReady;
      got := if !r.Served? then Error else if phase.Absent? then Missing else Found(phase);
      Advance(system.cluster, r);
    }

    /** A merge patch of the finalizers, without a lock; the answer replaces the copy in memory. */
    method PatchFinalizers(finalizers: set<string>) returns (patched: Lookup<Credential>)
      requires Tracks()
      requires (worker.AddFinalizer? && finalizers == worker.cred.finalizers + {FINALIZER})
            || (worker.RemoveFinalizer? && finalizers == worker.cred.finalizers - {FINALIZER})
      modifies this
      ensures Tracks() && old(run) <= run
      ensures worker == if old(worker).AddFinalizer? && patched.Found? then Translating(patched.value) else Idle
    {
      var r := Await();
      ghost var before := system.cluster;
      patched := Error;
      if !r.Refused? {
        var (outcome, credentials) := CredentialProtocol.PatchFinalizers(system.cluster.credentials, name, finalizers);
        system := system.(cluster := system.cluster.(credentials := credentials));
        if r.Served? && outcome.Ok? && name in credentials.objects {
          patched := Found(credentials.objects[name]);
        }
      }
      Advance(before, r);
    }

    method PatchIdentityRef()
      requires Tracks() && worker.AnnotateRef?
      modifies this
      ensures Tracks() && old(run) <= run && worker.Idle?
    {
      var r := Await();
      ghost var before := system.cluster;
      if !r.Refused? {
        var credentials := PatchRef(system.cluster.credentials, name).1;
        system := system.(cluster := system.cluster.(credentials := credentials));
      }
      Advance(before, r);
    }

    method GetTarget(kind: Kind) returns (got: Lookup<Translated>)
      requires Tracks() && worker.GetTarget? && worker.kind == kind
      modifies this
      ensures Tracks() && old(run) <= run
      ensures var cred := old(worker).cred;
              worker == match got
                        case Error => Idle
                        case Missing => CredentialProtocol.CreateTarget(cred, kind)
                        case Found(target) =>
                          if !OwnedBy(target, cred) then Idle
                          else if Unchanged(target, cred, kind, name) then AfterTarget(cred, kind, name)
                          else CredentialProtocol.UpdateTarget(cred, kind, Mutated(target, cred, kind, name))
    {
      var r := Await();
      var objects, key := system.cluster.targets.objects, Target(kind, name);
      got := if !r.Served? then Error else if key !in objects then Missing else Found(objects[key]);
      Advance(system.cluster, r);
    }

    method CreateTarget(kind: Kind, target: Translated) returns (ok: bool)
      requires Tracks() && worker.CreateTarget? && worker.kind == kind && target == NewTarget(worker.cred, kind, name)
      modifies this
      ensures Tracks() && old(run) <= run
      ensures worker == if ok then AfterTarget(old(worker).cred, kind, name) else Idle
    {
      var r := Await();
      ghost var before := system.cluster;
      ok := false;
      if !r.Refused? {
        var (outcome, targets) := Create(system.cluster.targets, Target(kind, name), target);
        system := system.(cluster := system.cluster.(targets := targets));
        ok := r.Served? && outcome.Ok?;
      }
      Advance(before, r);
    }

    method UpdateTarget(kind: Kind, target: Translated) returns (ok: bool)
      requires Tracks() && worker.UpdateTarget? && worker.kind == kind && target == worker.target
      modifies this
      ensures Tracks() && old(run) <= run
      ensures worker == if ok then AfterTarget(old(worker).cred, kind, name) else Idle
    {
      var r := Await();
      ghost var before := system.cluster;
      ok := false;
      if !r.Refused? {
        var (outcome, targets) := Update(system.cluster.targets, Target(kind, name), target.version, target);
        system := system.(cluster := system.cluster.(targets := targets));
        ok := r.Served? && outcome.Ok?;
      }
      Advance(before, r);
    }

    /** Get, check the owner, delete: taken as one request. */
    method DeleteIfOwned(kind: Kind, cred: Credential) returns (ok: bool)
      requires Tracks() && worker == DeleteTarget(cred, kind)
      modifies this
      ensures Tracks() && old(run) <= run
      ensures worker == if ok then AfterDelete(cred, kind) else Idle
    {
      var r := Await();
      ghost var before := system.cluster;
      var key := Target(kind, name);
      if !r.Refused? && key in system.cluster.targets.objects && OwnedBy(system.cluster.targets.objects[key], cred) {
        var targets := Delete(system.cluster.targets, key).1;
        system := system.(cluster := system.cluster.(targets := targets));
      }
      ok := r.Served?;
      Advance(before, r);
    }

    /** However many passes it has made, the reconciler has kept what the protocol keeps. */
    lemma PassesAreSafe(key: Target)
      requires Tracks() && Initial(origin)
      ensures LiveOurs(system.cluster, key) ==>
                && key.name in system.cluster.credentials.objects
                && Held(system.cluster, key.name, system.cluster.credentials.objects[key.name].uid)
                && OwnedBy(system.cluster.targets.objects[key], system.cluster.credentials.objects[key.name])
    {
      NoOrphanedCredential(origin, run, key);
    }

    // ---- the controller ----

    /** One pass: whatever happens around its requests, it is a run of the protocol, which begins
        with the pass and takes it to its end: the worker is idle again, and never by a crash. */
    method Reconcile()
      requires Tracks() && worker.Idle?
      modifies this
      ensures Tracks() && worker.Idle? && old(run) + [Start(name)] <= run
    {
      RunSnoc(origin, run, Start(name));
      run, worker := run + [Start(name)], Fetch;

      var got := GetCredential();
      if !got.Found? { return; }
      var credential := got.value;

      if DRIVER !in credential.annotations || credential.annotations[DRIVER] != "aws" { return; }

      var provider := GetProvider();
      if !provider.Found? || !provider.value.Ready? { return; }

      if credential.deleting {
        ReconcileDelete(credential);
      } else {
        ReconcileNormal(credential);
      }
    }

    method ReconcileNormal(cred: Credential)
      requires Tracks()
      requires worker == if FINALIZER in cred.finalizers then Translating(cred) else AddFinalizer(cred)
      modifies this
      ensures Tracks() && worker.Idle? && old(run) <= run
    {
      var credential := cred;
      if FINALIZER !in credential.finalizers {
        var patched := PatchFinalizers(credential.finalizers + {FINALIZER});
        if !patched.Found? { return; }
        credential := patched.value;
      }

      var identityName := Translate(credential);
      if identityName == None { return; }

      if IDENTITY_REF !in credential.annotations || credential.annotations[IDENTITY_REF] != identityName.value {
        PatchIdentityRef();
      }
    }

    method ReconcileDelete(cred: Credential)
      requires Tracks()
      requires worker == if FINALIZER in cred.finalizers then DeleteTarget(cred, Identity) else Idle
      modifies this
      ensures Tracks() && worker.Idle? && old(run) <= run
    {
      if FINALIZER !in cred.finalizers { return; }
      var cleaned := Cleanup(cred);
      if !cleaned { return; }
      var _ := PatchFinalizers(cred.finalizers - {FINALIZER});
    }

    // ---- the translator ----

    /** None when there is nothing to translate or a step failed. */
    method Translate(cred: Credential) returns (identityName: Option<string>)
      requires Tracks() && worker == Translating(cred)
      modifies this
      ensures Tracks() && old(run) <= run
      ensures worker == if identityName.Some? then AfterTarget(cred, Identity, name) else Idle
      ensures identityName.Some? ==> identityName.value == name
    {
      if cred.body.accessKey == "" || cred.body.secretKey == "" { return None; }
      var ok := CreateOrUpdate(cred, Secret);
      if !ok { return None; }
      ok := CreateOrUpdate(cred, Identity);
      if !ok { return None; }
      return Some(name);
    }

    method CreateOrUpdate(cred: Credential, kind: Kind) returns (ok: bool)
      requires Tracks() && worker == CredentialProtocol.GetTarget(cred, kind)
      modifies this
      ensures Tracks() && old(run) <= run
      ensures worker == if ok then AfterTarget(cred, kind, name) else Idle
    {
      var got := GetTarget(kind);
      match got {
        case Error => ok := false;
        case Missing => ok := CreateTarget(kind, NewTarget(cred, kind, name));
        case Found(existing) =>
          if !OwnedBy(existing, cred) { return false; }
          var target := Mutated(existing, cred, kind, name);
          if kind.Secret? && target == existing { return true; }
          ok := UpdateTarget(kind, target);
      }
    }

    method Cleanup(cred: Credential) returns (ok: bool)
      requires Tracks() && worker == DeleteTarget(cred, Identity)
      modifies this
      ensures Tracks() && old(run) <= run
      ensures worker == if ok then RemoveFinalizer(cred) else Idle
    {
      ok := DeleteIfOwned(Identity, cred);
      if ok {
        ok := DeleteIfOwned(Secret, cred);
      }
    }
  }

  /** A controller that starts in an initial state and makes `n` passes, whatever the script lets
      happen around their requests: every live translated object has its source. */
  method Passes(name: string, system: System, script: seq<Disturbance>, n: nat)
    returns (reconciler: RancherCredentialReconciler)
    requires Initial(system)
    ensures reconciler.Tracks() && reconciler.worker.Idle? && reconciler.origin == At(system, name, Idle)
    ensures forall key :: Sourced(reconciler.system.cluster, key)
  {
    reconciler := new RancherCredentialReconciler(name, system, script);
    for i := 0 to n
      invariant reconciler.Tracks() && reconciler.worker.Idle? && reconciler.origin == At(system, name, Idle)
      invariant fresh(reconciler)
    {
      reconciler.Reconcile();
    }
    forall key ensures Sourced(reconciler.system.cluster, key) {
      reconciler.PassesAreSafe(key);
    }
  }
}

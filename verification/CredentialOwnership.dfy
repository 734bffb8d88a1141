/** Whose objects credential translation writes to, what it can collide with, and what an
    undisturbed pass achieves. */
module CredentialOwnership {
  import opened ApiServer
  import opened CredentialProtocol

  // ---- foreign objects ----

  predicate Addresses(a: Action, key: Target) {
    (a.UserCreateTarget? || a.UserEditTarget? || a.UserDeleteTarget?) && a.key == key
  }

  lemma StepLeavesForeign(c: Cluster, name: string, w: Worker, r: Reply, key: Target)
    requires WorkerInv(c, name, w)
    requires key in c.targets.objects && !Ours(c, key)
    ensures var c' := Work(c, name, w, r).0;
            key in c'.targets.objects && c'.targets.objects[key] == c.targets.objects[key]
  {
    match w
    case CreateTarget(cred, kind) =>
      CreateTouches(c.targets, Target(kind, name), NewTarget(cred, kind, name));
      assert key == Target(kind, name) || key in c.targets.objects - {Target(kind, name)};
    case UpdateTarget(cred, kind, target) =>
      UpdateTouches(c.targets, Target(kind, name), target.version, target);
      assert key == Target(kind, name) || key in c.targets.objects - {Target(kind, name)};
    case DeleteTarget(cred, kind) =>
      DeleteTouches(c.targets, Target(kind, name));
      assert key == Target(kind, name) || key in c.targets.objects - {Target(kind, name)};
    case _ =>
  }

  lemma EnvironmentLeavesOthers(c: Cluster, a: Action, key: Target)
    requires key in c.targets.objects && !Addresses(a, key)
    ensures var c' := Environment(c, a);
            key in c'.targets.objects && c'.targets.objects[key] == c.targets.objects[key]
  {
    match a
    case UserEditTarget(other, finalizers, annotations, payload) =>
      if other in c.targets.objects {
        var cur := c.targets.objects[other];
        UpdateTouches(c.targets, other, cur.version,
          cur.(finalizers := finalizers, annotations := KeepingSource(cur.annotations, annotations), body := payload));
        assert key in c.targets.objects - {other};
      }
    case _ =>
  }

  lemma ActionLeavesForeign(s: System, a: Action, key: Target)
    requires Inv(s) && key in s.cluster.targets.objects && !Ours(s.cluster, key) && !Addresses(a, key)
    ensures var c := Apply(s, a).cluster;
            key in c.targets.objects && c.targets.objects[key] == s.cluster.targets.objects[key]
  {
    if a.Step? {
      assert NameInv(s.cluster, a.name, WorkerOf(s, a.name));
      StepLeavesForeign(s.cluster, a.name, WorkerOf(s, a.name), a.r, key);
    } else {
      EnvironmentLeavesOthers(s.cluster, a, key);
    }
  }

  /** Whatever the controller does, an object it did not translate stays as it is: from any point
      of a run on, an object without a source UID changes only when somebody else addresses it. */
  lemma {:induction false} ForeignObjectsUntouched(s: System, actions: seq<Action>, i: nat, key: Target)
    requires Initial(s) && i <= |actions|
    requires var c := Run(s, actions[..i]).cluster; key in c.targets.objects && !Ours(c, key)
    requires forall j | i <= j < |actions| :: !Addresses(actions[j], key)
    ensures var was, c := Run(s, actions[..i]).cluster, Run(s, actions).cluster;
            key in c.targets.objects && c.targets.objects[key] == was.targets.objects[key]
    decreases |actions|
  {
    if i == |actions| {
      assert actions[..i] == actions;
    } else {
      var before := actions[..|actions| - 1];
      assert before[..i] == actions[..i];
      ForeignObjectsUntouched(s, before, i, key);
      RunKeeps(s, before);
      ActionLeavesForeign(Run(s, before), actions[|actions| - 1], key);
    }
  }

  // ---- collisions ----

  /** The worker for `name` is about to find an object that it does not own. */
  predicate Collides(s: System, name: string) {
    var w := WorkerOf(s, name);
    && w.GetTarget?
    && var key := Target(w.kind, name);
       key in s.cluster.targets.objects && !OwnedBy(s.cluster.targets.objects[key], w.cred)
  }

  function CollidingTarget(s: System, name: string): Translated
    requires Collides(s, name)
  {
    s.cluster.targets.objects[Target(WorkerOf(s, name).kind, name)]
  }

  lemma CollisionAt(s: System, name: string)
    requires Inv(s) && Collides(s, name)
    ensures SOURCE_ID !in CollidingTarget(s, name).annotations || CollidingTarget(s, name).deleting
    ensures Held(s.cluster, name, WorkerOf(s, name).cred.uid)
  {
    assert NameInv(s.cluster, name, WorkerOf(s, name));
    assert Sourced(s.cluster, Target(WorkerOf(s, name).kind, name));
  }

  /** A translated object stays in deletion only while finalizers keep it. */
  ghost predicate KeptByFinalizers(c: Cluster, key: Target) {
    Ours(c, key) && c.targets.objects[key].deleting ==> c.targets.objects[key].finalizers != {}
  }

  lemma StepKeepsKept(c: Cluster, name: string, w: Worker, r: Reply, key: Target)
    requires WorkerInv(c, name, w) && KeptByFinalizers(c, key)
    ensures KeptByFinalizers(Work(c, name, w, r).0, key)
  {
    if key in c.targets.objects && !Ours(c, key) {
      StepLeavesForeign(c, name, w, r, key);
    }
  }

  lemma EnvironmentKeepsKept(c: Cluster, a: Action, key: Target)
    requires KeptByFinalizers(c, key)
    ensures KeptByFinalizers(Environment(c, a), key)
  {
  }

  lemma {:induction false} DeletionIsKept(s: System, actions: seq<Action>, key: Target)
    requires Initial(s)
    ensures KeptByFinalizers(Run(s, actions).cluster, key)
    decreases |actions|
  {
    if actions != [] {
      var before, a := actions[..|actions| - 1], actions[|actions| - 1];
      DeletionIsKept(s, before, key);
      RunKeeps(s, before);
      var s1 := Run(s, before);
      if a.Step? {
        assert NameInv(s1.cluster, a.name, WorkerOf(s1, a.name));
        StepKeepsKept(s1.cluster, a.name, WorkerOf(s1, a.name), a.r, key);
      } else {
        EnvironmentKeepsKept(s1.cluster, a, key);
      }
    }
  }

  /** At this point of the run the credential of that name had this UID. */
  ghost predicate HadUid(s: System, actions: seq<Action>, m: nat, name: string, text: string)
    requires m <= |actions|
  {
    var credentials := Run(s, actions[..m]).cluster.credentials.objects;
    name in credentials && UidText(credentials[name].uid) == text
  }

  /** Where the UID on a translated object comes from: it was there, or its credential is. */
  lemma StepSource(c: Cluster, name: string, w: Worker, r: Reply, key: Target)
    requires WorkerInv(c, name, w)
    ensures var c' := Work(c, name, w, r).0;
            Ours(c', key) ==>
              var text := c'.targets.objects[key].annotations[SOURCE_ID];
              || (Ours(c, key) && c.targets.objects[key].annotations[SOURCE_ID] == text)
              || (key.name in c.credentials.objects && UidText(c.credentials.objects[key.name].uid) == text)
  {
    match w
    case CreateTarget(cred, kind) =>
      CreateTouches(c.targets, Target(kind, name), NewTarget(cred, kind, name));
    case _ =>
  }

  lemma EnvironmentSource(c: Cluster, a: Action, key: Target)
    ensures var c' := Environment(c, a);
            Ours(c', key) ==>
              Ours(c, key) && c.targets.objects[key].annotations[SOURCE_ID] == c'.targets.objects[key].annotations[SOURCE_ID]
  {
  }

  /** The UID on a translated object is one that the credential of its name has had. */
  lemma {:induction false} SourceExisted(s: System, actions: seq<Action>, key: Target) returns (m: nat)
    requires Initial(s) && Ours(Run(s, actions).cluster, key)
    ensures m <= |actions|
    ensures HadUid(s, actions, m, key.name, Run(s, actions).cluster.targets.objects[key].annotations[SOURCE_ID])
    decreases |actions|
  {
    var c' := Run(s, actions).cluster;
    var text := c'.targets.objects[key].annotations[SOURCE_ID];
    assert actions != [];
    var before, a := actions[..|actions| - 1], actions[|actions| - 1];
    RunKeeps(s, before);
    var s1 := Run(s, before);
    if a.Step? {
      assert NameInv(s1.cluster, a.name, WorkerOf(s1, a.name));
      StepSource(s1.cluster, a.name, WorkerOf(s1, a.name), a.r, key);
    } else {
      EnvironmentSource(s1.cluster, a, key);
    }
    if Ours(s1.cluster, key) && s1.cluster.targets.objects[key].annotations[SOURCE_ID] == text {
      m := SourceExisted(s, before, key);
      assert before[..m] == actions[..m];
    } else {
      m := |actions| - 1;
    }
  }

  /** A collision is with a foreign object, or with an object of a deleted predecessor: one that is in
      deletion, that finalizers of its own still keep, and whose UID an earlier credential of
      the same name had and the present one has not. */
  lemma CollisionCause(s: System, actions: seq<Action>, name: string)
    requires Initial(s) && Collides(Run(s, actions), name)
    ensures var target := CollidingTarget(Run(s, actions), name);
            SOURCE_ID !in target.annotations
            || (&& target.deleting && target.finalizers != {}
                && (exists m | 0 <= m <= |actions| :: HadUid(s, actions, m, name, target.annotations[SOURCE_ID]))
                && name in Run(s, actions).cluster.credentials.objects
                && target.annotations[SOURCE_ID] != UidText(Run(s, actions).cluster.credentials.objects[name].uid))
  {
    RunKeeps(s, actions);
    var s' := Run(s, actions);
    CollisionAt(s', name);
    var key := Target(WorkerOf(s', name).kind, name);
    if Ours(s'.cluster, key) {
      DeletionIsKept(s, actions, key);
      var m := SourceExisted(s, actions, key);
    }
  }

  /** Nobody has put a finalizer on a translated object. */
  ghost predicate Bare(c: Cluster) {
    forall key | Ours(c, key) :: c.targets.objects[key].finalizers == {}
  }

  ghost predicate BareThroughout(s: System, actions: seq<Action>)
    decreases |actions|
  {
    Bare(Run(s, actions).cluster) && (actions != [] ==> BareThroughout(s, actions[..|actions| - 1]))
  }

  ghost predicate AllLive(c: Cluster) {
    forall key | Ours(c, key) :: LiveOurs(c, key)
  }

  /** Only an object with finalizers can come to be in deletion. */
  lemma StepKeepsAllLive(s: System, a: Action)
    requires Inv(s) && Bare(s.cluster) && AllLive(s.cluster)
    ensures AllLive(Apply(s, a).cluster)
  {
    var c, c' := s.cluster, Apply(s, a).cluster;
    if a.Step? {
      assert NameInv(c, a.name, WorkerOf(s, a.name));
      StepKeepsLive(c, a.name, WorkerOf(s, a.name), a.r);
    } else {
      forall key | Ours(c', key) ensures LiveOurs(c', key) {
        assert Ours(c, key);
      }
    }
  }

  lemma StepKeepsLive(c: Cluster, name: string, w: Worker, r: Reply)
    requires WorkerInv(c, name, w) && Bare(c) && AllLive(c)
    ensures AllLive(Work(c, name, w, r).0)
  {
    var c' := Work(c, name, w, r).0;
    forall key | Ours(c', key) && key in c.targets.objects ensures LiveOurs(c', key) {
      if !Ours(c, key) {
        StepLeavesForeign(c, name, w, r, key);
      }
    }
  }

  lemma {:induction false} BareObjectsGoAtOnce(s: System, actions: seq<Action>)
    requires Initial(s) && BareThroughout(s, actions)
    ensures AllLive(Run(s, actions).cluster)
    decreases |actions|
  {
    if actions == [] {
      assert forall key | Ours(s.cluster, key) :: false;
    } else {
      var before := actions[..|actions| - 1];
      BareObjectsGoAtOnce(s, before);
      RunKeeps(s, before);
      StepKeepsAllLive(Run(s, before), actions[|actions| - 1]);
    }
  }

  /** Hence a credential that was deleted and recreated under the same name never collides with
      what its predecessor left behind, provided translated objects have no finalizers. */
  lemma NoCollisionWithPredecessor(s: System, actions: seq<Action>, name: string)
    requires Initial(s) && BareThroughout(s, actions) && Collides(Run(s, actions), name)
    ensures SOURCE_ID !in CollidingTarget(Run(s, actions), name).annotations
  {
    CollisionCause(s, actions, name);
    BareObjectsGoAtOnce(s, actions);
    var s' := Run(s, actions);
    var key := Target(WorkerOf(s', name).kind, name);
    assert Ours(s'.cluster, key) ==> LiveOurs(s'.cluster, key);
  }

  // ---- undisturbed passes ----

  /** `n` served requests. */
  function Serve(c: Cluster, name: string, w: Worker, n: nat): (Cluster, Worker)
    decreases n
  {
    if n == 0 then (c, w)
    else
      var (c', w') := Work(c, name, w, Reply.Served);
      Serve(c', name, w', n - 1)
  }

  lemma {:induction false} ServeAppend(c: Cluster, name: string, w: Worker, m: nat, n: nat)
    ensures var (c1, w1) := Serve(c, name, w, m);
            Serve(c, name, w, m + n) == Serve(c1, name, w1, n)
    decreases m
  {
    if m > 0 {
      var (c', w') := Work(c, name, w, Reply.Served);
      ServeAppend(c', name, w', m - 1, n);
    }
  }

  /** The translated object of this kind is there, ours, and up to date. */
  predicate UpToDate(c: Cluster, cred: Credential, kind: Kind, name: string) {
    var key := Target(kind, name);
    key in c.targets.objects && OwnedBy(c.targets.objects[key], cred) &&
    c.targets.objects[key].body == PayloadOf(cred, kind, name)
  }

  predicate FreeOrOwned(c: Cluster, cred: Credential, kind: Kind, name: string) {
    var key := Target(kind, name);
    key in c.targets.objects ==> OwnedBy(c.targets.objects[key], cred) && !c.targets.objects[key].deleting
  }

  /** A translated object comes into being with nothing on it but the UID; one that was there keeps
      all but its body. */
  ghost predicate Carried(c: Cluster, c': Cluster, cred: Credential, key: Target) {
    && key in c'.targets.objects
    && var after := c'.targets.objects[key];
       if key in c.targets.objects then
         after.(version := 0, body := c.targets.objects[key].body) == c.targets.objects[key].(version := 0)
       else
         && !after.deleting && after.finalizers == {} && after.labels == map[]
         && after.annotations == map["cluster-api.cattle.io/source-id" := UidText(cred.uid)]
  }

  lemma EnsureTarget(c: Cluster, name: string, cred: Credential, kind: Kind) returns (n: nat, c': Cluster)
    requires FreeOrOwned(c, cred, kind, name)
    ensures Serve(c, name, GetTarget(cred, kind), n) == (c', AfterTarget(cred, kind, name))
    ensures c'.credentials == c.credentials && UpToDate(c', cred, kind, name)
    ensures Carried(c, c', cred, Target(kind, name))
    ensures c'.targets.objects - {Target(kind, name)} == c.targets.objects - {Target(kind, name)}
  {
    var key := Target(kind, name);
    var (c1, w1) := Work(c, name, GetTarget(cred, kind), Reply.Served);
    if key in c.targets.objects {
      var annotations := c.targets.objects[key].annotations;
      assert annotations[SOURCE_ID := annotations[SOURCE_ID]] == annotations;
    }
    if w1 == AfterTarget(cred, kind, name) {
      n, c' := 1, c;
      assert Serve(c, name, w1, 0) == (c, w1);
      assert key in c.targets.objects && Unchanged(c.targets.objects[key], cred, kind, name);
    } else {
      var (c2, w2) := Work(c, name, w1, Reply.Served);
      n, c' := 2, c2;
      assert Serve(c2, name, w2, 0) == (c2, w2);
      assert Serve(c, name, w1, 1) == (c2, w2);
      if w1.CreateTarget? {
        CreateTouches(c.targets, key, NewTarget(cred, kind, name));
      } else {
        UpdateTouches(c.targets, key, w1.target.version, w1.target);
      }
    }
  }

  /** An undisturbed translation of a held credential. */
  lemma TargetsComplete(c: Cluster, name: string, cred: Credential) returns (n: nat, c': Cluster)
    requires name in c.credentials.objects && c.credentials.objects[name] == cred
    requires !cred.deleting && cred.body.accessKey != "" && cred.body.secretKey != ""
    requires FreeOrOwned(c, cred, Secret, name) && FreeOrOwned(c, cred, Identity, name)
    ensures Serve(c, name, GetTarget(cred, Secret), n) == (c', Idle)
    ensures UpToDate(c', cred, Secret, name) && UpToDate(c', cred, Identity, name)
    ensures Carried(c, c', cred, Target(Secret, name)) && Carried(c, c', cred, Target(Identity, name))
    ensures name in c'.credentials.objects
    ensures var after := c'.credentials.objects[name];
            after.uid == cred.uid && after.finalizers == cred.finalizers && after.body == cred.body &&
            IDENTITY_REF in after.annotations && after.annotations[IDENTITY_REF] == name
  {
    var n1, c1 := EnsureTarget(c, name, cred, Secret);
    assert Target(Identity, name) in c1.targets.objects <==>
           Target(Identity, name) in c1.targets.objects - {Target(Secret, name)};
    assert Target(Identity, name) in c.targets.objects <==>
           Target(Identity, name) in c.targets.objects - {Target(Secret, name)};
    var n2, c2 := EnsureTarget(c1, name, cred, Identity);
    assert Target(Secret, name) in c1.targets.objects - {Target(Identity, name)};
    assert Target(Secret, name) in c2.targets.objects - {Target(Identity, name)};
    ServeAppend(c, name, GetTarget(cred, Secret), n1, n2);
    var w2 := AfterTarget(cred, Identity, name);
    if w2.Idle? {
      n, c' := n1 + n2, c2;
    } else {
      var (c3, w3) := Work(c2, name, w2, Reply.Served);
      ServeAppend(c, name, GetTarget(cred, Secret), n1 + n2, 1);
      assert Serve(c3, name, w3, 0) == (c3, w3);
      assert Serve(c2, name, w2, 1) == (c3, w3);
      n, c' := n1 + n2 + 1, c3;
    }
  }

  /** The credential as it is translated: with its finalizer. */
  function Guarded(c: Cluster, name: string): Cluster
    requires name in c.credentials.objects
  {
    c.(credentials := PatchFinalizers(c.credentials, name, c.credentials.objects[name].finalizers + {FINALIZER}).1)
  }

  /** An undisturbed pass up to the translation leaves the credential held. */
  lemma CredentialIsGuarded(c: Cluster, name: string) returns (n: nat)
    requires name in c.credentials.objects && c.providerReady.Ready?
    requires var cred := c.credentials.objects[name];
             && !cred.deleting && cred.body.accessKey != "" && cred.body.secretKey != ""
             && DRIVER in cred.annotations && cred.annotations[DRIVER] == "aws"
    ensures var c' := Guarded(c, name);
            && name in c'.credentials.objects
            && Serve(c, name, Fetch, n) == (c', GetTarget(c'.credentials.objects[name], Secret))
            && c'.credentials.objects[name].(version := 0) ==
               c.credentials.objects[name].(finalizers := c.credentials.objects[name].finalizers + {FINALIZER}, version := 0)
  {
    var cred := c.credentials.objects[name];
    assert Work(c, name, Fetch, Reply.Served) == (c, GetProvider(cred));
    if FINALIZER in cred.finalizers {
      assert cred.finalizers + {FINALIZER} == cred.finalizers;
      assert Guarded(c, name) == c;
      assert Work(c, name, GetProvider(cred), Reply.Served) == (c, GetTarget(cred, Secret));
      n := 2;
      assert Serve(c, name, GetTarget(cred, Secret), 0) == (c, GetTarget(cred, Secret));
      assert Serve(c, name, GetProvider(cred), 1) == (c, GetTarget(cred, Secret));
    } else {
      assert Work(c, name, GetProvider(cred), Reply.Served) == (c, AddFinalizer(cred));
      var (c1, w1) := Work(c, name, AddFinalizer(cred), Reply.Served);
      assert (c1, w1) == (Guarded(c, name), GetTarget(c1.credentials.objects[name], Secret));
      n := 3;
      assert Serve(c1, name, w1, 0) == (c1, w1);
      assert Serve(c, name, AddFinalizer(cred), 1) == (c1, w1);
      assert Serve(c, name, GetProvider(cred), 2) == (c1, w1);
    }
  }

  /** The translated objects as they should be, spelled out. */
  ghost predicate InFull(c: Cluster, name: string, cred: Credential) {
    && Target(Secret, name) in c.targets.objects && Target(Identity, name) in c.targets.objects
    && var secret, identity := c.targets.objects[Target(Secret, name)], c.targets.objects[Target(Identity, name)];
       && secret.body.KeyPair? && secret.body.keys.accessKey == cred.body.accessKey
       && secret.body.keys.secretKey == cred.body.secretKey
       && identity.body.Spec? && identity.body.secretRef == name && identity.body.allowed == ["fleet-default"]
       && "cluster-api.cattle.io/source-id" in secret.annotations
       && secret.annotations["cluster-api.cattle.io/source-id"] == UidText(cred.uid)
       && "cluster-api.cattle.io/source-id" in identity.annotations
       && identity.annotations["cluster-api.cattle.io/source-id"] == UidText(cred.uid)
  }

  /** An undisturbed pass over a complete credential takes hold of it, and leaves both translated
      objects up to date and the credential pointing at the identity. */
  lemma TranslationCompletes(c: Cluster, name: string) returns (n: nat, c': Cluster)
    requires name in c.credentials.objects && c.providerReady.Ready?
    requires var cred := c.credentials.objects[name];
             && !cred.deleting && cred.body.accessKey != "" && cred.body.secretKey != ""
             && "provisioning.cattle.io/driver" in cred.annotations && cred.annotations["provisioning.cattle.io/driver"] == "aws"
             && FreeOrOwned(c, cred, Secret, name) && FreeOrOwned(c, cred, Identity, name)
    ensures Serve(c, name, Fetch, n) == (c', Idle)
    ensures var cred := c.credentials.objects[name];
            && InFull(c', name, cred)
            && UpToDate(c', cred, Secret, name) && UpToDate(c', cred, Identity, name)
            && Carried(c, c', cred, Target(Secret, name)) && Carried(c, c', cred, Target(Identity, name))
            && name in c'.credentials.objects
            && var after := c'.credentials.objects[name];
               && after.uid == cred.uid && after.body == cred.body
               && after.finalizers == cred.finalizers + {"cloudcredential.cattle.io/aws-identity-finalizer"}
               && "cluster-api.cattle.io/capi-static-identity-ref" in after.annotations
               && after.annotations["cluster-api.cattle.io/capi-static-identity-ref"] == name
  {
    var m := CredentialIsGuarded(c, name);
    var c1 := Guarded(c, name);
    var cred := c1.credentials.objects[name];
    var n2;
    n2, c' := TargetsComplete(c1, name, cred);
    ServeAppend(c, name, Fetch, m, n2);
    n := m + n2;
  }

  /** A credential of another driver, and one whose provider is not ready, is left alone. */
  lemma OthersAreLeft(c: Cluster, name: string)
    requires name in c.credentials.objects
    requires var annotations := c.credentials.objects[name].annotations;
             || "provisioning.cattle.io/driver" !in annotations
             || annotations["provisioning.cattle.io/driver"] != "aws"
             || c.providerReady != Ready
    ensures Serve(c, name, Fetch, 2) == (c, Idle)
  {
    var (c1, w1) := Work(c, name, Fetch, Reply.Served);
    assert Work(c, name, w1, Reply.Served) == (c, Idle);
    assert Serve(c, name, Idle, 0) == (c, Idle);
    assert Serve(c, name, w1, 1) == (c, Idle);
  }

  /** A credential that lacks a key is taken hold of and not translated. */
  lemma IncompleteIsNotTranslated(c: Cluster, name: string)
    requires name in c.credentials.objects && c.providerReady.Ready?
    requires var cred := c.credentials.objects[name];
             && !cred.deleting && (cred.body.accessKey == "" || cred.body.secretKey == "")
             && "provisioning.cattle.io/driver" in cred.annotations && cred.annotations["provisioning.cattle.io/driver"] == "aws"
    ensures var (c', w) := Serve(c, name, Fetch, 3);
            && w.Idle? && c'.targets == c.targets && name in c'.credentials.objects
            && c'.credentials.objects[name].(version := 0) ==
               c.credentials.objects[name].(version := 0,
                 finalizers := c.credentials.objects[name].finalizers + {"cloudcredential.cattle.io/aws-identity-finalizer"})
  {
    var cred := c.credentials.objects[name];
    assert Work(c, name, Fetch, Reply.Served) == (c, GetProvider(cred));
    var (c1, w1) := Work(c, name, GetProvider(cred), Reply.Served);
    var (c2, w2) := Work(c1, name, w1, Reply.Served);
    assert Serve(c2, name, w2, 0) == (c2, w2);
    assert Serve(c1, name, w1, 1) == (c2, w2);
    assert Serve(c, name, GetProvider(cred), 2) == (c2, w2);
    assert FINALIZER in cred.finalizers ==> cred.finalizers + {FINALIZER} == cred.finalizers;
  }

  lemma DeleteServed(c: Cluster, name: string, cred: Credential, kind: Kind)
    requires name in c.credentials.objects && c.credentials.objects[name] == cred
    requires Sourced(c, Target(kind, name))
    ensures var (c', w) := Work(c, name, DeleteTarget(cred, kind), Reply.Served);
            && w == AfterDelete(cred, kind) && c' == c.(targets := c'.targets)
            && !LiveOurs(c', Target(kind, name))
            && (forall other | other != kind ::
                  && (LiveOurs(c', Target(other, name)) <==> LiveOurs(c, Target(other, name)))
                  && (Sourced(c, Target(other, name)) ==> Sourced(c', Target(other, name))))
  {
    var key := Target(kind, name);
    var c' := Work(c, name, DeleteTarget(cred, kind), Reply.Served).0;
    DeleteTouches(c.targets, key);
    forall other | other != kind
      ensures Target(other, name) in c'.targets.objects <==> Target(other, name) in c.targets.objects
      ensures Target(other, name) in c.targets.objects ==>
                c'.targets.objects[Target(other, name)] == c.targets.objects[Target(other, name)]
    {
      assert Target(other, name) in c'.targets.objects <==> Target(other, name) in c'.targets.objects - {key};
      assert Target(other, name) in c.targets.objects <==> Target(other, name) in c.targets.objects - {key};
    }
  }

  /** An undisturbed pass over a deleted credential removes what was translated from it and then
      its own finalizer. */
  lemma CleanupCompletes(c: Cluster, name: string)
    requires name in c.credentials.objects && c.providerReady.Ready?
    requires var cred := c.credentials.objects[name];
             && cred.deleting && FINALIZER in cred.finalizers
             && DRIVER in cred.annotations && cred.annotations[DRIVER] == "aws"
    requires Sourced(c, Target(Secret, name)) && Sourced(c, Target(Identity, name))
    ensures var (c', w) := Serve(c, name, Fetch, 5);
            && w.Idle? && !LiveOurs(c', Target(Secret, name)) && !LiveOurs(c', Target(Identity, name))
            && (name in c'.credentials.objects ==> FINALIZER !in c'.credentials.objects[name].finalizers)
            && (c.credentials.objects[name].finalizers == {FINALIZER} ==> name !in c'.credentials.objects)
  {
    var cred := c.credentials.objects[name];
    assert Work(c, name, Fetch, Reply.Served) == (c, GetProvider(cred));
    assert Work(c, name, GetProvider(cred), Reply.Served) == (c, DeleteTarget(cred, Identity));
    DeleteServed(c, name, cred, Identity);
    var (c1, w1) := Work(c, name, DeleteTarget(cred, Identity), Reply.Served);
    DeleteServed(c1, name, cred, Secret);
    var (c2, w2) := Work(c1, name, w1, Reply.Served);
    FinalizerGoes(c2, name, cred);
    assert Serve(c1, name, w1, 2) == Serve(c2, name, w2, 1);
    assert Serve(c, name, DeleteTarget(cred, Identity), 3) == Serve(c1, name, w1, 2);
    assert Serve(c, name, GetProvider(cred), 4) == Serve(c, name, DeleteTarget(cred, Identity), 3);
  }

  lemma FinalizerGoes(c: Cluster, name: string, cred: Credential)
    requires name in c.credentials.objects && c.credentials.objects[name] == cred
    requires cred.deleting && FINALIZER in cred.finalizers
    ensures var (c', w) := Serve(c, name, RemoveFinalizer(cred), 1);
            && w.Idle? && c'.targets == c.targets
            && (name in c'.credentials.objects ==> FINALIZER !in c'.credentials.objects[name].finalizers)
            && (cred.finalizers == {FINALIZER} ==> name !in c'.credentials.objects)
  {
    var (c', w) := Work(c, name, RemoveFinalizer(cred), Reply.Served);
    assert Serve(c', name, w, 0) == (c', w);
  }
}

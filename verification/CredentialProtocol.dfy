/** Credential translation: a Rancher cloud credential is turned into a Secret and an identity
    of the same name, both annotated with the credential's UID, and a finalizer on the
    credential outlives them. One worker per credential; anybody may act between requests. */
module CredentialProtocol {
  import opened ApiServer

  const FINALIZER := "cloudcredential.cattle.io/aws-identity-finalizer"
  const DRIVER := "provisioning.cattle.io/driver"
  const SOURCE_ID := "cluster-api.cattle.io/source-id"
  const IDENTITY_REF := "cluster-api.cattle.io/capi-static-identity-ref"
  const ALLOWED_NAMESPACES := ["fleet-default"]

  /** The keys of a credential; a missing key reads as empty. */
  datatype Keys = Keys(accessKey: string, secretKey: string)

  /** The translated objects of a credential. */
  datatype Kind = Secret | Identity
  datatype Target = Target(kind: Kind, name: string)
  datatype Payload = KeyPair(keys: Keys) | Spec(secretRef: string, allowed: seq<string>)

  type Credential = Object<Keys>
  type Translated = Object<Payload>

  datatype Cluster = Cluster(
    credentials: Store<string, Keys>,
    targets: Store<Target, Payload>,
    providerReady: Phase)

  datatype Phase = Absent | NotReady | Ready

  /** UIDs are opaque strings of which only equality matters. */
  function UidText(uid: nat): (text: string)
    ensures |text| == uid
  {
    seq(uid, _ => '0')
  }

  datatype Worker =
    | Idle
    | Fetch
    | GetProvider(cred: Credential)
    | AddFinalizer(cred: Credential)
    | GetTarget(cred: Credential, kind: Kind)
    | CreateTarget(cred: Credential, kind: Kind)
    | UpdateTarget(cred: Credential, kind: Kind, target: Translated)
    | AnnotateRef(cred: Credential)
    | DeleteTarget(cred: Credential, kind: Kind)
    | RemoveFinalizer(cred: Credential)

  datatype Reply = Served | Refused | Lost

  // ---- what the reconciler does to the objects it holds ----

  /** `isObjectOwnedBySecret` */
  predicate OwnedBy(target: Translated, cred: Credential) {
    SOURCE_ID in target.annotations && target.annotations[SOURCE_ID] == UidText(cred.uid)
  }

  function PayloadOf(cred: Credential, kind: Kind, name: string): Payload {
    match kind
    case Secret => KeyPair(cred.body)
    case Identity => Spec(name, ALLOWED_NAMESPACES)
  }

  /** The mutate callback of CreateOrUpdate. */
  function Mutated(target: Translated, cred: Credential, kind: Kind, name: string): Translated {
    target.(annotations := target.annotations[SOURCE_ID := UidText(cred.uid)],
            body := PayloadOf(cred, kind, name))
  }

  /** Whether CreateOrUpdate sees no difference. For an identity it always sees one: the list of
      namespaces it has just set is of another type than the one it has read. */
  predicate Unchanged(target: Translated, cred: Credential, kind: Kind, name: string) {
    kind.Secret? && Mutated(target, cred, kind, name) == target
  }

  function NewTarget(cred: Credential, kind: Kind, name: string): Translated {
    Mutated(Object(0, 0, false, {}, map[], map[], PayloadOf(cred, kind, name)), cred, kind, name)
  }

  /** A merge patch without a lock: it is applied to whatever object has the name now. */
  function PatchFinalizers(s: Store<string, Keys>, name: string, finalizers: set<string>): (Outcome, Store<string, Keys>) {
    if name !in s.objects then (NotFound, s)
    else Update(s, name, s.objects[name].version, s.objects[name].(finalizers := finalizers))
  }

  function PatchRef(s: Store<string, Keys>, name: string): (Outcome, Store<string, Keys>) {
    if name !in s.objects then (NotFound, s)
    else
      var cur := s.objects[name];
      Update(s, name, cur.version, cur.(annotations := cur.annotations[IDENTITY_REF := name]))
  }

  // ---- one request of the worker for `name` ----

  function OnProvider(phase: Phase, cred: Credential): Worker {
    if !phase.Ready? then Idle
    else if cred.deleting then (if FINALIZER in cred.finalizers then DeleteTarget(cred, Identity) else Idle)
    else if FINALIZER !in cred.finalizers then AddFinalizer(cred)
    else Translating(cred)
  }

  function Translating(cred: Credential): Worker {
    if cred.body.accessKey == "" || cred.body.secretKey == "" then Idle else GetTarget(cred, Secret)
  }

  function AfterTarget(cred: Credential, kind: Kind, name: string): Worker {
    match kind
    case Secret => GetTarget(cred, Identity)
    case Identity =>
      if IDENTITY_REF in cred.annotations && cred.annotations[IDENTITY_REF] == name then Idle
      else AnnotateRef(cred)
  }

  function AfterDelete(cred: Credential, kind: Kind): Worker {
    match kind
    case Identity => DeleteTarget(cred, Secret)
    case Secret => RemoveFinalizer(cred)
  }

  /** Get in CreateOrUpdate; an object that is not ours is a collision and ends the pass. */
  function OnTarget(c: Cluster, cred: Credential, kind: Kind, name: string): Worker {
    var key := Target(kind, name);
    if key !in c.targets.objects then CreateTarget(cred, kind)
    else
      var target := c.targets.objects[key];
      if !OwnedBy(target, cred) then Idle
      else if Unchanged(target, cred, kind, name) then AfterTarget(cred, kind, name)
      else UpdateTarget(cred, kind, Mutated(target, cred, kind, name))
  }

  function Work(c: Cluster, name: string, w: Worker, r: Reply): (Cluster, Worker) {
    match w
    case Idle => (c, Idle)
    case Fetch =>
      if !r.Served? || name !in c.credentials.objects then (c, Idle)
      else
        var cred := c.credentials.objects[name];
        (c, if DRIVER in cred.annotations && cred.annotations[DRIVER] == "aws" then GetProvider(cred) else Idle)
    case GetProvider(cred) =>
      if !r.Served? then (c, Idle) else (c, OnProvider(c.providerReady, cred))
    case AddFinalizer(cred) =>
      if r.Refused? then (c, Idle)
      else
        var (outcome, credentials) := PatchFinalizers(c.credentials, name, cred.finalizers + {FINALIZER});
        (c.(credentials := credentials),
         if r.Served? && outcome.Ok? && name in credentials.objects then Translating(credentials.objects[name]) else Idle)
    case GetTarget(cred, kind) =>
      if !r.Served? then (c, Idle) else (c, OnTarget(c, cred, kind, name))
    case CreateTarget(cred, kind) =>
      if r.Refused? then (c, Idle)
      else
        var (outcome, targets) := Create(c.targets, Target(kind, name), NewTarget(cred, kind, name));
        (c.(targets := targets), if r.Served? && outcome.Ok? then AfterTarget(cred, kind, name) else Idle)
    case UpdateTarget(cred, kind, target) =>
      if r.Refused? then (c, Idle)
      else
        var (outcome, targets) := Update(c.targets, Target(kind, name), target.version, target);
        (c.(targets := targets), if r.Served? && outcome.Ok? then AfterTarget(cred, kind, name) else Idle)
    case AnnotateRef(cred) =>
      if r.Refused? then (c, Idle)
      else (c.(credentials := PatchRef(c.credentials, name).1), Idle)
    case DeleteTarget(cred, kind) =>
      var key := Target(kind, name);
      if r.Refused? then (c, Idle)
      else if key !in c.targets.objects || !OwnedBy(c.targets.objects[key], cred) then
        (c, if r.Served? then AfterDelete(cred, kind) else Idle)
      else
        (c.(targets := Delete(c.targets, key).1), if r.Served? then AfterDelete(cred, kind) else Idle)
    case RemoveFinalizer(cred) =>
      if r.Refused? then (c, Idle)
      else (c.(credentials := PatchFinalizers(c.credentials, name, cred.finalizers - {FINALIZER}).1), Idle)
  }

  // ---- the whole system ----

  datatype System = System(cluster: Cluster, workers: map<string, Worker>)

  function WorkerOf(s: System, name: string): Worker {
    if name in s.workers then s.workers[name] else Idle
  }

  /** Users may do anything but touch the finalizer and the UID annotation. */
  datatype Action =
    | Start(name: string)
    | Step(name: string, r: Reply)
    | Crash(name: string)
    | UserCreateCredential(name: string, finalizers: set<string>, annotations: map<string, string>, keys: Keys)
    | UserEditCredential(name: string, finalizers: set<string>, annotations: map<string, string>, keys: Keys)
    | UserDeleteCredential(name: string)
    | UserCreateTarget(key: Target, finalizers: set<string>, annotations: map<string, string>, payload: Payload)
    | UserEditTarget(key: Target, finalizers: set<string>, annotations: map<string, string>, payload: Payload)
    | UserDeleteTarget(key: Target)
    | ProviderBecomes(phase: Phase)

  function KeepingFinalizer(current: set<string>, edited: set<string>): set<string> {
    (edited - {FINALIZER}) + (current * {FINALIZER})
  }

  function KeepingSource(current: map<string, string>, edited: map<string, string>): map<string, string> {
    if SOURCE_ID in current then edited[SOURCE_ID := current[SOURCE_ID]] else edited - {SOURCE_ID}
  }

  function Environment(c: Cluster, a: Action): Cluster {
    match a
    case UserCreateCredential(name, finalizers, annotations, keys) =>
      c.(credentials := Create(c.credentials, name,
           Object(0, 0, false, finalizers - {FINALIZER}, map[], annotations, keys)).1)
    case UserEditCredential(name, finalizers, annotations, keys) =>
      if name !in c.credentials.objects then c
      else
        var cur := c.credentials.objects[name];
        c.(credentials := Update(c.credentials, name, cur.version,
             cur.(finalizers := KeepingFinalizer(cur.finalizers, finalizers), annotations := annotations, body := keys)).1)
    case UserDeleteCredential(name) => c.(credentials := Delete(c.credentials, name).1)
    case UserCreateTarget(key, finalizers, annotations, payload) =>
      c.(targets := Create(c.targets, key,
           Object(0, 0, false, finalizers, map[], annotations - {SOURCE_ID}, payload)).1)
    case UserEditTarget(key, finalizers, annotations, payload) =>
      if key !in c.targets.objects then c
      else
        var cur := c.targets.objects[key];
        c.(targets := Update(c.targets, key, cur.version,
             cur.(finalizers := finalizers, annotations := KeepingSource(cur.annotations, annotations), body := payload)).1)
    case UserDeleteTarget(key) => c.(targets := Delete(c.targets, key).1)
    case ProviderBecomes(phase) => c.(providerReady := phase)
    case _ => c
  }

  function Apply(s: System, a: Action): System {
    match a
    case Start(name) => if WorkerOf(s, name).Idle? then s.(workers := s.workers[name := Fetch]) else s
    case Step(name, r) =>
      var (c, w) := Work(s.cluster, name, WorkerOf(s, name), r);
      System(c, s.workers[name := w])
    case Crash(name) => s.(workers := s.workers[name := Idle])
    case _ => s.(cluster := Environment(s.cluster, a))
  }

  function Run(s: System, actions: seq<Action>): System
    decreases |actions|
  {
    if actions == [] then s
    else Apply(Run(s, actions[..|actions| - 1]), actions[|actions| - 1])
  }

  lemma RunSnoc(s: System, actions: seq<Action>, a: Action)
    ensures Run(s, actions + [a]) == Apply(Run(s, actions), a)
  {
    assert (actions + [a])[..|actions|] == actions;
  }

  /** No worker is at work and nothing has been translated yet. */
  ghost predicate Initial(s: System) {
    && Valid(s.cluster.credentials) && Valid(s.cluster.targets)
    && (forall k | k in s.workers :: s.workers[k].Idle?)
    && (forall key | key in s.cluster.targets.objects :: SOURCE_ID !in s.cluster.targets.objects[key].annotations)
  }

  // ---- what the protocol keeps ----

  /** The credential with this UID exists and cannot go away before the finalizer does. */
  predicate Held(c: Cluster, name: string, uid: nat) {
    && name in c.credentials.objects
    && c.credentials.objects[name].uid == uid
    && FINALIZER in c.credentials.objects[name].finalizers
  }

  predicate Ours(c: Cluster, key: Target) {
    key in c.targets.objects && SOURCE_ID in c.targets.objects[key].annotations
  }

  predicate LiveOurs(c: Cluster, key: Target) {
    Ours(c, key) && !c.targets.objects[key].deleting
  }

  /** A live translated object has its source credential, held, and carries that one's UID. */
  ghost predicate Sourced(c: Cluster, key: Target) {
    LiveOurs(c, key) ==>
      && key.name in c.credentials.objects
      && Held(c, key.name, c.credentials.objects[key.name].uid)
      && OwnedBy(c.targets.objects[key], c.credentials.objects[key.name])
  }

  /** The copy in memory: at the version it was read, the object was one of ours. */
  ghost predicate SeenOurs(c: Cluster, key: Target, target: Translated) {
    target.version <= c.targets.clock &&
    (key in c.targets.objects && c.targets.objects[key].version == target.version ==> Ours(c, key))
  }

  ghost predicate WorkerInv(c: Cluster, name: string, w: Worker) {
    match w
    case Idle => true
    case Fetch => true
    case GetProvider(cred) => FINALIZER in cred.finalizers ==> Held(c, name, cred.uid)
    case AddFinalizer(cred) => true
    case GetTarget(cred, _) => Held(c, name, cred.uid)
    case CreateTarget(cred, _) => Held(c, name, cred.uid)
    case UpdateTarget(cred, kind, target) =>
      Held(c, name, cred.uid) && OwnedBy(target, cred) && SeenOurs(c, Target(kind, name), target)
    case AnnotateRef(cred) => true
    case DeleteTarget(cred, kind) =>
      Held(c, name, cred.uid) && (kind.Secret? ==> !LiveOurs(c, Target(Identity, name)))
    case RemoveFinalizer(cred) =>
      !LiveOurs(c, Target(Identity, name)) && !LiveOurs(c, Target(Secret, name))
  }

  ghost predicate NameInv(c: Cluster, name: string, w: Worker) {
    (forall kind :: Sourced(c, Target(kind, name))) && WorkerInv(c, name, w)
  }

  ghost predicate Inv(s: System) {
    && Valid(s.cluster.credentials) && Valid(s.cluster.targets)
    && forall name :: NameInv(s.cluster, name, WorkerOf(s, name))
  }

  // ---- what the worker may rely on while others act ----

  predicate StaysOurs(c: Cluster, c': Cluster, key: Target)
    requires LiveOurs(c', key)
  {
    LiveOurs(c, key) &&
    c'.targets.objects[key].annotations[SOURCE_ID] == c.targets.objects[key].annotations[SOURCE_ID]
  }

  ghost predicate TargetRely(c: Cluster, c': Cluster, key: Target) {
    && (LiveOurs(c', key) ==> StaysOurs(c, c', key))
    && c.targets.clock <= c'.targets.clock
    && (key in c'.targets.objects ==>
          || (key in c.targets.objects && c'.targets.objects[key] == c.targets.objects[key])
          || c.targets.clock < c'.targets.objects[key].version)
  }

  ghost predicate Rely(name: string, c: Cluster, c': Cluster) {
    && (forall uid :: Held(c, name, uid) ==> Held(c', name, uid))
    && (forall kind :: TargetRely(c, c', Target(kind, name)))
  }

  lemma RelyKeeps(name: string, c: Cluster, c': Cluster, w: Worker)
    requires NameInv(c, name, w) && Rely(name, c, c')
    ensures NameInv(c', name, w)
  {
    forall kind ensures Sourced(c', Target(kind, name)) {
      assert Sourced(c, Target(kind, name)) && TargetRely(c, c', Target(kind, name));
    }
    if w.UpdateTarget? {
      assert TargetRely(c, c', Target(w.kind, name));
    }
    assert TargetRely(c, c', Target(Secret, name)) && TargetRely(c, c', Target(Identity, name));
  }

  lemma CredentialRely(name: string, c: Cluster, c': Cluster, name': string)
    requires c' == c.(credentials := c'.credentials)
    requires OnlyTouches(c.credentials, c'.credentials, name')
    requires name == name' ==> forall uid :: Held(c, name, uid) ==> Held(c', name, uid)
    ensures Rely(name, c, c')
  {
    if name != name' {
      assert name in c.credentials.objects <==> name in c.credentials.objects - {name'};
    }
  }

  lemma TargetsRely(name: string, c: Cluster, c': Cluster, key: Target)
    requires c' == c.(targets := c'.targets)
    requires OnlyTouches(c.targets, c'.targets, key)
    requires key.name == name && LiveOurs(c', key) ==> StaysOurs(c, c', key)
    ensures Rely(name, c, c')
  {
    forall kind | Target(kind, name) != key ensures TargetRely(c, c', Target(kind, name)) {
      assert Target(kind, name) in c'.targets.objects <==> Target(kind, name) in c'.targets.objects - {key};
    }
    assert TargetRely(c, c', Target(key.kind, name));
  }

  lemma EnvironmentRely(name: string, c: Cluster, a: Action)
    ensures Rely(name, c, Environment(c, a))
    ensures Valid(c.credentials) ==> Valid(Environment(c, a).credentials)
    ensures Valid(c.targets) ==> Valid(Environment(c, a).targets)
  {
    match a
    case UserCreateCredential(name', finalizers, annotations, keys) =>
      CreateTouches(c.credentials, name', Object(0, 0, false, finalizers - {FINALIZER}, map[], annotations, keys));
      CredentialRely(name, c, Environment(c, a), name');
    case UserEditCredential(name', finalizers, annotations, keys) =>
      if name' in c.credentials.objects {
        var cur := c.credentials.objects[name'];
        UpdateTouches(c.credentials, name', cur.version,
          cur.(finalizers := KeepingFinalizer(cur.finalizers, finalizers), annotations := annotations, body := keys));
        CredentialRely(name, c, Environment(c, a), name');
      }
    case UserDeleteCredential(name') =>
      DeleteTouches(c.credentials, name');
      CredentialRely(name, c, Environment(c, a), name');
    case UserCreateTarget(key, finalizers, annotations, payload) =>
      CreateTouches(c.targets, key, Object(0, 0, false, finalizers, map[], annotations - {SOURCE_ID}, payload));
      TargetsRely(name, c, Environment(c, a), key);
    case UserEditTarget(key, finalizers, annotations, payload) =>
      if key in c.targets.objects {
        var cur := c.targets.objects[key];
        UpdateTouches(c.targets, key, cur.version,
          cur.(finalizers := finalizers, annotations := KeepingSource(cur.annotations, annotations), body := payload));
        TargetsRely(name, c, Environment(c, a), key);
      }
    case UserDeleteTarget(key) =>
      DeleteTouches(c.targets, key);
      TargetsRely(name, c, Environment(c, a), key);
    case _ =>
  }

  lemma PatchTouches(s: Store<string, Keys>, name: string, finalizers: set<string>)
    ensures OnlyTouches(s, PatchFinalizers(s, name, finalizers).1, name)
    ensures OnlyTouches(s, PatchRef(s, name).1, name)
    ensures Valid(s) ==> Valid(PatchFinalizers(s, name, finalizers).1) && Valid(PatchRef(s, name).1)
  {
    if name in s.objects {
      var cur := s.objects[name];
      UpdateTouches(s, name, cur.version, cur.(finalizers := finalizers));
      UpdateTouches(s, name, cur.version, cur.(annotations := cur.annotations[IDENTITY_REF := name]));
    }
  }

  lemma OtherStepRely(name: string, c: Cluster, name': string, w: Worker, r: Reply)
    requires name != name'
    ensures Rely(name, c, Work(c, name', w, r).0)
  {
    var c' := Work(c, name', w, r).0;
    match w
    case AddFinalizer(cred) =>
      PatchTouches(c.credentials, name', cred.finalizers + {FINALIZER});
      CredentialRely(name, c, c', name');
    case AnnotateRef(cred) =>
      PatchTouches(c.credentials, name', {});
      CredentialRely(name, c, c', name');
    case RemoveFinalizer(cred) =>
      PatchTouches(c.credentials, name', cred.finalizers - {FINALIZER});
      CredentialRely(name, c, c', name');
    case CreateTarget(cred, kind) =>
      CreateTouches(c.targets, Target(kind, name'), NewTarget(cred, kind, name'));
      TargetsRely(name, c, c', Target(kind, name'));
    case UpdateTarget(cred, kind, target) =>
      UpdateTouches(c.targets, Target(kind, name'), target.version, target);
      TargetsRely(name, c, c', Target(kind, name'));
    case DeleteTarget(cred, kind) =>
      DeleteTouches(c.targets, Target(kind, name'));
      TargetsRely(name, c, c', Target(kind, name'));
    case _ =>
  }

  // ---- the worker's own steps ----

  ghost predicate StepKeeps(c: Cluster, name: string, w: Worker, r: Reply) {
    var (c', w') := Work(c, name, w, r);
    NameInv(c', name, w') && Valid(c'.credentials) && Valid(c'.targets)
  }

  lemma AddFinalizerKeeps(c: Cluster, name: string, w: Worker, r: Reply)
    requires Valid(c.credentials) && Valid(c.targets) && NameInv(c, name, w) && w.AddFinalizer?
    ensures StepKeeps(c, name, w, r)
  {
    PatchTouches(c.credentials, name, w.cred.finalizers + {FINALIZER});
    forall kind ensures Sourced(Work(c, name, w, r).0, Target(kind, name)) {
      assert kind == Secret || kind == Identity;
      assert Sourced(c, Target(kind, name));
    }
  }

  lemma RemoveFinalizerKeeps(c: Cluster, name: string, w: Worker, r: Reply)
    requires Valid(c.credentials) && Valid(c.targets) && NameInv(c, name, w) && w.RemoveFinalizer?
    ensures StepKeeps(c, name, w, r)
  {
    PatchTouches(c.credentials, name, w.cred.finalizers - {FINALIZER});
    forall kind ensures Sourced(Work(c, name, w, r).0, Target(kind, name)) {
      assert kind == Secret || kind == Identity;
      assert Sourced(c, Target(kind, name));
    }
  }

  lemma AnnotateRefKeeps(c: Cluster, name: string, w: Worker, r: Reply)
    requires Valid(c.credentials) && Valid(c.targets) && NameInv(c, name, w) && w.AnnotateRef?
    ensures StepKeeps(c, name, w, r)
  {
    PatchTouches(c.credentials, name, {});
    forall kind ensures Sourced(Work(c, name, w, r).0, Target(kind, name)) {
      assert kind == Secret || kind == Identity;
      assert Sourced(c, Target(kind, name));
    }
  }

  /** A request that touches one target leaves the other of the same name alone. */
  lemma OtherTargetStays(c: Cluster, c': Cluster, name: string, kind: Kind, other: Kind)
    requires OnlyTouches(c.targets, c'.targets, Target(kind, name)) && other != kind
    ensures var key := Target(other, name);
            && (key in c'.targets.objects <==> key in c.targets.objects)
            && (key in c.targets.objects ==> c'.targets.objects[key] == c.targets.objects[key])
  {
    var key := Target(other, name);
    assert key in c'.targets.objects <==> key in c'.targets.objects - {Target(kind, name)};
    assert key in c.targets.objects <==> key in c.targets.objects - {Target(kind, name)};
  }

  lemma CreateTargetKeeps(c: Cluster, name: string, w: Worker, r: Reply)
    requires Valid(c.credentials) && Valid(c.targets) && NameInv(c, name, w) && w.CreateTarget?
    ensures StepKeeps(c, name, w, r)
  {
    CreateTouches(c.targets, Target(w.kind, name), NewTarget(w.cred, w.kind, name));
    OtherTargetStays(c, Work(c, name, w, r).0, name, w.kind, if w.kind == Secret then Identity else Secret);
  }

  lemma UpdateTargetKeeps(c: Cluster, name: string, w: Worker, r: Reply)
    requires Valid(c.credentials) && Valid(c.targets) && NameInv(c, name, w) && w.UpdateTarget?
    ensures StepKeeps(c, name, w, r)
  {
    UpdateTouches(c.targets, Target(w.kind, name), w.target.version, w.target);
    OtherTargetStays(c, Work(c, name, w, r).0, name, w.kind, if w.kind == Secret then Identity else Secret);
  }

  lemma DeleteTargetKeeps(c: Cluster, name: string, w: Worker, r: Reply)
    requires Valid(c.credentials) && Valid(c.targets) && NameInv(c, name, w) && w.DeleteTarget?
    ensures StepKeeps(c, name, w, r)
  {
    DeleteTouches(c.targets, Target(w.kind, name));
    OtherTargetStays(c, Work(c, name, w, r).0, name, w.kind, if w.kind == Secret then Identity else Secret);
  }

  lemma OwnStepKeeps(c: Cluster, name: string, w: Worker, r: Reply)
    requires Valid(c.credentials) && Valid(c.targets) && NameInv(c, name, w)
    ensures StepKeeps(c, name, w, r)
  {
    match w
    case AddFinalizer(_) => AddFinalizerKeeps(c, name, w, r);
    case RemoveFinalizer(_) => RemoveFinalizerKeeps(c, name, w, r);
    case AnnotateRef(_) => AnnotateRefKeeps(c, name, w, r);
    case CreateTarget(_, _) => CreateTargetKeeps(c, name, w, r);
    case UpdateTarget(_, _, _) => UpdateTargetKeeps(c, name, w, r);
    case DeleteTarget(_, _) => DeleteTargetKeeps(c, name, w, r);
    case _ =>
  }

  // ---- every reachable state ----

  lemma ApplyKeeps(s: System, a: Action)
    requires Inv(s)
    ensures Inv(Apply(s, a))
  {
    var s' := Apply(s, a);
    forall name ensures NameInv(s'.cluster, name, WorkerOf(s', name)) {
      assert NameInv(s.cluster, name, WorkerOf(s, name));
      if a.Step? && a.name == name {
        OwnStepKeeps(s.cluster, name, WorkerOf(s, name), a.r);
      } else if a.Step? {
        OtherStepRely(name, s.cluster, a.name, WorkerOf(s, a.name), a.r);
        RelyKeeps(name, s.cluster, s'.cluster, WorkerOf(s, name));
      } else if !a.Start? && !a.Crash? {
        EnvironmentRely(name, s.cluster, a);
        RelyKeeps(name, s.cluster, s'.cluster, WorkerOf(s, name));
      }
    }
    if a.Step? {
      assert NameInv(s.cluster, a.name, WorkerOf(s, a.name));
      OwnStepKeeps(s.cluster, a.name, WorkerOf(s, a.name), a.r);
    } else {
      EnvironmentRely("", s.cluster, a);
    }
  }

  lemma {:induction false} RunKeeps(s: System, actions: seq<Action>)
    requires Initial(s)
    ensures Inv(Run(s, actions))
    decreases |actions|
  {
    if actions == [] {
      assert forall key | Ours(s.cluster, key) :: false;
    } else {
      RunKeeps(s, actions[..|actions| - 1]);
      ApplyKeeps(Run(s, actions[..|actions| - 1]), actions[|actions| - 1]);
    }
  }

  /** No orphaned credential: at any time, however the passes were cut short, a translated object
      that is not being deleted has its source, of the same name and UID and with the finalizer. */
  lemma NoOrphanedCredential(s: System, actions: seq<Action>, key: Target)
    requires Initial(s)
    ensures var c := Run(s, actions).cluster;
            key in c.targets.objects && !c.targets.objects[key].deleting && SOURCE_ID in c.targets.objects[key].annotations ==>
              && key.name in c.credentials.objects
              && FINALIZER in c.credentials.objects[key.name].finalizers
              && c.targets.objects[key].annotations[SOURCE_ID] == UidText(c.credentials.objects[key.name].uid)
  {
    RunKeeps(s, actions);
    var s' := Run(s, actions);
    assert NameInv(s'.cluster, key.name, WorkerOf(s', key.name));
    assert Sourced(s'.cluster, Target(key.kind, key.name));
  }
}

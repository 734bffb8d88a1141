/** The import protocol: one worker per CAPI cluster issues API requests one at a time, and
    users, the cleanup reconciler, other workers and crashes may act between any two of them. */
module ImportProtocol {
  import opened ApiServer
  import opened OwnerLabels
  import opened ImportDecision
  import opened Wrappers

  const TURTLES := "capicluster.turtles.cattle.io"
  const FLEET := "fleet.addons.cluster.x-k8s.io"
  const RETRIES := 5
  const NO_CREATOR_RBAC := "field.cattle.io/no-creator-rbac"
  const EXTERNAL_FLEET := "provisioning.cattle.io/externally-managed"
  const FLEET_MIGRATED := "cluster-api.cattle.io/fleet-namespace-migrated"
  const VERSION_MANAGEMENT := "rancher.io/imported-cluster-version-management"

  /** The body of a CAPI cluster says whether its control plane is available. */
  type Capi = Object<bool>
  type Record = Object<()>

  datatype Cluster = Cluster(
    capis: Store<Key, bool>,
    records: Store<string, ()>,
    namespaces: map<string, Labels>,
    useCAAPF: bool)

  /** Where a worker stands: the request it sends next, with the objects it holds in memory.
      `base` is the CAPI cluster the closing patch is computed against. */
  datatype Worker =
    | Idle
    | Fetch
    | FinalizerGet(attempts: nat)
    | FinalizerPut(attempts: nat, capi: Capi)
    | ListRecords(base: Capi)
    | Annotate(base: Capi, name: string, rec: Record)
    | Strip(base: Capi, capi: Capi, name: string, rec: Record)
    | DeleteAll(base: Capi)
    | Release(base: Capi)
    | CheckAuto(base: Capi, capi: Capi, rec: Record)
    | CheckNamespace(base: Capi, capi: Capi, rec: Record)
    | CreateRecord(base: Capi, capi: Capi, rec: Record)
    | PatchRecord(base: Capi, capi: Capi, name: string, rec: Record)
    | FinalPatch(base: Capi, capi: Capi)

  /** A request is served, refused with no effect, or takes effect while its answer is lost. */
  datatype Reply = Served | Refused | Lost

  /** What a worker does not control: the reply, which listed record comes first or what name is
      generated, whether the downstream work succeeds, and how much of a failed collection
      delete took effect. */
  datatype Choice = Choice(reply: Reply, name: string, downstream: bool, partial: set<string>)

  predicate Owned(c: Cluster, n: string, k: Key) {
    n in c.records.objects && Owns(k, c.records.objects[n].labels)
  }

  function OwnedNames(c: Cluster, k: Key): set<string> {
    set n | n in c.records.objects && Owned(c, n, k)
  }

  // ---- what the reconciler does to the objects it holds ----

  function WithFinalizer(capi: Capi): Capi {
    capi.(finalizers := capi.finalizers + {TURTLES})
  }

  function MarkedImported(capi: Capi): Capi {
    capi.(annotations := capi.annotations[IMPORTED := "true"], finalizers := capi.finalizers - {TURTLES})
  }

  function Released(capi: Capi): Capi {
    capi.(finalizers := capi.finalizers - {TURTLES})
  }

  /** `reconcileExternalFleetManagement` on the CAPI cluster. */
  function Unfleeted(c: Cluster, capi: Capi): Capi {
    if c.useCAAPF then capi else capi.(finalizers := capi.finalizers - {FLEET})
  }

  /** `optOutOfClusterOwner`, `propagateLabels`, `reconcileExternalFleetManagement` and
      `AddFinalizer` on the Rancher cluster. */
  function Amended(c: Cluster, rec: Record, capi: Capi): Record {
    var optedOut :=
      if NO_CREATOR_RBAC in rec.annotations then rec.annotations
      else rec.annotations[NO_CREATOR_RBAC := "true"];
    var annotations :=
      if !c.useCAAPF then optedOut - {EXTERNAL_FLEET}
      else if EXTERNAL_FLEET in optedOut then optedOut
      else optedOut[EXTERNAL_FLEET := "true"];
    rec.(annotations := annotations,
         labels := Propagated(rec.labels, capi.labels),
         finalizers := rec.finalizers + {TURTLES})
  }

  function NewRecord(k: Key): Record {
    Object(0, 0, false, {TURTLES}, OwnerLabelsOf(k),
           map[FLEET_MIGRATED := "cattle-fleet-system", VERSION_MANAGEMENT := "false"], ())
  }

  /** Every record in `names` is deleted: removed, or marked if it has finalizers. */
  function DeleteMany(s: Store<string, ()>, names: set<string>): Store<string, ()> {
    Store(map n | n in s.objects && !(n in names && s.objects[n].finalizers == {}) ::
            (if n in names && !s.objects[n].deleting
             then s.objects[n].(deleting := true, version := s.clock + 1)
             else s.objects[n]),
          s.clock + 1)
  }

  // ---- one request of the worker for `k` ----

  /** The checks between the finalizer and `reconcile`. */
  function AfterFinalizer(capi: Capi): Worker {
    if !capi.body || IMPORTED in capi.annotations then Idle else ListRecords(capi)
  }

  function OnFetched(capi: Capi): Worker {
    if !capi.deleting && IMPORTED !in capi.annotations && TURTLES !in capi.finalizers
    then FinalizerGet(RETRIES)
    else AfterFinalizer(capi)
  }

  /** What follows the list; `rec` is the first record found. */
  function OnListed(c: Cluster, k: Key, base: Capi, name: string, rec: Option<Record>, downstream: bool): Worker {
    if rec.Some? && rec.value.deleting then Annotate(base, name, rec.value)
    else if base.deleting then DeleteAll(base)
    else if rec == None then CheckAuto(base, Unfleeted(c, base), Amended(c, NewRecord(k), base))
    else if downstream then PatchRecord(base, Unfleeted(c, base), name, Amended(c, rec.value, base))
    else FinalPatch(base, Unfleeted(c, base))
  }

  /** The answer to a write is the stored object, or the written one when the write removed it. */
  function Answer(capis: Store<Key, bool>, k: Key, written: Capi): Capi {
    if k in capis.objects then capis.objects[k] else written
  }

  function Work(c: Cluster, k: Key, w: Worker, x: Choice): (Cluster, Worker) {
    match w
    case Idle => (c, Idle)
    case Fetch =>
      if !x.reply.Served? || k !in c.capis.objects then (c, Idle)
      else (c, OnFetched(c.capis.objects[k]))
    case FinalizerGet(attempts) =>
      if !x.reply.Served? || k !in c.capis.objects then (c, Idle)
      else (c, FinalizerPut(attempts, WithFinalizer(c.capis.objects[k])))
    case FinalizerPut(attempts, capi) =>
      if x.reply.Refused? then (c, Idle)
      else
        var (outcome, capis) := Update(c.capis, k, capi.version, capi);
        var c' := c.(capis := capis);
        if x.reply.Lost? then (c', Idle)
        else if outcome.Ok? then (c', AfterFinalizer(Answer(capis, k, capi)))
        else if outcome.Conflict? && attempts > 1 then (c', FinalizerGet(attempts - 1))
        else (c', Idle)
    case ListRecords(base) =>
      if !x.reply.Served? then (c, FinalPatch(base, base))
      else if OwnedNames(c, k) == {} then (c, OnListed(c, k, base, "", None, x.downstream))
      else if Owned(c, x.name, k) then
        (c, OnListed(c, k, base, x.name, Some(c.records.objects[x.name]), x.downstream))
      else (c, w)
    case Annotate(base, name, rec) =>
      var capi := MarkedImported(base);
      if x.reply.Refused? then (c, FinalPatch(base, capi))
      else
        var (outcome, capis) := Update(c.capis, k, base.version, capi);
        var c' := c.(capis := capis);
        if x.reply.Lost? || !outcome.Ok? then (c', FinalPatch(base, capi))
        else if TURTLES in rec.finalizers then (c', Strip(base, Answer(capis, k, capi), name, rec))
        else (c', FinalPatch(base, Answer(capis, k, capi)))
    case Strip(base, capi, name, rec) =>
      if x.reply.Refused? then (c, FinalPatch(base, capi))
      else
        var stripped := rec.(finalizers := rec.finalizers - {TURTLES});
        (c.(records := Update(c.records, name, rec.version, stripped).1), FinalPatch(base, capi))
    case DeleteAll(base) =>
      if x.reply.Served? then
        (c.(records := DeleteMany(c.records, OwnedNames(c, k))),
         if TURTLES in base.finalizers then Release(base) else FinalPatch(base, base))
      else (c.(records := DeleteMany(c.records, OwnedNames(c, k) * x.partial)), FinalPatch(base, base))
    case Release(base) =>
      var capi := Released(base);
      if x.reply.Refused? then (c, FinalPatch(base, capi))
      else
        var (outcome, capis) := Update(c.capis, k, base.version, capi);
        (c.(capis := capis),
         FinalPatch(base, if x.reply.Served? && outcome.Ok? then Answer(capis, k, capi) else capi))
    case CheckAuto(base, capi, rec) =>
      if !x.reply.Served? || k !in c.capis.objects then (c, FinalPatch(base, capi))
      else
        var current := c.capis.objects[k];
        (c, match ClusterVerdict(current.labels, current.annotations)
            case Import => CreateRecord(base, current, rec)
            case DoNotImport => FinalPatch(base, current)
            case AskNamespace => CheckNamespace(base, current, rec))
    case CheckNamespace(base, capi, rec) =>
      if x.reply.Served? && k.ns in c.namespaces && NamespaceVerdict(c.namespaces[k.ns])
      then (c, CreateRecord(base, capi, rec))
      else (c, FinalPatch(base, capi))
    case CreateRecord(base, capi, rec) =>
      if x.reply.Refused? then (c, FinalPatch(base, capi))
      else (c.(records := Create(c.records, x.name, rec).1), FinalPatch(base, capi))
    case PatchRecord(base, capi, name, rec) =>
      if x.reply.Refused? then (c, FinalPatch(base, capi))
      else (c.(records := Update(c.records, name, rec.version, rec).1), FinalPatch(base, capi))
    case FinalPatch(base, capi) =>
      if x.reply.Refused? then (c, Idle)
      else (c.(capis := Update(c.capis, k, base.version, capi).1), Idle)
  }

  // ---- the whole system ----

  datatype System = System(cluster: Cluster, workers: map<Key, Worker>)

  function WorkerOf(s: System, k: Key): Worker {
    if k in s.workers then s.workers[k] else Idle
  }

  /** Users may do anything but touch the turtles finalizer and the owner labels. The cleanup
      reconciler patches with the version it has read. */
  datatype Action =
    | Start(k: Key)
    | Step(k: Key, x: Choice)
    | Crash(k: Key)
    | UserCreateCapi(k: Key, finalizers: set<string>, labels: Labels, annotations: Labels, ready: bool)
    | UserEditCapi(k: Key, finalizers: set<string>, labels: Labels, annotations: Labels, ready: bool)
    | UserDeleteCapi(k: Key)
    | UserCreateRecord(name: string, finalizers: set<string>, labels: Labels, annotations: Labels)
    | UserEditRecord(name: string, finalizers: set<string>, labels: Labels, annotations: Labels)
    | UserDeleteRecord(name: string)
    | UserSetNamespaces(namespaces: map<string, Labels>)
    | Cleanup(name: string, version: nat)

  const OWNER_KEYS := {OWNER, OWNER_NAMESPACE, OWNED}

  function KeepingOwner(current: Labels, edited: Labels): Labels {
    (edited - OWNER_KEYS) + (current - (current.Keys - OWNER_KEYS))
  }

  function KeepingTurtles(current: set<string>, edited: set<string>): set<string> {
    (edited - {TURTLES}) + (current * {TURTLES})
  }

  /** What everybody but the workers does. */
  function Environment(c: Cluster, a: Action): Cluster {
    match a
    case UserCreateCapi(k, finalizers, labels, annotations, ready) =>
      c.(capis := Create(c.capis, k, Object(0, 0, false, finalizers - {TURTLES}, labels, annotations, ready)).1)
    case UserEditCapi(k, finalizers, labels, annotations, ready) =>
      if k !in c.capis.objects then c
      else
        var cur := c.capis.objects[k];
        var edited := cur.(finalizers := KeepingTurtles(cur.finalizers, finalizers),
                           labels := labels, annotations := annotations, body := ready);
        c.(capis := Update(c.capis, k, cur.version, edited).1)
    case UserDeleteCapi(k) => c.(capis := Delete(c.capis, k).1)
    case UserCreateRecord(name, finalizers, labels, annotations) =>
      c.(records := Create(c.records, name,
           Object(0, 0, false, finalizers - {TURTLES}, labels - OWNER_KEYS, annotations, ())).1)
    case UserEditRecord(name, finalizers, labels, annotations) =>
      if name !in c.records.objects then c
      else
        var cur := c.records.objects[name];
        var edited := cur.(finalizers := KeepingTurtles(cur.finalizers, finalizers),
                           labels := KeepingOwner(cur.labels, labels), annotations := annotations);
        c.(records := Update(c.records, name, cur.version, edited).1)
    case UserDeleteRecord(name) => c.(records := Delete(c.records, name).1)
    case UserSetNamespaces(namespaces) => c.(namespaces := namespaces)
    case Cleanup(name, version) =>
      if name !in c.records.objects then c
      else
        var cur := c.records.objects[name];
        if OWNED !in cur.labels || !cur.deleting || TURTLES !in cur.finalizers then c
        else c.(records := Update(c.records, name, version, cur.(finalizers := cur.finalizers - {TURTLES})).1)
    case _ => c
  }

  function Apply(s: System, a: Action): System {
    match a
    case Start(k) => if WorkerOf(s, k).Idle? then s.(workers := s.workers[k := Fetch]) else s
    case Step(k, x) =>
      var (c, w) := Work(s.cluster, k, WorkerOf(s, k), x);
      System(c, s.workers[k := w])
    case Crash(k) => s.(workers := s.workers[k := Idle])
    case _ => s.(cluster := Environment(s.cluster, a))
  }

  function Run(s: System, actions: seq<Action>): System
    decreases |actions|
  {
    if actions == [] then s
    else Apply(Run(s, actions[..|actions| - 1]), actions[|actions| - 1])
  }

  lemma RunSnoc(s: System, actions: seq<Action>, a: Action)
    ensures Run(s, actions + [a]) == Apply(Run(s, actions), a)
  {
    assert (actions + [a])[..|actions|] == actions;
  }

  lemma {:induction false} RunAppend(s: System, first: seq<Action>, second: seq<Action>)
    ensures Run(s, first + second) == Run(Run(s, first), second)
    decreases |second|
  {
    if second == [] {
      assert first + second == first;
    } else {
      var n := |second| - 1;
      RunAppend(s, first, second[..n]);
      assert (first + second)[..|first + second| - 1] == first + second[..n];
    }
  }

  /** Before the controller first runs no worker is at work and no record carries owner labels. */
  ghost predicate Initial(s: System) {
    && Valid(s.cluster.capis) && Valid(s.cluster.records)
    && (forall k | k in s.workers :: s.workers[k].Idle?)
    && (forall n | n in s.cluster.records.objects :: s.cluster.records.objects[n].labels.Keys !! OWNER_KEYS)
  }

  // ---- what the protocol keeps ----

  predicate Held(c: Cluster, k: Key) {
    k in c.capis.objects && TURTLES in c.capis.objects[k].finalizers
  }

  ghost predicate NoLive(c: Cluster, k: Key) {
    forall n | Owned(c, n, k) :: c.records.objects[n].deleting
  }

  ghost predicate AtMostOne(c: Cluster, k: Key) {
    forall n, n' | Owned(c, n, k) && Owned(c, n', k) :: n == n'
  }

  /** A record that is not being deleted has its CAPI cluster, and that one is held. */
  ghost predicate NoOrphan(c: Cluster, k: Key) {
    forall n | Owned(c, n, k) && !c.records.objects[n].deleting :: Held(c, k)
  }

  /** What the worker for `k` may rely on about a CAPI cluster it holds in memory. */
  ghost predicate CopyOk(c: Cluster, k: Key, capi: Capi) {
    && (TURTLES in capi.finalizers ==> Held(c, k) && c.capis.objects[k].uid == capi.uid)
    && (TURTLES !in capi.finalizers ==> NoLive(c, k))
  }

  /** If `name` still has the version it was read with, it still is a record of `k`. */
  ghost predicate SeenRecord(c: Cluster, k: Key, name: string, rec: Record) {
    && rec.version <= c.records.clock
    && (name in c.records.objects && c.records.objects[name].version == rec.version ==> Owned(c, name, k))
    && Owns(k, rec.labels)
  }

  ghost predicate WorkerInv(c: Cluster, k: Key, w: Worker) {
    match w
    case Idle => true
    case Fetch => true
    case FinalizerGet(_) => true
    case FinalizerPut(_, capi) => TURTLES in capi.finalizers
    case ListRecords(base) => CopyOk(c, k, base) && (!base.deleting ==> TURTLES in base.finalizers)
    case Annotate(base, name, rec) => NoLive(c, k) && SeenRecord(c, k, name, rec)
    case Strip(base, capi, name, rec) => NoLive(c, k) && SeenRecord(c, k, name, rec)
    case DeleteAll(base) => CopyOk(c, k, base)
    case Release(base) => NoLive(c, k)
    case CheckAuto(base, capi, rec) => Ready(c, k, base, capi, rec)
    case CheckNamespace(base, capi, rec) => Ready(c, k, base, capi, rec)
    case CreateRecord(base, capi, rec) => Ready(c, k, base, capi, rec)
    case PatchRecord(base, capi, name, rec) =>
      (TURTLES !in capi.finalizers ==> NoLive(c, k)) && SeenRecord(c, k, name, rec)
    case FinalPatch(base, capi) => TURTLES !in capi.finalizers ==> NoLive(c, k)
  }

  /** On the way to a new record: there is none yet, and the CAPI cluster is held. */
  ghost predicate Ready(c: Cluster, k: Key, base: Capi, capi: Capi, rec: Record) {
    && OwnedNames(c, k) == {}
    && Held(c, k) && c.capis.objects[k].uid == base.uid
    && TURTLES in capi.finalizers
    && (forall k' :: Owns(k', rec.labels) <==> k' == k)
  }

  ghost predicate KeyInv(c: Cluster, k: Key, w: Worker) {
    AtMostOne(c, k) && NoOrphan(c, k) && WorkerInv(c, k, w)
  }

  ghost predicate Inv(s: System) {
    && Valid(s.cluster.capis) && Valid(s.cluster.records)
    && forall k :: KeyInv(s.cluster, k, WorkerOf(s, k))
  }

  // ---- what the worker for `k` may rely on while others act ----

  ghost predicate Rely(k: Key, c: Cluster, c': Cluster) {
    && (Held(c, k) ==> Held(c', k) && c'.capis.objects[k].uid == c.capis.objects[k].uid)
    && (forall n | Owned(c', n, k) ::
          Owned(c, n, k) && (c.records.objects[n].deleting ==> c'.records.objects[n].deleting))
    && c.records.clock <= c'.records.clock
    && (forall n | n in c'.records.objects ::
          || (n in c.records.objects && c'.records.objects[n] == c.records.objects[n])
          || c.records.clock < c'.records.objects[n].version)
  }

  lemma RelyKeeps(k: Key, c: Cluster, c': Cluster, w: Worker)
    requires KeyInv(c, k, w) && Rely(k, c, c')
    ensures KeyInv(c', k, w)
  {
    assert NoLive(c, k) ==> NoLive(c', k);
    if OwnedNames(c, k) == {} {
      forall n | n in OwnedNames(c', k) ensures n in OwnedNames(c, k) {
        assert Owned(c', n, k);
      }
    }
  }

  /** A request that touches one record keeps the rely of every key the record does not join. */
  lemma RecordRely(k: Key, c: Cluster, c': Cluster, name: string)
    requires c' == c.(records := c'.records)
    requires OnlyTouches(c.records, c'.records, name)
    requires Owned(c', name, k) ==> Owned(c, name, k)
    ensures Rely(k, c, c')
  {
    forall n | n in c'.records.objects && n != name
      ensures n in c.records.objects && c'.records.objects[n] == c.records.objects[n]
    {
      assert n in c'.records.objects - {name};
    }
  }

  /** A request that touches one CAPI cluster keeps the rely of every key whose hold it keeps. */
  lemma CapiRely(k: Key, c: Cluster, c': Cluster, k': Key)
    requires c' == c.(capis := c'.capis)
    requires OnlyTouches(c.capis, c'.capis, k')
    requires k == k' && Held(c, k) ==> Held(c', k)
    ensures Rely(k, c, c')
  {
    if k != k' && Held(c, k) {
      assert k in c.capis.objects - {k'};
    }
  }

  lemma EditCapiRely(k: Key, c: Cluster, k': Key, edited: Capi)
    requires k' in c.capis.objects
    requires TURTLES in edited.finalizers <==> TURTLES in c.capis.objects[k'].finalizers
    ensures var capis := Update(c.capis, k', c.capis.objects[k'].version, edited).1;
            Rely(k, c, c.(capis := capis)) && (Valid(c.capis) ==> Valid(capis))
  {
    var version := c.capis.objects[k'].version;
    UpdateTouches(c.capis, k', version, edited);
    CapiRely(k, c, c.(capis := Update(c.capis, k', version, edited).1), k');
  }

  lemma EditRecordRely(k: Key, c: Cluster, name: string, version: nat, edited: Record)
    requires name in c.records.objects && Owns(k, edited.labels) ==> Owns(k, c.records.objects[name].labels)
    ensures var records := Update(c.records, name, version, edited).1;
            Rely(k, c, c.(records := records)) && (Valid(c.records) ==> Valid(records))
  {
    UpdateTouches(c.records, name, version, edited);
    RecordRely(k, c, c.(records := Update(c.records, name, version, edited).1), name);
  }

  lemma CreateRecordRely(k: Key, c: Cluster, name: string, rec: Record)
    requires !Owns(k, rec.labels)
    ensures var records := Create(c.records, name, rec).1;
            Rely(k, c, c.(records := records)) && (Valid(c.records) ==> Valid(records))
  {
    CreateTouches(c.records, name, rec);
    RecordRely(k, c, c.(records := Create(c.records, name, rec).1), name);
  }

  predicate AddressesCapi(a: Action) {
    a.UserCreateCapi? || a.UserEditCapi? || a.UserDeleteCapi?
  }

  predicate AddressesRecord(a: Action) {
    a.UserCreateRecord? || a.UserEditRecord? || a.UserDeleteRecord? || a.Cleanup?
  }

  lemma CapiActionRely(k: Key, c: Cluster, a: Action)
    requires AddressesCapi(a)
    ensures Rely(k, c, Environment(c, a))
    ensures Valid(c.capis) ==> Valid(Environment(c, a).capis)
  {
    match a
    case UserCreateCapi(k', finalizers, labels, annotations, ready) =>
      CreateTouches(c.capis, k', Object(0, 0, false, finalizers - {TURTLES}, labels, annotations, ready));
      CapiRely(k, c, Environment(c, a), k');
    case UserEditCapi(k', finalizers, labels, annotations, ready) =>
      if k' in c.capis.objects {
        var cur := c.capis.objects[k'];
        EditCapiRely(k, c, k', cur.(finalizers := KeepingTurtles(cur.finalizers, finalizers),
                                    labels := labels, annotations := annotations, body := ready));
      }
    case UserDeleteCapi(k') =>
      DeleteTouches(c.capis, k');
      CapiRely(k, c, Environment(c, a), k');
  }

  lemma CleanupRely(k: Key, c: Cluster, a: Action)
    requires a.Cleanup?
    ensures Rely(k, c, Environment(c, a))
    ensures Valid(c.records) ==> Valid(Environment(c, a).records)
  {
    if a.name in c.records.objects {
      var cur := c.records.objects[a.name];
      EditRecordRely(k, c, a.name, a.version, cur.(finalizers := cur.finalizers - {TURTLES}));
    }
  }

  lemma RecordActionRely(k: Key, c: Cluster, a: Action)
    requires AddressesRecord(a)
    ensures Rely(k, c, Environment(c, a))
    ensures Valid(c.records) ==> Valid(Environment(c, a).records)
  {
    match a
    case UserCreateRecord(name, finalizers, labels, annotations) =>
      CreateRecordRely(k, c, name, Object(0, 0, false, finalizers - {TURTLES}, labels - OWNER_KEYS, annotations, ()));
    case UserEditRecord(name, finalizers, labels, annotations) =>
      if name in c.records.objects {
        var cur := c.records.objects[name];
        EditRecordRely(k, c, name, cur.version,
                       cur.(finalizers := KeepingTurtles(cur.finalizers, finalizers),
                            labels := KeepingOwner(cur.labels, labels), annotations := annotations));
      }
    case UserDeleteRecord(name) =>
      DeleteTouches(c.records, name);
      RecordRely(k, c, Environment(c, a), name);
    case Cleanup(_, _) => CleanupRely(k, c, a);
  }

  lemma EnvironmentRely(k: Key, c: Cluster, a: Action)
    ensures Rely(k, c, Environment(c, a))
    ensures Valid(c.capis) ==> Valid(Environment(c, a).capis)
    ensures Valid(c.records) ==> Valid(Environment(c, a).records)
  {
    if AddressesCapi(a) {
      CapiActionRely(k, c, a);
    } else if AddressesRecord(a) {
      RecordActionRely(k, c, a);
    }
  }

  lemma DeleteManyRely(k: Key, c: Cluster, names: set<string>)
    ensures Rely(k, c, c.(records := DeleteMany(c.records, names)))
    ensures Valid(c.records) ==> Valid(DeleteMany(c.records, names))
  {
  }

  lemma OtherOwner(k: Key, k': Key, labels: Labels)
    requires k != k' && Owns(k', labels)
    ensures !Owns(k, labels)
  {
  }

  /** A write to another CAPI cluster. */
  lemma OtherCapiRely(k: Key, c: Cluster, k': Key, version: nat, capi: Capi)
    requires k != k'
    ensures var capis := Update(c.capis, k', version, capi).1;
            Rely(k, c, c.(capis := capis))
  {
    UpdateTouches(c.capis, k', version, capi);
    CapiRely(k, c, c.(capis := Update(c.capis, k', version, capi).1), k');
  }

  /** A step of another worker. */
  lemma OtherStepRely(k: Key, c: Cluster, k': Key, w: Worker, x: Choice)
    requires k != k' && WorkerInv(c, k', w)
    ensures Rely(k, c, Work(c, k', w, x).0)
  {
    match w
    case FinalizerPut(_, capi) => OtherCapiRely(k, c, k', capi.version, capi);
    case Annotate(base, _, _) => OtherCapiRely(k, c, k', base.version, MarkedImported(base));
    case Release(base) => OtherCapiRely(k, c, k', base.version, Released(base));
    case FinalPatch(base, capi) => OtherCapiRely(k, c, k', base.version, capi);
    case Strip(_, _, name, rec) =>
      OtherOwner(k, k', rec.labels);
      EditRecordRely(k, c, name, rec.version, rec.(finalizers := rec.finalizers - {TURTLES}));
    case PatchRecord(_, _, name, rec) =>
      OtherOwner(k, k', rec.labels);
      EditRecordRely(k, c, name, rec.version, rec);
    case CreateRecord(_, _, rec) =>
      CreateRecordRely(k, c, x.name, rec);
    case DeleteAll(base) =>
      DeleteManyRely(k, c, OwnedNames(c, k'));
      DeleteManyRely(k, c, OwnedNames(c, k') * x.partial);
    case _ =>
  }

  // ---- what the worker for `k` itself must respect ----

  /** A write to the CAPI cluster that gives up the hold is safe only without a live record. */
  lemma CapiWriteKeeps(c: Cluster, k: Key, version: nat, capi: Capi)
    requires Valid(c.capis) && AtMostOne(c, k) && NoOrphan(c, k)
    requires TURTLES !in capi.finalizers ==> NoLive(c, k)
    ensures var c' := c.(capis := Update(c.capis, k, version, capi).1);
            Valid(c'.capis) && AtMostOne(c', k) && NoOrphan(c', k) && (NoLive(c, k) ==> NoLive(c', k))
  {
    UpdateTouches(c.capis, k, version, capi);
    var c' := c.(capis := Update(c.capis, k, version, capi).1);
    forall n | Owned(c', n, k) ensures Owned(c, n, k) && (!c.records.objects[n].deleting ==> Held(c', k)) {
      assert Owned(c, n, k);
    }
  }

  lemma RecordWriteKeeps(c: Cluster, k: Key, name: string, rec: Record)
    requires Valid(c.records) && AtMostOne(c, k) && NoOrphan(c, k) && SeenRecord(c, k, name, rec)
    ensures var c' := c.(records := Update(c.records, name, rec.version, rec).1);
            Valid(c'.records) && AtMostOne(c', k) && NoOrphan(c', k) && (NoLive(c, k) ==> NoLive(c', k))
  {
    var c' := c.(records := Update(c.records, name, rec.version, rec).1);
    UpdateTouches(c.records, name, rec.version, rec);
    forall n | Owned(c', n, k)
      ensures Owned(c, n, k) && (c.records.objects[n].deleting ==> c'.records.objects[n].deleting)
    {
      assert n != name ==> n in c'.records.objects - {name};
    }
  }

  lemma FetchKeeps(c: Cluster, k: Key, capi: Capi)
    requires NoOrphan(c, k) && k in c.capis.objects && c.capis.objects[k] == capi
    requires capi.deleting || IMPORTED in capi.annotations || TURTLES in capi.finalizers
    ensures WorkerInv(c, k, AfterFinalizer(capi))
  {
    assert CopyOk(c, k, capi);
  }

  lemma ListKeeps(c: Cluster, k: Key, base: Capi, x: Choice)
    requires Valid(c.records) && KeyInv(c, k, ListRecords(base))
    ensures WorkerInv(c, k, Work(c, k, ListRecords(base), x).1)
  {
    if x.reply.Served? && OwnedNames(c, k) == {} {
      var rec := Amended(c, NewRecord(k), base);
      forall k' ensures Owns(k', rec.labels) <==> k' == k {
        SelectorFindsExactlyItsOwn(k, k', OwnerLabelsOf(k), base.labels);
      }
      assert !base.deleting ==> Ready(c, k, base, Unfleeted(c, base), rec);
    } else if x.reply.Served? && Owned(c, x.name, k) {
      var rec := c.records.objects[x.name];
      assert rec.deleting ==> NoLive(c, k);
      SelectorFindsExactlyItsOwn(k, k, rec.labels, base.labels);
      assert SeenRecord(c, k, x.name, rec) && SeenRecord(c, k, x.name, Amended(c, rec, base));
    }
  }

  lemma CreateKeeps(c: Cluster, k: Key, base: Capi, capi: Capi, rec: Record, x: Choice)
    requires Valid(c.records) && Valid(c.capis) && KeyInv(c, k, CreateRecord(base, capi, rec))
    ensures var (c', w') := Work(c, k, CreateRecord(base, capi, rec), x);
            KeyInv(c', k, w') && Valid(c'.capis) && Valid(c'.records)
  {
    var c' := Work(c, k, CreateRecord(base, capi, rec), x).0;
    forall n | Owned(c', n, k) ensures n == x.name {
      assert n !in OwnedNames(c, k);
    }
  }

  lemma DeleteAllKeeps(c: Cluster, k: Key, names: set<string>)
    requires Valid(c.records) && AtMostOne(c, k) && NoOrphan(c, k)
    ensures var c' := c.(records := DeleteMany(c.records, names));
            && Valid(c'.records) && AtMostOne(c', k) && NoOrphan(c', k)
            && (NoLive(c, k) || names == OwnedNames(c, k) ==> NoLive(c', k))
  {
    var c' := c.(records := DeleteMany(c.records, names));
    forall n | Owned(c', n, k)
      ensures Owned(c, n, k) && (c'.records.objects[n].deleting <==> c.records.objects[n].deleting || n in names)
    {
    }
  }

  ghost predicate StepKeeps(c: Cluster, k: Key, w: Worker, x: Choice) {
    var (c', w') := Work(c, k, w, x);
    KeyInv(c', k, w') && Valid(c'.capis) && Valid(c'.records)
  }

  lemma FinalizerPutKeeps(c: Cluster, k: Key, w: Worker, x: Choice)
    requires Valid(c.capis) && Valid(c.records) && KeyInv(c, k, w) && w.FinalizerPut?
    ensures StepKeeps(c, k, w, x)
  {
    CapiWriteKeeps(c, k, w.capi.version, w.capi);
    var (outcome, capis) := Update(c.capis, k, w.capi.version, w.capi);
    if outcome.Ok? {
      FetchKeeps(c.(capis := capis), k, capis.objects[k]);
    }
  }

  lemma AnnotateKeeps(c: Cluster, k: Key, w: Worker, x: Choice)
    requires Valid(c.capis) && Valid(c.records) && KeyInv(c, k, w) && w.Annotate?
    ensures StepKeeps(c, k, w, x)
  {
    CapiWriteKeeps(c, k, w.base.version, MarkedImported(w.base));
  }

  lemma ReleaseKeeps(c: Cluster, k: Key, w: Worker, x: Choice)
    requires Valid(c.capis) && Valid(c.records) && KeyInv(c, k, w) && w.Release?
    ensures StepKeeps(c, k, w, x)
  {
    CapiWriteKeeps(c, k, w.base.version, Released(w.base));
  }

  lemma FinalPatchKeeps(c: Cluster, k: Key, w: Worker, x: Choice)
    requires Valid(c.capis) && Valid(c.records) && KeyInv(c, k, w) && w.FinalPatch?
    ensures StepKeeps(c, k, w, x)
  {
    CapiWriteKeeps(c, k, w.base.version, w.capi);
  }

  /** The three writes that give up the hold on the CAPI cluster, or may. */
  lemma GiveUpKeeps(c: Cluster, k: Key, w: Worker, x: Choice)
    requires Valid(c.capis) && Valid(c.records) && KeyInv(c, k, w)
    requires w.Annotate? || w.Release? || w.FinalPatch?
    ensures StepKeeps(c, k, w, x)
  {
    match w
    case Annotate(_, _, _) => AnnotateKeeps(c, k, w, x);
    case Release(_) => ReleaseKeeps(c, k, w, x);
    case FinalPatch(_, _) => FinalPatchKeeps(c, k, w, x);
  }

  lemma DeleteStepKeeps(c: Cluster, k: Key, w: Worker, x: Choice)
    requires Valid(c.capis) && Valid(c.records) && KeyInv(c, k, w) && w.DeleteAll?
    ensures StepKeeps(c, k, w, x)
  {
    DeleteAllKeeps(c, k, OwnedNames(c, k));
    DeleteAllKeeps(c, k, OwnedNames(c, k) * x.partial);
  }

  lemma RecordStepKeeps(c: Cluster, k: Key, w: Worker, x: Choice)
    requires Valid(c.capis) && Valid(c.records) && KeyInv(c, k, w)
    requires w.Strip? || w.PatchRecord? || w.DeleteAll?
    ensures StepKeeps(c, k, w, x)
  {
    match w
    case Strip(base, capi, name, rec) =>
      RecordWriteKeeps(c, k, name, rec.(finalizers := rec.finalizers - {TURTLES}));
    case PatchRecord(_, _, name, rec) => RecordWriteKeeps(c, k, name, rec);
    case DeleteAll(_) => DeleteStepKeeps(c, k, w, x);
  }

  /** The remaining requests only read, or there is none. */
  lemma ReadKeeps(c: Cluster, k: Key, w: Worker, x: Choice)
    requires Valid(c.capis) && Valid(c.records) && KeyInv(c, k, w)
    requires w.Idle? || w.Fetch? || w.FinalizerGet? || w.CheckAuto? || w.CheckNamespace?
    ensures StepKeeps(c, k, w, x)
  {
    if w.Fetch? && k in c.capis.objects && OnFetched(c.capis.objects[k]) == AfterFinalizer(c.capis.objects[k]) {
      FetchKeeps(c, k, c.capis.objects[k]);
    }
  }

  lemma OwnStepKeeps(c: Cluster, k: Key, w: Worker, x: Choice)
    requires Valid(c.capis) && Valid(c.records) && KeyInv(c, k, w)
    ensures StepKeeps(c, k, w, x)
  {
    if w.FinalizerPut? {
      FinalizerPutKeeps(c, k, w, x);
    } else if w.Annotate? || w.Release? || w.FinalPatch? {
      GiveUpKeeps(c, k, w, x);
    } else if w.Strip? || w.PatchRecord? || w.DeleteAll? {
      RecordStepKeeps(c, k, w, x);
    } else if w.ListRecords? {
      ListKeeps(c, k, w.base, x);
    } else if w.CreateRecord? {
      CreateKeeps(c, k, w.base, w.capi, w.rec, x);
    } else {
      ReadKeeps(c, k, w, x);
    }
  }

  // ---- every reachable state ----

  lemma WorkerStepKeeps(s: System, k: Key, x: Choice)
    requires Inv(s)
    ensures Inv(Apply(s, Step(k, x)))
  {
    var s' := Apply(s, Step(k, x));
    assert KeyInv(s.cluster, k, WorkerOf(s, k));
    OwnStepKeeps(s.cluster, k, WorkerOf(s, k), x);
    forall k' | k' != k ensures KeyInv(s'.cluster, k', WorkerOf(s', k')) {
      assert KeyInv(s.cluster, k', WorkerOf(s, k'));
      OtherStepRely(k', s.cluster, k, WorkerOf(s, k), x);
      RelyKeeps(k', s.cluster, s'.cluster, WorkerOf(s, k'));
    }
  }

  lemma ApplyKeeps(s: System, a: Action)
    requires Inv(s)
    ensures Inv(Apply(s, a))
  {
    var s' := Apply(s, a);
    if a.Step? {
      WorkerStepKeeps(s, a.k, a.x);
    } else if a.Start? || a.Crash? {
      forall k ensures KeyInv(s'.cluster, k, WorkerOf(s', k)) {
        assert KeyInv(s.cluster, k, WorkerOf(s, k));
      }
    } else {
      forall k ensures KeyInv(s'.cluster, k, WorkerOf(s', k)) {
        assert KeyInv(s.cluster, k, WorkerOf(s, k));
        EnvironmentRely(k, s.cluster, a);
        RelyKeeps(k, s.cluster, s'.cluster, WorkerOf(s, k));
      }
      EnvironmentRely(Key("", ""), s.cluster, a);
    }
  }

  lemma {:induction false} RunKeeps(s: System, actions: seq<Action>)
    requires Inv(s)
    ensures Inv(Run(s, actions))
    decreases |actions|
  {
    if actions != [] {
      RunKeeps(s, actions[..|actions| - 1]);
      ApplyKeeps(Run(s, actions[..|actions| - 1]), actions[|actions| - 1]);
    }
  }

  lemma InitialHolds(s: System)
    requires Initial(s)
    ensures Inv(s)
  {
    forall k, n ensures !Owned(s.cluster, n, k) {
      if n in s.cluster.records.objects {
        assert OWNER in OWNER_KEYS && OWNER !in s.cluster.records.objects[n].labels.Keys;
      }
    }
  }

  /** No orphaned import: whatever happens between any two requests, a Rancher cluster that is
      not being deleted has its CAPI cluster, and that cluster carries the turtles finalizer. */
  lemma NoOrphanedImport(s: System, actions: seq<Action>, k: Key, n: string)
    requires Initial(s)
    ensures var c := Run(s, actions).cluster;
            Owned(c, n, k) && !c.records.objects[n].deleting ==>
              k in c.capis.objects && TURTLES in c.capis.objects[k].finalizers
  {
    InitialHolds(s);
    RunKeeps(s, actions);
    assert KeyInv(Run(s, actions).cluster, k, WorkerOf(Run(s, actions), k));
  }

  /** At most one Rancher cluster, live or deleting, is ever tied to a CAPI cluster. */
  lemma AtMostOneRecord(s: System, actions: seq<Action>, k: Key, n: string, n': string)
    requires Initial(s)
    ensures var c := Run(s, actions).cluster;
            Owned(c, n, k) && Owned(c, n', k) ==> n == n'
  {
    InitialHolds(s);
    RunKeeps(s, actions);
    assert KeyInv(Run(s, actions).cluster, k, WorkerOf(Run(s, actions), k));
  }
}

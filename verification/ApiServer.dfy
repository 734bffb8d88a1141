/** The part of the Kubernetes API server that the reconcilers rely on: optimistic
    locking by resource version, finalizers, and deletion in two stages. */
module ApiServer {

  /** An API object. `version` is the resource version and `body` whatever the kind adds
      to the common metadata. */
  datatype Object<+B> = Object(
    uid: nat,
    version: nat,
    deleting: bool,
    finalizers: set<string>,
    labels: map<string, string>,
    annotations: map<string, string>,
    body: B)

  /** All objects of one kind. Versions and UIDs are drawn from `clock`, so neither is reused. */
  datatype Store<K, +B> = Store(objects: map<K, Object<B>>, clock: nat)

  datatype Outcome = Ok | NotFound | Conflict | Forbidden | AlreadyExists

  ghost predicate Valid<K(!new), B(!new)>(s: Store<K, B>) {
    forall k :: k in s.objects ==> s.objects[k].version <= s.clock && s.objects[k].uid <= s.clock
  }

  /** A deleting object accepts no new finalizer. */
  predicate Admits<B>(cur: Object<B>, new_: Object<B>) {
    cur.deleting ==> new_.finalizers <= cur.finalizers
  }

  /** What is stored when `new_` is written over `cur`: identity and deletion mark are the server's. */
  function Stored<B>(cur: Object<B>, new_: Object<B>, version: nat): Object<B> {
    Object(cur.uid, version, cur.deleting, new_.finalizers, new_.labels, new_.annotations, new_.body)
  }

  /** An admitted write. A write that changes nothing keeps the version; one that takes the
      last finalizer off a deleting object removes it. */
  function Write<K(==), B(==)>(s: Store<K, B>, k: K, new_: Object<B>): Store<K, B>
    requires k in s.objects
  {
    var cur := s.objects[k];
    if Stored(cur, new_, cur.version) == cur then s
    else if cur.deleting && new_.finalizers == {} then Store(s.objects - {k}, s.clock + 1)
    else Store(s.objects[k := Stored(cur, new_, s.clock + 1)], s.clock + 1)
  }

  /** A write guarded by the version the caller has read: Update, or Patch with an optimistic lock. */
  function Update<K(==), B(==)>(s: Store<K, B>, k: K, version: nat, new_: Object<B>): (Outcome, Store<K, B>) {
    if k !in s.objects then (NotFound, s)
    else if s.objects[k].version != version then (Conflict, s)
    else if !Admits(s.objects[k], new_) then (Forbidden, s)
    else (Ok, Write(s, k, new_))
  }

  function Create<K(==), B>(s: Store<K, B>, k: K, new_: Object<B>): (Outcome, Store<K, B>) {
    if k in s.objects then (AlreadyExists, s)
    else (Ok, Store(s.objects[k := new_.(uid := s.clock + 1, version := s.clock + 1, deleting := false)], s.clock + 1))
  }

  /** Deletion removes an object without finalizers and otherwise only marks it. */
  function Delete<K(==), B>(s: Store<K, B>, k: K): (Outcome, Store<K, B>) {
    if k !in s.objects then (NotFound, s)
    else if s.objects[k].finalizers == {} then (Ok, Store(s.objects - {k}, s.clock + 1))
    else if s.objects[k].deleting then (Ok, s)
    else (Ok, Store(s.objects[k := s.objects[k].(deleting := true, version := s.clock + 1)], s.clock + 1))
  }

  /** What any request addressed to `k` leaves alone: every other object, and of `k` itself its
      identity while it exists and its deletion mark once it is set. */
  ghost predicate OnlyTouches<K(!new), B(!new)>(s: Store<K, B>, s': Store<K, B>, k: K) {
    && s.clock <= s'.clock
    && s.objects - {k} == s'.objects - {k}
    && (k in s'.objects ==>
          || (k in s.objects && s'.objects[k] == s.objects[k])
          || s.clock < s'.objects[k].version <= s'.clock)
    && (k in s.objects && k in s'.objects ==>
          && s'.objects[k].uid == s.objects[k].uid
          && (s.objects[k].deleting ==> s'.objects[k].deleting))
    && (k in s'.objects && k !in s.objects ==> s.clock < s'.objects[k].uid <= s'.clock)
  }

  lemma UpdateTouches<K(!new), B(!new)>(s: Store<K, B>, k: K, version: nat, new_: Object<B>)
    ensures OnlyTouches(s, Update(s, k, version, new_).1, k)
    ensures Valid(s) ==> Valid(Update(s, k, version, new_).1)
  {
    var s' := Update(s, k, version, new_).1;
    assert s.objects - {k} == s'.objects - {k};
  }

  lemma CreateTouches<K(!new), B(!new)>(s: Store<K, B>, k: K, new_: Object<B>)
    ensures OnlyTouches(s, Create(s, k, new_).1, k)
    ensures Valid(s) ==> Valid(Create(s, k, new_).1)
  {
    var s' := Create(s, k, new_).1;
    assert s.objects - {k} == s'.objects - {k};
  }

  lemma DeleteTouches<K(!new), B(!new)>(s: Store<K, B>, k: K)
    ensures OnlyTouches(s, Delete(s, k).1, k)
    ensures Valid(s) ==> Valid(Delete(s, k).1)
  {
    var s' := Delete(s, k).1;
    assert s.objects - {k} == s'.objects - {k};
  }

  /** An object protected by a finalizer survives every request that does not take that finalizer off. */
  lemma GuardedSurvives<K(!new), B(!new)>(s: Store<K, B>, k: K, version: nat, new_: Object<B>, f: string)
    requires k in s.objects && f in s.objects[k].finalizers
    ensures f in new_.finalizers ==>
              var s' := Update(s, k, version, new_).1;
              k in s'.objects && f in s'.objects[k].finalizers
    ensures var s' := Delete(s, k).1;
            k in s'.objects && f in s'.objects[k].finalizers
  {
  }

  /** Deletion in two stages: without finalizers an object goes at once; otherwise it is marked and
      keeps all else, and a second deletion changes nothing. */
  lemma DeletionMeans<K(!new), B(!new)>(s: Store<K, B>, k: K)
    requires k in s.objects
    ensures var o, (outcome, s') := s.objects[k], Delete(s, k);
            && outcome.Ok? && s'.objects - {k} == s.objects - {k}
            && (o.finalizers == {} <==> k !in s'.objects)
            && (k in s'.objects ==> s'.objects[k].(version := 0) == o.(deleting := true, version := 0))
            && (o.deleting && o.finalizers != {} ==> s' == s)
            && Delete(s', k) == (if k in s'.objects then Ok else NotFound, s')
  {
    DeleteTouches(s, k);
  }

  /** A locked write to an object in deletion goes through exactly if nobody has written since and it
      brings no new finalizer; the object is gone after it exactly if it leaves none. */
  lemma WriteToDeleting<K(!new), B(!new)>(s: Store<K, B>, k: K, version: nat, new_: Object<B>)
    requires k in s.objects && s.objects[k].deleting && s.objects[k].finalizers != {}
    ensures var o, (outcome, s') := s.objects[k], Update(s, k, version, new_);
            && (outcome.Ok? <==> o.version == version && forall f | f in new_.finalizers :: f in o.finalizers)
            && (!outcome.Ok? ==> s' == s && outcome == if o.version != version then Conflict else Forbidden)
            && (outcome.Ok? ==> (k !in s'.objects <==> new_.finalizers == {}))
            && (k in s'.objects ==> s'.objects[k].deleting)
  {
    assert (forall f | f in new_.finalizers :: f in s.objects[k].finalizers) <==> new_.finalizers <= s.objects[k].finalizers;
  }
}

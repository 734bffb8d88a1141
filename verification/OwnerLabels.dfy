/** The labels that tie a Rancher cluster to a CAPI cluster, and their propagation. */
module OwnerLabels {

  datatype Key = Key(ns: string, name: string)

  const OWNER := "cluster-api.cattle.io/capi-cluster-owner"
  const OWNER_NAMESPACE := "cluster-api.cattle.io/capi-cluster-owner-ns"
  const OWNED := "cluster-api.cattle.io/owned"

  type Labels = map<string, string>

  /** The labels a record for `k` is created with. */
  function OwnerLabelsOf(k: Key): Labels {
    map[OWNER := k.name, OWNER_NAMESPACE := k.ns, OWNED := ""]
  }

  /** The selector the reconciler lists and deletes with. */
  predicate Owns(k: Key, labels: Labels) {
    && OWNER in labels && labels[OWNER] == k.name
    && OWNER_NAMESPACE in labels && labels[OWNER_NAMESPACE] == k.ns
    && OWNED in labels && labels[OWNED] == ""
  }

  predicate StartsAt(s: string, t: string, i: nat)
    requires i + |t| <= |s|
  {
    forall j | 0 <= j < |t| :: s[i + j] == t[j]
  }

  predicate Contains(s: string, t: string) {
    exists i | 0 <= i <= |s| - |t| :: StartsAt(s, t, i)
  }

  /** Rancher and CAPI labels are excluded from propagation. */
  predicate Propagates(key: string) {
    !Contains(key, "cattle.io") && !Contains(key, "x-k8s.io")
  }

  /** The record's labels after the CAPI cluster's labels are copied over them. */
  function Propagated(record: Labels, capi: Labels): Labels {
    record + map key | key in capi && Propagates(key) :: capi[key]
  }

  /** The record's labels after the labels under `keys` are copied over them. */
  function PropagatedFor(record: Labels, capi: Labels, keys: set<string>): Labels {
    record + map key | key in capi && key in keys && Propagates(key) :: capi[key]
  }

  lemma PropagatedForOneMore(record: Labels, capi: Labels, keys: set<string>, key: string)
    requires key in capi
    ensures PropagatedFor(record, capi, keys + {key}) ==
            var before := PropagatedFor(record, capi, keys);
            if Propagates(key) then before[key := capi[key]] else before
  {
  }

  lemma PropagatedForAll(record: Labels, capi: Labels)
    ensures PropagatedFor(record, capi, {}) == record
    ensures PropagatedFor(record, capi, capi.Keys) == Propagated(record, capi)
  {
  }

  /** `propagateLabels`: one pass over the CAPI labels, in whatever order the map yields them. */
  method PropagateLabels(record: Labels, capi: Labels) returns (labels: Labels)
    ensures labels == Propagated(record, capi)
  {
    PropagatedForAll(record, capi);
    labels := record;
    var todo := capi.Keys;
    ghost var done: set<string> := {};
    while todo != {}
      invariant todo <= capi.Keys && done + todo == capi.Keys
      invariant labels == PropagatedFor(record, capi, done)
      decreases todo
    {
      var key :| key in todo;
      PropagatedForOneMore(record, capi, done, key);
      if Propagates(key) {
        labels := labels[key := capi[key]];
      }
      todo, done := todo - {key}, done + {key};
    }
    assert done == capi.Keys;
  }

  lemma OwnerLabelsStay()
    ensures !Propagates(OWNER) && !Propagates(OWNER_NAMESPACE) && !Propagates(OWNED)
  {
    assert StartsAt(OWNER, "cattle.io", 12);
    assert StartsAt(OWNER_NAMESPACE, "cattle.io", 12);
    assert StartsAt(OWNED, "cattle.io", 12);
  }

  /** A record is found again by the selector it was created under, and by no other,
      whatever labels the CAPI clusters carry. */
  lemma SelectorFindsExactlyItsOwn(k: Key, k': Key, record: Labels, capi: Labels)
    ensures Owns(k', Propagated(record, capi)) <==> Owns(k', record)
    ensures Owns(k', OwnerLabelsOf(k)) <==> k == k'
  {
    OwnerLabelsStay();
    assert |OWNER| == 40 && |OWNED| == 27 && |OWNER_NAMESPACE| == 43;
  }

  /** The life of one record: its CAPI cluster's labels are edited, or a reconcile propagates them. */
  datatype Event = Edit(labels: Labels) | Reconcile

  datatype Pair = Pair(record: Labels, capi: Labels)

  function After(p: Pair, events: seq<Event>): Pair
    decreases |events|
  {
    if events == [] then p
    else
      var q := After(p, events[..|events| - 1]);
      match events[|events| - 1]
      case Edit(labels) => q.(capi := labels)
      case Reconcile => q.(record := Propagated(q.record, q.capi))
  }

  /** Over any history the record keeps its owner and every label key it ever had. */
  lemma {:induction false} LabelsOverRuns(p: Pair, events: seq<Event>, k: Key)
    requires Owns(k, p.record)
    ensures Owns(k, After(p, events).record)
    ensures forall n | 0 <= n <= |events| :: After(p, events[..n]).record.Keys <= After(p, events).record.Keys
    decreases |events|
  {
    if events == [] {
      assert events[..0] == events;
    } else {
      var before := events[..|events| - 1];
      LabelsOverRuns(p, before, k);
      var q := After(p, before);
      SelectorFindsExactlyItsOwn(k, k, q.record, q.capi);
      forall n | 0 <= n <= |events|
        ensures After(p, events[..n]).record.Keys <= After(p, events).record.Keys
      {
        if n < |events| {
          assert before[..n] == events[..n];
        } else {
          assert events[..n] == events;
        }
      }
    }
  }

  /** Right after a reconcile every propagatable CAPI label is on the record with its current
      value, and every other label of the record is what it was. */
  lemma ReconcileBringsLabelsUpToDate(p: Pair, events: seq<Event>, key: string)
    requires events != [] && events[|events| - 1] == Reconcile
    ensures var q := After(p, events);
            var before := After(p, events[..|events| - 1]);
            if key in q.capi && Propagates(key) then key in q.record && q.record[key] == q.capi[key]
            else (key in q.record <==> key in before.record) &&
                 (key in q.record ==> q.record[key] == before.record[key])
  {
    var _ := After(p, events[..|events| - 1]);
  }
}

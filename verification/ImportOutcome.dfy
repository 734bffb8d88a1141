/** What an undisturbed pass makes of a CAPI cluster and its record, told by labels, annotations and
    finalizers alone. */
module ImportOutcome {
  import opened ApiServer
  import opened OwnerLabels
  import opened ImportProtocol
  import opened ImportProgress
  import opened ImportSticks

  // ---- whether a record is made ----

  /** The cluster's own label decides; without one the namespace's does. */
  predicate Wanted(c: Cluster, k: Key)
    requires k in c.capis.objects
  {
    var own := c.capis.objects[k].labels;
    if "cluster-api.cattle.io/rancher-auto-import" in own then ReadsTrue(own["cluster-api.cattle.io/rancher-auto-import"])
    else NamespaceWants(c, k)
  }

  predicate NamespaceWants(c: Cluster, k: Key) {
    && k.ns in c.namespaces
    && "cluster-api.cattle.io/rancher-auto-import" in c.namespaces[k.ns]
    && ReadsTrue(c.namespaces[k.ns]["cluster-api.cattle.io/rancher-auto-import"])
  }

  lemma IdleStays(c: Cluster, k: Key, w: Worker, name: string, m: nat, n: nat)
    requires Serve(c, k, w, name, m).1.Idle? && m <= n
    ensures Serve(c, k, w, name, n) == Serve(c, k, w, name, m)
    decreases n
  {
    if m == 0 {
      if n > 0 {
        assert Work(c, k, w, Smooth(name)) == (c, w);
        IdleStays(c, k, w, name, 0, n - 1);
      }
    } else {
      var (c', w') := Work(c, k, w, Smooth(name));
      IdleStays(c', k, w', name, m - 1, n - 1);
    }
  }

  /** A label of its own that does not read true: nothing is made, whatever the namespace says. */
  lemma OptedOut(c: Cluster, k: Key, name: string)
    requires Candidate(c, k) && OwnedNames(c, k) == {} && !Wanted(c, k)
    requires "cluster-api.cattle.io/rancher-auto-import" in c.capis.objects[k].labels
    ensures Serve(c, k, ListRecords(c.capis.objects[k]), name, 3) == (c, Idle)
  {
    var base := c.capis.objects[k];
    var rec := Amended(c, NewRecord(k), base);
    var check := CheckAuto(base, Unfleeted(c, base), rec);
    assert Work(c, k, ListRecords(base), Smooth(name)) == (c, check);
    assert Work(c, k, check, Smooth(name)) == (c, FinalPatch(base, base));
    assert Work(c, k, FinalPatch(base, base), Smooth(name)) == (c, Idle);
    assert Serve(c, k, FinalPatch(base, base), name, 1) == (c, Idle);
    assert Serve(c, k, check, name, 2) == (c, Idle);
  }

  /** Without a label of its own the namespace is asked. */
  lemma NamespaceDecides(c: Cluster, k: Key, name: string)
    requires Candidate(c, k) && OwnedNames(c, k) == {}
    requires "cluster-api.cattle.io/rancher-auto-import" !in c.capis.objects[k].labels
    ensures Serve(c, k, ListRecords(c.capis.objects[k]), name, 5) ==
            (if Wanted(c, k) then WithRecord(c, k, name) else c, Idle)
  {
    var base := c.capis.objects[k];
    var rec := Amended(c, NewRecord(k), base);
    var check, ask := CheckAuto(base, Unfleeted(c, base), rec), CheckNamespace(base, base, rec);
    assert Work(c, k, ListRecords(base), Smooth(name)) == (c, check);
    assert Work(c, k, check, Smooth(name)) == (c, ask);
    NamespaceAnswers(c, k, base, name, rec);
    assert Serve(c, k, check, name, 4) == Serve(c, k, ask, name, 3);
  }

  lemma NamespaceAnswers(c: Cluster, k: Key, base: Capi, name: string, rec: Record)
    requires k in c.capis.objects
    ensures Serve(c, k, CheckNamespace(base, c.capis.objects[k], rec), name, 3) ==
            (if NamespaceWants(c, k) then c.(records := Create(c.records, name, rec).1) else c, Idle)
  {
    var current := c.capis.objects[k];
    var ask, last := CheckNamespace(base, current, rec), FinalPatch(base, current);
    if NamespaceWants(c, k) {
      var c' := c.(records := Create(c.records, name, rec).1);
      assert Work(c, k, ask, Smooth(name)) == (c, CreateRecord(base, current, rec));
      assert Work(c, k, CreateRecord(base, current, rec), Smooth(name)) == (c', last);
      assert Work(c', k, last, Smooth(name)) == (c', Idle);
      assert Serve(c', k, last, name, 1) == (c', Idle);
      assert Serve(c, k, CreateRecord(base, current, rec), name, 2) == (c', Idle);
    } else {
      assert Work(c, k, ask, Smooth(name)) == (c, last);
      assert Work(c, k, last, Smooth(name)) == (c, Idle);
      assert Serve(c, k, last, name, 1) == (c, Idle);
      IdleStays(c, k, last, name, 1, 2);
    }
  }

  /** A cluster that is annotated as imported between the list and the decision: its own label no
      longer suffices, and the namespace decides. */
  lemma AnnotatedMeanwhile(c: Cluster, k: Key, base: Capi, capi: Capi, name: string, rec: Record)
    requires k in c.capis.objects && "imported" in c.capis.objects[k].annotations
    requires "cluster-api.cattle.io/rancher-auto-import" in c.capis.objects[k].labels
    requires ReadsTrue(c.capis.objects[k].labels["cluster-api.cattle.io/rancher-auto-import"])
    ensures Serve(c, k, CheckAuto(base, capi, rec), name, 4) ==
            (if NamespaceWants(c, k) then c.(records := Create(c.records, name, rec).1) else c, Idle)
  {
    assert Work(c, k, CheckAuto(base, capi, rec), Smooth(name)) == (c, CheckNamespace(base, c.capis.objects[k], rec));
    NamespaceAnswers(c, k, base, name, rec);
  }

  lemma ListDecides(c: Cluster, k: Key, name: string)
    requires Candidate(c, k) && OwnedNames(c, k) == {}
    ensures Serve(c, k, ListRecords(c.capis.objects[k]), name, 5) ==
            (if Wanted(c, k) then WithRecord(c, k, name) else c, Idle)
  {
    var w := ListRecords(c.capis.objects[k]);
    if "cluster-api.cattle.io/rancher-auto-import" !in c.capis.objects[k].labels {
      NamespaceDecides(c, k, name);
    } else if Wanted(c, k) {
      ImportFromList(c, k, name);
      IdleStays(c, k, w, name, 4, 5);
    } else {
      OptedOut(c, k, name);
      IdleStays(c, k, w, name, 3, 5);
    }
  }

  /** The cluster once the worker has taken hold of it. */
  function Taken(c: Cluster, k: Key): Cluster
    requires k in c.capis.objects
  {
    if Held(c, k) then c else WithHold(c, k)
  }

  /** The way to the list: a cluster that is not held is taken hold of. */
  lemma HoldIsTaken(c: Cluster, k: Key, name: string, n: nat)
    requires k in c.capis.objects && !c.capis.objects[k].deleting && "imported" !in c.capis.objects[k].annotations
    ensures var c1 := Taken(c, k);
            && c1 == c.(capis := c1.capis) && k in c1.capis.objects && Held(c1, k)
            && c1.capis.objects[k].(finalizers := {}, version := 0) == c.capis.objects[k].(finalizers := {}, version := 0)
            && Serve(c, k, Fetch, name, n + if Held(c, k) then 1 else 3) ==
               Serve(c1, k, AfterFinalizer(c1.capis.objects[k]), name, n)
  {
    var capi, c1 := c.capis.objects[k], Taken(c, k);
    if Held(c, k) {
      assert Work(c, k, Fetch, Smooth(name)) == (c, AfterFinalizer(capi));
    } else {
      var get, put := FinalizerGet(RETRIES), FinalizerPut(RETRIES, WithFinalizer(capi));
      assert Work(c, k, Fetch, Smooth(name)) == (c, get);
      assert Work(c, k, get, Smooth(name)) == (c, put);
      assert Work(c, k, put, Smooth(name)) == (c1, AfterFinalizer(c1.capis.objects[k]));
      assert Serve(c, k, put, name, n + 1) == Serve(c1, k, AfterFinalizer(c1.capis.objects[k]), name, n);
      assert Serve(c, k, get, name, n + 2) == Serve(c, k, put, name, n + 1);
    }
  }

  /** Exactly when an undisturbed pass makes a record for a candidate without one: if a label of its
      own reads true, or if it has none and its namespace's reads true. Otherwise all records
      stay as they are; and nothing but the hold changes on the CAPI cluster. */
  lemma ImportedExactly(c: Cluster, k: Key, name: string)
    requires Candidate(c, k) && OwnedNames(c, k) == {} && name !in c.records.objects
    ensures var (c', w) := Serve(c, k, Fetch, name, 8);
            && w.Idle? && c'.capis == Taken(c, k).capis && c'.namespaces == c.namespaces
            && (Wanted(c, k) <==> Owned(c', name, k))
            && (!Wanted(c, k) ==> c'.records == c.records)
            && (Wanted(c, k) ==> c' == WithRecord(Taken(c, k), k, name))
  {
    var c1 := Taken(c, k);
    HoldIsTaken(c, k, name, 5);
    assert forall n :: Owned(c1, n, k) <==> Owned(c, n, k);
    assert OwnedNames(c1, k) == {};
    ListDecides(c1, k, name);
    IdleStays(c, k, Fetch, name, 5 + if Held(c, k) then 1 else 3, 8);
    SelectorFindsExactlyItsOwn(k, k, OwnerLabelsOf(k), c1.capis.objects[k].labels);
    assert !Owned(c, name, k);
  }

  /** A cluster annotated as imported is left alone, alive or in deletion. */
  lemma ImportedIsLeft(c: Cluster, k: Key, name: string, n: nat)
    requires k in c.capis.objects && "imported" in c.capis.objects[k].annotations && n > 0
    ensures Serve(c, k, Fetch, name, n) == (c, Idle)
  {
    assert Work(c, k, Fetch, Smooth(name)) == (c, Idle);
    IdleStays(c, k, Idle, name, 0, n - 1);
  }

  /** A cluster whose control plane is not available is taken hold of, and no more. */
  lemma NotReadyIsOnlyHeld(c: Cluster, k: Key, name: string)
    requires k in c.capis.objects && !c.capis.objects[k].deleting && !c.capis.objects[k].body
    requires "imported" !in c.capis.objects[k].annotations
    ensures Serve(c, k, Fetch, name, 8) == (Taken(c, k), Idle)
  {
    HoldIsTaken(c, k, name, 0);
    assert AfterFinalizer(Taken(c, k).capis.objects[k]).Idle?;
    assert Serve(Taken(c, k), k, Idle, name, 0) == (Taken(c, k), Idle);
    IdleStays(c, k, Fetch, name, if Held(c, k) then 1 else 3, 8);
  }

  // ---- which labels propagate ----

  ghost predicate Occurs(part: string, s: string) {
    exists before: string, after: string :: s == before + part + after
  }

  /** A label propagates exactly if neither group name occurs in its key. */
  lemma PropagatesExactly(key: string)
    ensures Propagates(key) <==> !Occurs("cattle.io", key) && !Occurs("x-k8s.io", key)
  {
    ContainsExactly(key, "cattle.io");
    ContainsExactly(key, "x-k8s.io");
  }

  lemma ContainsExactly(s: string, part: string)
    ensures Contains(s, part) <==> Occurs(part, s)
  {
    if Contains(s, part) {
      var i :| 0 <= i <= |s| - |part| && StartsAt(s, part, i);
      assert s == s[..i] + part + s[i + |part|..];
    }
    if Occurs(part, s) {
      var before: string, after: string :| s == before + part + after;
      assert StartsAt(s, part, |before|);
    }
  }

  // ---- what is on a record ----

  /** A label of the CAPI cluster that belongs on the record. */
  ghost predicate Copied(capi: Capi, key: string) {
    key in capi.labels && !Occurs("cattle.io", key) && !Occurs("x-k8s.io", key)
  }

  lemma PropagatedMeans(record: Labels, capi: Capi, key: string)
    ensures var labels := Propagated(record, capi.labels);
            && (key in labels <==> key in record || Copied(capi, key))
            && (key in labels ==> labels[key] == if Copied(capi, key) then capi.labels[key] else record[key])
  {
    PropagatesExactly(key);
  }

  ghost predicate IsOwnerLabel(key: string) {
    key in {"cluster-api.cattle.io/capi-cluster-owner", "cluster-api.cattle.io/capi-cluster-owner-ns", "cluster-api.cattle.io/owned"}
  }

  /** A record that a pass makes: the three owner labels and the CAPI cluster's own, the turtles
      finalizer, and the annotations that opt out of what Rancher would otherwise do. */
  lemma NewRecordMeans(c: Cluster, k: Key, name: string)
    requires k in c.capis.objects && name !in c.records.objects
    ensures var capi, rec := c.capis.objects[k], WithRecord(c, k, name).records.objects[name];
            && !rec.deleting && rec.finalizers == {"capicluster.turtles.cattle.io"}
            && rec.annotations ==
               map["cluster-api.cattle.io/fleet-namespace-migrated" := "cattle-fleet-system",
                   "rancher.io/imported-cluster-version-management" := "false",
                   "field.cattle.io/no-creator-rbac" := "true"]
               + (if c.useCAAPF then map["provisioning.cattle.io/externally-managed" := "true"] else map[])
            && (forall key :: key in rec.labels <==> IsOwnerLabel(key) || Copied(capi, key))
            && (forall key | Copied(capi, key) :: rec.labels[key] == capi.labels[key])
            && rec.labels["cluster-api.cattle.io/capi-cluster-owner"] == k.name
            && rec.labels["cluster-api.cattle.io/capi-cluster-owner-ns"] == k.ns
            && rec.labels["cluster-api.cattle.io/owned"] == ""
  {
    var capi, rec := c.capis.objects[k], WithRecord(c, k, name).records.objects[name];
    forall key
      ensures key in rec.labels <==> IsOwnerLabel(key) || Copied(capi, key)
      ensures Copied(capi, key) ==> rec.labels[key] == capi.labels[key]
    {
      PropagatedMeans(OwnerLabelsOf(k), capi, key);
      assert |OWNER| == 40 && |OWNED| == 27 && |OWNER_NAMESPACE| == 43;
    }
    OwnerLabelsStay();
    SelectorFindsExactlyItsOwn(k, k, OwnerLabelsOf(k), capi.labels);
    NewAnnotations(c, k);
  }

  lemma NewAnnotations(c: Cluster, k: Key)
    requires k in c.capis.objects
    ensures Amended(c, NewRecord(k), c.capis.objects[k]).annotations ==
            map["cluster-api.cattle.io/fleet-namespace-migrated" := "cattle-fleet-system",
                "rancher.io/imported-cluster-version-management" := "false",
                "field.cattle.io/no-creator-rbac" := "true"]
            + (if c.useCAAPF then map["provisioning.cattle.io/externally-managed" := "true"] else map[])
  {
    assert |NO_CREATOR_RBAC| == 31 && |EXTERNAL_FLEET| == 41 && |FLEET_MIGRATED| == 46 && |VERSION_MANAGEMENT| == 46;
  }

  /** What a patch makes of an existing record. */
  ghost predicate Refreshed(c: Cluster, capi: Capi, was: Record, rec: Record) {
    && rec.uid == was.uid && rec.deleting == was.deleting
    && rec.finalizers == was.finalizers + {"capicluster.turtles.cattle.io"}
    && (forall key :: key in rec.labels <==> key in was.labels || Copied(capi, key))
    && (forall key | key in rec.labels ::
          rec.labels[key] == if Copied(capi, key) then capi.labels[key] else was.labels[key])
    && (forall key | key != "field.cattle.io/no-creator-rbac" && key != "provisioning.cattle.io/externally-managed" ::
          (key in rec.annotations <==> key in was.annotations) &&
          (key in was.annotations ==> rec.annotations[key] == was.annotations[key]))
    && (var key := "field.cattle.io/no-creator-rbac";
        key in rec.annotations && rec.annotations[key] == if key in was.annotations then was.annotations[key] else "true")
    && (var key := "provisioning.cattle.io/externally-managed";
        (key in rec.annotations <==> c.useCAAPF) &&
        (c.useCAAPF ==> rec.annotations[key] == if key in was.annotations then was.annotations[key] else "true"))
  }

  /** The record is refreshed and no other is touched; the CAPI cluster loses the fleet addon's
      finalizer, if that addon is not in use, and nothing else. */
  ghost predicate RefreshedBy(c: Cluster, k: Key, name: string, c': Cluster)
    requires k in c.capis.objects && name in c.records.objects
  {
    var base := c.capis.objects[k];
    && k in c'.capis.objects && name in c'.records.objects
    && Refreshed(c, base, c.records.objects[name], c'.records.objects[name])
    && c'.records.objects - {name} == c.records.objects - {name}
    && c'.capis.objects[k].(version := 0) ==
       base.(version := 0, finalizers := base.finalizers - if c.useCAAPF then {} else {"fleet.addons.cluster.x-k8s.io"})
  }

  lemma AmendedRefreshes(c: Cluster, was: Record, capi: Capi)
    ensures Refreshed(c, capi, was, Amended(c, was, capi))
  {
    var rec := Amended(c, was, capi);
    forall key
      ensures key in rec.labels <==> key in was.labels || Copied(capi, key)
      ensures key in rec.labels ==> rec.labels[key] == if Copied(capi, key) then capi.labels[key] else was.labels[key]
    {
      PropagatedMeans(was.labels, capi, key);
    }
    assert NO_CREATOR_RBAC[0] == 'f' && EXTERNAL_FLEET[0] == 'p';
  }

  /** An undisturbed pass over a cluster that has a live record refreshes that record. */
  lemma RecordIsRefreshed(c: Cluster, k: Key, name: string)
    requires Candidate(c, k) && AtMostOne(c, k) && Owned(c, name, k) && !c.records.objects[name].deleting
    ensures var (c', w) := Serve(c, k, Fetch, name, 8);
            w.Idle? && RefreshedBy(Taken(c, k), k, name, c')
  {
    var c1 := Taken(c, k);
    HoldIsTaken(c, k, name, 3);
    ListRefreshes(c1, k, name);
    IdleStays(c, k, Fetch, name, 3 + if Held(c, k) then 1 else 3, 8);
  }

  /** The cluster after list, patch and closing patch. */
  function AfterRefresh(c: Cluster, k: Key, name: string): Cluster
    requires k in c.capis.objects && name in c.records.objects
  {
    var base, was := c.capis.objects[k], c.records.objects[name];
    c.(records := Update(c.records, name, was.version, Amended(c, was, base)).1,
       capis := Update(c.capis, k, base.version, Unfleeted(c, base)).1)
  }

  /** Patch and closing patch. */
  lemma PatchIsServed(c: Cluster, k: Key, base: Capi, capi: Capi, name: string, rec: Record)
    ensures Serve(c, k, PatchRecord(base, capi, name, rec), name, 2) ==
            (c.(records := Update(c.records, name, rec.version, rec).1, capis := Update(c.capis, k, base.version, capi).1), Idle)
  {
    var c1 := c.(records := Update(c.records, name, rec.version, rec).1);
    assert Work(c, k, PatchRecord(base, capi, name, rec), Smooth(name)) == (c1, FinalPatch(base, capi));
    var c2 := c1.(capis := Update(c.capis, k, base.version, capi).1);
    assert Work(c1, k, FinalPatch(base, capi), Smooth(name)) == (c2, Idle);
    assert Serve(c1, k, FinalPatch(base, capi), name, 1) == (c2, Idle);
  }

  lemma RecordIsListed(c: Cluster, k: Key, name: string)
    requires Candidate(c, k) && Owned(c, name, k) && !c.records.objects[name].deleting
    ensures var base, was := c.capis.objects[k], c.records.objects[name];
            Work(c, k, ListRecords(base), Smooth(name)) ==
            (c, PatchRecord(base, Unfleeted(c, base), name, Amended(c, was, base)))
  {
    assert name in OwnedNames(c, k);
  }

  lemma RefreshIsServed(c: Cluster, k: Key, name: string)
    requires Candidate(c, k) && Owned(c, name, k) && !c.records.objects[name].deleting
    ensures Serve(c, k, ListRecords(c.capis.objects[k]), name, 3) == (AfterRefresh(c, k, name), Idle)
  {
    var base, was := c.capis.objects[k], c.records.objects[name];
    RecordIsListed(c, k, name);
    PatchIsServed(c, k, base, Unfleeted(c, base), name, Amended(c, was, base));
  }

  lemma CapiAfterRefresh(c: Cluster, k: Key, name: string)
    requires Candidate(c, k) && name in c.records.objects
    ensures var base, capis := c.capis.objects[k], AfterRefresh(c, k, name).capis;
            && k in capis.objects
            && capis.objects[k].(version := 0) ==
               base.(version := 0, finalizers := base.finalizers - if c.useCAAPF then {} else {"fleet.addons.cluster.x-k8s.io"})
  {
    var base := c.capis.objects[k];
    assert base.finalizers - {} == base.finalizers;
  }

  lemma ListRefreshes(c: Cluster, k: Key, name: string)
    requires Candidate(c, k) && Owned(c, name, k) && !c.records.objects[name].deleting
    ensures var (c', w) := Serve(c, k, ListRecords(c.capis.objects[k]), name, 3);
            w.Idle? && RefreshedBy(c, k, name, c')
  {
    var base, was := c.capis.objects[k], c.records.objects[name];
    RefreshIsServed(c, k, name);
    CapiAfterRefresh(c, k, name);
    AmendedRefreshes(c, was, base);
    WriteRefreshes(c, name, was, Amended(c, was, base), base);
    UpdateTouches(c.records, name, was.version, Amended(c, was, base));
  }

  lemma WriteRefreshes(c: Cluster, name: string, was: Record, rec: Record, capi: Capi)
    requires name in c.records.objects && c.records.objects[name] == was && !was.deleting
    requires Refreshed(c, capi, was, rec)
    ensures var records := Update(c.records, name, was.version, rec).1;
            name in records.objects && Refreshed(c, capi, was, records.objects[name])
  {
  }

  // ---- deletion ----

  /** `o` as it stands without the turtles finalizer; a deleting object that has no other is gone. */
  ghost predicate WithoutTurtles<K, B(!new)>(s: Store<K, B>, key: K, o: Object<B>) {
    var rest := o.finalizers - {"capicluster.turtles.cattle.io"};
    if o.deleting && rest == {} then key !in s.objects
    else key in s.objects && s.objects[key].(version := 0) == o.(version := 0, finalizers := rest)
  }

  lemma TurtlesGo<K(!new), B(!new)>(s: Store<K, B>, key: K, o: Object<B>)
    requires key in s.objects && "capicluster.turtles.cattle.io" in o.finalizers
    requires s.objects[key].version == o.version && s.objects[key].deleting == o.deleting && s.objects[key].uid == o.uid
    requires o.finalizers <= s.objects[key].finalizers && "capicluster.turtles.cattle.io" in s.objects[key].finalizers
    ensures var edited := o.(finalizers := o.finalizers - {"capicluster.turtles.cattle.io"});
            var (outcome, s') := Update(s, key, o.version, edited);
            && outcome.Ok? && WithoutTurtles(s', key, o) && s'.objects - {key} == s.objects - {key}
            && (key in s'.objects ==> s'.objects[key].version == s.clock + 1)
  {
  }

  /** After a record in deletion has been found: the CAPI cluster is annotated as imported and let
      go in one write, and then the record is let go. */
  lemma DeletedRecordMeans(c: Cluster, k: Key, name: string)
    requires Valid(c.capis) && AtMostOne(c, k)
    requires k in c.capis.objects && c.capis.objects[k].body && "imported" !in c.capis.objects[k].annotations
    requires "capicluster.turtles.cattle.io" in c.capis.objects[k].finalizers
    requires Owned(c, name, k) && c.records.objects[name].deleting
    requires "capicluster.turtles.cattle.io" in c.records.objects[name].finalizers
    ensures var (c', w) := Serve(c, k, Fetch, name, 5);
            var capi, rec := c.capis.objects[k], c.records.objects[name];
            && w.Idle?
            && WithoutTurtles(c'.capis, k, capi.(annotations := capi.annotations["imported" := "true"]))
            && WithoutTurtles(c'.records, name, rec)
            && c'.capis.objects - {k} == c.capis.objects - {k}
            && c'.records.objects - {name} == c.records.objects - {name}
  {
    var base, rec := c.capis.objects[k], c.records.objects[name];
    assert name in OwnedNames(c, k);
    assert Work(c, k, Fetch, Smooth(name)) == (c, ListRecords(base));
    assert Work(c, k, ListRecords(base), Smooth(name)) == (c, Annotate(base, name, rec));
    AnnotationLetsGo(c, k, name);
    var (c1, w1) := Work(c, k, Annotate(base, name, rec), Smooth(name));
    StripLetsGo(c1, k, base, w1.capi, name);
    assert Serve(c, k, Annotate(base, name, rec), name, 3) == Serve(c1, k, w1, name, 2);
    assert Serve(c, k, ListRecords(base), name, 4) == Serve(c1, k, w1, name, 2);
  }

  lemma AnnotationLetsGo(c: Cluster, k: Key, name: string)
    requires Valid(c.capis) && k in c.capis.objects && name in c.records.objects
    requires "imported" !in c.capis.objects[k].annotations
    requires "capicluster.turtles.cattle.io" in c.capis.objects[k].finalizers
    requires "capicluster.turtles.cattle.io" in c.records.objects[name].finalizers
    ensures var base, rec := c.capis.objects[k], c.records.objects[name];
            var (c1, w1) := Work(c, k, Annotate(base, name, rec), Smooth(name));
            && w1.Strip? && w1 == Strip(base, w1.capi, name, rec) && c1 == c.(capis := c1.capis)
            && WithoutTurtles(c1.capis, k, base.(annotations := base.annotations["imported" := "true"]))
            && c1.capis.objects - {k} == c.capis.objects - {k}
            && (k in c1.capis.objects ==> c1.capis.objects[k].version != base.version)
  {
    var base := c.capis.objects[k];
    TurtlesGo(c.capis, k, base.(annotations := base.annotations["imported" := "true"]));
  }

  lemma StripLetsGo(c: Cluster, k: Key, base: Capi, capi: Capi, name: string)
    requires name in c.records.objects && c.records.objects[name].deleting
    requires "capicluster.turtles.cattle.io" in c.records.objects[name].finalizers
    requires k in c.capis.objects ==> c.capis.objects[k].version != base.version
    ensures var rec := c.records.objects[name];
            var (c', w) := Serve(c, k, Strip(base, capi, name, rec), name, 2);
            && w.Idle? && c'.capis == c.capis && WithoutTurtles(c'.records, name, rec)
            && c'.records.objects - {name} == c.records.objects - {name}
  {
    var rec := c.records.objects[name];
    var c2 := c.(records := Update(c.records, name, rec.version, rec.(finalizers := rec.finalizers - {TURTLES})).1);
    assert Work(c, k, Strip(base, capi, name, rec), Smooth(name)) == (c2, FinalPatch(base, capi));
    assert Work(c2, k, FinalPatch(base, capi), Smooth(name)) == (c2, Idle);
    assert Serve(c2, k, FinalPatch(base, capi), name, 1) == (c2, Idle);
    TurtlesGo(c.records, name, rec);
  }

  /** After a CAPI cluster in deletion has been found, without a record in deletion: its records are
      deleted, others are not, and only then is it let go; nothing else on it changes. */
  lemma DeletedClusterMeans(c: Cluster, k: Key, name: string)
    requires Valid(c.capis)
    requires k in c.capis.objects && c.capis.objects[k].body && c.capis.objects[k].deleting
    requires "imported" !in c.capis.objects[k].annotations
    requires "capicluster.turtles.cattle.io" in c.capis.objects[k].finalizers
    requires OwnedNames(c, k) == {} || (Owned(c, name, k) && !c.records.objects[name].deleting)
    ensures var (c', w) := Serve(c, k, Fetch, name, 5);
            && w.Idle? && WithoutTurtles(c'.capis, k, c.capis.objects[k])
            && c'.capis.objects - {k} == c.capis.objects - {k}
            && forall n | n in c.records.objects ::
                 var rec := c.records.objects[n];
                 if !Owns(k, rec.labels) then n in c'.records.objects && c'.records.objects[n] == rec
                 else if rec.finalizers == {} then n !in c'.records.objects
                 else n in c'.records.objects && c'.records.objects[n].(version := 0) == rec.(deleting := true, version := 0)
  {
    var base := c.capis.objects[k];
    var c1 := c.(records := DeleteMany(c.records, OwnedNames(c, k)));
    DeletionStarts(c, k, name);
    ReleaseLetsGo(c1, k, base, name);
    forall n | n in c.records.objects ensures n in OwnedNames(c, k) <==> Owns(k, c.records.objects[n].labels) {
    }
  }

  lemma ReleaseLetsGo(c: Cluster, k: Key, base: Capi, name: string)
    requires Valid(c.capis) && k in c.capis.objects && c.capis.objects[k] == base
    requires base.deleting && "capicluster.turtles.cattle.io" in base.finalizers
    ensures var (c', w) := Serve(c, k, Release(base), name, 2);
            && w.Idle? && c'.records == c.records && WithoutTurtles(c'.capis, k, base)
            && c'.capis.objects - {k} == c.capis.objects - {k}
  {
    TurtlesGo(c.capis, k, base);
    var (c1, w1) := Work(c, k, Release(base), Smooth(name));
    assert w1.FinalPatch? && w1.base == base;
    assert Work(c1, k, w1, Smooth(name)) == (c1, Idle);
    assert Serve(c1, k, w1, name, 1) == (c1, Idle);
  }

  /** The cleanup reconciler lets go a record that is in deletion, carries the turtles finalizer and
      is owned, and that nobody has changed since it read it; otherwise it does nothing. */
  lemma CleanupMeans(c: Cluster, name: string, version: nat)
    ensures var c' := Environment(c, Cleanup(name, version));
            if name in c.records.objects && c.records.objects[name].deleting
               && "capicluster.turtles.cattle.io" in c.records.objects[name].finalizers
               && "cluster-api.cattle.io/owned" in c.records.objects[name].labels
               && c.records.objects[name].version == version
            then
              && c' == c.(records := c'.records) && WithoutTurtles(c'.records, name, c.records.objects[name])
              && c'.records.objects - {name} == c.records.objects - {name}
            else c' == c
  {
    if name in c.records.objects && c.records.objects[name].version == version &&
       "capicluster.turtles.cattle.io" in c.records.objects[name].finalizers {
      TurtlesGo(c.records, name, c.records.objects[name]);
    }
  }
}

/** What a pass of the import worker achieves when nobody interferes, and why sticking needs
    the cleanup reconciler to stay out. */
module ImportProgress {
  import opened ApiServer
  import opened OwnerLabels
  import opened ImportDecision
  import opened ImportProtocol
  import opened ImportSticks

  /** Every request is served and all downstream work succeeds; `name` is listed first or generated. */
  function Smooth(name: string): Choice {
    Choice(Reply.Served, name, true, {})
  }

  /** `n` undisturbed requests. */
  function Serve(c: Cluster, k: Key, w: Worker, name: string, n: nat): (Cluster, Worker)
    decreases n
  {
    if n == 0 then (c, w)
    else
      var (c', w') := Work(c, k, w, Smooth(name));
      Serve(c', k, w', name, n - 1)
  }

  function Steps(k: Key, name: string, n: nat): seq<Action> {
    seq(n, _ => Step(k, Smooth(name)))
  }

  lemma {:induction false} ServeIsRun(s: System, k: Key, name: string, n: nat)
    ensures var s' := Run(s, Steps(k, name, n));
            (s'.cluster, WorkerOf(s', k)) == Serve(s.cluster, k, WorkerOf(s, k), name, n)
    decreases n
  {
    if n == 0 {
    } else {
      var a := Step(k, Smooth(name));
      assert Steps(k, name, n) == [a] + Steps(k, name, n - 1);
      RunAppend(s, [a], Steps(k, name, n - 1));
      RunSnoc(s, [], a);
      ServeIsRun(Apply(s, a), k, name, n - 1);
    }
  }

  /** The texts that a label may have to mean yes. */
  predicate ReadsTrue(value: string) {
    value in {"1", "t", "T", "true", "TRUE", "True"}
  }

  /** Ready, alive and not imported yet. */
  predicate Candidate(c: Cluster, k: Key) {
    && k in c.capis.objects
    && var capi := c.capis.objects[k];
       capi.body && !capi.deleting && "imported" !in capi.annotations
  }

  /** A candidate marked for import by a label of its own. */
  predicate Importable(c: Cluster, k: Key) {
    && Candidate(c, k)
    && var labels := c.capis.objects[k].labels;
       && "cluster-api.cattle.io/rancher-auto-import" in labels
       && ReadsTrue(labels["cluster-api.cattle.io/rancher-auto-import"])
  }

  function WithRecord(c: Cluster, k: Key, name: string): Cluster
    requires k in c.capis.objects
  {
    c.(records := Create(c.records, name, Amended(c, NewRecord(k), c.capis.objects[k])).1)
  }

  lemma NoRecordListed(c: Cluster, k: Key, name: string)
    requires Importable(c, k) && OwnedNames(c, k) == {}
    ensures var base := c.capis.objects[k];
            Work(c, k, ListRecords(base), Smooth(name)) ==
            (c, CheckAuto(base, Unfleeted(c, base), Amended(c, NewRecord(k), base)))
  {
  }

  lemma CreationIsServed(c: Cluster, k: Key, name: string, rec: Record)
    requires k in c.capis.objects && rec == Amended(c, NewRecord(k), c.capis.objects[k])
    ensures var base := c.capis.objects[k];
            Serve(c, k, CreateRecord(base, base, rec), name, 2) == (WithRecord(c, k, name), Idle)
  {
    var base, c' := c.capis.objects[k], WithRecord(c, k, name);
    assert Work(c, k, CreateRecord(base, base, rec), Smooth(name)) == (c', FinalPatch(base, base));
    assert Work(c', k, FinalPatch(base, base), Smooth(name)) == (c', Idle);
    assert Serve(c', k, FinalPatch(base, base), name, 1) == (c', Idle);
  }

  /** List, decide, create, and a closing patch that has nothing to change. */
  lemma ImportFromList(c: Cluster, k: Key, name: string)
    requires Importable(c, k) && OwnedNames(c, k) == {}
    ensures Serve(c, k, ListRecords(c.capis.objects[k]), name, 2).1.CreateRecord?
    ensures Serve(c, k, ListRecords(c.capis.objects[k]), name, 4) == (WithRecord(c, k, name), Idle)
  {
    var base := c.capis.objects[k];
    var rec := Amended(c, NewRecord(k), base);
    NoRecordListed(c, k, name);
    assert Work(c, k, CheckAuto(base, Unfleeted(c, base), rec), Smooth(name)) == (c, CreateRecord(base, base, rec));
    assert Serve(c, k, CheckAuto(base, Unfleeted(c, base), rec), name, 1) == (c, CreateRecord(base, base, rec));
    CreationIsServed(c, k, name, rec);
    assert Serve(c, k, CheckAuto(base, Unfleeted(c, base), rec), name, 3) == (WithRecord(c, k, name), Idle);
  }

  /** An undisturbed pass over a held, importable cluster creates its record. */
  lemma HeldClusterIsImported(c: Cluster, k: Key, name: string)
    requires Importable(c, k) && Held(c, k) && OwnedNames(c, k) == {} && name !in c.records.objects
    ensures Serve(c, k, Fetch, name, 5) == (WithRecord(c, k, name), Idle)
    ensures var c' := WithRecord(c, k, name);
            Owned(c', name, k) && !c'.records.objects[name].deleting && Held(c', k)
  {
    var base := c.capis.objects[k];
    ImportFromList(c, k, name);
    assert Work(c, k, Fetch, Smooth(name)) == (c, ListRecords(base));
    SelectorFindsExactlyItsOwn(k, k, OwnerLabelsOf(k), base.labels);
  }

  /** A cluster not yet held gets its finalizer first. */
  function WithHold(c: Cluster, k: Key): Cluster
    requires k in c.capis.objects
  {
    c.(capis := Write(c.capis, k, WithFinalizer(c.capis.objects[k])))
  }

  lemma NewClusterIsImported(c: Cluster, k: Key, name: string)
    requires Importable(c, k) && !Held(c, k) && OwnedNames(c, k) == {} && name !in c.records.objects
    ensures Serve(c, k, Fetch, name, 7) == (WithRecord(WithHold(c, k), k, name), Idle)
    ensures var c' := WithRecord(WithHold(c, k), k, name);
            Owned(c', name, k) && !c'.records.objects[name].deleting && Held(c', k)
  {
    var capi := c.capis.objects[k];
    var c1 := WithHold(c, k);
    assert Work(c, k, Fetch, Smooth(name)) == (c, FinalizerGet(RETRIES));
    assert Work(c, k, FinalizerGet(RETRIES), Smooth(name)) == (c, FinalizerPut(RETRIES, WithFinalizer(capi)));
    assert Work(c, k, FinalizerPut(RETRIES, WithFinalizer(capi)), Smooth(name)) == (c1, ListRecords(c1.capis.objects[k]));
    assert forall n :: Owned(c1, n, k) <==> Owned(c, n, k);
    assert OwnedNames(c1, k) == {};
    ImportFromList(c1, k, name);
    SelectorFindsExactlyItsOwn(k, k, OwnerLabelsOf(k), capi.labels);
    assert Serve(c, k, FinalizerPut(RETRIES, WithFinalizer(capi)), name, 5) == Serve(c1, k, ListRecords(c1.capis.objects[k]), name, 4);
    assert Serve(c, k, FinalizerGet(RETRIES), name, 6) == Serve(c, k, FinalizerPut(RETRIES, WithFinalizer(capi)), name, 5);
  }

  /** The record's finalizer goes last; the closing patch finds a newer CAPI cluster. */
  lemma StripFinishes(c: Cluster, k: Key, base: Capi, capi: Capi, name: string)
    requires AtMostOne(c, k) && Owned(c, name, k) && c.records.objects[name].deleting
    requires k in c.capis.objects ==> c.capis.objects[k].version != base.version
    ensures var rec := c.records.objects[name];
            var (c', w) := Serve(c, k, Strip(base, capi, name, rec), name, 2);
            && w.Idle? && c'.capis == c.capis
            && (name in c'.records.objects ==> TURTLES !in c'.records.objects[name].finalizers)
            && (rec.finalizers == {TURTLES} ==> OwnedNames(c', k) == {})
  {
    var rec := c.records.objects[name];
    var stripped := rec.(finalizers := rec.finalizers - {TURTLES});
    var c2 := c.(records := Update(c.records, name, rec.version, stripped).1);
    assert Work(c, k, Strip(base, capi, name, rec), Smooth(name)) == (c2, FinalPatch(base, capi));
    assert Work(c2, k, FinalPatch(base, capi), Smooth(name)) == (c2, Idle);
    assert Serve(c2, k, FinalPatch(base, capi), name, 1) == (c2, Idle);
    UpdateTouches(c.records, name, rec.version, stripped);
    forall n | n in OwnedNames(c2, k) ensures n == name {
      assert n == name || n in c2.records.objects - {name};
      assert Owned(c, n, k);
    }
  }

  /** An undisturbed pass over the deletion of a record annotates and releases the CAPI cluster
      and lets the record go. */
  lemma DeletedRecordIsReleased(c: Cluster, k: Key, name: string)
    requires Valid(c.capis) && AtMostOne(c, k)
    requires k in c.capis.objects && c.capis.objects[k].body && !Annotated(c, k) && Held(c, k)
    requires Owned(c, name, k) && c.records.objects[name].deleting
    requires TURTLES in c.records.objects[name].finalizers
    ensures var (c', w) := Serve(c, k, Fetch, name, 5);
            && w.Idle? && !Held(c', k)
            && (k in c'.capis.objects ==> Annotated(c', k))
            && (name in c'.records.objects ==> TURTLES !in c'.records.objects[name].finalizers)
            && (c.records.objects[name].finalizers == {TURTLES} ==> OwnedNames(c', k) == {})
  {
    var base, rec := c.capis.objects[k], c.records.objects[name];
    assert name in OwnedNames(c, k);
    assert Work(c, k, Fetch, Smooth(name)) == (c, ListRecords(base));
    assert Work(c, k, ListRecords(base), Smooth(name)) == (c, Annotate(base, name, rec));
    var (c1, w1) := Work(c, k, Annotate(base, name, rec), Smooth(name));
    assert c1.records == c.records && w1 == Strip(base, w1.capi, name, rec);
    assert forall n :: Owned(c1, n, k) <==> Owned(c, n, k);
    StripFinishes(c1, k, base, w1.capi, name);
    assert Serve(c, k, Annotate(base, name, rec), name, 3) == Serve(c1, k, w1, name, 2);
    assert Serve(c, k, ListRecords(base), name, 4) == Serve(c1, k, w1, name, 2);
  }

  /** The first requests over a deleted CAPI cluster: its records are deleted. */
  lemma DeletionStarts(c: Cluster, k: Key, name: string)
    requires k in c.capis.objects && c.capis.objects[k].body && !Annotated(c, k) && Held(c, k)
    requires c.capis.objects[k].deleting
    requires OwnedNames(c, k) == {} || (Owned(c, name, k) && !c.records.objects[name].deleting)
    ensures var base := c.capis.objects[k];
            var c1 := c.(records := DeleteMany(c.records, OwnedNames(c, k)));
            Serve(c, k, Fetch, name, 5) == Serve(c1, k, Release(base), name, 2) && NoLive(c1, k)
  {
    var base := c.capis.objects[k];
    var c1 := c.(records := DeleteMany(c.records, OwnedNames(c, k)));
    assert Work(c, k, Fetch, Smooth(name)) == (c, ListRecords(base));
    assert Owned(c, name, k) ==> name in OwnedNames(c, k);
    assert Work(c, k, ListRecords(base), Smooth(name)) == (c, DeleteAll(base));
    assert Work(c, k, DeleteAll(base), Smooth(name)) == (c1, Release(base));
    assert Serve(c, k, DeleteAll(base), name, 3) == Serve(c1, k, Release(base), name, 2);
    assert Serve(c, k, ListRecords(base), name, 4) == Serve(c1, k, Release(base), name, 2);
    forall n | Owned(c1, n, k) ensures c1.records.objects[n].deleting {
      assert n in OwnedNames(c, k);
    }
  }

  /** The last ones: the hold goes, and the closing patch finds a newer CAPI cluster or none. */
  lemma ReleaseFinishes(c: Cluster, k: Key, base: Capi, name: string)
    requires Valid(c.capis) && k in c.capis.objects && c.capis.objects[k] == base
    requires base.deleting && TURTLES in base.finalizers
    ensures var (c', w) := Serve(c, k, Release(base), name, 2);
            && w.Idle? && c'.records == c.records && !Held(c', k)
            && (base.finalizers == {TURTLES} ==> k !in c'.capis.objects)
  {
    var (c1, w1) := Work(c, k, Release(base), Smooth(name));
    UpdateTouches(c.capis, k, base.version, Released(base));
    assert w1.FinalPatch? && w1.base == base;
    assert Work(c1, k, w1, Smooth(name)) == (c1, Idle);
    assert Serve(c1, k, w1, name, 1) == (c1, Idle);
  }

  /** An undisturbed pass over the deletion of a CAPI cluster deletes its records and releases it. */
  lemma DeletedClusterIsReleased(c: Cluster, k: Key, name: string)
    requires Valid(c.capis)
    requires k in c.capis.objects && c.capis.objects[k].body && !Annotated(c, k) && Held(c, k)
    requires c.capis.objects[k].deleting
    requires OwnedNames(c, k) == {} || (Owned(c, name, k) && !c.records.objects[name].deleting)
    ensures var (c', w) := Serve(c, k, Fetch, name, 5);
            && w.Idle? && !Held(c', k) && NoLive(c', k)
            && (c.capis.objects[k].finalizers == {TURTLES} ==> k !in c'.capis.objects)
  {
    var c1 := c.(records := DeleteMany(c.records, OwnedNames(c, k)));
    DeletionStarts(c, k, name);
    ReleaseFinishes(c1, k, c.capis.objects[k], name);
    var c' := Serve(c, k, Fetch, name, 5).0;
    forall n | Owned(c', n, k) ensures c'.records.objects[n].deleting {
      assert Owned(c1, n, k);
    }
  }

  function PassActions(k: Key, name: string, n: nat): seq<Action> {
    [Start(k)] + Steps(k, name, n)
  }

  lemma PassServes(s: System, k: Key, name: string, n: nat)
    requires WorkerOf(s, k).Idle?
    ensures var s' := Run(s, PassActions(k, name, n));
            (s'.cluster, WorkerOf(s', k)) == Serve(s.cluster, k, Fetch, name, n)
  {
    RunAppend(s, [Start(k)], Steps(k, name, n));
    RunSnoc(s, [], Start(k));
    var s1 := Run(s, [Start(k)]);
    assert s1.cluster == s.cluster && WorkerOf(s1, k) == Fetch;
    ServeIsRun(s1, k, name, n);
  }

  /** The requests of a pass that imports: it first takes hold of a cluster that is not held. */
  function ImportingRequests(c: Cluster, k: Key): nat {
    if Held(c, k) then 5 else 7
  }

  /** The run that a user deletion and a prompt cleanup make possible. */
  function CleanupRace(k: Key, name: string, n: nat, version: nat): seq<Action> {
    PassActions(k, name, n) + [UserDeleteRecord(name)] + [Cleanup(name, version)] + PassActions(k, name, 5)
  }

  /** The state between import and deletion: one record, fresh from the reconciler. */
  ghost predicate JustImported(c: Cluster, k: Key, name: string, u: nat) {
    && Importable(c, k) && Held(c, k) && IsCapi(c, k, u)
    && Owned(c, name, k) && !c.records.objects[name].deleting && c.records.objects[name].finalizers == {TURTLES}
    && forall n :: Owned(c, n, k) ==> n == name
  }

  lemma RecordMakesImported(c: Cluster, k: Key, name: string)
    requires Importable(c, k) && Held(c, k) && OwnedNames(c, k) == {} && name !in c.records.objects
    requires Owned(WithRecord(c, k, name), name, k)
    ensures JustImported(WithRecord(c, k, name), k, name, c.capis.objects[k].uid)
  {
    var c' := WithRecord(c, k, name);
    forall n ensures Owned(c', n, k) ==> n == name {
      assert n != name && Owned(c', n, k) ==> n in OwnedNames(c, k);
    }
  }

  lemma PassImports(s: System, k: Key, name: string)
    requires Initial(s) && Importable(s.cluster, k) && name !in s.cluster.records.objects
    ensures var s1 := Run(s, PassActions(k, name, ImportingRequests(s.cluster, k)));
            WorkerOf(s1, k).Idle? && JustImported(s1.cluster, k, name, s.cluster.capis.objects[k].uid)
  {
    forall n ensures !Owned(s.cluster, n, k) {
      if n in s.cluster.records.objects {
        assert OWNER in OWNER_KEYS && OWNER !in s.cluster.records.objects[n].labels.Keys;
      }
    }
    PassServes(s, k, name, ImportingRequests(s.cluster, k));
    if Held(s.cluster, k) {
      HeldClusterIsImported(s.cluster, k, name);
      RecordMakesImported(s.cluster, k, name);
    } else {
      NewClusterIsImported(s.cluster, k, name);
      RecordMakesImported(WithHold(s.cluster, k), k, name);
    }
  }

  /** In this run the cluster is imported, loses its record, and is imported again, without a user
      edit of the CAPI cluster. */
  ghost predicate ImportsTwice(s: System, k: Key, name: string, run: seq<Action>, first: nat, lost: nat) {
    && (forall i | 0 <= i < |run| :: !run[i].UserEditCapi?)
    && first < lost < |run|
    && Owned(Run(s, run[..first]).cluster, name, k)
    && OwnedNames(Run(s, run[..lost]).cluster, k) == {}
    && Owned(Run(s, run).cluster, name, k)
    && k in s.cluster.capis.objects && IsCapi(Run(s, run).cluster, k, s.cluster.capis.objects[k].uid)
  }

  /** The second half of the race: the record is gone, and the next pass makes it anew. */
  lemma RaceImportsAgain(s1: System, k: Key, name: string, u: nat)
    requires WorkerOf(s1, k).Idle? && JustImported(s1.cluster, k, name, u)
    ensures var s3 := Apply(Apply(s1, UserDeleteRecord(name)), Cleanup(name, s1.cluster.records.clock + 1));
            var c := Run(s3, PassActions(k, name, 5)).cluster;
            OwnedNames(s3.cluster, k) == {} && Owned(c, name, k) && IsCapi(c, k, u)
  {
    RaceLosesRecord(s1, k, name, s1.cluster);
    var s3 := Apply(Apply(s1, UserDeleteRecord(name)), Cleanup(name, s1.cluster.records.clock + 1));
    HeldClusterIsImported(s3.cluster, k, name);
    PassServes(s3, k, name, 5);
  }

  /** The race after its first pass. */
  lemma RaceEnds(s: System, k: Key, name: string, n: nat, s1: System, u: nat)
    requires s1 == Run(s, PassActions(k, name, n))
    requires WorkerOf(s1, k).Idle? && JustImported(s1.cluster, k, name, u)
    ensures var run := CleanupRace(k, name, n, s1.cluster.records.clock + 1);
            && |run| > n + 3
            && OwnedNames(Run(s, run[..n + 3]).cluster, k) == {}
            && Owned(Run(s, run).cluster, name, k) && IsCapi(Run(s, run).cluster, k, u)
  {
    RaceRuns(s, k, name, n, s1.cluster.records.clock + 1);
    RaceImportsAgain(s1, k, name, u);
  }

  lemma RaceImportsTwice(s: System, k: Key, name: string, n: nat, s1: System)
    requires k in s.cluster.capis.objects && s1 == Run(s, PassActions(k, name, n))
    requires WorkerOf(s1, k).Idle? && JustImported(s1.cluster, k, name, s.cluster.capis.objects[k].uid)
    ensures ImportsTwice(s, k, name, CleanupRace(k, name, n, s1.cluster.records.clock + 1), n + 1, n + 3)
  {
    RaceEnds(s, k, name, n, s1, s.cluster.capis.objects[k].uid);
    RaceRuns(s, k, name, n, s1.cluster.records.clock + 1);
  }

  /** With the cleanup reconciler in play un-import does not stick: it may strip the record's
      finalizer before the import reconciler has annotated the CAPI cluster, which is then
      imported a second time although no user has touched it. */
  lemma CleanupBreaksSticking(s: System, k: Key, name: string)
    requires Initial(s) && Importable(s.cluster, k) && name !in s.cluster.records.objects
    ensures exists version ::
              var n := ImportingRequests(s.cluster, k);
              ImportsTwice(s, k, name, CleanupRace(k, name, n, version), n + 1, n + 3)
  {
    var n := ImportingRequests(s.cluster, k);
    PassImports(s, k, name);
    RaceImportsTwice(s, k, name, n, Run(s, PassActions(k, name, n)));
  }

  lemma RaceLosesRecord(s1: System, k: Key, name: string, c1: Cluster)
    requires s1.cluster == c1 && Importable(c1, k) && Held(c1, k) && WorkerOf(s1, k).Idle?
    requires Owned(c1, name, k) && c1.records.objects[name].finalizers == {TURTLES} && !c1.records.objects[name].deleting
    requires forall n :: Owned(c1, n, k) ==> n == name
    ensures var s3 := Apply(Apply(s1, UserDeleteRecord(name)), Cleanup(name, c1.records.clock + 1));
            && s3.cluster.capis == c1.capis && s3.workers == s1.workers
            && name !in s3.cluster.records.objects && OwnedNames(s3.cluster, k) == {}
  {
    var s2 := Apply(s1, UserDeleteRecord(name));
    assert s2.cluster.records.objects[name] ==
           c1.records.objects[name].(deleting := true, version := c1.records.clock + 1);
    var s3 := Apply(s2, Cleanup(name, c1.records.clock + 1));
    assert s3.cluster.records.objects == c1.records.objects - {name};
    forall n ensures !Owned(s3.cluster, n, k) {
      assert Owned(s3.cluster, n, k) ==> Owned(c1, n, k);
    }
  }

  lemma RaceRuns(s: System, k: Key, name: string, n: nat, version: nat)
    ensures var run := CleanupRace(k, name, n, version);
            var s1 := Run(s, PassActions(k, name, n));
            var s3 := Apply(Apply(s1, UserDeleteRecord(name)), Cleanup(name, version));
            && (forall i | 0 <= i < |run| :: !run[i].UserEditCapi?)
            && |run| > n + 3
            && Run(s, run[..n + 1]) == s1 && Run(s, run[..n + 3]) == s3
            && Run(s, run) == Run(s3, PassActions(k, name, 5))
  {
    var run := CleanupRace(k, name, n, version);
    var a1 := PassActions(k, name, n);
    assert run[..n + 1] == a1;
    assert run[..n + 2] == a1 + [UserDeleteRecord(name)];
    assert run[..n + 3] == run[..n + 2] + [Cleanup(name, version)];
    assert run[..n + 2][..n + 1] == a1 && run[..n + 3][..n + 2] == run[..n + 2];
    assert run == run[..n + 3] + PassActions(k, name, 5);
    RunAppend(s, run[..n + 3], PassActions(k, name, 5));
  }
}

/** Applying the registration manifest to the downstream cluster: the readiness check, and the
    creation of its objects one request at a time. */
module ImportManifest {
  datatype Ref = Ref(kind: string, ns: string, name: string)
  datatype Item = Item(ref: Ref, body: string)

  /** One document of the manifest: its items in order, or one that cannot be read or decoded. */
  datatype Document = Items(items: seq<Item>) | Bad

  datatype Remote = Remote(body: string, terminating: bool)
  type Objects = map<Ref, Remote>

  datatype Job = Job(labels: map<string, string>, generateName: string)

  /** What becomes of a request: carried out and answered, not carried out, or carried out with
      the answer lost. */
  datatype Fate = Served | Refused | Lost

  // ---- what applying items means ----

  /** The items of the documents before the first bad one, in manifest order. */
  function Reached(docs: seq<Document>): seq<Item> {
    if docs == [] || docs[0].Bad? then [] else docs[0].items + Reached(docs[1..])
  }

  predicate Decodes(docs: seq<Document>) {
    forall i | 0 <= i < |docs| :: docs[i].Items?
  }

  predicate Listed(items: seq<Item>, ref: Ref) {
    exists i | 0 <= i < |items| :: items[i].ref == ref
  }

  /** Each item is created unless an object of its name exists. */
  function Applied(c: Objects, items: seq<Item>): Objects {
    if items == [] then c
    else
      var before := Applied(c, items[..|items| - 1]);
      var last := items[|items| - 1];
      if last.ref in before then before else before[last.ref := Remote(last.body, false)]
  }

  lemma {:induction false} AppliedKeeps(c: Objects, items: seq<Item>, ref: Ref)
    ensures ref in c ==> ref in Applied(c, items) && Applied(c, items)[ref] == c[ref]
    ensures ref in Applied(c, items) <==> ref in c || Listed(items, ref)
  {
    if items != [] {
      var most, last := items[..|items| - 1], items[|items| - 1];
      AppliedKeeps(c, most, ref);
      if Listed(most, ref) {
        var i :| 0 <= i < |most| && most[i].ref == ref;
        assert items[i].ref == ref;
      }
      assert items == most + [last];
    }
  }

  /** `items[i]` is the first of its name. */
  predicate FirstListed(items: seq<Item>, ref: Ref, i: nat) {
    i < |items| && items[i].ref == ref && forall j | 0 <= j < i :: items[j].ref != ref
  }

  lemma {:induction false} AppliedCreates(c: Objects, items: seq<Item>, ref: Ref) returns (i: nat)
    requires ref in Applied(c, items) && ref !in c
    ensures FirstListed(items, ref, i) && Applied(c, items)[ref] == Remote(items[i].body, false)
  {
    var most, last := items[..|items| - 1], items[|items| - 1];
    if ref in Applied(c, most) {
      i := AppliedCreates(c, most, ref);
      assert forall j | 0 <= j <= i :: items[j] == most[j];
    } else {
      i := |items| - 1;
      AppliedKeeps(c, most, ref);
      assert forall j | 0 <= j < i :: items[j] == most[j];
    }
  }

  /** Existing objects stay as they are; what is new is exactly what was listed and missing, each
      as the first item of its name says. */
  lemma AppliedMeans(c: Objects, items: seq<Item>)
    ensures var after := Applied(c, items);
            && (forall ref | ref in c :: ref in after && after[ref] == c[ref])
            && (forall ref :: ref in after <==> ref in c || Listed(items, ref))
            && (forall ref | ref in after && ref !in c ::
                  exists i: nat :: FirstListed(items, ref, i) && after[ref] == Remote(items[i].body, false))
  {
    var after := Applied(c, items);
    forall ref ensures (ref in c ==> ref in after && after[ref] == c[ref]) && (ref in after <==> ref in c || Listed(items, ref)) {
      AppliedKeeps(c, items, ref);
    }
    forall ref | ref in after && ref !in c
      ensures exists i: nat :: FirstListed(items, ref, i) && after[ref] == Remote(items[i].body, false)
    {
      var i := AppliedCreates(c, items, ref);
    }
  }

  /** Applying a prefix first makes no difference to applying the whole. */
  lemma {:induction false} PrefixFirst(c: Objects, items: seq<Item>, n: nat)
    requires n <= |items|
    ensures Applied(Applied(c, items[..n]), items) == Applied(c, items)
    decreases |items|
  {
    if n == |items| {
      assert items[..n] == items;
      AppliedMeans(c, items);
      AppliedIdle(Applied(c, items), items);
    } else {
      var most := items[..|items| - 1];
      assert most[..n] == items[..n];
      PrefixFirst(c, most, n);
    }
  }

  /** With every item there, applying does nothing. */
  lemma {:induction false} AppliedIdle(c: Objects, items: seq<Item>)
    requires forall i | 0 <= i < |items| :: items[i].ref in c
    ensures Applied(c, items) == c
  {
    if items != [] {
      AppliedIdle(c, items[..|items| - 1]);
    }
  }

  lemma AppliedSnoc(c: Objects, items: seq<Item>, last: Item)
    ensures var before := Applied(c, items);
            Applied(c, items + [last]) == if last.ref in before then before else before[last.ref := Remote(last.body, false)]
  {
    assert (items + [last])[..|items|] == items;
  }

  lemma {:induction false} AppliedInTurn(c: Objects, items: seq<Item>, more: seq<Item>)
    ensures Applied(Applied(c, items), more) == Applied(c, items + more)
  {
    if more == [] {
      assert items + more == items;
    } else {
      AppliedInTurn(c, items, more[..|more| - 1]);
      assert (items + more)[..|items + more| - 1] == items + more[..|more| - 1];
    }
  }

  lemma {:induction false} ReachedSnoc(docs: seq<Document>, i: nat)
    requires i < |docs| && Decodes(docs[..i])
    ensures docs[i].Items? ==> Reached(docs[..i + 1]) == Reached(docs[..i]) + docs[i].items
    ensures Reached(docs[..i]) <= Reached(docs)
    ensures docs[i].Bad? ==> Reached(docs) == Reached(docs[..i])
    ensures docs[i].Items? ==> Reached(docs[..i + 1]) <= Reached(docs)
  {
    if i == 0 {
      assert docs[..1][1..] == [];
    } else {
      assert docs[..i][0] == docs[0];
      assert Decodes(docs[1..][..i - 1]) by {
        assert docs[1..][..i - 1] == docs[..i][1..];
      }
      ReachedSnoc(docs[1..], i - 1);
      assert docs[..i][1..] == docs[1..][..i - 1] && docs[..i + 1][1..] == docs[1..][..i];
      assert docs[1..][i - 1] == docs[i];
    }
  }

  /** The number of items in the documents before the `i`-th. */
  function Offset(docs: seq<Document>, i: nat): nat
    requires i <= |docs| && Decodes(docs)
  {
    if i == 0 then 0 else Offset(docs, i - 1) + |docs[i - 1].items|
  }

  lemma {:induction false} ReachedPrefix(docs: seq<Document>, i: nat)
    requires i <= |docs| && Decodes(docs)
    ensures |Reached(docs[..i])| == Offset(docs, i) && Reached(docs[..i]) <= Reached(docs)
  {
    if i == 0 {
      assert docs[..0] == [];
    } else {
      ReachedPrefix(docs, i - 1);
      ReachedSnoc(docs, i - 1);
    }
  }

  /** Manifest order: the documents in order, and the items of each in order. */
  lemma ReachedOrder(docs: seq<Document>, i: nat, k: nat)
    requires Decodes(docs) && i < |docs| && k < |docs[i].items|
    ensures Offset(docs, i) + k < |Reached(docs)|
    ensures Reached(docs)[Offset(docs, i) + k] == docs[i].items[k]
  {
    ReachedPrefix(docs, i);
    ReachedPrefix(docs, i + 1);
    ReachedSnoc(docs, i);
    assert Reached(docs[..i + 1])[Offset(docs, i) + k] == docs[i].items[k];
  }

  lemma PrefixGrows(all: seq<Item>, done: seq<Item>, items: seq<Item>, m: nat)
    requires done + items <= all && m <= |items|
    ensures all[..|done| + m] == done + items[..m]
  {
    assert all[..|done + items|] == done + items;
  }

  // ---- the downstream cluster ----

  class RemoteCluster {
    var objects: Objects
    var jobs: seq<Job>
    var fates: seq<Fate>    // of the coming requests; Served when none is left

    constructor (objects: Objects, jobs: seq<Job>, fates: seq<Fate>)
      ensures this.objects == objects && this.jobs == jobs && this.fates == fates
    {
      this.objects, this.jobs, this.fates := objects, jobs, fates;
    }

    method NextFate() returns (fate: Fate)
      modifies this`fates
      ensures old(fates) == [] ==> fate == Served && fates == []
      ensures old(fates) != [] ==> fate == old(fates)[0] && fates == old(fates)[1..]
    {
      fate := Served;
      if fates != [] {
        fate, fates := fates[0], fates[1..];
      }
    }

    /** `createObject`: an object that exists already is no error, and stays as it is. `carried`
        says whether the request reached the cluster. */
    method CreateObject(item: Item) returns (ok: bool, ghost carried: bool)
      modifies this`objects, this`fates
      ensures objects == if carried then Applied(old(objects), [item]) else old(objects)
      ensures ok ==> carried
      ensures old(fates) == [] ==> ok && fates == []
    {
      var fate := NextFate();
      carried := !fate.Refused?;
      AppliedSnoc(objects, [], item);
      assert [] + [item] == [item];
      if !fate.Refused? && item.ref !in objects {
        objects := objects[item.ref := Remote(item.body, false)];
      }
      ok := fate.Served?;
    }

    /** `createRawManifest` */
    method CreateItems(items: seq<Item>) returns (ok: bool, ghost n: nat)
      modifies this`objects, this`fates
      ensures n <= |items| && objects == Applied(old(objects), items[..n])
      ensures ok ==> n == |items|
      ensures old(fates) == [] ==> ok && fates == []
    {
      n := 0;
      assert items[..0] == [];
      for i := 0 to |items|
        invariant n == i && objects == Applied(old(objects), items[..n])
        invariant old(fates) == [] ==> fates == []
      {
        ghost var carried;
        AppliedInTurn(old(objects), items[..i], [items[i]]);
        assert items[..i + 1] == items[..i] + [items[i]];
        ok, carried := CreateObject(items[i]);
        n := if carried then i + 1 else i;
        if !ok { return; }
      }
      return true, |items|;
    }

    /** `createImportManifest`: whatever fails, the objects created are those of a prefix of the
        manifest that were missing; it stops early only at a failed request or a bad document. */
    method CreateImportManifest(docs: seq<Document>) returns (ok: bool, ghost n: nat)
      modifies this`objects, this`fates
      ensures n <= |Reached(docs)| && objects == Applied(old(objects), Reached(docs)[..n])
      ensures ok ==> Decodes(docs) && n == |Reached(docs)|
      ensures old(fates) == [] ==> (ok <==> Decodes(docs)) && n == |Reached(docs)| && fates == []
    {
      n := 0;
      assert docs[..0] == [];
      for i := 0 to |docs|
        invariant Decodes(docs[..i])
        invariant n == |Reached(docs[..i])| && objects == Applied(old(objects), Reached(docs[..i]))
        invariant old(fates) == [] ==> fates == []
      {
        ReachedSnoc(docs, i);
        ghost var done := Reached(docs[..i]);
        if docs[i].Bad? {
          assert Reached(docs)[..n] == done;
          return false, n;
        }
        ghost var m;
        ok, m := CreateItems(docs[i].items);
        AppliedInTurn(old(objects), done, docs[i].items[..m]);
        PrefixGrows(Reached(docs), done, docs[i].items, m);
        n := n + m;
        if !ok { return; }
        assert docs[i].items[..m] == docs[i].items;
        assert docs[..i + 1] == docs[..i] + [docs[i]];
      }
      assert docs[..|docs|] == docs;
      assert Reached(docs)[..n] == Reached(docs);
      ok := true;
    }

    /** `checkDeletion` */
    method CheckDeletion(item: Item) returns (requeue: bool, ok: bool)
      modifies this`fates
      ensures ok ==> (requeue <==> item.ref in objects && objects[item.ref].terminating)
      ensures !ok ==> !requeue
      ensures old(fates) == [] ==> ok && fates == []
    {
      var fate := NextFate();
      if !fate.Served? { return false, false; }
      return item.ref in objects && objects[item.ref].terminating, true;
    }

    /** `validateImportReadiness`: no cleanup job is at work and nothing of the manifest is being
        deleted. It only looks. */
    method ValidateImportReadiness(docs: seq<Document>) returns (requeue: bool, ok: bool)
      modifies this`fates
      ensures ok && !requeue ==> Decodes(docs) && !CleanupAtWork(jobs) && !Terminating(objects, Reached(docs))
      ensures ok && !requeue ==>
                && (forall i | 0 <= i < |jobs| ::
                      !("cattle.io/creator" in jobs[i].labels && jobs[i].labels["cattle.io/creator"] == "norman" &&
                        jobs[i].generateName == "cattle-cleanup-"))
                && (forall i, k | 0 <= i < |docs| && 0 <= k < |docs[i].items| && docs[i].items[k].ref in objects ::
                      !objects[docs[i].items[k].ref].terminating)
      ensures ok && requeue ==> CleanupAtWork(jobs) || Terminating(objects, Reached(docs))
      ensures ok && requeue ==>
                || (exists i | 0 <= i < |jobs| ::
                      && "cattle.io/creator" in jobs[i].labels && jobs[i].labels["cattle.io/creator"] == "norman"
                      && jobs[i].generateName == "cattle-cleanup-")
                || (exists i | 0 <= i < |Reached(docs)| ::
                      Reached(docs)[i].ref in objects && objects[Reached(docs)[i].ref].terminating)
      ensures !ok ==> !requeue
      ensures old(fates) == [] && !ok ==> !Decodes(docs) && !CleanupAtWork(jobs)
    {
      var fate := NextFate();
      if !fate.Served? { return false, false; }
      for i := 0 to |jobs|
        invariant forall j | 0 <= j < i :: !IsCleanup(jobs[j])
      {
        if IsCleanup(jobs[i]) { return true, true; }
      }
      assert docs[..0] == [];
      for i := 0 to |docs|
        invariant Decodes(docs[..i]) && !Terminating(objects, Reached(docs[..i]))
        invariant old(fates) == [] ==> fates == []
      {
        ReachedSnoc(docs, i);
        if docs[i].Bad? { return false, false; }
        ghost var done := Reached(docs[..i]);
        var items := docs[i].items;
        for k := 0 to |items|
          invariant forall j | 0 <= j < k :: !IsTerminating(objects, items[j])
          invariant old(fates) == [] ==> fates == []
        {
          requeue, ok := CheckDeletion(items[k]);
          if !ok || requeue {
            assert ok ==> Reached(docs)[|done| + k] == items[k];
            return;
          }
        }
        assert docs[..i + 1] == docs[..i] + [docs[i]];
      }
      assert docs[..|docs|] == docs;
      forall i, k | 0 <= i < |docs| && 0 <= k < |docs[i].items| ensures !IsTerminating(objects, docs[i].items[k]) {
        ReachedOrder(docs, i, k);
      }
      return false, true;
    }

    /** The last steps of the import: check, then create. When they finish, every object of the
        manifest exists and none is being deleted. */
    method Import(docs: seq<Document>) returns (outcome: Outcome)
      modifies this`objects, this`fates
      ensures exists n | 0 <= n <= |Reached(docs)| :: objects == Applied(old(objects), Reached(docs)[..n])
      ensures outcome.Done? ==>
                && Decodes(docs) && objects == Applied(old(objects), Reached(docs))
                && forall i | 0 <= i < |Reached(docs)| ::
                     Reached(docs)[i].ref in objects && !objects[Reached(docs)[i].ref].terminating
      ensures outcome.Done? ==>
                forall i, k | 0 <= i < |docs| && 0 <= k < |docs[i].items| ::
                  docs[i].items[k].ref in objects && !objects[docs[i].items[k].ref].terminating
      ensures outcome.Requeue? ==>
                objects == old(objects) && (CleanupAtWork(jobs) || Terminating(objects, Reached(docs)))
    {
      assert Reached(docs)[..0] == [] && objects == Applied(objects, Reached(docs)[..0]);
      var requeue, ok := ValidateImportReadiness(docs);
      if !ok { return Failed; }
      if requeue { return Requeue; }
      ghost var n;
      ok, n := CreateImportManifest(docs);
      if !ok { return Failed; }
      assert Reached(docs)[..n] == Reached(docs);
      CleanApplied(old(objects), Reached(docs));
      forall i, k | 0 <= i < |docs| && 0 <= k < |docs[i].items|
        ensures docs[i].items[k].ref in objects && !objects[docs[i].items[k].ref].terminating
      {
        ReachedOrder(docs, i, k);
      }
      return Done;
    }
  }

  datatype Outcome = Done | Requeue | Failed

  predicate IsCleanup(job: Job) {
    && "cattle.io/creator" in job.labels && job.labels["cattle.io/creator"] == "norman"
    && job.generateName == "cattle-cleanup-"
  }

  predicate CleanupAtWork(jobs: seq<Job>) {
    exists i | 0 <= i < |jobs| :: IsCleanup(jobs[i])
  }

  predicate IsTerminating(c: Objects, item: Item) {
    item.ref in c && c[item.ref].terminating
  }

  predicate Terminating(c: Objects, items: seq<Item>) {
    exists i | 0 <= i < |items| :: IsTerminating(c, items[i])
  }

  lemma CleanApplied(c: Objects, items: seq<Item>)
    requires !Terminating(c, items)
    ensures var after := Applied(c, items);
            forall i | 0 <= i < |items| :: items[i].ref in after && !after[items[i].ref].terminating
  {
    AppliedMeans(c, items);
    var after := Applied(c, items);
    forall i | 0 <= i < |items| ensures items[i].ref in after && !after[items[i].ref].terminating {
      assert Listed(items, items[i].ref);
      assert !IsTerminating(c, items[i]);
    }
  }

  /** Retries converge: however many attempts fail half-way, one that goes through leaves what a
      first attempt without failures would have left. */
  method ImportWithRetries(remote: RemoteCluster, docs: seq<Document>, attempts: nat) returns (done: bool)
    modifies remote`objects, remote`fates
    ensures done ==> Decodes(docs) && remote.objects == Applied(old(remote.objects), Reached(docs))
    ensures exists n | 0 <= n <= |Reached(docs)| :: remote.objects == Applied(old(remote.objects), Reached(docs)[..n])
    ensures forall ref | ref in old(remote.objects) :: ref in remote.objects && remote.objects[ref] == old(remote.objects)[ref]
    ensures old(remote.fates) == [] && attempts > 0 ==> (done <==> Decodes(docs))
  {
    done := false;
    ghost var n: nat := 0;
    ghost var was, items := remote.objects, Reached(docs);
    assert items[..0] == [];
    for i := 0 to attempts
      invariant !done && n <= |items|
      invariant old(remote.fates) == [] ==> remote.fates == [] && (i > 0 ==> !Decodes(docs))
      invariant remote.objects == Applied(was, items[..n])
    {
      ghost var m;
      done, m := remote.CreateImportManifest(docs);
      PrefixTwice(was, items, n, m);
      n := if n < m then m else n;
      if done {
        assert items[..|items|] == items;
        AppliedMeans(was, items);
        return;
      }
    }
    AppliedMeans(was, items[..n]);
  }

  /** Applying two prefixes is applying the longer one. */
  lemma PrefixTwice(c: Objects, items: seq<Item>, n: nat, m: nat)
    requires n <= |items| && m <= |items|
    ensures Applied(Applied(c, items[..n]), items[..m]) == Applied(c, items[..if n < m then m else n])
  {
    if n <= m {
      assert items[..m][..n] == items[..n];
      PrefixFirst(c, items[..m], n);
    } else {
      AppliedMeans(c, items[..n]);
      var after := Applied(c, items[..n]);
      forall i | 0 <= i < |items[..m]| ensures items[..m][i].ref in after {
        assert items[..n][i] == items[..m][i];
        assert Listed(items[..n], items[..m][i].ref);
      }
      AppliedIdle(after, items[..m]);
    }
  }
}

/** The removal of cert-manager leftovers from a live cluster, request by request. A pass may
    fail at any request; rerunning it reaches the same cluster. */
module CertManagerCleanup {
  import opened Manifest
  import opened Wrappers

  const PROVIDER_LABEL := "cluster.x-k8s.io/provider"

  datatype Kind = Certificates | Issuers | CRDs | Mutating | Validating | Deployments | Others

  /** Kinds that are listed in the provider's namespace only; the others have no namespace. */
  predicate Namespaced(kind: Kind) {
    kind != CRDs && kind != Mutating && kind != Validating
  }

  datatype Id = Id(kind: Kind, ns: string, name: string)

  /** `restartedAt` is the rollout annotation of a deployment's template. */
  datatype Resource = Resource(
    labels: Strings,
    annotations: Option<Strings>,
    finalizers: set<string>,
    deleting: bool,
    restartedAt: Option<string>,
    rest: string)

  type Cluster = map<Id, Resource>

  /** The provider's namespace and the two values its label may have. */
  datatype Selector = Selector(ns: string, values: set<string>)

  /** `getSelector`: the provider's name with and without the prefix of its type. */
  function SelectorOf(ns: string, typePrefix: string, specName: string, name: string): Selector {
    var providerName := if specName != "" then specName else name;
    Selector(ns, {typePrefix + providerName, providerName})
  }

  predicate Selected(p: Selector, id: Id, r: Resource) {
    && (Namespaced(id.kind) ==> id.ns == p.ns)
    && PROVIDER_LABEL in r.labels && r.labels[PROVIDER_LABEL] in p.values
    && !id.kind.Others?
  }

  // ---- what a pass does to each object ----

  function Deleted(r: Resource): Option<Resource> {
    if r.finalizers == {} then None else Some(r.(deleting := true))
  }

  function Stripped(r: Resource): Resource {
    if r.annotations.None? then r else r.(annotations := Some(r.annotations.value - {INJECT}))
  }

  function Goal(id: Id, r: Resource, now: string): Option<Resource> {
    match id.kind
    case Certificates => Deleted(r)
    case Issuers => Deleted(r)
    case Deployments => Some(r.(restartedAt := Some(now)))
    case Others => Some(r)
    case _ => Some(Stripped(r))
  }

  /** The cluster after the objects in `done` have been dealt with. */
  function After(c: Cluster, done: set<Id>, now: string): Cluster {
    map id | id in c && (id in done ==> Goal(id, c[id], now).Some?) ::
      if id in done then Goal(id, c[id], now).value else c[id]
  }

  function SelectedIds(c: Cluster, p: Selector): set<Id> {
    set id | id in c && Selected(p, id, c[id])
  }

  function OfKind(c: Cluster, p: Selector, kind: Kind): set<Id> {
    set id | id in c && Selected(p, id, c[id]) && id.kind == kind
  }

  /** Everything but the rollout annotations. */
  function Erased(c: Cluster): Cluster {
    map id | id in c :: c[id].(restartedAt := None)
  }

  lemma GoalTwice(id: Id, r: Resource, now: string, now': string)
    ensures Goal(id, r, now).Some? ==>
              var r' := Goal(id, r, now).value;
              && r'.labels == r.labels
              && Goal(id, r', now).Some? && Goal(id, r', now).value == r'
              && Goal(id, r', now') == Goal(id, r, now')
  {
    if r.annotations.Some? {
      assert r.annotations.value - {INJECT} - {INJECT} == r.annotations.value - {INJECT};
    }
  }

  /** Passes compose: dealing with some objects and then with others is dealing with all of them. */
  lemma AfterAfter(c: Cluster, done: set<Id>, more: set<Id>, now: string)
    ensures After(After(c, done, now), more, now) == After(c, done + more, now)
  {
    forall id | id in c { GoalTwice(id, c[id], now, now); }
  }

  lemma AfterNone(c: Cluster, now: string)
    ensures After(c, {}, now) == c
  {
  }

  /** Selection is by label, and no pass changes a label. */
  lemma AfterKeepsSelection(c: Cluster, done: set<Id>, now: string, p: Selector, kind: Kind)
    ensures OfKind(After(c, done, now), p, kind) <= OfKind(c, p, kind)
    ensures (forall id | id in done :: id.kind != kind) ==>
              OfKind(After(c, done, now), p, kind) == OfKind(c, p, kind)
  {
    forall id | id in c { GoalTwice(id, c[id], now, now); }
  }

  // ---- the passes as they are written ----

  class Provider {
    const selector: Selector
    var cluster: Cluster
    var converted: bool       // the WranglerManagedCertificates condition
    var faults: seq<bool>     // which of the coming requests fail

    constructor (ns: string, typePrefix: string, specName: string, name: string,
                 cluster: Cluster, converted: bool, faults: seq<bool>)
      ensures selector == SelectorOf(ns, typePrefix, specName, name)
      ensures this.cluster == cluster && this.converted == converted && this.faults == faults
    {
      selector := SelectorOf(ns, typePrefix, specName, name);
      this.cluster, this.converted, this.faults := cluster, converted, faults;
    }

    /** Whether the next request goes through. */
    method Request() returns (ok: bool)
      modifies this`faults
      ensures faults == if old(faults) == [] then [] else old(faults)[1..]
      ensures ok == (old(faults) == [] || !old(faults)[0])
    {
      ok := true;
      if faults != [] {
        ok := !faults[0];
        faults := faults[1..];
      }
    }

    /** List the selected objects of a kind and delete each. */
    method DeleteKind(kind: Kind, now: string) returns (ok: bool, ghost done: set<Id>)
      requires kind.Certificates? || kind.Issuers?
      modifies this`cluster, this`faults
      ensures done <= OfKind(old(cluster), selector, kind) && cluster == After(old(cluster), done, now)
      ensures ok ==> done == OfKind(old(cluster), selector, kind)
      ensures old(faults) == [] ==> ok && faults == []
    {
      done := {};
      AfterNone(cluster, now);
      ok := Request();
      if !ok { return; }
      var listed := OfKind(cluster, selector, kind);
      var todo := listed;
      while todo != {}
        invariant todo <= listed && done == listed - todo
        invariant cluster == After(old(cluster), done, now)
        invariant old(faults) == [] ==> ok && faults == []
        decreases todo
      {
        var id :| id in todo;
        ok := Request();
        if !ok { return; }
        AfterAfter(old(cluster), done, {id}, now);
        assert id in cluster && cluster[id] == old(cluster)[id];
        if cluster[id].finalizers == {} {
          cluster := cluster - {id};
        } else {
          cluster := cluster[id := cluster[id].(deleting := true)];
        }
        assert cluster == After(After(old(cluster), done, now), {id}, now);
        todo := todo - {id};
        done := done + {id};
      }
    }

    /** List the selected objects of a kind and take the inject annotation off each that has it. */
    method StripKind(kind: Kind, now: string) returns (ok: bool, ghost done: set<Id>)
      requires kind.CRDs? || kind.Mutating? || kind.Validating?
      modifies this`cluster, this`faults
      ensures done <= OfKind(old(cluster), selector, kind) && cluster == After(old(cluster), done, now)
      ensures ok ==> done == OfKind(old(cluster), selector, kind)
      ensures old(faults) == [] ==> ok && faults == []
    {
      done := {};
      AfterNone(cluster, now);
      ok := Request();
      if !ok { return; }
      var listed := OfKind(cluster, selector, kind);
      var todo := listed;
      while todo != {}
        invariant todo <= listed && done == listed - todo && ok
        invariant cluster == After(old(cluster), done, now)
        invariant old(faults) == [] ==> ok && faults == []
        decreases todo
      {
        var id :| id in todo;
        AfterAfter(old(cluster), done, {id}, now);
        assert id in cluster && cluster[id] == old(cluster)[id];
        var annotations := cluster[id].annotations;
        if annotations.Some? && INJECT in annotations.value {
          ok := Request();
          if !ok { return; }
          cluster := cluster[id := cluster[id].(annotations := Some(annotations.value - {INJECT}))];
        } else {
          assert annotations.Some? ==> annotations.value - {INJECT} == annotations.value;
        }
        assert cluster == After(After(old(cluster), done, now), {id}, now);
        todo := todo - {id};
        done := done + {id};
      }
    }

    /** `providerDeploymentRestart` */
    method RestartDeployments(now: string) returns (ok: bool, ghost done: set<Id>)
      modifies this`cluster, this`faults
      ensures done <= OfKind(old(cluster), selector, Deployments) && cluster == After(old(cluster), done, now)
      ensures ok ==> done == OfKind(old(cluster), selector, Deployments)
      ensures old(faults) == [] ==> ok && faults == []
    {
      done := {};
      AfterNone(cluster, now);
      ok := Request();
      if !ok { return; }
      var listed := OfKind(cluster, selector, Deployments);
      var todo := listed;
      while todo != {}
        invariant todo <= listed && done == listed - todo
        invariant cluster == After(old(cluster), done, now)
        invariant old(faults) == [] ==> ok && faults == []
        decreases todo
      {
        var id :| id in todo;
        ok := Request();
        if !ok { return; }
        AfterAfter(old(cluster), done, {id}, now);
        assert id in cluster && cluster[id] == old(cluster)[id];
        cluster := cluster[id := cluster[id].(restartedAt := Some(now))];
        assert cluster == After(After(old(cluster), done, now), {id}, now);
        todo := todo - {id};
        done := done + {id};
      }
    }

    /** `CleanupCertManagerResources`: success means that every selected object has been dealt
        with; a failure leaves some dealt with and the condition unset. */
    method CleanupCertManagerResources(now: string) returns (ok: bool, ghost done: set<Id>)
      modifies this`cluster, this`faults, this`converted
      ensures old(faults) == [] ==> ok && faults == []
      ensures old(converted) ==> ok && converted && cluster == old(cluster)
      ensures !old(converted) ==>
                && done <= SelectedIds(old(cluster), selector) && cluster == After(old(cluster), done, now)
                && converted == ok
                && (ok ==> done == SelectedIds(old(cluster), selector))
    {
      done := {};
      AfterNone(cluster, now);
      if converted { return true, {}; }
      var kinds := [Certificates, Issuers, CRDs, Mutating, Validating, Deployments];
      ok := true;
      for i := 0 to |kinds|
        invariant ok && !converted
        invariant done == set id | id in SelectedIds(old(cluster), selector) && id.kind in kinds[..i]
        invariant cluster == After(old(cluster), done, now)
        invariant old(faults) == [] ==> faults == []
      {
        ghost var more;
        AfterKeepsSelection(old(cluster), done, now, selector, kinds[i]);
        forall id | id in done ensures id.kind != kinds[i] {
          var j :| 0 <= j < i && kinds[j] == id.kind;
        }
        if i < 2 {
          ok, more := DeleteKind(kinds[i], now);
        } else if i < 5 {
          ok, more := StripKind(kinds[i], now);
        } else {
          ok, more := RestartDeployments(now);
        }
        AfterAfter(old(cluster), done, more, now);
        done := done + more;
        if !ok { return; }
        assert kinds[..i + 1] == kinds[..i] + [kinds[i]];
      }
      assert kinds[..|kinds|] == kinds;
      forall id | id in SelectedIds(old(cluster), selector) ensures id.kind in kinds {
      }
      converted := true;
    }
  }

  // ---- what success means ----

  /** After a successful pass nothing of cert-manager is left among the selected objects: what
      is left of Certificates and Issuers is in deletion, and no annotation remains. Objects that
      are not selected are as they were. */
  lemma SuccessMeans(c: Cluster, p: Selector, now: string)
    ensures var c' := After(c, SelectedIds(c, p), now);
            && (forall id | id in c' && Selected(p, id, c'[id]) && (id.kind.Certificates? || id.kind.Issuers?) ::
                  c'[id].deleting && c'[id].finalizers != {})
            && (forall id | id in c' && Selected(p, id, c'[id]) && (id.kind.CRDs? || id.kind.Mutating? || id.kind.Validating?) ::
                  c'[id].annotations.Some? ==> INJECT !in c'[id].annotations.value)
            && (forall id | id in c && !Selected(p, id, c[id]) :: id in c' && c'[id] == c[id])
            && c'.Keys <= c.Keys
  {
    forall id | id in c { GoalTwice(id, c[id], now, now); }
  }

  /** An object that a provider's pass is to deal with: of a kind that it looks at, in the provider's
      namespace if the kind has namespaces, and labelled with the provider's name, as it is or with the
      prefix of its type. */
  predicate InScope(ns: string, typePrefix: string, specName: string, name: string, id: Id, r: Resource) {
    var providerName := if specName != "" then specName else name;
    && (id.kind in {CRDs, Mutating, Validating} || (id.kind in {Certificates, Issuers, Deployments} && id.ns == ns))
    && "cluster.x-k8s.io/provider" in r.labels
    && r.labels["cluster.x-k8s.io/provider"] in {providerName, typePrefix + providerName}
  }

  /** What a pass makes of an object: Certificates and Issuers are deleted, or marked while
      finalizers keep them; CRDs and webhook configurations lose the inject annotation;
      Deployments are restarted. */
  ghost predicate DealtWith(c: Cluster, id: Id, was: Resource, now: string) {
    if id.kind == Certificates || id.kind == Issuers then
      if was.finalizers == {} then id !in c else id in c && c[id] == was.(deleting := true)
    else if id.kind == Deployments then id in c && c[id] == was.(restartedAt := Some(now))
    else
      && id in c && c[id].(annotations := was.annotations) == was
      && match was.annotations
         case None => c[id].annotations == None
         case Some(annotations) => c[id].annotations == Some(annotations - {"cert-manager.io/inject-ca-from"})
  }

  lemma ScopeIsSelected(ns: string, typePrefix: string, specName: string, name: string, id: Id, r: Resource)
    ensures InScope(ns, typePrefix, specName, name, id, r) <==> Selected(SelectorOf(ns, typePrefix, specName, name), id, r)
  {
    match id.kind
    case Certificates =>
    case Issuers =>
    case CRDs =>
    case Mutating =>
    case Validating =>
    case Deployments =>
    case Others =>
  }

  lemma PassDealsWith(ns: string, typePrefix: string, specName: string, name: string, was: Cluster, done: set<Id>, now: string)
    ensures var c, p := After(was, done, now), SelectorOf(ns, typePrefix, specName, name);
            && c.Keys <= was.Keys
            && (done == SelectedIds(was, p) ==>
                  forall id | id in was ::
                    if InScope(ns, typePrefix, specName, name, id, was[id]) then DealtWith(c, id, was[id], now)
                    else id in c && c[id] == was[id])
            && (done <= SelectedIds(was, p) ==>
                  forall id | id in was ::
                    || (id in c && c[id] == was[id])
                    || (InScope(ns, typePrefix, specName, name, id, was[id]) && DealtWith(c, id, was[id], now)))
  {
    forall id | id in was ensures InScope(ns, typePrefix, specName, name, id, was[id]) <==>
                                    id in SelectedIds(was, SelectorOf(ns, typePrefix, specName, name)) {
      ScopeIsSelected(ns, typePrefix, specName, name, id, was[id]);
    }
  }

  /** A pass for a provider, by its names alone: it succeeds exactly if the condition is set; then
      everything in scope has been dealt with, and in any case nothing else has been touched. */
  method Convert(ns: string, typePrefix: string, specName: string, name: string,
                 cluster: Cluster, faults: seq<bool>, now: string)
    returns (ok: bool, converted: bool, after: Cluster)
    ensures converted == ok && (faults == [] ==> ok)
    ensures after.Keys <= cluster.Keys
    ensures ok ==> forall id | id in cluster ::
              if InScope(ns, typePrefix, specName, name, id, cluster[id]) then DealtWith(after, id, cluster[id], now)
              else id in after && after[id] == cluster[id]
    ensures forall id | id in cluster ::
              || (id in after && after[id] == cluster[id])
              || (InScope(ns, typePrefix, specName, name, id, cluster[id]) && DealtWith(after, id, cluster[id], now))
  {
    var provider := new Provider(ns, typePrefix, specName, name, cluster, false, faults);
    ghost var done;
    ok, done := provider.CleanupCertManagerResources(now);
    converted, after := provider.converted, provider.cluster;
    PassDealsWith(ns, typePrefix, specName, name, cluster, done, now);
  }

  // ---- resuming ----

  /** `GoalSurvivesPartialPass` for one object: it may be gone already, dealt with already, or
      still to be dealt with. */
  lemma GoalSurvives(c: Cluster, p: Selector, done: set<Id>, now: string, later: string, id: Id)
    requires done <= SelectedIds(c, p)
    ensures var c' := After(c, done, now);
            var again, once := After(c', SelectedIds(c', p), later), After(c, SelectedIds(c, p), later);
            && (id in again <==> id in once)
            && (id in again ==> again[id] == once[id])
  {
    if id in c {
      GoalTwice(id, c[id], now, later);
      var c' := After(c, done, now);
      if id in c' {
        assert c'[id].labels == c[id].labels;
        assert id in SelectedIds(c', p) <==> id in SelectedIds(c, p);
      }
    }
  }

  /** What a failed pass leaves has the same goal as what it started from. */
  lemma GoalSurvivesPartialPass(c: Cluster, p: Selector, done: set<Id>, now: string, later: string)
    requires done <= SelectedIds(c, p)
    ensures var c' := After(c, done, now);
            After(c', SelectedIds(c', p), later) == After(c, SelectedIds(c, p), later)
  {
    var c' := After(c, done, now);
    var again, once := After(c', SelectedIds(c', p), later), After(c, SelectedIds(c, p), later);
    forall id ensures (id in again <==> id in once) && (id in again ==> again[id] == once[id]) {
      GoalSurvives(c, p, done, now, later, id);
    }
  }

  /** One pass that failed: which objects it dealt with, and when. */
  datatype Attempt = Attempt(done: set<Id>, now: string)

  function AfterAttempts(c: Cluster, attempts: seq<Attempt>): Cluster {
    if attempts == [] then c
    else AfterAttempts(After(c, attempts[0].done, attempts[0].now), attempts[1..])
  }

  /** Every attempt touches only what is selected when it runs. */
  ghost predicate Faithful(c: Cluster, p: Selector, attempts: seq<Attempt>) {
    attempts != [] ==>
      && attempts[0].done <= SelectedIds(c, p)
      && Faithful(After(c, attempts[0].done, attempts[0].now), p, attempts[1..])
  }

  /** After any series of passes that failed half-way, a pass that goes through reaches exactly
      the cluster that it would have reached without them. */
  lemma {:induction false} RerunReachesTheGoal(c: Cluster, p: Selector, attempts: seq<Attempt>, now: string)
    requires Faithful(c, p, attempts)
    ensures var c' := AfterAttempts(c, attempts);
            After(c', SelectedIds(c', p), now) == After(c, SelectedIds(c, p), now)
    decreases |attempts|
  {
    if attempts != [] {
      RerunReachesTheGoal(After(c, attempts[0].done, attempts[0].now), p, attempts[1..], now);
      GoalSurvivesPartialPass(c, p, attempts[0].done, attempts[0].now, now);
    }
  }

  /** Two passes at different times differ in rollout times only. */
  lemma OnlyRestartTimesDiffer(c: Cluster, done: set<Id>, now: string, later: string)
    ensures Erased(After(c, done, now)) == Erased(After(c, done, later))
  {
    var early, late := After(c, done, now), After(c, done, later);
    forall id | id in c
      ensures (id in early <==> id in late) && (id in early ==> Erased(early)[id] == Erased(late)[id])
    {
    }
  }

  lemma {:induction false} AttemptsSnoc(c: Cluster, p: Selector, attempts: seq<Attempt>, last: Attempt)
    requires Faithful(c, p, attempts) && last.done <= SelectedIds(AfterAttempts(c, attempts), p)
    ensures Faithful(c, p, attempts + [last])
    ensures AfterAttempts(c, attempts + [last]) == After(AfterAttempts(c, attempts), last.done, last.now)
    decreases |attempts|
  {
    if attempts == [] {
      assert attempts + [last] == [last];
    } else {
      AttemptsSnoc(After(c, attempts[0].done, attempts[0].now), p, attempts[1..], last);
      assert (attempts + [last])[1..] == attempts[1..] + [last];
    }
  }

  /** The provider's reconciles, one pass for each of `times` until one goes through: however the
      requests fail, the condition is set exactly when a pass went through, and the cluster is then
      what one pass without failures would have left on the first cluster. */
  method Reconciles(provider: Provider, times: seq<string>) returns (ok: bool)
    requires !provider.converted && times != []
    modifies provider
    ensures provider.converted == ok
    ensures old(provider.faults) == [] ==> ok
    ensures var was := old(provider.cluster);
            ok ==> Erased(provider.cluster) == Erased(After(was, SelectedIds(was, provider.selector), times[0]))
  {
    ok := false;
    ghost var attempts: seq<Attempt> := [];
    ghost var was := provider.cluster;
    for i := 0 to |times|
      invariant !ok && !provider.converted && (i > 0 ==> old(provider.faults) != [])
      invariant i == 0 ==> provider.faults == old(provider.faults)
      invariant Faithful(was, provider.selector, attempts) && provider.cluster == AfterAttempts(was, attempts)
    {
      ghost var done;
      ok, done := provider.CleanupCertManagerResources(times[i]);
      if ok {
        RerunReachesTheGoal(was, provider.selector, attempts, times[i]);
        OnlyRestartTimesDiffer(was, SelectedIds(was, provider.selector), times[i], times[0]);
        return;
      }
      AttemptsSnoc(was, provider.selector, attempts, Attempt(done, times[i]));
      attempts := attempts + [Attempt(done, times[i])];
    }
  }
}

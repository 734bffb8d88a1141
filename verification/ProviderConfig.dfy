/** The clusterctl configuration: built-in providers and images, with the user's overrides laid
    over them, and the lookup of a provider's version in the result. */
module ProviderConfig {
  import opened Wrappers
  import opened Segments

  const LATEST := "latest"

  datatype Provider = Provider(name: string, url: string, kind: string)
  datatype Image = Image(repository: string, tag: string)
  datatype NamedImage = NamedImage(name: string, image: Image)

  datatype Repository = Repository(providers: seq<Provider>, images: map<string, Image>)
  datatype Overrides = Overrides(providers: seq<Provider>, images: seq<NamedImage>)

  /** What reading an object yields. */
  datatype Fetched<+T> = Found(value: T) | Missing | Broken

  datatype Fault = OverridesUnreadable | BuiltInsUndecodable | RegistryUnreadable

  /** The key under which the merge recognises a provider. */
  function KeyOf(p: Provider): string { p.name + "-" + p.kind }

  // ---- merging providers ----

  predicate HasKey(ps: seq<Provider>, key: string) {
    exists i | 0 <= i < |ps| :: KeyOf(ps[i]) == key
  }

  /** The position of the last provider with a key, or -1. */
  function LastWithKey(ps: seq<Provider>, key: string): (r: int)
    ensures -1 <= r < |ps|
    ensures r >= 0 <==> HasKey(ps, key)
    ensures r >= 0 ==> KeyOf(ps[r]) == key && forall i | r < i < |ps| :: KeyOf(ps[i]) != key
  {
    if ps == [] then -1
    else if KeyOf(ps[|ps| - 1]) == key then |ps| - 1
    else LastWithKey(ps[..|ps| - 1], key)
  }

  /** What stands at position `i` of the built-in providers after the merge: the last override
      with that key if this is the last built-in with that key. */
  function Replaced(base: seq<Provider>, users: seq<Provider>, i: nat): Provider
    requires i < |base|
  {
    var key := KeyOf(base[i]);
    if LastWithKey(base, key) == i && HasKey(users, key) then users[LastWithKey(users, key)] else base[i]
  }

  /** The overrides whose key no built-in has, in order. */
  function Added(base: seq<Provider>, users: seq<Provider>): seq<Provider> {
    if users == [] then []
    else
      var last := users[|users| - 1];
      Added(base, users[..|users| - 1]) + if HasKey(base, KeyOf(last)) then [] else [last]
  }

  /** The part of a merge that stands for the built-ins. */
  function InPlace(base: seq<Provider>, users: seq<Provider>): (r: seq<Provider>)
    ensures |r| == |base| && forall i | 0 <= i < |base| :: r[i] == Replaced(base, users, i)
  {
    seq(|base|, i requires 0 <= i < |base| => Replaced(base, users, i))
  }

  function Merged(base: seq<Provider>, users: seq<Provider>): (r: seq<Provider>)
    ensures |r| == |base| + |Added(base, users)|
  {
    InPlace(base, users) + Added(base, users)
  }

  lemma LastWithKeySnoc(ps: seq<Provider>, p: Provider, key: string)
    ensures LastWithKey(ps + [p], key) == if KeyOf(p) == key then |ps| else LastWithKey(ps, key)
    ensures HasKey(ps + [p], key) <==> HasKey(ps, key) || KeyOf(p) == key
  {
    assert (ps + [p])[..|ps|] == ps;
    assert (ps + [p])[|ps|] == p;
  }

  lemma InPlaceSnoc(base: seq<Provider>, users: seq<Provider>, u: Provider)
    ensures var at := LastWithKey(base, KeyOf(u));
            InPlace(base, users + [u]) == if at >= 0 then InPlace(base, users)[at := u] else InPlace(base, users)
  {
    var at := LastWithKey(base, KeyOf(u));
    forall i | 0 <= i < |base|
      ensures Replaced(base, users + [u], i) == if at == i then u else Replaced(base, users, i)
    {
      LastWithKeySnoc(users, u, KeyOf(base[i]));
      assert (users + [u])[|users|] == u;
    }
  }

  lemma UpdateInFront<T>(front: seq<T>, back: seq<T>, at: nat, x: T)
    requires at < |front|
    ensures (front + back)[at := x] == front[at := x] + back
  {
  }

  lemma AddedSnoc(base: seq<Provider>, users: seq<Provider>, u: Provider)
    ensures Added(base, users + [u]) == if HasKey(base, KeyOf(u)) then Added(base, users) else Added(base, users) + [u]
  {
    assert (users + [u])[..|users|] == users;
  }

  /** One more override: it takes its indexed place, or the end. */
  lemma MergedSnoc(base: seq<Provider>, users: seq<Provider>, u: Provider)
    ensures var at := LastWithKey(base, KeyOf(u));
            Merged(base, users + [u]) ==
            if at >= 0 then Merged(base, users)[at := u] else Merged(base, users) + [u]
  {
    var at := LastWithKey(base, KeyOf(u));
    InPlaceSnoc(base, users, u);
    AddedSnoc(base, users, u);
    if at >= 0 {
      UpdateInFront(InPlace(base, users), Added(base, users), at, u);
    }
  }

  /** The index: the last built-in with each key. */
  method IndexByKey(base: seq<Provider>) returns (existing: map<string, nat>)
    ensures forall key :: key in existing <==> HasKey(base, key)
    ensures forall key | key in existing :: existing[key] == LastWithKey(base, key)
  {
    existing := map[];
    for i := 0 to |base|
      invariant forall key :: key in existing <==> HasKey(base[..i], key)
      invariant forall key | key in existing :: existing[key] == LastWithKey(base[..i], key)
    {
      assert base[..i + 1] == base[..i] + [base[i]];
      forall key {
        LastWithKeySnoc(base[..i], base[i], key);
      }
      existing := existing[KeyOf(base[i]) := i];
    }
    assert base[..|base|] == base;
  }

  /** The loop over the user's providers: each takes the place that its key is indexed at, or goes
      to the end. */
  method MergeProviders(base: seq<Provider>, users: seq<Provider>) returns (merged: seq<Provider>)
    ensures merged == Merged(base, users)
  {
    var existing := IndexByKey(base);
    merged := base;
    for j := 0 to |users|
      invariant merged == Merged(base, users[..j])
    {
      assert users[..j + 1] == users[..j] + [users[j]];
      MergedSnoc(base, users[..j], users[j]);
      var key := KeyOf(users[j]);
      if key in existing {
        merged := merged[existing[key] := users[j]];
      } else {
        merged := merged + [users[j]];
      }
    }
    assert users[..|users|] == users;
  }

  /** Built-ins keep their number and order, and the overrides with new keys follow. */
  lemma MergedShape(base: seq<Provider>, users: seq<Provider>)
    ensures |Merged(base, users)| == |base| + |Added(base, users)|
    ensures forall i | 0 <= i < |base| :: KeyOf(Merged(base, users)[i]) == KeyOf(base[i])
    ensures forall i | |base| <= i < |Merged(base, users)| :: !HasKey(base, KeyOf(Merged(base, users)[i]))
  {
    AddedAreNew(base, users);
    forall i | |base| <= i < |Merged(base, users)| ensures !HasKey(base, KeyOf(Merged(base, users)[i])) {
      assert Merged(base, users)[i] == Added(base, users)[i - |base|];
    }
  }

  lemma {:induction false} AddedAreNew(base: seq<Provider>, users: seq<Provider>)
    ensures forall i | 0 <= i < |Added(base, users)| :: !HasKey(base, KeyOf(Added(base, users)[i]))
  {
    if users != [] {
      AddedAreNew(base, users[..|users| - 1]);
    }
  }

  // ---- looking a provider up ----

  function Lower(c: char): char {
    if 'A' <= c <= 'Z' then c + ' ' else c
  }

  predicate EqualFold(a: string, b: string) {
    |a| == |b| && forall i | 0 <= i < |a| :: Lower(a[i]) == Lower(b[i])
  }

  /** The same letter, or its other case. */
  predicate SameLetter(x: char, y: char) {
    || x == y
    || ('a' <= x <= 'z' && y as int == x as int - 32)
    || ('A' <= x <= 'Z' && y as int == x as int + 32)
  }

  /** Types are told apart by their letters and by nothing else. */
  lemma EqualFoldExactly(a: string, b: string)
    ensures EqualFold(a, b) <==> |a| == |b| && forall i | 0 <= i < |a| :: SameLetter(a[i], b[i])
  {
    forall i | 0 <= i < |a| && i < |b| ensures Lower(a[i]) == Lower(b[i]) <==> SameLetter(a[i], b[i]) {
    }
  }

  predicate Matches(p: Provider, name: string, kind: string) {
    p.name == name && EqualFold(p.kind, kind)
  }

  /** The position of the first matching provider, or -1. */
  function FirstMatch(ps: seq<Provider>, name: string, kind: string): (r: int)
    ensures -1 <= r < |ps|
    ensures r >= 0 ==> Matches(ps[r], name, kind)
    ensures forall i | 0 <= i < (if r >= 0 then r else |ps|) :: !Matches(ps[i], name, kind)
  {
    if ps == [] then -1
    else
      var earlier := FirstMatch(ps[..|ps| - 1], name, kind);
      if earlier >= 0 then earlier
      else if Matches(ps[|ps| - 1], name, kind) then |ps| - 1
      else -1
  }

  /** The next to last segment of the URL, or "latest". */
  function CollectVersion(url: string): string {
    var parts := Split(url, '/');
    if |parts| < 2 then LATEST else parts[|parts| - 2]
  }

  function GetProviderVersion(ps: seq<Provider>, name: string, kind: string): (r: (string, bool)) {
    var at := FirstMatch(ps, name, kind);
    if at >= 0 then (CollectVersion(ps[at].url), true) else (LATEST, false)
  }

  /** The version of a release URL stands between its last two slashes. */
  lemma VersionOfUrl(before: string, version: string, file: string)
    requires '/' !in version && '/' !in file
    ensures CollectVersion(version + "/" + file) == version
    ensures CollectVersion(before + "/" + (version + "/" + file)) == version
    ensures CollectVersion(file) == "latest"
  {
    SplitFree(version, '/');
    SplitFree(file, '/');
    SplitAt(version, file, '/');
    SplitAt(before, version + "/" + file, '/');
    assert before + ['/'] + (version + "/" + file) == before + "/" + (version + "/" + file);
  }

  /** Equal keys mean the same provider. */
  predicate KeysAgree(ps: seq<Provider>) {
    forall i, j | 0 <= i < |ps| && 0 <= j < |ps| && KeyOf(ps[i]) == KeyOf(ps[j]) ::
      ps[i].name == ps[j].name && ps[i].kind == ps[j].kind
  }

  /** A key tells name and type apart when types have no hyphen. */
  lemma KeyIsInjective(p: Provider, q: Provider)
    requires '-' !in p.kind && '-' !in q.kind && KeyOf(p) == KeyOf(q)
    ensures p.name == q.name && p.kind == q.kind
  {
    var key := KeyOf(p);
    forall i | |p.name| < i < |key| ensures key[i] != '-' {
      assert key[i] == p.kind[i - |p.name| - 1];
    }
    forall i | |q.name| < i < |key| ensures key[i] != '-' {
      assert key[i] == q.kind[i - |q.name| - 1];
    }
    assert key[|p.name|] == '-' && key[|q.name|] == '-';
    assert p.name == key[..|p.name|] && q.name == key[..|q.name|];
    assert p.kind == key[|p.name| + 1..] && q.kind == key[|q.name| + 1..];
  }

  lemma HyphenFreeKeysAgree(ps: seq<Provider>)
    requires forall p | p in ps :: '-' !in p.kind
    ensures KeysAgree(ps)
  {
    forall i, j | 0 <= i < |ps| && 0 <= j < |ps| && KeyOf(ps[i]) == KeyOf(ps[j])
      ensures ps[i].name == ps[j].name && ps[i].kind == ps[j].kind
    {
      assert ps[i] in ps && ps[j] in ps;
      KeyIsInjective(ps[i], ps[j]);
    }
  }

  lemma ReplacedIsSame(base: seq<Provider>, users: seq<Provider>, i: nat)
    requires KeysAgree(base + users) && i < |base|
    ensures Replaced(base, users, i).name == base[i].name && Replaced(base, users, i).kind == base[i].kind
  {
    var key := KeyOf(base[i]);
    assert (base + users)[i] == base[i];
    if HasKey(users, key) {
      var j := LastWithKey(users, key);
      assert (base + users)[|base| + j] == users[j];
    }
  }

  lemma FirstMatchSnoc(ps: seq<Provider>, p: Provider, name: string, kind: string)
    ensures FirstMatch(ps + [p], name, kind) ==
            var earlier := FirstMatch(ps, name, kind);
            if earlier >= 0 then earlier else if Matches(p, name, kind) then |ps| else -1
  {
    assert (ps + [p])[..|ps|] == ps;
  }

  lemma SharedKeyMatches(base: seq<Provider>, users: seq<Provider>, i: nat, p: Provider, name: string, kind: string)
    requires KeysAgree(base + users) && i < |base| && p in users
    requires KeyOf(base[i]) == KeyOf(p) && Matches(p, name, kind)
    ensures Matches(base[i], name, kind)
  {
    var j :| 0 <= j < |users| && users[j] == p;
    assert (base + users)[i] == base[i] && (base + users)[|base| + j] == p;
  }

  lemma UnknownMatchesAreNew(base: seq<Provider>, users: seq<Provider>, name: string, kind: string)
    requires KeysAgree(base + users) && FirstMatch(base, name, kind) < 0
    ensures forall p | p in users && Matches(p, name, kind) :: !HasKey(base, KeyOf(p))
  {
    forall p | p in users && Matches(p, name, kind) ensures !HasKey(base, KeyOf(p)) {
      if HasKey(base, KeyOf(p)) {
        var i :| 0 <= i < |base| && KeyOf(base[i]) == KeyOf(p);
        SharedKeyMatches(base, users, i, p, name, kind);
        assert false;
      }
    }
  }

  /** Both lists have a first match, and it is the same provider; or neither has one. */
  predicate SameFirst(a: seq<Provider>, b: seq<Provider>, name: string, kind: string) {
    var i, j := FirstMatch(a, name, kind), FirstMatch(b, name, kind);
    (i >= 0 <==> j >= 0) && (i >= 0 ==> a[i] == b[j])
  }

  lemma SameFirstSnoc(a: seq<Provider>, b: seq<Provider>, p: Provider, name: string, kind: string)
    requires SameFirst(a, b, name, kind)
    ensures SameFirst(a + [p], b + [p], name, kind)
    ensures !Matches(p, name, kind) ==> SameFirst(a, b + [p], name, kind)
  {
    FirstMatchSnoc(a, p, name, kind);
    FirstMatchSnoc(b, p, name, kind);
  }

  /** If no override that matches has the key of a built-in, all that match are added. */
  lemma {:induction false} LookupAdded(base: seq<Provider>, users: seq<Provider>, name: string, kind: string)
    requires forall p | p in users && Matches(p, name, kind) :: !HasKey(base, KeyOf(p))
    ensures SameFirst(Added(base, users), users, name, kind)
  {
    if users != [] {
      var most, last := users[..|users| - 1], users[|users| - 1];
      assert users == most + [last];
      LookupAdded(base, most, name, kind);
      SameFirstSnoc(Added(base, most), most, last, name, kind);
      if HasKey(base, KeyOf(last)) {
        assert last in users;
        assert Added(base, users) == Added(base, most);
      } else {
        assert Added(base, users) == Added(base, most) + [last];
      }
    }
  }

  lemma FirstMatchAppend(ps: seq<Provider>, more: seq<Provider>, name: string, kind: string)
    ensures var all, first, second := ps + more, FirstMatch(ps, name, kind), FirstMatch(more, name, kind);
            var at := FirstMatch(all, name, kind);
            if first >= 0 then at == first && all[at] == ps[first]
            else if second >= 0 then at == |ps| + second && all[at] == more[second]
            else at < 0
  {
    var all := ps + more;
    var at := FirstMatch(all, name, kind);
    assert forall i | 0 <= i < |ps| :: all[i] == ps[i];
    assert forall i | |ps| <= i < |all| :: all[i] == more[i - |ps|];
    var first, second := FirstMatch(ps, name, kind), FirstMatch(more, name, kind);
    if first >= 0 {
      assert Matches(all[first], name, kind);
    } else if second >= 0 {
      assert Matches(all[|ps| + second], name, kind);
    }
  }

  lemma FirstMatchIs(ps: seq<Provider>, name: string, kind: string, at: int)
    requires -1 <= at < |ps|
    requires forall i | 0 <= i < |ps| :: Matches(ps[i], name, kind) <==> i == at
    ensures FirstMatch(ps, name, kind) == at
  {
    if at >= 0 {
      assert Matches(ps[at], name, kind);
    }
  }

  lemma LookupInPlace(base: seq<Provider>, users: seq<Provider>, name: string, kind: string)
    requires KeysAgree(base + users)
    ensures FirstMatch(InPlace(base, users), name, kind) == FirstMatch(base, name, kind)
  {
    forall i | 0 <= i < |base|
      ensures Matches(InPlace(base, users)[i], name, kind) <==> Matches(base[i], name, kind)
    {
      ReplacedIsSame(base, users, i);
    }
  }

  /** What the lookup after a merge finds. A provider that is built in: the last override with its
      exact key, provided no later built-in has that key, else the built-in itself. Any other: the
      first override that matches. */
  lemma Lookup(base: seq<Provider>, users: seq<Provider>, name: string, kind: string)
    requires KeysAgree(base + users)
    ensures var merged := Merged(base, users);
            var at, b, u := FirstMatch(merged, name, kind), FirstMatch(base, name, kind), FirstMatch(users, name, kind);
            && (b >= 0 ==> at == b && merged[at] == Replaced(base, users, b))
            && (b < 0 && u >= 0 ==> at >= |base| && merged[at] == users[u])
            && (b < 0 && u < 0 ==> at < 0)
  {
    LookupInPlace(base, users, name, kind);
    FirstMatchAppend(InPlace(base, users), Added(base, users), name, kind);
    if FirstMatch(base, name, kind) < 0 {
      UnknownMatchesAreNew(base, users, name, kind);
      LookupAdded(base, users, name, kind);
    }
  }

  /** No two built-ins differ at most in the letter case of their types. */
  predicate NoFoldedDuplicates(ps: seq<Provider>) {
    forall i, j | 0 <= i < j < |ps| :: !Matches(ps[j], ps[i].name, ps[i].kind)
  }

  predicate HyphenFree(ps: seq<Provider>) {
    forall i | 0 <= i < |ps| :: '-' !in ps[i].kind
  }

  /** No override of a type with a hyphen takes the place of this built-in. */
  predicate Undisplaced(base: seq<Provider>, users: seq<Provider>, b: nat)
    requires b < |base|
  {
    var key := KeyOf(base[b]);
    LastWithKey(base, key) == b && HasKey(users, key) ==> '-' !in users[LastWithKey(users, key)].kind
  }

  lemma MatchesSameHyphens(p: Provider, name: string, kind: string)
    requires Matches(p, name, kind)
    ensures '-' in p.kind <==> '-' in kind
  {
    if '-' in p.kind {
      var i :| 0 <= i < |p.kind| && p.kind[i] == '-';
      assert Lower(p.kind[i]) == Lower(kind[i]);
    }
    if '-' in kind {
      var i :| 0 <= i < |kind| && kind[i] == '-';
      assert Lower(p.kind[i]) == Lower(kind[i]);
    }
  }

  /** Which position of the built-ins matches after the merge, whatever the overrides. */
  lemma InPlaceMatches(base: seq<Provider>, users: seq<Provider>, i: nat, name: string, kind: string)
    requires HyphenFree(base) && '-' !in kind && i < |base|
    ensures Matches(InPlace(base, users)[i], name, kind) <==> Matches(base[i], name, kind) && Undisplaced(base, users, i)
  {
    var p := InPlace(base, users)[i];
    if '-' !in p.kind {
      KeyIsInjective(p, base[i]);
    } else if Matches(p, name, kind) {
      MatchesSameHyphens(p, name, kind);
    }
  }

  lemma MatchingBuiltInsAgree(base: seq<Provider>, b: nat, i: nat, name: string, kind: string)
    requires NoFoldedDuplicates(base) && b < |base| && i < |base|
    requires Matches(base[b], name, kind) && Matches(base[i], name, kind)
    ensures i == b
  {
    assert Matches(base[i], base[b].name, base[b].kind) && Matches(base[b], base[i].name, base[i].kind);
  }

  /** Exactly when the lookup of a built-in provider finds the place of that provider: unless the
      last override with its key, which is then of another name, has a hyphen in its type. */
  lemma BuiltInFoundExactly(base: seq<Provider>, users: seq<Provider>, name: string, kind: string)
    requires HyphenFree(base) && NoFoldedDuplicates(base) && FirstMatch(base, name, kind) >= 0
    ensures var b := FirstMatch(base, name, kind);
            var key := KeyOf(base[b]);
            FirstMatch(Merged(base, users), name, kind) == b <==>
              (HasKey(users, key) ==> '-' !in users[LastWithKey(users, key)].kind)
  {
    var b := FirstMatch(base, name, kind);
    MatchesSameHyphens(base[b], name, kind);
    LastOfKeyIsFirst(base, b);
    FirstMatchInPlace(base, users, name, kind);
    FirstMatchAppend(InPlace(base, users), Added(base, users), name, kind);
  }

  lemma LastOfKeyIsFirst(base: seq<Provider>, b: nat)
    requires HyphenFree(base) && NoFoldedDuplicates(base) && b < |base|
    ensures LastWithKey(base, KeyOf(base[b])) == b
  {
    var last := LastWithKey(base, KeyOf(base[b]));
    assert KeyOf(base[b]) == KeyOf(base[last]);
    KeyIsInjective(base[b], base[last]);
    MatchingBuiltInsAgree(base, b, last, base[b].name, base[b].kind);
  }

  lemma FirstMatchInPlace(base: seq<Provider>, users: seq<Provider>, name: string, kind: string)
    requires HyphenFree(base) && NoFoldedDuplicates(base) && '-' !in kind
    ensures var b := FirstMatch(base, name, kind);
            FirstMatch(InPlace(base, users), name, kind) == if b >= 0 && Undisplaced(base, users, b) then b else -1
  {
    var b := FirstMatch(base, name, kind);
    var at := if b >= 0 && Undisplaced(base, users, b) then b else -1;
    forall i | 0 <= i < |base|
      ensures Matches(InPlace(base, users)[i], name, kind) <==> i == at
    {
      InPlaceMatches(base, users, i, name, kind);
      if b >= 0 && Matches(base[i], name, kind) {
        MatchingBuiltInsAgree(base, b, i, name, kind);
      }
    }
    FirstMatchIs(InPlace(base, users), name, kind, at);
  }

  lemma HyphenFreeKeyMatches(base: seq<Provider>, i: nat, p: Provider, name: string, kind: string)
    requires HyphenFree(base) && '-' !in kind && i < |base|
    requires KeyOf(base[i]) == KeyOf(p) && Matches(p, name, kind)
    ensures Matches(base[i], name, kind)
  {
    MatchesSameHyphens(p, name, kind);
    KeyIsInjective(base[i], p);
  }

  lemma HyphenFreeMatchesAreNew(base: seq<Provider>, users: seq<Provider>, name: string, kind: string)
    requires HyphenFree(base) && '-' !in kind && FirstMatch(base, name, kind) < 0
    ensures forall p | p in users && Matches(p, name, kind) :: !HasKey(base, KeyOf(p))
  {
    forall p | p in users && Matches(p, name, kind) ensures !HasKey(base, KeyOf(p)) {
      if HasKey(base, KeyOf(p)) {
        var i :| 0 <= i < |base| && KeyOf(base[i]) == KeyOf(p);
        HyphenFreeKeyMatches(base, i, p, name, kind);
        assert false;
      }
    }
  }

  /** A lookup after the merge tries the places of the built-ins first, and then what was added. */
  lemma MergedMatch(base: seq<Provider>, users: seq<Provider>, name: string, kind: string)
    ensures var merged := Merged(base, users);
            var at, first, second :=
              FirstMatch(merged, name, kind), FirstMatch(InPlace(base, users), name, kind), FirstMatch(Added(base, users), name, kind);
            if first >= 0 then at == first && merged[at] == Replaced(base, users, first)
            else if second >= 0 then at == |base| + second && merged[at] == Added(base, users)[second]
            else at < 0
  {
    FirstMatchAppend(InPlace(base, users), Added(base, users), name, kind);
  }

  /** The lookup of a built-in provider. */
  lemma BuiltInLookup(base: seq<Provider>, users: seq<Provider>, name: string, kind: string)
    requires HyphenFree(base) && NoFoldedDuplicates(base) && FirstMatch(base, name, kind) >= 0
    ensures var merged, b := Merged(base, users), FirstMatch(base, name, kind);
            if Undisplaced(base, users, b) then FirstMatch(merged, name, kind) == b && merged[b] == Replaced(base, users, b)
            else GetProviderVersion(merged, name, kind) == GetProviderVersion(Added(base, users), name, kind)
  {
    MatchesSameHyphens(base[FirstMatch(base, name, kind)], name, kind);
    FirstMatchInPlace(base, users, name, kind);
    MergedMatch(base, users, name, kind);
  }

  /** The lookup of any other provider. */
  lemma OtherLookup(base: seq<Provider>, users: seq<Provider>, name: string, kind: string)
    requires HyphenFree(base) && NoFoldedDuplicates(base) && '-' !in kind && FirstMatch(base, name, kind) < 0
    ensures SameFirst(Merged(base, users), users, name, kind)
  {
    FirstMatchInPlace(base, users, name, kind);
    MergedMatch(base, users, name, kind);
    HyphenFreeMatchesAreNew(base, users, name, kind);
    LookupAdded(base, users, name, kind);
  }

  lemma NobodyHasHyphens(base: seq<Provider>, users: seq<Provider>, name: string, kind: string)
    requires HyphenFree(base) && HyphenFree(users) && '-' in kind
    ensures FirstMatch(base, name, kind) < 0 && FirstMatch(users, name, kind) < 0
    ensures FirstMatch(Merged(base, users), name, kind) < 0
  {
    if FirstMatch(base, name, kind) >= 0 {
      MatchesSameHyphens(base[FirstMatch(base, name, kind)], name, kind);
    }
    if FirstMatch(users, name, kind) >= 0 {
      MatchesSameHyphens(users[FirstMatch(users, name, kind)], name, kind);
    }
    forall p | p in base + users ensures '-' !in p.kind {
    }
    HyphenFreeKeysAgree(base + users);
    Lookup(base, users, name, kind);
  }

  /** The version found after the merge, for hyphen-free built-ins and any overrides. A built-in
      provider: that of the last override with its exact key, or its own without one; but if that
      override has a hyphen in its type, and so is another provider's, whatever the overrides with
      new keys say. Any other provider: that of the first override, or "latest" without one. */
  lemma VersionAfterMerge(base: seq<Provider>, users: seq<Provider>, name: string, kind: string)
    requires HyphenFree(base) && NoFoldedDuplicates(base)
    requires '-' !in kind || HyphenFree(users)
    ensures var found := GetProviderVersion(Merged(base, users), name, kind);
            var b, u := FirstMatch(base, name, kind), FirstMatch(users, name, kind);
            if b >= 0 then
              var key := KeyOf(base[b]);
              if !HasKey(users, key) then found == (CollectVersion(base[b].url), true)
              else
                var last := users[LastWithKey(users, key)];
                if '-' !in last.kind then found == (CollectVersion(last.url), true)
                else found == GetProviderVersion(Added(base, users), name, kind)
            else if u >= 0 then found == (CollectVersion(users[u].url), true)
            else found == (LATEST, false)
  {
    var b := FirstMatch(base, name, kind);
    if b >= 0 {
      BuiltInLookup(base, users, name, kind);
      LastOfKeyIsFirst(base, b);
    } else if '-' in kind {
      NobodyHasHyphens(base, users, name, kind);
    } else {
      OtherLookup(base, users, name, kind);
    }
  }

  /** One name, two types: each lookup finds its own, the second in a letter case of its own. */
  lemma TypesAreToldApart(bootstrapUrl: string, controlPlaneUrl: string)
    ensures var base := [Provider("rke2", bootstrapUrl, "BootstrapProvider"), Provider("rke2", controlPlaneUrl, "ControlPlaneProvider")];
            && GetProviderVersion(base, "rke2", "BootstrapProvider") == (CollectVersion(bootstrapUrl), true)
            && GetProviderVersion(base, "rke2", "ControlplaneProvider") == (CollectVersion(controlPlaneUrl), true)
            && GetProviderVersion(base, "rke2", "CoreProvider") == ("latest", false)
            && GetProviderVersion(base, "kubeadm", "BootstrapProvider") == ("latest", false)
  {
    var base := [Provider("rke2", bootstrapUrl, "BootstrapProvider"), Provider("rke2", controlPlaneUrl, "ControlPlaneProvider")];
    assert |"BootstrapProvider"| == 17 && |"ControlPlaneProvider"| == 20 && |"ControlplaneProvider"| == 20 && |"CoreProvider"| == 12;
    FirstMatchIs(base, "rke2", "BootstrapProvider", 0);
    assert EqualFold("ControlPlaneProvider", "ControlplaneProvider");
    FirstMatchIs(base, "rke2", "ControlplaneProvider", 1);
    FirstMatchIs(base, "rke2", "CoreProvider", -1);
    assert |"rke2"| == 4 && |"kubeadm"| == 7;
    FirstMatchIs(base, "kubeadm", "BootstrapProvider", -1);
  }

  /** An override of a type with a hyphen can take the place of a built-in provider. */
  lemma Misdirected(name: string, more: string, kind: string, url: string, newUrl: string)
    ensures var base := [Provider(name + "-" + more, url, kind)];
            var users := [Provider(name, newUrl, more + "-" + kind)];
            && GetProviderVersion(base, name + "-" + more, kind) == (CollectVersion(url), true)
            && GetProviderVersion(Merged(base, users), name + "-" + more, kind) == (LATEST, false)
  {
    var base := [Provider(name + "-" + more, url, kind)];
    var users := [Provider(name, newUrl, more + "-" + kind)];
    var key := KeyOf(base[0]);
    assert KeyOf(users[0]) == key;
    assert HasKey(base, key) && HasKey(users, key);
    assert users[..0] == [] && base[..0] == [];
    assert Added(base, users) == [];
    assert Merged(base, users) == users;
    assert Matches(base[0], name + "-" + more, kind);
    assert |name| < |name + "-" + more|;
  }

  /** So it is with the built-in core provider. */
  lemma HyphensMisdirect()
    ensures var base := [Provider("cluster-api", "x/v1/f", "CoreProvider")];
            var users := [Provider("cluster", "x/v2/f", "api-CoreProvider")];
            && GetProviderVersion(base, "cluster-api", "CoreProvider") == ("v1", true)
            && GetProviderVersion(Merged(base, users), "cluster-api", "CoreProvider") == (LATEST, false)
  {
    assert "cluster" + "-" + "api" == "cluster-api" && "api" + "-" + "CoreProvider" == "api-CoreProvider";
    Misdirected("cluster", "api", "CoreProvider", "x/v1/f", "x/v2/f");
    assert "x/v1/f" == "x" + "/" + ("v1" + "/" + "f");
    VersionOfUrl("x", "v1", "f");
  }

  lemma EqualFoldAll(name: string, kind: string, p: Provider, q: Provider)
    requires Matches(p, q.name, q.kind) && Matches(p, name, kind)
    ensures Matches(q, name, kind)
  {
    forall i | 0 <= i < |q.kind| ensures Lower(q.kind[i]) == Lower(kind[i]) {
      assert Lower(p.kind[i]) == Lower(q.kind[i]);
    }
  }

  lemma {:induction false} NewIsAdded(base: seq<Provider>, users: seq<Provider>, j: nat)
    requires j < |users| && !HasKey(base, KeyOf(users[j]))
    ensures users[j] in Added(base, users)
  {
    if j < |users| - 1 {
      assert users[..|users| - 1][j] == users[j];
      NewIsAdded(base, users[..|users| - 1], j);
    }
  }

  /** An override whose type differs from the built-in's in letter case only is kept, and yet every
      lookup of its provider, in any letter case, finds the built-in's place and not the override. */
  lemma MiscasedOverrideIsLost(base: seq<Provider>, users: seq<Provider>, b: nat, j: nat, kind: string)
    requires HyphenFree(base) && NoFoldedDuplicates(base) && b < |base| && j < |users|
    requires Matches(users[j], base[b].name, base[b].kind) && !HasKey(base, KeyOf(users[j]))
    requires Matches(users[j], users[j].name, kind) && Undisplaced(base, users, b)
    ensures var merged, u := Merged(base, users), users[j];
            && u in merged
            && FirstMatch(merged, u.name, kind) == b
            && merged[b] != u
  {
    var merged, u := Merged(base, users), users[j];
    NewIsAdded(base, users, j);
    EqualFoldAll(u.name, kind, u, base[b]);
    MatchingBuiltInsAgree(base, b, FirstMatch(base, u.name, kind), u.name, kind);
    MatchesSameHyphens(base[b], u.name, kind);
    FirstMatchInPlace(base, users, u.name, kind);
    FirstMatchAppend(InPlace(base, users), Added(base, users), u.name, kind);
    MergedShape(base, users);
    assert HasKey(base, KeyOf(base[b]));
  }

  // ---- layering images ----

  /** `extractNamespace`: the repository without its first segment, if it has more than one. */
  function ExtractNamespace(image: string): string {
    var parts := Split(image, '/');
    if |parts| > 1 then Join(parts[1..], '/') else image
  }

  /** What precedes the first slash goes, and the slash with it; everything after it stays. */
  lemma ExtractNamespaceDropsTheHost(host: string, path: string)
    requires '/' !in host
    ensures ExtractNamespace(host + "/" + path) == path
    ensures ExtractNamespace(host) == host
  {
    SplitFree(host, '/');
    SplitAt(host, path, '/');
    JoinSplit(path, '/');
    assert ([host] + Split(path, '/'))[1..] == Split(path, '/');
  }

  /** The image as it is pulled when the default registry is `registry`; empty means unset. */
  function Rehomed(image: Image, registry: string): Image {
    if registry == "" then image
    else
      var prefix := if registry[|registry| - 1] == '/' then registry else registry + "/";
      Image(prefix + ExtractNamespace(image.repository), image.tag)
  }

  /** One slash stands between the registry and the path, whether or not the registry brings it. */
  lemma RehomedKeepsPathAndTag(registry: string, host: string, path: string, tag: string)
    requires '/' !in host && registry != "" && registry[|registry| - 1] != '/'
    ensures Rehomed(Image(host + "/" + path, tag), registry) == Image(registry + "/" + path, tag)
    ensures Rehomed(Image(host + "/" + path, tag), registry + "/") == Image(registry + "/" + path, tag)
    ensures Rehomed(Image(host, tag), registry) == Image(registry + "/" + host, tag)
  {
    ExtractNamespaceDropsTheHost(host, path);
  }

  predicate Names(users: seq<NamedImage>, name: string) {
    exists i | 0 <= i < |users| :: users[i].name == name
  }

  function LastNamed(users: seq<NamedImage>, name: string): (r: Image)
    requires Names(users, name)
    ensures exists i | 0 <= i < |users| ::
              users[i] == NamedImage(name, r) && forall j | i < j < |users| :: users[j].name != name
  {
    if users[|users| - 1].name == name then users[|users| - 1].image
    else LastNamed(users[..|users| - 1], name)
  }

  /** The layers: the user's images over the rehomed built-in ones. */
  ghost predicate Layered(images: map<string, Image>, base: map<string, Image>, registry: string, users: seq<NamedImage>) {
    && (forall name :: name in images <==> name in base || Names(users, name))
    && forall name | name in images ::
         images[name] == if Names(users, name) then LastNamed(users, name) else Rehomed(base[name], registry)
  }

  /** The loop over the built-in images, in whatever order the map gives them. */
  method Rehome(base: map<string, Image>, registry: string) returns (images: map<string, Image>)
    ensures Layered(images, base, registry, [])
  {
    images := base;
    if registry == "" { return; }
    var prefix := if registry[|registry| - 1] == '/' then registry else registry + "/";
    var todo := base.Keys;
    while todo != {}
      invariant todo <= base.Keys && images.Keys == base.Keys
      invariant forall name | name in base ::
                  images[name] == if name in todo then base[name] else Rehomed(base[name], registry)
      decreases todo
    {
      var name :| name in todo;
      images := images[name := Image(prefix + ExtractNamespace(images[name].repository), images[name].tag)];
      todo := todo - {name};
    }
  }

  lemma NamedSnoc(users: seq<NamedImage>, u: NamedImage, name: string)
    ensures Names(users + [u], name) <==> Names(users, name) || name == u.name
    ensures name == u.name ==> LastNamed(users + [u], name) == u.image
    ensures name != u.name && Names(users, name) ==> LastNamed(users + [u], name) == LastNamed(users, name)
  {
    var more := users + [u];
    assert more[|users|] == u && more[..|users|] == users;
    if Names(users, name) {
      var i :| 0 <= i < |users| && users[i].name == name;
      assert more[i].name == name;
    }
  }

  lemma LayeredSnoc(images: map<string, Image>, base: map<string, Image>, registry: string,
                    users: seq<NamedImage>, u: NamedImage)
    requires Layered(images, base, registry, users)
    ensures Layered(images[u.name := u.image], base, registry, users + [u])
  {
    forall name {
      NamedSnoc(users, u, name);
    }
  }

  /** The loop over the user's images. */
  method OverrideImages(layer: map<string, Image>, ghost base: map<string, Image>, ghost registry: string, users: seq<NamedImage>)
    returns (images: map<string, Image>)
    requires Layered(layer, base, registry, [])
    ensures Layered(images, base, registry, users)
  {
    images := layer;
    for i := 0 to |users|
      invariant Layered(images, base, registry, users[..i])
    {
      LayeredSnoc(images, base, registry, users[..i], users[i]);
      assert users[..i + 1] == users[..i] + [users[i]];
      images := images[users[i].name := users[i].image];
    }
    assert users[..|users|] == users;
  }

  /** The layers leave no choice: whatever the order of the map, the images are the same. */
  lemma LayersDetermineImages(images: map<string, Image>, others: map<string, Image>,
                              base: map<string, Image>, registry: string, users: seq<NamedImage>)
    requires Layered(images, base, registry, users) && Layered(others, base, registry, users)
    ensures images == others
  {
    assert forall name :: name in images <==> name in others;
  }

  // ---- the whole configuration ----

  /** `ClusterConfig`: it fails exactly when the overrides cannot be read (missing ones count as
      none), the built-ins do not decode, or the registry is to be used and cannot be read. */
  method ClusterConfig(overrides: Fetched<Overrides>, builtIns: Option<Repository>, useRegistry: bool, setting: Fetched<string>)
    returns (r: Result<Repository, Fault>)
    ensures r.Failure? <==> overrides.Broken? || builtIns.None? || (useRegistry && !setting.Found?)
    ensures r.Failure? ==> r.error == if overrides.Broken? then OverridesUnreadable
                                      else if builtIns.None? then BuiltInsUndecodable
                                      else RegistryUnreadable
    ensures r.Success? ==>
              var users := if overrides.Found? then overrides.value else Overrides([], []);
              && r.value.providers == Merged(builtIns.value.providers, users.providers)
              && Layered(r.value.images, builtIns.value.images, if useRegistry then setting.value else "", users.images)
  {
    if overrides.Broken? { return Failure(OverridesUnreadable); }
    var users := if overrides.Found? then overrides.value else Overrides([], []);
    if builtIns.None? { return Failure(BuiltInsUndecodable); }
    var base := builtIns.value;
    var providers := MergeProviders(base.providers, users.providers);
    var registry := "";
    if useRegistry {
      if !setting.Found? { return Failure(RegistryUnreadable); }
      registry := setting.value;
    }
    var images := Rehome(base.images, registry);
    images := OverrideImages(images, base.images, registry, users.images);
    return Success(Repository(providers, images));
  }
}

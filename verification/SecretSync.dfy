/** Two synchronizers write one Secret: the provider's variables and the mapped cloud
    credential. Both read before either writes, and both write under optimistic locking. */
module SecretSync {
  import opened ApiServer
  import opened Wrappers

  type Data = map<string, string>

  const FOREGROUND := "foregroundDeletion"

  /** The part of a Secret that matters here: its data and the provider that controls it. */
  datatype Content = Content(data: Data, owner: string)

  type Secrets = Store<string, Content>

  /** A destination in memory. Without a version it has never been read from the server. */
  datatype Destination = Destination(
    version: Option<nat>,
    finalizers: set<string>,
    labels: map<string, string>,
    annotations: map<string, string>,
    owner: string,
    data: Data,
    stringData: Data)

  const TEMPLATE := Destination(None, {}, map[], map[], "", map[], map[])

  // ---- what one synchronizer does, as functions of the server's state ----

  /** Get: a missing Secret leaves the destination as it was. */
  function Read(s: Secrets, name: string, dest: Destination): Destination {
    if name !in s.objects then dest
    else
      var o := s.objects[name];
      Destination(Some(o.version), o.finalizers, o.labels, o.annotations, o.body.owner, o.body.data, map[])
  }

  /** The object a write stores: string data overrides data key by key. */
  function Written(dest: Destination): Object<Content> {
    Object(0, 0, false, dest.finalizers, dest.labels, dest.annotations,
           Content(dest.data + dest.stringData, dest.owner))
  }

  /** Update: Secrets allow an unconditional update when no version is given. */
  function UpdateSecret(s: Secrets, name: string, dest: Destination): (Outcome, Secrets) {
    if name !in s.objects then (NotFound, s)
    else Update(s, name, if dest.version.Some? then dest.version.value else s.objects[name].version, Written(dest))
  }

  /** `Patch`: update, else create; an object to be created must not carry a version. */
  function Patch(s: Secrets, name: string, dest: Destination): (Outcome, Secrets) {
    var (outcome, s') := UpdateSecret(s, name, dest);
    if !outcome.NotFound? then (outcome, s')
    else if dest.version.Some? then (Forbidden, s)
    else Create(s, name, Written(dest))
  }

  /** `setFinalizers` and `setOwnerReference` */
  function Claimed(dest: Destination, owner: string): Destination {
    dest.(finalizers := dest.finalizers + {FOREGROUND}, owner := owner)
  }

  /** The write of a synchronizer whose destination was read in state `read`. */
  function WriteFrom(s: Secrets, read: Secrets, name: string, owner: string, values: Data): (Outcome, Secrets) {
    Patch(s, name, Claimed(Read(read, name, TEMPLATE).(stringData := values), owner))
  }

  // ---- a round ----

  /** The credential side: not configured, its source not found, or the values mapped from it. */
  datatype Mapper = Unconfigured | SourceMissing | Mapped(values: Data)

  /** The others' state and whether the round returned no error. */
  function Round(s: Secrets, name: string, owner: string, variables: Data, mapper: Mapper): (Secrets, bool) {
    if mapper.SourceMissing? then (s, false)
    else
      var (o1, s1) := WriteFrom(s, s, name, owner, variables);
      if mapper.Unconfigured? then (s1, o1.Ok?)
      else
        var (o2, s2) := WriteFrom(s1, s, name, owner, mapper.values);
        (s2, o1.Ok? && o2.Ok?)
  }

  function Rounds(s: Secrets, name: string, owner: string, variables: Data, mapper: Mapper, n: nat): Secrets {
    if n == 0 then s else Round(Rounds(s, name, owner, variables, mapper, n - 1), name, owner, variables, mapper).0
  }

  function DataOf(s: Secrets, name: string): Data {
    if name in s.objects then s.objects[name].body.data else map[]
  }

  predicate Agree(v: Data, m: Data) {
    forall key | key in v && key in m :: v[key] == m[key]
  }

  /** A Secret in deletion that lacks the finalizer accepts no write. */
  predicate Writable(s: Secrets, name: string) {
    name in s.objects && s.objects[name].deleting ==> FOREGROUND in s.objects[name].finalizers
  }

  /** The Secret belongs to the provider already. */
  predicate IsClaimed(s: Secrets, name: string, owner: string) {
    && name in s.objects && FOREGROUND in s.objects[name].finalizers && s.objects[name].body.owner == owner
  }

  predicate Includes(d: Data, values: Data) {
    d + values == d
  }

  // ---- how one write acts ----

  /** A write that finds the version it read stores the values over what was there, and nothing
      is written when they are there already. */
  lemma LockedWrite(s: Secrets, name: string, owner: string, values: Data)
    requires name in s.objects && Writable(s, name)
    ensures var (o, s') := WriteFrom(s, s, name, owner, values);
            && o.Ok? && IsClaimed(s', name, owner) && Writable(s', name)
            && DataOf(s', name) == DataOf(s, name) + values
            && (s' == s <==> IsClaimed(s, name, owner) && Includes(DataOf(s, name), values))
            && (s' != s ==> s'.objects[name].version == s.clock + 1 && s'.clock == s.clock + 1)
            && (Valid(s) ==> Valid(s'))
  {
    var o := s.objects[name];
    assert o.body == Content(o.body.data, o.body.owner);
    if IsClaimed(s, name, owner) {
      assert o.finalizers + {FOREGROUND} == o.finalizers;
    }
  }

  /** A write that finds another version is refused. */
  lemma StaleWrite(s: Secrets, read: Secrets, name: string, owner: string, values: Data)
    requires name in s.objects && name in read.objects && s.objects[name].version != read.objects[name].version
    ensures WriteFrom(s, read, name, owner, values) == (Conflict, s)
  {
  }

  /** A writer that has found no Secret creates it, or replaces what another has created. */
  lemma BlindWrite(s: Secrets, read: Secrets, name: string, owner: string, values: Data)
    requires name !in read.objects && (name in s.objects ==> !s.objects[name].deleting)
    ensures var (o, s') := WriteFrom(s, read, name, owner, values);
            && o.Ok? && IsClaimed(s', name, owner) && !s'.objects[name].deleting
            && DataOf(s', name) == values
            && (Valid(s) ==> Valid(s'))
  {
    assert map[] + values == values;
  }

  // ---- convergence ----

  /** Everything both writers want is there. */
  predicate Settled(s: Secrets, name: string, owner: string, v: Data, m: Data) {
    IsClaimed(s, name, owner) && Includes(DataOf(s, name), v) && Includes(DataOf(s, name), m)
  }

  /** A round whose source credential is missing fails and writes nothing, variables included. */
  lemma SourceMissingStopsTheRound(s: Secrets, name: string, owner: string, v: Data)
    ensures Round(s, name, owner, v, SourceMissing) == (s, false)
  {
  }

  /** A round without a credential to map writes the variables alone. */
  lemma VariablesAlone(s: Secrets, name: string, owner: string, v: Data)
    requires Valid(s) && Writable(s, name)
    ensures var (s', ok) := Round(s, name, owner, v, Unconfigured);
            ok && IsClaimed(s', name, owner) && DataOf(s', name) == DataOf(s, name) + v
  {
    if name in s.objects {
      LockedWrite(s, name, owner, v);
    } else {
      BlindWrite(s, s, name, owner, v);
      assert map[] + v == v;
    }
  }

  /** A locked write adds the provider's claim and the values to the Secret and keeps the rest. */
  lemma LockedWriteKeeps(s: Secrets, name: string, owner: string, values: Data)
    requires name in s.objects && Writable(s, name)
    ensures var was, s' := s.objects[name], WriteFrom(s, s, name, owner, values).1;
            && name in s'.objects && s'.objects - {name} == s.objects - {name}
            && s'.objects[name].(version := 0) ==
               was.(version := 0, finalizers := was.finalizers + {"foregroundDeletion"}, body := Content(was.body.data + values, owner))
  {
    LockedWrite(s, name, owner, values);
  }

  lemma SettledStays(s: Secrets, name: string, owner: string, v: Data, m: Data)
    requires Settled(s, name, owner, v, m)
    ensures Round(s, name, owner, v, Mapped(m)) == (s, true)
  {
    LockedWrite(s, name, owner, v);
    LockedWrite(s, name, owner, m);
  }

  /** A round from an existing Secret: the first writer goes through, and the second does too
      unless the first has changed something. */
  lemma RoundFromExisting(s: Secrets, name: string, owner: string, v: Data, m: Data)
    requires Valid(s) && name in s.objects && Writable(s, name)
    ensures var (s', ok) := Round(s, name, owner, v, Mapped(m));
            && Valid(s') && IsClaimed(s', name, owner) && Writable(s', name)
            && (if IsClaimed(s, name, owner) && Includes(DataOf(s, name), v)
                then ok && DataOf(s', name) == DataOf(s, name) + m
                else !ok && DataOf(s', name) == DataOf(s, name) + v)
  {
    LockedWrite(s, name, owner, v);
    var s1 := WriteFrom(s, s, name, owner, v).1;
    if s1 == s {
      LockedWrite(s, name, owner, m);
    } else {
      StaleWrite(s1, s, name, owner, m);
    }
  }

  /** A round that finds no Secret reports success, and yet the second writer has replaced what
      the first one created: the variables are lost until the next round. */
  lemma RoundFromNothing(s: Secrets, name: string, owner: string, v: Data, m: Data)
    requires Valid(s) && name !in s.objects
    ensures var (s', ok) := Round(s, name, owner, v, Mapped(m));
            ok && Valid(s') && IsClaimed(s', name, owner) && Writable(s', name) && DataOf(s', name) == m
  {
    BlindWrite(s, s, name, owner, v);
    BlindWrite(WriteFrom(s, s, name, owner, v).1, s, name, owner, m);
  }

  lemma Overlays(d: Data, v: Data, m: Data)
    requires Agree(v, m)
    ensures d + v + v == d + v && d + m + m == d + m && map[] + v + m == m + v
    ensures Includes(d + v + m, v) && Includes(d + v + m, m)
    ensures Includes(d, v) ==> Includes(d + m, v)
  {
  }

  /** Exactly when a successful round has done its work: the Secret was there, or the second
      writer wants everything that the first does. */
  lemma SuccessSettlesExactly(s: Secrets, name: string, owner: string, v: Data, m: Data)
    requires Valid(s) && Writable(s, name) && Agree(v, m) && Round(s, name, owner, v, Mapped(m)).1
    ensures Settled(Round(s, name, owner, v, Mapped(m)).0, name, owner, v, m) <==>
              name in s.objects || Includes(m, v)
  {
    Overlays(DataOf(s, name), v, m);
    if name in s.objects {
      RoundFromExisting(s, name, owner, v, m);
    } else {
      RoundFromNothing(s, name, owner, v, m);
    }
  }

  lemma TwoRounds(s: Secrets, name: string, owner: string, v: Data, m: Data)
    requires Valid(s) && Writable(s, name) && Agree(v, m)
    ensures var s1 := Round(s, name, owner, v, Mapped(m)).0;
            var s2 := Round(s1, name, owner, v, Mapped(m)).0;
            && DataOf(s2, name) == DataOf(s, name) + v + m
            && Settled(s2, name, owner, v, m) && Valid(s2) && Writable(s2, name)
  {
    var d := DataOf(s, name);
    var s1 := Round(s, name, owner, v, Mapped(m)).0;
    Overlays(d, v, m);
    if name in s.objects {
      RoundFromExisting(s, name, owner, v, m);
    } else {
      RoundFromNothing(s, name, owner, v, m);
      Overlays(map[], v, m);
      assert m + m == m;
    }
    RoundFromExisting(s1, name, owner, v, m);
  }

  lemma RoundsUnfold(s: Secrets, name: string, owner: string, v: Data, mapper: Mapper)
    ensures Rounds(s, name, owner, v, mapper, 2) == Round(Round(s, name, owner, v, mapper).0, name, owner, v, mapper).0
  {
    assert Rounds(s, name, owner, v, mapper, 0) == s;
    assert Rounds(s, name, owner, v, mapper, 1) == Round(s, name, owner, v, mapper).0;
  }

  /** Two writers that agree on shared keys settle after two rounds from any Secret, none
      included: the old data overlaid with what both want. No later round writes. */
  lemma {:induction false} TwoRoundsConverge(s: Secrets, name: string, owner: string, v: Data, m: Data, n: nat)
    requires Valid(s) && Writable(s, name) && Agree(v, m) && n >= 2
    ensures var s' := Rounds(s, name, owner, v, Mapped(m), n);
            && s' == Rounds(s, name, owner, v, Mapped(m), 2)
            && DataOf(s', name) == DataOf(s, name) + v + m
            && Settled(s', name, owner, v, m)
            && Round(s', name, owner, v, Mapped(m)) == (s', true)
    decreases n
  {
    RoundsUnfold(s, name, owner, v, Mapped(m));
    TwoRounds(s, name, owner, v, m);
    SettledStays(Rounds(s, name, owner, v, Mapped(m), 2), name, owner, v, m);
    if n > 2 {
      TwoRoundsConverge(s, name, owner, v, m, n - 1);
      assert Rounds(s, name, owner, v, Mapped(m), n) ==
             Round(Rounds(s, name, owner, v, Mapped(m), n - 1), name, owner, v, Mapped(m)).0;
    }
  }

  /** A quiet round, one without an error and without a write, exists exactly if the writers
      agree: otherwise they overwrite each other for ever. */
  lemma QuietOnlyIfAgreed(s: Secrets, name: string, owner: string, v: Data, m: Data)
    requires Valid(s) && Round(s, name, owner, v, Mapped(m)) == (s, true)
    ensures Agree(v, m) && Settled(s, name, owner, v, m)
  {
    if name !in s.objects {
      RoundFromNothing(s, name, owner, v, m);
      assert false;
    }
    var (o1, s1) := WriteFrom(s, s, name, owner, v);
    assert !Writable(s, name) ==> o1.Forbidden?;
    LockedWrite(s, name, owner, v);
    if s1 != s {
      StaleWrite(s1, s, name, owner, m);
      assert false;
    }
    LockedWrite(s, name, owner, m);
    forall key | key in v && key in m ensures v[key] == m[key] {
      assert (DataOf(s, name) + v)[key] == v[key];
      assert (DataOf(s, name) + m)[key] == m[key];
    }
  }

  lemma AgreementIsQuiet(name: string, owner: string, v: Data, m: Data)
    requires Agree(v, m)
    ensures exists s: Secrets :: Valid(s) && Round(s, name, owner, v, Mapped(m)) == (s, true)
  {
    var s: Secrets := Store(map[], 0);
    TwoRounds(s, name, owner, v, m);
    SettledStays(Round(Round(s, name, owner, v, Mapped(m)).0, name, owner, v, Mapped(m)).0, name, owner, v, m);
  }

  // ---- rounds that are cut short ----

  /** A round in which either write may fail to reach the server. */
  function FaultyRound(s: Secrets, name: string, owner: string, v: Data, m: Data, first: bool, second: bool): Secrets {
    var s1 := if first then WriteFrom(s, s, name, owner, v).1 else s;
    if second then WriteFrom(s1, s, name, owner, m).1 else s1
  }

  function FaultyRounds(s: Secrets, name: string, owner: string, v: Data, m: Data, faults: seq<(bool, bool)>): Secrets
    decreases |faults|
  {
    if faults == [] then s
    else
      var n := |faults| - 1;
      FaultyRound(FaultyRounds(s, name, owner, v, m, faults[..n]), name, owner, v, m, faults[n].0, faults[n].1)
  }

  /** What a faulty round leaves still leads to the same data. */
  predicate OnTheWay(s: Secrets, s': Secrets, name: string, v: Data, m: Data) {
    DataOf(s', name) + v + m == DataOf(s, name) + v + m
  }

  lemma OverlaysAbsorb(d: Data, v: Data, m: Data)
    requires Agree(v, m)
    ensures d + v + v + m == d + v + m
    ensures d + m + v + m == d + v + m
    ensures d + v + m + v + m == d + v + m
    ensures v + v + m == map[] + v + m && m + v + m == map[] + v + m
  {
  }

  lemma FaultyFromExisting(s: Secrets, name: string, owner: string, v: Data, m: Data, first: bool, second: bool)
    requires Valid(s) && Writable(s, name) && Agree(v, m) && name in s.objects
    ensures var s' := FaultyRound(s, name, owner, v, m, first, second);
            Valid(s') && Writable(s', name) && OnTheWay(s, s', name, v, m)
  {
    OverlaysAbsorb(DataOf(s, name), v, m);
    var s1 := if first then WriteFrom(s, s, name, owner, v).1 else s;
    LockedWrite(s, name, owner, v);
    if s1 == s {
      LockedWrite(s, name, owner, m);
    } else {
      StaleWrite(s1, s, name, owner, m);
    }
  }

  lemma FaultyFromNothing(s: Secrets, name: string, owner: string, v: Data, m: Data, first: bool, second: bool)
    requires Valid(s) && Agree(v, m) && name !in s.objects
    ensures var s' := FaultyRound(s, name, owner, v, m, first, second);
            Valid(s') && Writable(s', name) && OnTheWay(s, s', name, v, m)
  {
    OverlaysAbsorb(map[], v, m);
    BlindWrite(s, s, name, owner, v);
    BlindWrite(if first then WriteFrom(s, s, name, owner, v).1 else s, s, name, owner, m);
  }

  lemma FaultyRoundStaysOnTheWay(s: Secrets, name: string, owner: string, v: Data, m: Data, first: bool, second: bool)
    requires Valid(s) && Writable(s, name) && Agree(v, m)
    ensures var s' := FaultyRound(s, name, owner, v, m, first, second);
            Valid(s') && Writable(s', name) && OnTheWay(s, s', name, v, m)
  {
    if name in s.objects {
      FaultyFromExisting(s, name, owner, v, m, first, second);
    } else {
      FaultyFromNothing(s, name, owner, v, m, first, second);
    }
  }

  /** However many rounds failed half-way, two undisturbed ones reach the same data. */
  lemma {:induction false} FaultsDoNotMatter(s: Secrets, name: string, owner: string, v: Data, m: Data, faults: seq<(bool, bool)>)
    requires Valid(s) && Writable(s, name) && Agree(v, m)
    ensures var s' := FaultyRounds(s, name, owner, v, m, faults);
            && Valid(s') && Writable(s', name) && OnTheWay(s, s', name, v, m)
            && DataOf(Rounds(s', name, owner, v, Mapped(m), 2), name) == DataOf(s, name) + v + m
    decreases |faults|
  {
    var s' := FaultyRounds(s, name, owner, v, m, faults);
    if faults != [] {
      var n := |faults| - 1;
      FaultsDoNotMatter(s, name, owner, v, m, faults[..n]);
      FaultyRoundStaysOnTheWay(FaultyRounds(s, name, owner, v, m, faults[..n]), name, owner, v, m, faults[n].0, faults[n].1);
    }
    TwoRoundsConverge(s', name, owner, v, m, 2);
  }
}

/** The synchronizers as they are written: objects with a destination in memory, driven by
    `syncSecrets` through a list that is first read as a whole and then written as a whole. */
module SecretSyncController {
  import opened ApiServer
  import opened SecretSync
  import opened Wrappers

  // ---- mapping a cloud credential ----

  /** Where a value comes from. */
  datatype Conversion =
    | Raw(source: string)
    | B64(source: string)
    | Template(sources: seq<string>)

  datatype Mapping = Mapping(to: string, from: Conversion)

  /** base64 and the rendering of the provider's template. */
  datatype Codec = Codec(encode: string -> string, render: Data -> string)

  function Lookup(data: Data, key: string): string {
    if key in data then data[key] else ""
  }

  predicate Validates(from: Conversion, data: Data) {
    match from
    case Raw(source) => source in data
    case B64(source) => source in data
    case Template(sources) => forall key | key in sources :: key in data
  }

  function Convert(from: Conversion, data: Data, codec: Codec): string {
    match from
    case Raw(source) => Lookup(data, source)
    case B64(source) => codec.encode(Lookup(data, source))
    case Template(_) => if Validates(from, data) then codec.encode(codec.render(data)) else ""
  }

  /** The last mapping to a key wins. */
  function Values(mappings: seq<Mapping>, data: Data, codec: Codec): Data {
    if mappings == [] then map[]
    else
      var n := |mappings| - 1;
      Values(mappings[..n], data, codec)[mappings[n].to := Convert(mappings[n].from, data, codec)]
  }

  /** `to` has what this mapping asks for: the source's value as it is or encoded, an absent source
      counting as empty; or the rendered data, encoded, if all sources are there, else nothing. */
  predicate HasMapped(to: Data, m: Mapping, data: Data, codec: Codec) {
    && m.to in to
    && match m.from
       case Raw(source) => to[m.to] == if source in data then data[source] else ""
       case B64(source) => to[m.to] == if source in data then codec.encode(data[source]) else codec.encode("")
       case Template(sources) =>
         to[m.to] == if (forall key | key in sources :: key in data) then codec.encode(codec.render(data)) else ""
  }

  /** Every source of the mapping is there. */
  predicate HasSources(m: Mapping, data: Data) {
    match m.from
    case Raw(source) => source in data
    case B64(source) => source in data
    case Template(sources) => forall i | 0 <= i < |sources| :: sources[i] in data
  }

  /** No later mapping has the same target. */
  predicate Final(mappings: seq<Mapping>, i: nat) {
    i < |mappings| && forall j | i < j < |mappings| :: mappings[j].to != mappings[i].to
  }

  lemma ConvertMaps(to: Data, m: Mapping, data: Data, codec: Codec)
    ensures HasMapped(to[m.to := Convert(m.from, data, codec)], m, data, codec)
  {
  }

  lemma {:induction false} ValuesAt(mappings: seq<Mapping>, data: Data, codec: Codec, i: nat)
    requires Final(mappings, i)
    ensures HasMapped(Values(mappings, data, codec), mappings[i], data, codec)
  {
    var n := |mappings| - 1;
    var before := Values(mappings[..n], data, codec);
    if i == n {
      ConvertMaps(before, mappings[n], data, codec);
    } else {
      assert mappings[..n][i] == mappings[i] && Final(mappings[..n], i);
      ValuesAt(mappings[..n], data, codec, i);
      assert mappings[n].to != mappings[i].to;
    }
  }

  lemma {:induction false} ValuesOnly(mappings: seq<Mapping>, data: Data, codec: Codec)
    ensures forall key | key in Values(mappings, data, codec) :: exists i | 0 <= i < |mappings| :: mappings[i].to == key
  {
    if mappings != [] {
      var n := |mappings| - 1;
      ValuesOnly(mappings[..n], data, codec);
      assert forall i | 0 <= i < n :: mappings[..n][i] == mappings[i];
    }
  }

  lemma ValuesMean(mappings: seq<Mapping>, data: Data, codec: Codec)
    ensures var to := Values(mappings, data, codec);
            && (forall i: nat | Final(mappings, i) :: HasMapped(to, mappings[i], data, codec))
            && (forall key | key in to :: exists i | 0 <= i < |mappings| :: mappings[i].to == key)
  {
    forall i: nat | Final(mappings, i) ensures HasMapped(Values(mappings, data, codec), mappings[i], data, codec) {
      ValuesAt(mappings, data, codec, i);
    }
    ValuesOnly(mappings, data, codec);
  }

  /** `Into`: every target is written, even when its source is missing, and nothing else is; the
      result tells whether no source was missing. */
  method Into(mappings: seq<Mapping>, data: Data, codec: Codec) returns (to: Data, ok: bool)
    ensures to == Values(mappings, data, codec)
    ensures forall i: nat | Final(mappings, i) :: HasMapped(to, mappings[i], data, codec)
    ensures forall key | key in to :: exists i | 0 <= i < |mappings| :: mappings[i].to == key
    ensures ok <==> forall i | 0 <= i < |mappings| :: HasSources(mappings[i], data)
  {
    to, ok := map[], true;
    for i := 0 to |mappings|
      invariant to == Values(mappings[..i], data, codec)
      invariant ok <==> forall j | 0 <= j < i :: HasSources(mappings[j], data)
    {
      ok := ok && Validates(mappings[i].from, data);
      to := to[mappings[i].to := Convert(mappings[i].from, data, codec)];
      assert mappings[..i + 1][..i] == mappings[..i];
    }
    assert mappings[..|mappings|] == mappings;
    ValuesMean(mappings, data, codec);
  }

  /** No two mappings have the same target. */
  predicate Distinct(mappings: seq<Mapping>) {
    forall i, j | 0 <= i < j < |mappings| :: mappings[i].to != mappings[j].to
  }

  /** With distinct targets every mapping has its say. */
  lemma MappedKeys(mappings: seq<Mapping>, data: Data, codec: Codec, i: nat)
    requires Distinct(mappings) && i < |mappings|
    ensures HasMapped(Values(mappings, data, codec), mappings[i], data, codec)
  {
    ValuesMean(mappings, data, codec);
    assert Final(mappings, i);
  }

  // ---- the server and the synchronizers ----

  class SecretServer {
    var secrets: Secrets

    constructor (secrets: Secrets)
      ensures this.secrets == secrets
    {
      this.secrets := secrets;
    }
  }

  class Synchronizer {
    const server: SecretServer
    const name: string
    const owner: string
    const found: bool
    const values: Data
    var destination: Destination

    constructor (server: SecretServer, name: string, owner: string, found: bool, values: Data)
      ensures this.server == server && this.name == name && this.owner == owner
      ensures this.found == found && this.values == values && destination == TEMPLATE
    {
      this.server, this.name, this.owner := server, name, owner;
      this.found, this.values := found, values;
      destination := TEMPLATE;
    }

    /** A credential whose source is missing is not read any further. */
    method Get() returns (ok: bool)
      modifies this
      ensures ok == found
      ensures destination == if found then Read(server.secrets, name, old(destination)) else old(destination)
    {
      ok := found;
      if found && name in server.secrets.objects {
        var o := server.secrets.objects[name];
        destination := Destination(Some(o.version), o.finalizers, o.labels, o.annotations, o.body.owner, o.body.data, map[]);
      }
    }

    method Sync()
      modifies this
      ensures destination == old(destination).(stringData := values)
    {
      destination := destination.(stringData := values);
    }

    /** `Apply`: claim the destination, then update or create it. */
    method Apply() returns (ok: bool)
      modifies this, server
      ensures var (outcome, secrets) := Patch(old(server.secrets), name, Claimed(old(destination), owner));
              server.secrets == secrets && (ok <==> outcome.Ok?)
    {
      if FOREGROUND !in destination.finalizers {
        destination := destination.(finalizers := destination.finalizers + {FOREGROUND});
      }
      destination := destination.(owner := owner);
      assert destination == Claimed(old(destination), owner);

      var (outcome, secrets) := UpdateSecret(server.secrets, name, destination);
      if outcome.NotFound? {
        if destination.version.Some? {
          return false;
        }
        var created := Create(server.secrets, name, Written(destination));
        outcome, secrets := created.0, created.1;
      }
      server.secrets := secrets;
      ok := outcome.Ok?;
    }
  }

  // ---- one round ----

  /** The list of initialized synchronizers, all on one Secret. */
  predicate Aligned(list: seq<Synchronizer>, server: SecretServer, name: string, owner: string) {
    && (forall i | 0 <= i < |list| :: list[i].server == server && list[i].name == name && list[i].owner == owner)
    && (forall i, j | 0 <= i < j < |list| :: list[i] != list[j])
  }

  /** All reads before any write; every synchronizer is asked even after one has failed. */
  method SyncAll(list: seq<Synchronizer>, server: SecretServer, name: string, owner: string) returns (ok: bool)
    requires Aligned(list, server, name, owner)
    requires forall i | 0 <= i < |list| :: list[i].destination == TEMPLATE
    modifies list
    ensures ok <==> forall i | 0 <= i < |list| :: list[i].found
    ensures forall i | 0 <= i < |list| && list[i].found ::
              list[i].destination == Read(server.secrets, name, TEMPLATE).(stringData := list[i].values)
  {
    ok := true;
    for i := 0 to |list|
      invariant server.secrets == old(server.secrets)
      invariant ok <==> forall j | 0 <= j < i :: list[j].found
      invariant forall j | 0 <= j < i && list[j].found ::
                  list[j].destination == Read(server.secrets, name, TEMPLATE).(stringData := list[j].values)
      invariant forall j | i <= j < |list| :: list[j].destination == TEMPLATE
    {
      var got := list[i].Get();
      list[i].Sync();
      ok := ok && got;
    }
  }

  /** Writes in list order, starting from what is there; the flag tells whether all went through. */
  function ApplyAll(s: Secrets, read: Secrets, name: string, owner: string, values: seq<Data>): (Secrets, bool) {
    if values == [] then (s, true)
    else
      var n := |values| - 1;
      var (s1, ok) := ApplyAll(s, read, name, owner, values[..n]);
      var (outcome, s2) := WriteFrom(s1, read, name, owner, values[n]);
      (s2, ok && outcome.Ok?)
  }

  function ValuesOf(list: seq<Synchronizer>): (values: seq<Data>)
    ensures |values| == |list|
  {
    seq(|list|, i requires 0 <= i < |list| => list[i].values)
  }

  method ApplyList(list: seq<Synchronizer>, server: SecretServer, name: string, owner: string, ghost read: Secrets)
    returns (ok: bool)
    requires Aligned(list, server, name, owner)
    requires forall i | 0 <= i < |list| ::
               list[i].destination == Read(read, name, TEMPLATE).(stringData := list[i].values)
    modifies list, server
    ensures (server.secrets, ok) == ApplyAll(old(server.secrets), read, name, owner, ValuesOf(list))
  {
    ok := true;
    ghost var values := ValuesOf(list);
    for i := 0 to |list|
      invariant (server.secrets, ok) == ApplyAll(old(server.secrets), read, name, owner, values[..i])
      invariant forall j | i <= j < |list| ::
                  list[j].destination == Read(read, name, TEMPLATE).(stringData := list[j].values)
    {
      var applied := list[i].Apply();
      ok := ok && applied;
      assert values[..i + 1][..i] == values[..i];
    }
    assert values[..|list|] == values;
  }

  /** `syncSecrets`: one round is what the specification says, for every state of the server. */
  method SyncSecrets(server: SecretServer, name: string, owner: string, variables: Data, mapper: Mapper)
    returns (ok: bool)
    modifies server
    ensures (server.secrets, ok) == Round(old(server.secrets), name, owner, variables, mapper)
  {
    var list := [];
    var first := new Synchronizer(server, name, owner, true, variables);
    list := [first];
    if !mapper.Unconfigured? {
      var values := if mapper.Mapped? then mapper.values else map[];
      var second := new Synchronizer(server, name, owner, mapper.Mapped?, values);
      list := [first, second];
    }
    ghost var read := server.secrets;
    ok := SyncAll(list, server, name, owner);
    if !ok {
      assert !list[|list| - 1].found;
      return;
    }
    assert forall i | 0 <= i < |list| :: list[i].found;
    ok := ApplyList(list, server, name, owner, read);
    ApplyAllIsRound(read, name, owner, variables, mapper);
    assert mapper.Mapped? ==> ValuesOf(list) == [variables, mapper.values];
    assert mapper.Unconfigured? ==> ValuesOf(list) == [variables];
  }

  lemma ApplyAllIsRound(s: Secrets, name: string, owner: string, variables: Data, mapper: Mapper)
    ensures mapper.Mapped? ==>
              ApplyAll(s, s, name, owner, [variables, mapper.values]) == Round(s, name, owner, variables, mapper)
    ensures mapper.Unconfigured? ==>
              ApplyAll(s, s, name, owner, [variables]) == Round(s, name, owner, variables, mapper)
  {
    assert [variables][..0] == [];
    assert ApplyAll(s, s, name, owner, []) == (s, true);
    if mapper.Mapped? {
      assert [variables, mapper.values][..1] == [variables];
    }
  }
}

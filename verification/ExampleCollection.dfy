/** The collection of embedded examples: a walk over a directory tree that keeps its own stack, and
    the joining of the YAML files of each directory. */
module ExampleCollection {

  const SEPARATOR := "\n---\n"

  datatype Entry = File(name: string, content: string) | Dir(name: string, entries: seq<Entry>)

  /** A directory by its path, with its listing. */
  datatype Directory = Directory(path: string, entries: seq<Entry>)

  // ---- joining ----

  /** Every text that is not empty, each after a separator. */
  function Stitched(yamls: seq<string>): string {
    if yamls == [] then ""
    else
      var last := yamls[|yamls| - 1];
      Stitched(yamls[..|yamls| - 1]) + if last == "" then "" else SEPARATOR + last
  }

  method JoinYamls(yamls: seq<string>) returns (joined: string)
    ensures joined == Stitched(yamls)
  {
    joined := "";
    for i := 0 to |yamls|
      invariant joined == Stitched(yamls[..i])
    {
      assert yamls[..i + 1][..i] == yamls[..i];
      if yamls[i] != "" {
        joined := joined + SEPARATOR + yamls[i];
      }
    }
    assert yamls[..|yamls|] == yamls;
  }

  /** Joining one file after the other onto what has been joined. */
  function Accumulated(contents: seq<string>): string {
    if contents == [] then ""
    else Stitched([Accumulated(contents[..|contents| - 1]), contents[|contents| - 1]])
  }

  function Repeated(s: string, n: nat): string {
    if n == 0 then "" else s + Repeated(s, n - 1)
  }

  /** The number of files after the first that is not empty. */
  function AfterFirst(contents: seq<string>): nat {
    if contents == [] then 0
    else
      var most := contents[..|contents| - 1];
      if Stitched(most) == "" then 0 else AfterFirst(most) + 1
  }

  lemma StitchedPair(acc: string, content: string)
    ensures Stitched([acc, content]) ==
            (if acc == "" then "" else SEPARATOR + acc) + (if content == "" then "" else SEPARATOR + content)
  {
    assert [acc, content][..1] == [acc] && [acc][..0] == [];
    assert Stitched([acc]) == if acc == "" then "" else SEPARATOR + acc;
  }

  lemma {:induction false} StitchedIsEmpty(yamls: seq<string>)
    ensures Stitched(yamls) == "" <==> forall i | 0 <= i < |yamls| :: yamls[i] == ""
  {
    if yamls != [] {
      var most, last := yamls[..|yamls| - 1], yamls[|yamls| - 1];
      StitchedIsEmpty(most);
      assert |Stitched(yamls)| == |Stitched(most)| + if last == "" then 0 else |SEPARATOR| + |last|;
      assert forall i | 0 <= i < |most| :: yamls[i] == most[i];
    }
  }

  lemma Regroup(a: string, b: string, c: string, d: string)
    ensures (a + (b + c)) + d == (a + b) + (c + d)
  {
  }

  /** In closed form: every text that is not empty once, in listing order, each after a separator;
      and in front of all one separator for every file after the first that is not empty. */
  lemma {:induction false} AccumulatedMeans(contents: seq<string>)
    ensures Accumulated(contents) ==
            if Stitched(contents) == "" then "" else Repeated(SEPARATOR, AfterFirst(contents)) + Stitched(contents)
  {
    if contents != [] {
      var most, last := contents[..|contents| - 1], contents[|contents| - 1];
      var tail := if last == "" then "" else SEPARATOR + last;
      AccumulatedMeans(most);
      StitchedPair(Accumulated(most), last);
      assert Stitched(contents) == Stitched(most) + tail;
      if Stitched(most) != "" {
        var front := Repeated(SEPARATOR, AfterFirst(most));
        assert |front + Stitched(most)| > 0 && |Stitched(most) + tail| > 0;
        Regroup(SEPARATOR, front, Stitched(most), tail);
      } else {
        assert "" + tail == tail;
      }
    }
  }

  // ---- one directory ----

  function JoinPath(root: string, name: string): string {
    if root == "." then name else root + "/" + name
  }

  predicate EndsWith(s: string, suffix: string) {
    |suffix| <= |s| && s[|s| - |suffix|..] == suffix
  }

  predicate IsYaml(name: string) {
    EndsWith(name, ".yaml") || EndsWith(name, ".yml")
  }

  function Subdirs(path: string, entries: seq<Entry>): seq<Directory> {
    if entries == [] then []
    else
      var last := entries[|entries| - 1];
      Subdirs(path, entries[..|entries| - 1]) +
      if last.Dir? then [Directory(JoinPath(path, last.name), last.entries)] else []
  }

  /** The contents of the YAML files of a listing, in order. */
  function Yamls(entries: seq<Entry>): seq<string> {
    if entries == [] then []
    else
      var last := entries[|entries| - 1];
      Yamls(entries[..|entries| - 1]) + if last.File? && IsYaml(last.name) then [last.content] else []
  }

  function Dash(c: char): char {
    if c == '/' then '-' else c
  }

  function Dashed(path: string): (r: string)
    ensures |r| == |path| && forall i | 0 <= i < |path| :: r[i] == Dash(path[i])
  {
    if path == "" then "" else [Dash(path[0])] + Dashed(path[1..])
  }

  function TrimPrefix(s: string, prefix: string): string {
    if prefix <= s then s[|prefix|..] else s
  }

  /** The key under which the files of a directory are collected. */
  function KeyFor(prefix: string, path: string): string {
    Dashed(TrimPrefix(path, prefix))
  }

  predicate AlikeWhenDashed(a: string, b: string) {
    |a| == |b| && forall i | 0 <= i < |a| :: a[i] == b[i] || (a[i] == '/' && b[i] == '-') || (a[i] == '-' && b[i] == '/')
  }

  /** Two directories share a key exactly when their trimmed paths differ only where one has a slash
      and the other a dash. */
  lemma KeysCollideExactly(prefix: string, p: string, q: string)
    ensures KeyFor(prefix, p) == KeyFor(prefix, q) <==> AlikeWhenDashed(TrimPrefix(p, prefix), TrimPrefix(q, prefix))
  {
    var a, b := TrimPrefix(p, prefix), TrimPrefix(q, prefix);
    if Dashed(a) == Dashed(b) {
      forall i | 0 <= i < |a| ensures Dash(a[i]) == Dash(b[i]) {
        assert Dashed(a)[i] == Dashed(b)[i];
      }
    }
    if AlikeWhenDashed(a, b) {
      forall i | 0 <= i < |a| ensures Dashed(a)[i] == Dashed(b)[i] {
        assert Dash(a[i]) == Dash(b[i]);
      }
    }
  }

  /** What a directory contributes: its key and its joined files, if it has YAML files. */
  function Share(prefix: string, d: Directory): seq<(string, string)> {
    if Yamls(d.entries) == [] then [] else [(KeyFor(prefix, d.path), Accumulated(Yamls(d.entries)))]
  }

  /** One more entry of a listing: it adds to the stack or to the contents. */
  lemma ListingStep(path: string, entries: seq<Entry>, i: nat, stack: seq<Directory>)
    requires i < |entries|
    ensures var e := entries[i];
            && Yamls(entries[..i + 1]) == (if e.File? && IsYaml(e.name) then Yamls(entries[..i]) + [e.content] else Yamls(entries[..i]))
            && stack + Subdirs(path, entries[..i + 1]) ==
               (if e.Dir? then stack + Subdirs(path, entries[..i]) + [Directory(JoinPath(path, e.name), e.entries)]
                else stack + Subdirs(path, entries[..i]))
  {
    assert entries[..i + 1][..i] == entries[..i];
  }

  /** The map that joining the files of one directory one after the other builds. */
  function Gathered(key: string, contents: seq<string>): map<string, string> {
    if contents == [] then map[] else map[key := Accumulated(contents)]
  }

  lemma GatheredSnoc(key: string, contents: seq<string>, content: string)
    ensures var files := Gathered(key, contents);
            Gathered(key, contents + [content]) ==
            files[key := Stitched([if key in files then files[key] else "", content])]
  {
    assert (contents + [content])[..|contents|] == contents;
  }

  // ---- what a listing comes to, entry by entry ----

  ghost predicate Named(s: string, suffix: string) {
    exists stem: string :: s == stem + suffix
  }

  lemma EndsWithExactly(s: string, suffix: string)
    ensures EndsWith(s, suffix) <==> Named(s, suffix)
  {
    if EndsWith(s, suffix) {
      assert s == s[..|s| - |suffix|] + suffix;
    }
  }

  lemma Associative<T>(a: seq<T>, b: seq<T>, c: seq<T>)
    ensures (a + b) + c == a + (b + c)
  {
  }

  function Counted(e: Entry): seq<string> {
    if e.File? && IsYaml(e.name) then [e.content] else []
  }

  lemma YamlsSnoc(entries: seq<Entry>, e: Entry)
    ensures Yamls(entries + [e]) == Yamls(entries) + Counted(e)
  {
    assert (entries + [e])[..|entries|] == entries;
  }

  lemma {:induction false} YamlsFromFront(e: Entry, rest: seq<Entry>)
    ensures Yamls([e] + rest) == Counted(e) + Yamls(rest)
  {
    if rest == [] {
      assert [e] + rest == [] + [e];
      YamlsSnoc([], e);
    } else {
      var most, last := rest[..|rest| - 1], rest[|rest| - 1];
      assert rest == most + [last];
      calc {
        Yamls([e] + rest);
        { assert [e] + rest == [e] + most + [last]; }
        Yamls([e] + most + [last]);
        { YamlsSnoc([e] + most, last); }
        Yamls([e] + most) + Counted(last);
        { YamlsFromFront(e, most); }
        Counted(e) + Yamls(most) + Counted(last);
        { Associative(Counted(e), Yamls(most), Counted(last)); }
        Counted(e) + (Yamls(most) + Counted(last));
        { YamlsSnoc(most, last); }
        Counted(e) + Yamls(rest);
      }
    }
  }

  lemma IsYamlExactly(name: string)
    ensures IsYaml(name) <==> Named(name, ".yaml") || Named(name, ".yml")
  {
    EndsWithExactly(name, ".yaml");
    EndsWithExactly(name, ".yml");
  }

  /** A file whose name ends in .yaml or .yml counts, in its place; nothing else does. */
  lemma YamlsFrom(e: Entry, rest: seq<Entry>)
    ensures Yamls([e] + rest) ==
            (if e.File? && (Named(e.name, ".yaml") || Named(e.name, ".yml")) then [e.content] else []) + Yamls(rest)
  {
    YamlsFromFront(e, rest);
    if e.File? {
      IsYamlExactly(e.name);
    }
  }

  function Pushed(path: string, e: Entry): seq<Directory> {
    if e.Dir? then [Directory(JoinPath(path, e.name), e.entries)] else []
  }

  lemma SubdirsSnoc(path: string, entries: seq<Entry>, e: Entry)
    ensures Subdirs(path, entries + [e]) == Subdirs(path, entries) + Pushed(path, e)
  {
    assert (entries + [e])[..|entries|] == entries;
  }

  lemma {:induction false} SubdirsFromFront(path: string, e: Entry, rest: seq<Entry>)
    ensures Subdirs(path, [e] + rest) == Pushed(path, e) + Subdirs(path, rest)
  {
    if rest == [] {
      assert [e] + rest == [] + [e];
      SubdirsSnoc(path, [], e);
    } else {
      var most, last := rest[..|rest| - 1], rest[|rest| - 1];
      assert rest == most + [last];
      calc {
        Subdirs(path, [e] + rest);
        { assert [e] + rest == [e] + most + [last]; }
        Subdirs(path, [e] + most + [last]);
        { SubdirsSnoc(path, [e] + most, last); }
        Subdirs(path, [e] + most) + Pushed(path, last);
        { SubdirsFromFront(path, e, most); }
        Pushed(path, e) + Subdirs(path, most) + Pushed(path, last);
        { Associative(Pushed(path, e), Subdirs(path, most), Pushed(path, last)); }
        Pushed(path, e) + (Subdirs(path, most) + Pushed(path, last));
        { SubdirsSnoc(path, most, last); }
        Pushed(path, e) + Subdirs(path, rest);
      }
    }
  }

  /** A directory goes onto the stack, in its place, under its parent's path and its own name; at
      the root under its name alone. */
  lemma SubdirsFrom(path: string, e: Entry, rest: seq<Entry>)
    ensures Subdirs(path, [e] + rest) ==
            (if e.Dir? then [Directory(if path == "." then e.name else path + "/" + e.name, e.entries)] else [])
            + Subdirs(path, rest)
  {
    SubdirsFromFront(path, e, rest);
  }

  function Separated(yaml: string): string {
    if yaml == "" then "" else SEPARATOR + yaml
  }

  lemma StitchedSnoc(yamls: seq<string>, yaml: string)
    ensures Stitched(yamls + [yaml]) == Stitched(yamls) + Separated(yaml)
  {
    assert (yamls + [yaml])[..|yamls|] == yamls;
  }

  lemma {:induction false} StitchedFromFront(yaml: string, rest: seq<string>)
    ensures Stitched([yaml] + rest) == Separated(yaml) + Stitched(rest)
  {
    if rest == [] {
      assert [yaml] + rest == [] + [yaml];
      StitchedSnoc([], yaml);
    } else {
      var most, last := rest[..|rest| - 1], rest[|rest| - 1];
      assert rest == most + [last];
      calc {
        Stitched([yaml] + rest);
        { assert [yaml] + rest == [yaml] + most + [last]; }
        Stitched([yaml] + most + [last]);
        { StitchedSnoc([yaml] + most, last); }
        Stitched([yaml] + most) + Separated(last);
        { StitchedFromFront(yaml, most); }
        Separated(yaml) + Stitched(most) + Separated(last);
        { Associative(Separated(yaml), Stitched(most), Separated(last)); }
        Separated(yaml) + (Stitched(most) + Separated(last));
        { StitchedSnoc(most, last); }
        Separated(yaml) + Stitched(rest);
      }
    }
  }

  /** Texts in order, each that is not empty after a separator line. */
  lemma StitchedFrom(yaml: string, rest: seq<string>)
    ensures Stitched([yaml] + rest) == (if yaml == "" then "" else "\n---\n" + yaml) + Stitched(rest)
  {
    StitchedFromFront(yaml, rest);
  }

  /** The key of a path below the prefix is the rest of the path with dashes for slashes. */
  lemma KeyMeans(prefix: string, path: string)
    ensures |KeyFor(prefix, prefix + path)| == |path|
    ensures forall i | 0 <= i < |path| :: KeyFor(prefix, prefix + path)[i] == if path[i] == '/' then '-' else path[i]
    ensures KeyFor("applications/", ".") == "." && KeyFor("clusterclasses/", ".") == "."
  {
    assert (prefix + path)[|prefix|..] == path;
    assert Dashed(".") == ".";
  }

  // ---- the walk ----

  /** The number of directories in a listing, at any depth. */
  function Count(entries: seq<Entry>): nat {
    if entries == [] then 0
    else
      var last := entries[|entries| - 1];
      Count(entries[..|entries| - 1]) + if last.Dir? then 1 + Count(last.entries) else 0
  }

  /** The total size of the subtrees on the stack. */
  function Weight(stack: seq<Directory>): nat {
    if stack == [] then 0
    else Weight(stack[..|stack| - 1]) + 1 + Count(stack[|stack| - 1].entries)
  }

  lemma {:induction false} WeightAppend(stack: seq<Directory>, more: seq<Directory>)
    ensures Weight(stack + more) == Weight(stack) + Weight(more)
  {
    if more == [] {
      assert stack + more == stack;
    } else {
      WeightAppend(stack, more[..|more| - 1]);
      assert (stack + more)[..|stack + more| - 1] == stack + more[..|more| - 1];
    }
  }

  lemma {:induction false} SubdirsWeight(path: string, entries: seq<Entry>)
    ensures Weight(Subdirs(path, entries)) == Count(entries)
  {
    if entries != [] {
      SubdirsWeight(path, entries[..|entries| - 1]);
      var last := entries[|entries| - 1];
      if last.Dir? {
        var d := Directory(JoinPath(path, last.name), last.entries);
        WeightAppend(Subdirs(path, entries[..|entries| - 1]), [d]);
        assert [d][..0] == [];
        assert Weight([d]) == 1 + Count(last.entries);
      } else {
        assert Subdirs(path, entries) == Subdirs(path, entries[..|entries| - 1]);
      }
    }
  }

  /** Popping a directory and pushing its subdirectories takes one directory off. */
  lemma WeightDrops(stack: seq<Directory>)
    requires stack != []
    ensures var d := stack[|stack| - 1];
            Weight(stack[..|stack| - 1] + Subdirs(d.path, d.entries)) == Weight(stack) - 1
  {
    var d := stack[|stack| - 1];
    WeightAppend(stack[..|stack| - 1], Subdirs(d.path, d.entries));
    SubdirsWeight(d.path, d.entries);
  }

  /** The directories in the order the walk visits them. */
  function Visits(stack: seq<Directory>): seq<Directory>
    decreases Weight(stack)
  {
    if stack == [] then []
    else
      var d := stack[|stack| - 1];
      WeightDrops(stack);
      [d] + Visits(stack[..|stack| - 1] + Subdirs(d.path, d.entries))
  }

  lemma VisitStep(stack: seq<Directory>, before: seq<Directory>)
    requires stack != []
    ensures var d := stack[|stack| - 1];
            before + Visits(stack) == before + [d] + Visits(stack[..|stack| - 1] + Subdirs(d.path, d.entries))
  {
    var d := stack[|stack| - 1];
    WeightDrops(stack);
    Associative(before, [d], Visits(stack[..|stack| - 1] + Subdirs(d.path, d.entries)));
  }

  /** The directories of a listing, at any depth. */
  function Below(path: string, entries: seq<Entry>): multiset<Directory>
    decreases entries
  {
    if entries == [] then multiset{}
    else
      var last := entries[|entries| - 1];
      Below(path, entries[..|entries| - 1]) +
      if last.Dir? then
        var p := JoinPath(path, last.name);
        multiset{Directory(p, last.entries)} + Below(p, last.entries)
      else multiset{}
  }

  /** A directory and everything below it. */
  function Tree(d: Directory): multiset<Directory> {
    multiset{d} + Below(d.path, d.entries)
  }

  function Forest(stack: seq<Directory>): multiset<Directory> {
    if stack == [] then multiset{}
    else Forest(stack[..|stack| - 1]) + Tree(stack[|stack| - 1])
  }

  lemma ForestSnoc(stack: seq<Directory>, d: Directory)
    ensures Forest(stack + [d]) == Forest(stack) + Tree(d)
  {
    assert (stack + [d])[..|stack|] == stack;
  }

  lemma MultisetAssociative<T>(a: multiset<T>, b: multiset<T>, c: multiset<T>)
    ensures (a + b) + c == a + (b + c)
  {
  }

  lemma {:induction false} ForestAppend(stack: seq<Directory>, more: seq<Directory>)
    ensures Forest(stack + more) == Forest(stack) + Forest(more)
  {
    if more == [] {
      assert stack + more == stack;
    } else {
      var most, last := more[..|more| - 1], more[|more| - 1];
      assert more == most + [last];
      calc {
        Forest(stack + more);
        { assert stack + more == stack + most + [last]; }
        Forest(stack + most + [last]);
        { ForestSnoc(stack + most, last); }
        Forest(stack + most) + Tree(last);
        { ForestAppend(stack, most); }
        Forest(stack) + Forest(most) + Tree(last);
        { MultisetAssociative(Forest(stack), Forest(most), Tree(last)); }
        Forest(stack) + (Forest(most) + Tree(last));
        { ForestSnoc(most, last); }
        Forest(stack) + Forest(more);
      }
    }
  }

  lemma {:induction false} SubdirsForest(path: string, entries: seq<Entry>)
    ensures Forest(Subdirs(path, entries)) == Below(path, entries)
  {
    if entries != [] {
      SubdirsForest(path, entries[..|entries| - 1]);
      var last := entries[|entries| - 1];
      if last.Dir? {
        var d := Directory(JoinPath(path, last.name), last.entries);
        ForestAppend(Subdirs(path, entries[..|entries| - 1]), [d]);
        assert [d][..0] == [];
        assert Forest([d]) == Tree(d);
      } else {
        assert Subdirs(path, entries) == Subdirs(path, entries[..|entries| - 1]);
      }
    }
  }

  /** The walk visits every directory of the trees on its stack exactly once. */
  lemma {:induction false} VisitsAll(stack: seq<Directory>)
    ensures multiset(Visits(stack)) == Forest(stack)
    decreases Weight(stack)
  {
    if stack != [] {
      var d, rest := stack[|stack| - 1], stack[..|stack| - 1];
      WeightDrops(stack);
      VisitsAll(rest + Subdirs(d.path, d.entries));
      ForestAppend(rest, Subdirs(d.path, d.entries));
      SubdirsForest(d.path, d.entries);
    }
  }

  // ---- what is collected ----

  /** The map of a list of pairs; a later pair wins. */
  function MapOf(pairs: seq<(string, string)>): map<string, string> {
    if pairs == [] then map[]
    else MapOf(pairs[..|pairs| - 1])[pairs[|pairs| - 1].0 := pairs[|pairs| - 1].1]
  }

  predicate KeysDistinct(pairs: seq<(string, string)>) {
    forall i, j | 0 <= i < j < |pairs| :: pairs[i].0 != pairs[j].0
  }

  /** Every key is there, and its value is that of the last pair with the key. */
  lemma {:induction false} MapOfMeans(pairs: seq<(string, string)>)
    ensures forall k :: k in MapOf(pairs) <==> exists i | 0 <= i < |pairs| :: pairs[i].0 == k
    ensures forall i | 0 <= i < |pairs| && (forall j | i < j < |pairs| :: pairs[j].0 != pairs[i].0) ::
              MapOf(pairs)[pairs[i].0] == pairs[i].1
  {
    if pairs != [] {
      var most := pairs[..|pairs| - 1];
      MapOfMeans(most);
      assert forall i | 0 <= i < |most| :: most[i] == pairs[i];
    }
  }

  /** As many entries as pairs exactly when no two pairs share a key. */
  lemma {:induction false} MapOfSize(pairs: seq<(string, string)>)
    ensures |MapOf(pairs)| <= |pairs|
    ensures |MapOf(pairs)| == |pairs| <==> KeysDistinct(pairs)
  {
    if pairs != [] {
      var most, k := pairs[..|pairs| - 1], pairs[|pairs| - 1].0;
      MapOfSize(most);
      MapOfMeans(most);
      assert forall i | 0 <= i < |most| :: most[i] == pairs[i];
      var before, after := MapOf(most), MapOf(pairs);
      assert after.Keys == before.Keys + {k};
      assert k in before ==> after.Keys == before.Keys;
      assert |after| == |after.Keys| && |before| == |before.Keys|;
    }
  }

  lemma {:induction false} MapOfAppend(pairs: seq<(string, string)>, more: seq<(string, string)>)
    ensures MapOf(pairs + more) == MapOf(pairs) + MapOf(more)
  {
    if more == [] {
      assert pairs + more == pairs;
    } else {
      MapOfAppend(pairs, more[..|more| - 1]);
      assert (pairs + more)[..|pairs + more| - 1] == pairs + more[..|more| - 1];
    }
  }

  /** The contributions of the directories visited, in order. */
  function Shares(prefix: string, visited: seq<Directory>): seq<(string, string)> {
    if visited == [] then []
    else Shares(prefix, visited[..|visited| - 1]) + Share(prefix, visited[|visited| - 1])
  }

  function Collected(prefix: string, visited: seq<Directory>): map<string, string> {
    MapOf(Shares(prefix, visited))
  }

  lemma CollectedSnoc(prefix: string, visited: seq<Directory>, d: Directory)
    ensures Collected(prefix, visited + [d]) == Collected(prefix, visited) + MapOf(Share(prefix, d))
  {
    assert (visited + [d])[..|visited|] == visited;
    MapOfAppend(Shares(prefix, visited), Share(prefix, d));
  }

  lemma {:induction false} SharesHolds(prefix: string, visited: seq<Directory>, i: nat)
    requires i < |visited| && Share(prefix, visited[i]) != []
    ensures Share(prefix, visited[i])[0] in Shares(prefix, visited)
  {
    if i < |visited| - 1 {
      assert visited[..|visited| - 1][i] == visited[i];
      SharesHolds(prefix, visited[..|visited| - 1], i);
    }
  }

  lemma MapOfShare(prefix: string, d: Directory)
    ensures MapOf(Share(prefix, d)) == Gathered(KeyFor(prefix, d.path), Yamls(d.entries))
  {
    var share := Share(prefix, d);
    if share != [] {
      assert share[..0] == [];
    }
  }

  class Examples {
    var applications: map<string, string>
    var clusterClasses: map<string, string>
    var dirs: seq<Directory>

    constructor ()
      ensures dirs == []
    {
      applications, clusterClasses, dirs := map[], map[], [];
    }

    /** Join one more file onto what its directory has. */
    method AddFile(files: map<string, string>, key: string, content: string, ghost contents: seq<string>)
      returns (more: map<string, string>)
      requires files == Gathered(key, contents)
      ensures more == Gathered(key, contents + [content])
    {
      var joined := JoinYamls([if key in files then files[key] else "", content]);
      GatheredSnoc(key, contents, content);
      more := files[key := joined];
    }

    /** `collectFiles`: subdirectories go onto the stack, YAML files into the map. */
    method CollectFiles(root: Directory, prefix: string) returns (files: map<string, string>)
      modifies this`dirs
      ensures dirs == old(dirs) + Subdirs(root.path, root.entries)
      ensures files == MapOf(Share(prefix, root))
    {
      files := map[];
      var key := KeyFor(prefix, root.path);
      for i := 0 to |root.entries|
        invariant dirs == old(dirs) + Subdirs(root.path, root.entries[..i])
        invariant files == Gathered(key, Yamls(root.entries[..i]))
      {
        var entry := root.entries[i];
        ListingStep(root.path, root.entries, i, old(dirs));
        if entry.Dir? {
          dirs := dirs + [Directory(JoinPath(root.path, entry.name), entry.entries)];
        } else if IsYaml(entry.name) {
          files := AddFile(files, key, entry.content, Yamls(root.entries[..i]));
        }
      }
      assert root.entries[..|root.entries|] == root.entries;
      MapOfShare(prefix, root);
    }

    /** One of the two loops: walk the tree until the stack is empty. */
    method Walk(entries: seq<Entry>, prefix: string) returns (collected: map<string, string>)
      requires dirs == []
      modifies this`dirs
      ensures dirs == []
      ensures collected == Collected(prefix, Visits([Directory(".", entries)]))
    {
      collected := map[];
      dirs := dirs + [Directory(".", entries)];
      ghost var all, visited: seq<Directory> := Visits(dirs), [];
      while |dirs| > 0
        invariant visited + Visits(dirs) == all
        invariant collected == Collected(prefix, visited)
        decreases Weight(dirs)
      {
        WeightDrops(dirs);
        VisitStep(dirs, visited);
        var root := dirs[|dirs| - 1];
        dirs := dirs[..|dirs| - 1];
        var files := CollectFiles(root, prefix);
        collected := collected + files;
        CollectedSnoc(prefix, visited, root);
        visited := visited + [root];
      }
      assert visited == all;
    }

    method Collect(applicationFiles: seq<Entry>, clusterClassFiles: seq<Entry>)
      requires dirs == []
      modifies this
      ensures dirs == []
      ensures applications == Collected("applications/", Visits([Directory(".", applicationFiles)]))
      ensures clusterClasses == Collected("clusterclasses/", Visits([Directory(".", clusterClassFiles)]))
    {
      applications, clusterClasses := map[], map[];
      applications := Walk(applicationFiles, "applications/");
      clusterClasses := Walk(clusterClassFiles, "clusterclasses/");
    }
  }

  /** What a walk leaves: the visits are the directories of the tree, each once; there is one entry
      for each of those with YAML files exactly when no two of them share a key; and then each
      entry holds the files of its directory. */
  lemma WalkCollectsTheTree(entries: seq<Entry>, prefix: string)
    ensures var root := Directory(".", entries);
            var visits := Visits([root]);
            var shares, m := Shares(prefix, visits), Collected(prefix, visits);
            && multiset(visits) == Tree(root)
            && (|m| == |shares| <==> KeysDistinct(shares))
            && (forall d | d in Tree(root) && Yamls(d.entries) != [] :: KeyFor(prefix, d.path) in m)
            && (KeysDistinct(shares) ==>
                  forall d | d in Tree(root) && Yamls(d.entries) != [] ::
                    m[KeyFor(prefix, d.path)] == Accumulated(Yamls(d.entries)))
  {
    var root := Directory(".", entries);
    var visits := Visits([root]);
    VisitsAll([root]);
    assert [root][..0] == [];
    assert Forest([root]) == Tree(root);
    var shares, m := Shares(prefix, visits), Collected(prefix, visits);
    MapOfSize(shares);
    MapOfMeans(shares);
    forall d | d in Tree(root) && Yamls(d.entries) != []
      ensures KeyFor(prefix, d.path) in m
      ensures KeysDistinct(shares) ==> m[KeyFor(prefix, d.path)] == Accumulated(Yamls(d.entries))
    {
      assert d in multiset(visits);
      var i :| 0 <= i < |visits| && visits[i] == d;
      SharesHolds(prefix, visits, i);
      var j :| 0 <= j < |shares| && shares[j] == Share(prefix, d)[0];
    }
  }
}

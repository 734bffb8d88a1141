/** The check of a provider's version against the clusterctl configuration, which every reconcile
    repeats: the version listed there is an upper bound. */
module VersionCap {
  import opened Wrappers
  import opened SemVer
  import opened ProviderConfig

  /** The parser of version texts is a library's. */
  type Parser = string -> Option<Version>

  datatype Status = True | False | Unknown
  datatype Condition = Condition(status: Status, reason: string, message: string)

  /** What the check reads and writes: `spec.version` and the last check's condition. */
  datatype Checked = Checked(version: string, check: Option<Condition>)

  datatype CheckFault = NoConfig(fault: Fault) | BadBound | BadVersion

  function TrimV(version: string): string {
    if version != "" && version[0] == 'v' then version[1..] else version
  }

  /** No version asked for, or whichever is the latest. */
  predicate Unset(version: string) {
    version == "" || version == LATEST
  }

  /** Whether the version asked for has reached the bound. */
  function IsLatestVersion(parse: Parser, bound: string, expected: string): Result<bool, CheckFault> {
    if bound == LATEST then Success(true)
    else if parse(TrimV(bound)).None? then Failure(BadBound)
    else if Unset(expected) then Success(false)
    else if parse(TrimV(expected)).None? then Failure(BadVersion)
    else Success(Le(parse(TrimV(bound)).value, parse(TrimV(expected)).value))
  }

  function UpdatedMessage(bound: string): string {
    "Updated to latest " + bound + " version"
  }

  /** One check of a known provider. */
  function Check(parse: Parser, bound: string, auto: bool, s: Checked): Result<Checked, CheckFault> {
    var latest :- IsLatestVersion(parse, bound, s.version);
    Success(
      if latest then
        Checked(bound, Some(Condition(True, "LatestVersionSet", "Latest version is set")))
      else if !auto then
        Checked(s.version, Some(Condition(False, "UpdateAvailable",
                                          "Provider version update available. Current latest is " + bound)))
      else if s.check.Some? && s.check.value.message == UpdatedMessage(bound) then
        Checked(bound, s.check)
      else
        Checked(bound, Some(Condition(True, "VersionUpdated", UpdatedMessage(bound)))))
  }

  /** One check of any provider; an unlisted one is marked and left alone. */
  function CheckAny(parse: Parser, bound: string, known: bool, auto: bool, s: Checked): Result<Checked, CheckFault> {
    if known then Check(parse, bound, auto, s)
    else
      var _ :- IsLatestVersion(parse, bound, s.version);
      Success(s.(check := Some(Condition(Unknown, "ProviderUnknown", "Provider is unknown"))))
  }

  // ---- one check ----

  /** A bound that bounds. */
  predicate Bounds(parse: Parser, bound: string) {
    !Unset(bound) && parse(TrimV(bound)).Some?
  }

  predicate LeText(parse: Parser, a: string, b: string) {
    && !Unset(a) && !Unset(b)
    && parse(TrimV(a)).Some? && parse(TrimV(b)).Some?
    && Le(parse(TrimV(a)).value, parse(TrimV(b)).value)
  }

  /** The same precedence, or both without a version. */
  predicate SameText(parse: Parser, a: string, b: string) {
    (Unset(a) && Unset(b)) || (LeText(parse, a, b) && LeText(parse, b, a))
  }

  /** A check fails exactly when the bound does not parse, or the version asked for is compared
      with it and does not parse. */
  lemma CheckFailsExactly(parse: Parser, bound: string, auto: bool, s: Checked)
    ensures Check(parse, bound, auto, s).Failure? <==>
              && bound != LATEST
              && (parse(TrimV(bound)).None? || (!Unset(s.version) && parse(TrimV(s.version)).None?))
  {
  }

  /** After a check that succeeds the version is unset or at most the bound. The cap is the lower
      of the two: below the bound the version changes only by automatic update. */
  lemma CapHolds(parse: Parser, bound: string, auto: bool, s: Checked)
    requires Bounds(parse, bound) && Check(parse, bound, auto, s).Success?
    ensures var v := Check(parse, bound, auto, s).value.version;
            && (Unset(v) || LeText(parse, v, bound))
            && (v == bound || (v == s.version && !auto && (Unset(v) || !LeText(parse, bound, v))))
  {
    IdentifiersTotal(parse(TrimV(bound)).value.pre, parse(TrimV(bound)).value.pre);
    if !Unset(s.version) {
      IdentifiersTotal(parse(TrimV(bound)).value.pre, parse(TrimV(s.version)).value.pre);
    }
  }

  /** Repeated checks settle: the version after one call, the condition after at most two, and no
      later call fails. */
  lemma SettlesInTwo(parse: Parser, bound: string, known: bool, auto: bool, s: Checked)
    requires CheckAny(parse, bound, known, auto, s).Success?
    ensures var one := CheckAny(parse, bound, known, auto, s).value;
            var two := CheckAny(parse, bound, known, auto, one);
            && two.Success? && two.value.version == one.version
            && CheckAny(parse, bound, known, auto, two.value) == two
  {
    if bound != LATEST {
      IdentifiersTotal(parse(TrimV(bound)).value.pre, parse(TrimV(bound)).value.pre);
    }
    assert "Latest version is set"[0] == 'L' && UpdatedMessage(bound)[0] == 'U';
  }

  /** A leading v is not part of a version: with it or without it, the check compares the bare
      texts. */
  lemma LeadingVIsIgnored(parse: Parser, bound: string, version: string)
    requires bound != "" && bound[0] != 'v' && bound != "latest"
    requires version != "" && version[0] != 'v' && version != "latest"
    ensures var bare := if parse(bound).None? then Failure(BadBound)
                        else if parse(version).None? then Failure(BadVersion)
                        else Success(Le(parse(bound).value, parse(version).value));
            && IsLatestVersion(parse, bound, version) == bare
            && ("v" + bound != "latest" && "v" + version != "latest" ==>
                  && IsLatestVersion(parse, "v" + bound, version) == bare
                  && IsLatestVersion(parse, bound, "v" + version) == bare
                  && IsLatestVersion(parse, "v" + bound, "v" + version) == bare)
  {
    assert ("v" + bound)[1..] == bound && ("v" + version)[1..] == version;
  }

  /** Without a version of its own a provider has not reached any bound that parses. */
  lemma NoVersionIsBelow(parse: Parser, bound: string)
    requires bound != "latest" && parse(TrimV(bound)).Some?
    ensures IsLatestVersion(parse, bound, "") == Success(false)
    ensures IsLatestVersion(parse, bound, "latest") == Success(false)
    ensures forall version :: IsLatestVersion(parse, "latest", version) == Success(true)
  {
    assert |"latest"| == 6;
  }

  /** What a check says: the latest version is set; an update is available; it has been made; or
      the provider is unknown. */
  lemma CheckSays(parse: Parser, bound: string, known: bool, auto: bool, s: Checked)
    requires CheckAny(parse, bound, known, auto, s).Success?
    ensures var latest := IsLatestVersion(parse, bound, s.version).value;
            var after := CheckAny(parse, bound, known, auto, s).value;
            && after.check.Some?
            && var condition := after.check.value;
               if !known then condition == Condition(Unknown, "ProviderUnknown", "Provider is unknown") && after.version == s.version
               else if latest then condition == Condition(True, "LatestVersionSet", "Latest version is set") && after.version == bound
               else if !auto then
                 && condition == Condition(False, "UpdateAvailable", "Provider version update available. Current latest is " + bound)
                 && after.version == s.version
               else
                 && condition.message == "Updated to latest " + bound + " version" && after.version == bound
                 && (s.check.None? || s.check.value.message != condition.message ==>
                       condition.status == True && condition.reason == "VersionUpdated")
                 && (s.check.Some? && s.check.value.message == condition.message ==> after.check == s.check)
  {
  }

  // ---- many checks ----

  /** The state after checking against each bound in turn, without edits in between. */
  function After(parse: Parser, bounds: seq<string>, auto: bool, s: Checked): Result<Checked, CheckFault> {
    if bounds == [] then Success(s)
    else
      var before :- After(parse, bounds[..|bounds| - 1], auto, s);
      Check(parse, bounds[|bounds| - 1], auto, before)
  }

  ghost predicate NonDecreasing(parse: Parser, bounds: seq<string>) {
    && (forall b | b in bounds :: Bounds(parse, b))
    && forall i, j | 0 <= i <= j < |bounds| :: LeText(parse, bounds[i], bounds[j])
  }

  /** With automatic update the version is the current bound after every check, so it never goes
      down while the bounds do not. */
  lemma {:induction false} AutomaticUpdateFollows(parse: Parser, bounds: seq<string>, s: Checked)
    requires NonDecreasing(parse, bounds) && bounds != []
    requires After(parse, bounds[..1], true, s).Success?
    ensures After(parse, bounds, true, s).Success?
    ensures After(parse, bounds, true, s).value.version == bounds[|bounds| - 1]
    ensures forall i | 0 < i <= |bounds| ::
              && After(parse, bounds[..i], true, s).Success?
              && LeText(parse, After(parse, bounds[..i], true, s).value.version, bounds[|bounds| - 1])
  {
    var most := bounds[..|bounds| - 1];
    assert bounds[..|bounds|] == bounds;
    assert bounds[|bounds| - 1] in bounds;
    if |bounds| > 1 {
      NonDecreasingPrefix(parse, bounds);
      assert most[..1] == bounds[..1];
      AutomaticUpdateFollows(parse, most, s);
      forall i | 0 < i < |bounds|
        ensures After(parse, bounds[..i], true, s).Success?
        ensures LeText(parse, After(parse, bounds[..i], true, s).value.version, bounds[|bounds| - 1])
      {
        assert most[..i] == bounds[..i];
        LeTextTransitive(parse, After(parse, bounds[..i], true, s).value.version, most[|most| - 1], bounds[|bounds| - 1]);
      }
    } else {
      assert bounds[..1] == bounds && most == [];
    }
  }

  /** Without automatic update only the first check can change the precedence of the version: it
      caps it, and no later bound does. */
  lemma {:induction false} ManualVersionChangesOnce(parse: Parser, bounds: seq<string>, s: Checked)
    requires NonDecreasing(parse, bounds) && bounds != []
    requires After(parse, bounds[..1], false, s).Success?
    ensures After(parse, bounds, false, s).Success?
    ensures var first, v := After(parse, bounds[..1], false, s).value.version, After(parse, bounds, false, s).value.version;
            && SameText(parse, v, first)
            && (Unset(v) || LeText(parse, v, bounds[|bounds| - 1]))
  {
    var most, bound := bounds[..|bounds| - 1], bounds[|bounds| - 1];
    assert bound in bounds;
    if |bounds| > 1 {
      NonDecreasingPrefix(parse, bounds);
      assert most[..1] == bounds[..1];
      ManualVersionChangesOnce(parse, most, s);
      var first, before := After(parse, bounds[..1], false, s).value.version, After(parse, most, false, s).value;
      if !Unset(before.version) {
        LeTextTransitive(parse, before.version, most[|most| - 1], bound);
      }
      CapHolds(parse, bound, false, before);
      var v := After(parse, bounds, false, s).value.version;
      if v != before.version {
        assert LeText(parse, bound, before.version);
        LeTextTransitive(parse, first, before.version, v);
        LeTextTransitive(parse, v, before.version, first);
      }
    } else {
      assert bounds[..1] == bounds && most == [];
      CapHolds(parse, bound, false, s);
      var v := After(parse, bounds, false, s).value.version;
      if !Unset(v) {
        PrecedenceIsATotalPreorder();
      }
    }
  }

  lemma LeTextReflexive(parse: Parser, a: string)
    requires !Unset(a) && parse(TrimV(a)).Some?
    ensures LeText(parse, a, a)
  {
    PrecedenceIsATotalPreorder();
  }

  /** `v` is one of the texts and has the least precedence among them. */
  ghost predicate Least(parse: Parser, v: string, first: string, bounds: seq<string>) {
    && (v == first || v in bounds)
    && LeText(parse, v, first)
    && forall b | b in bounds :: LeText(parse, v, b)
  }

  /** Without automatic update the version is, after any bounds in any order, the least of the
      version asked for and all bounds so far; without a version it stays unset. No check fails. */
  lemma {:induction false} ManualVersionIsTheLeast(parse: Parser, bounds: seq<string>, s: Checked)
    requires forall b | b in bounds :: Bounds(parse, b)
    requires Unset(s.version) || parse(TrimV(s.version)).Some?
    ensures After(parse, bounds, false, s).Success?
    ensures var v := After(parse, bounds, false, s).value.version;
            if Unset(s.version) then v == s.version else Least(parse, v, s.version, bounds)
    decreases |bounds|
  {
    if bounds == [] {
      if !Unset(s.version) {
        LeTextReflexive(parse, s.version);
      }
    } else {
      var most, bound := bounds[..|bounds| - 1], bounds[|bounds| - 1];
      assert bounds == most + [bound];
      ManualVersionIsTheLeast(parse, most, s);
      var before := After(parse, most, false, s).value;
      CheckFailsExactly(parse, bound, false, before);
      CapHolds(parse, bound, false, before);
      if !Unset(s.version) {
        LeastStep(parse, before.version, s.version, most, bound, After(parse, bounds, false, s).value.version);
      }
    }
  }

  lemma LeastStep(parse: Parser, v: string, first: string, bounds: seq<string>, bound: string, v': string)
    requires Least(parse, v, first, bounds) && LeText(parse, v', bound)
    requires (v' == bound && LeText(parse, bound, v)) || v' == v
    ensures Least(parse, v', first, bounds + [bound])
  {
    if v' != v {
      LeTextTransitive(parse, v', v, first);
      forall b | b in bounds ensures LeText(parse, v', b) {
        LeTextTransitive(parse, v', v, b);
      }
    }
  }

  lemma NonDecreasingPrefix(parse: Parser, bounds: seq<string>)
    requires NonDecreasing(parse, bounds) && |bounds| > 1
    ensures var most := bounds[..|bounds| - 1];
            NonDecreasing(parse, most) && LeText(parse, most[|most| - 1], bounds[|bounds| - 1])
  {
  }

  lemma LeTextTransitive(parse: Parser, a: string, b: string, c: string)
    requires LeText(parse, a, b) && LeText(parse, b, c)
    ensures LeText(parse, a, c)
  {
    PrecedenceTransitive(parse(TrimV(a)).value, parse(TrimV(b)).value, parse(TrimV(c)).value);
  }
}

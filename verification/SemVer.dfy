/** Version precedence, as section 11 of Semantic Versioning 2.0.0 defines it. */
module SemVer {

  datatype Identifier = Numeric(n: nat) | Alphanumeric(s: string)

  datatype Version = Version(major: nat, minor: nat, patch: nat, pre: seq<Identifier>, build: seq<string>)

  /** ASCII sort order. */
  predicate StringLe(a: string, b: string) {
    a == [] || (b != [] && (a[0] < b[0] || (a[0] == b[0] && StringLe(a[1..], b[1..]))))
  }

  /** Numeric identifiers compare numerically and are below alphanumeric ones. */
  predicate IdentifierLe(a: Identifier, b: Identifier) {
    match (a, b)
    case (Numeric(m), Numeric(n)) => m <= n
    case (Numeric(_), Alphanumeric(_)) => true
    case (Alphanumeric(_), Numeric(_)) => false
    case (Alphanumeric(s), Alphanumeric(t)) => StringLe(s, t)
  }

  /** The first difference decides; without one the shorter list is below. */
  predicate IdentifiersLe(a: seq<Identifier>, b: seq<Identifier>) {
    a == [] || (b != [] && if a[0] == b[0] then IdentifiersLe(a[1..], b[1..]) else IdentifierLe(a[0], b[0]))
  }

  /** A pre-release is below the release it precedes. */
  predicate PreLe(a: seq<Identifier>, b: seq<Identifier>) {
    if a == [] then b == [] else b == [] || IdentifiersLe(a, b)
  }

  /** Precedence: major, minor and patch, then the pre-release; build metadata does not count. */
  predicate Le(v: Version, w: Version) {
    if v.major != w.major then v.major < w.major
    else if v.minor != w.minor then v.minor < w.minor
    else if v.patch != w.patch then v.patch < w.patch
    else PreLe(v.pre, w.pre)
  }

  predicate SamePrecedence(v: Version, w: Version) {
    Le(v, w) && Le(w, v)
  }

  // ---- each level is a total order ----

  lemma {:induction false} StringTotal(a: string, b: string)
    ensures StringLe(a, b) || StringLe(b, a)
    ensures StringLe(a, b) && StringLe(b, a) ==> a == b
  {
    if a != [] && b != [] && a[0] == b[0] {
      StringTotal(a[1..], b[1..]);
      assert a == [a[0]] + a[1..] && b == [b[0]] + b[1..];
    }
  }

  lemma {:induction false} StringTransitive(a: string, b: string, c: string)
    requires StringLe(a, b) && StringLe(b, c)
    ensures StringLe(a, c)
  {
    if a != [] && a[0] == b[0] == c[0] {
      StringTransitive(a[1..], b[1..], c[1..]);
    }
  }

  lemma IdentifierTotal(a: Identifier, b: Identifier)
    ensures IdentifierLe(a, b) || IdentifierLe(b, a)
    ensures IdentifierLe(a, b) && IdentifierLe(b, a) ==> a == b
  {
    if a.Alphanumeric? && b.Alphanumeric? {
      StringTotal(a.s, b.s);
    }
  }

  lemma IdentifierTransitive(a: Identifier, b: Identifier, c: Identifier)
    requires IdentifierLe(a, b) && IdentifierLe(b, c)
    ensures IdentifierLe(a, c)
  {
    if a.Alphanumeric? {
      StringTransitive(a.s, b.s, c.s);
    }
  }

  lemma {:induction false} IdentifiersTotal(a: seq<Identifier>, b: seq<Identifier>)
    ensures IdentifiersLe(a, b) || IdentifiersLe(b, a)
    ensures IdentifiersLe(a, b) && IdentifiersLe(b, a) ==> a == b
  {
    if a != [] && b != [] {
      if a[0] == b[0] {
        IdentifiersTotal(a[1..], b[1..]);
        assert a == [a[0]] + a[1..] && b == [b[0]] + b[1..];
      } else {
        IdentifierTotal(a[0], b[0]);
      }
    }
  }

  lemma {:induction false} IdentifiersTransitive(a: seq<Identifier>, b: seq<Identifier>, c: seq<Identifier>)
    requires IdentifiersLe(a, b) && IdentifiersLe(b, c)
    ensures IdentifiersLe(a, c)
  {
    if a != [] {
      if a[0] == b[0] == c[0] {
        IdentifiersTransitive(a[1..], b[1..], c[1..]);
      } else {
        IdentifierTotal(a[0], a[0]);
        IdentifierTotal(b[0], b[0]);
        IdentifierTransitive(a[0], b[0], c[0]);
        IdentifierTotal(a[0], b[0]);
      }
    }
  }

  // ---- precedence ----

  /** Precedence is a total preorder. */
  lemma PrecedenceIsATotalPreorder()
    ensures forall v: Version :: Le(v, v)
    ensures forall v: Version, w: Version :: Le(v, w) || Le(w, v)
    ensures forall u: Version, v: Version, w: Version :: Le(u, v) && Le(v, w) ==> Le(u, w)
  {
    forall v: Version, w: Version ensures Le(v, w) || Le(w, v) {
      IdentifiersTotal(v.pre, w.pre);
    }
    forall u: Version, v: Version, w: Version | Le(u, v) && Le(v, w) ensures Le(u, w) {
      PrecedenceTransitive(u, v, w);
    }
  }

  lemma PrecedenceTransitive(u: Version, v: Version, w: Version)
    requires Le(u, v) && Le(v, w)
    ensures Le(u, w)
  {
    if IdentifiersLe(u.pre, v.pre) && IdentifiersLe(v.pre, w.pre) {
      IdentifiersTransitive(u.pre, v.pre, w.pre);
    }
  }

  /** Versions of the same precedence differ in build metadata only. */
  lemma SamePrecedenceMeans(v: Version, w: Version)
    ensures SamePrecedence(v, w) <==> v.(build := []) == w.(build := [])
  {
    IdentifiersTotal(v.pre, w.pre);
  }

  predicate Below(v: Version, w: Version) {
    Le(v, w) && !Le(w, v)
  }

  /** Major, minor and patch decide in this order; then a pre-release is below its release. */
  lemma PrecedenceOrder(v: Version, w: Version)
    ensures v.major < w.major ==> Below(v, w)
    ensures v.major == w.major && v.minor < w.minor ==> Below(v, w)
    ensures v.major == w.major && v.minor == w.minor && v.patch < w.patch ==> Below(v, w)
    ensures v.(pre := [], build := []) == w.(pre := [], build := []) && v.pre != [] && w.pre == [] ==> Below(v, w)
  {
  }

  /** The example of section 11.4:
      1.0.0-alpha < 1.0.0-alpha.1 < 1.0.0-alpha.beta < 1.0.0-beta < 1.0.0-beta.2 < 1.0.0-beta.11
      < 1.0.0-rc.1 < 1.0.0. */
  lemma StandardExample()
    ensures var alpha, beta, rc := Alphanumeric("alpha"), Alphanumeric("beta"), Alphanumeric("rc");
            var chain := [[alpha], [alpha, Numeric(1)], [alpha, beta], [beta], [beta, Numeric(2)],
                          [beta, Numeric(11)], [rc, Numeric(1)], []];
            forall i | 0 <= i < |chain| - 1 :: PreLe(chain[i], chain[i + 1]) && !PreLe(chain[i + 1], chain[i])
  {
    var alpha, beta, rc := Alphanumeric("alpha"), Alphanumeric("beta"), Alphanumeric("rc");
    assert StringLe("alpha", "beta") && !StringLe("beta", "alpha");
    assert StringLe("beta", "rc") && !StringLe("rc", "beta");
    SharedHead(alpha, [], [Numeric(1)]);
    SharedHead(alpha, [Numeric(1)], [beta]);
    SharedHead(beta, [], [Numeric(2)]);
    SharedHead(beta, [Numeric(2)], [Numeric(11)]);
  }

  lemma SharedHead(head: Identifier, a: seq<Identifier>, b: seq<Identifier>)
    ensures IdentifiersLe([head] + a, [head] + b) == IdentifiersLe(a, b)
    ensures IdentifiersLe([head] + b, [head] + a) == IdentifiersLe(b, a)
  {
    assert ([head] + a)[1..] == a && ([head] + b)[1..] == b;
  }
}

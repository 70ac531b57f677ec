/** Release comparison in the web client (web/src/lib/version.ts). String comparison is the
    platform's localeCompare and parsing is a regular expression; both are parameters. */
module Version {
  import opened Text

  /** A parsed tag; no prerelease identifiers means a release proper. */
  datatype Parsed = Parsed(major: nat, minor: nat, patch: nat, prerelease: seq<string>)

  type Locale = (string, string) -> int
  type Parser = string -> Option<Parsed>

  /** localeCompare is a total order of the strings up to strings that it takes for equal. */
  ghost predicate IsOrder(lc: Locale) {
    && (forall a, b :: lc(a, b) < 0 <==> lc(b, a) > 0)
    && (forall a, b, c {:trigger lc(a, b), lc(b, c)} :: lc(a, b) <= 0 && lc(b, c) <= 0 ==> lc(a, c) <= 0)
  }

  predicate IsDigit(c: char) {
    '0' <= c <= '9'
  }

  predicate IsNumeric(s: string) {
    s != "" && forall i :: 0 <= i < |s| ==> IsDigit(s[i])
  }

  function Value(s: string): nat
    requires forall i :: 0 <= i < |s| ==> IsDigit(s[i])
  {
    if s == "" then 0
    else
      assert IsDigit(s[|s| - 1]);
      10 * Value(s[..|s| - 1]) + ((s[|s| - 1] as int) - ('0' as int))
  }

  /** The decimal numeral of a number. */
  function Numeral(n: nat): string {
    var digit := ('0' as int + n % 10) as char;
    if n < 10 then [digit] else Numeral(n / 10) + [digit]
  }

  /** Numerals are numeric, and are read as the numbers that they stand for. */
  lemma {:induction false} NumeralsAreRead(n: nat)
    ensures IsNumeric(Numeral(n)) && Value(Numeral(n)) == n
  {
    var s := Numeral(n);
    if n < 10 {
      assert s[..0] == "";
    } else {
      NumeralsAreRead(n / 10);
      assert s[..|s| - 1] == Numeral(n / 10);
    }
  }

  function CompareNumbers(a: int, b: int): int {
    if a < b then -1 else if a > b then 1 else 0
  }

  function CompareIdentifier(lc: Locale, a: string, b: string): int {
    if IsNumeric(a) && IsNumeric(b) then CompareNumbers(Value(a), Value(b))
    else if IsNumeric(a) then -1
    else if IsNumeric(b) then 1
    else lc(a, b)
  }

  function ComparePrerelease(lc: Locale, a: seq<string>, b: seq<string>): int {
    if a == [] && b == [] then 0
    else if a == [] then -1
    else if b == [] then 1
    else
      var cmp := CompareIdentifier(lc, a[0], b[0]);
      if cmp != 0 then cmp else ComparePrerelease(lc, a[1..], b[1..])
  }

  /** The walk over the identifiers, by index up to the longer list. */
  method WalkPrerelease(lc: Locale, a: seq<string>, b: seq<string>) returns (r: int)
    ensures r == ComparePrerelease(lc, a, b)
  {
    var max := if |a| > |b| then |a| else |b|;
    for i := 0 to max
      invariant i <= |a| && i <= |b|
      invariant ComparePrerelease(lc, a, b) == ComparePrerelease(lc, a[i..], b[i..])
    {
      if i == |a| {
        return -1;
      }
      if i == |b| {
        return 1;
      }
      var cmp := CompareIdentifier(lc, a[i], b[i]);
      if cmp != 0 {
        return cmp;
      }
    }
    return 0;
  }

  function CompareCore(a: Parsed, b: Parsed): int {
    if a.major != b.major then CompareNumbers(a.major, b.major)
    else if a.minor != b.minor then CompareNumbers(a.minor, b.minor)
    else CompareNumbers(a.patch, b.patch)
  }

  function CompareParsed(lc: Locale, a: Parsed, b: Parsed): int {
    if CompareCore(a, b) != 0 then CompareCore(a, b)
    else if a.prerelease == [] && b.prerelease == [] then 0
    else if a.prerelease == [] then 1
    else if b.prerelease == [] then -1
    else ComparePrerelease(lc, a.prerelease, b.prerelease)
  }

  function Compare(lc: Locale, parse: Parser, a: string, b: string): int {
    var pa, pb := parse(a), parse(b);
    if pa.Some? && pb.Some? then CompareParsed(lc, pa.value, pb.value) else lc(a, b)
  }

  // ----- Precedence as section 11 of Semantic Versioning 2.0.0 states it -----

  /** ASCII sort order: by the first character that differs, a prefix being lower. */
  function AsciiCompare(a: string, b: string): int {
    if a == [] && b == [] then 0
    else if a == [] then -1
    else if b == [] then 1
    else if a[0] < b[0] then -1
    else if a[0] > b[0] then 1
    else AsciiCompare(a[1..], b[1..])
  }

  /** Numeric identifiers compare numerically and are lower than all others, which compare as text: in section 11
      by AsciiCompare. */
  ghost predicate LowerIdentifier(lc: Locale, a: string, b: string) {
    || (IsNumeric(a) && IsNumeric(b) && Value(a) < Value(b))
    || (IsNumeric(a) && !IsNumeric(b))
    || (!IsNumeric(a) && !IsNumeric(b) && lc(a, b) < 0)
  }

  /** Neither identifier is lower. */
  ghost predicate Ties(lc: Locale, a: string, b: string) {
    !LowerIdentifier(lc, a, b) && !LowerIdentifier(lc, b, a)
  }

  /** The first n identifiers of the two lists tie. */
  ghost predicate TieUpTo(lc: Locale, a: seq<string>, b: seq<string>, n: nat)
    requires n <= |a| && n <= |b|
  {
    forall i :: 0 <= i < n ==> Ties(lc, a[i], b[i])
  }

  /** Identifiers are compared from left to right until a difference is found; a larger set of fields is
      higher if all the preceding ones tie. */
  ghost predicate LowerPrerelease(lc: Locale, a: seq<string>, b: seq<string>) {
    || (|a| < |b| && TieUpTo(lc, a, b, |a|))
    || exists i: nat :: i < |a| && i < |b| && TieUpTo(lc, a, b, i) && LowerIdentifier(lc, a[i], b[i])
  }

  ghost predicate LowerPrecedence(lc: Locale, a: Parsed, b: Parsed) {
    || a.major < b.major
    || (a.major == b.major && a.minor < b.minor)
    || (a.major == b.major && a.minor == b.minor && a.patch < b.patch)
    || (a.major == b.major && a.minor == b.minor && a.patch == b.patch &&
        ((a.prerelease != [] && b.prerelease == []) ||
         (a.prerelease != [] && b.prerelease != [] && LowerPrerelease(lc, a.prerelease, b.prerelease))))
  }

  lemma IdentifierOrder(lc: Locale, a: string, b: string)
    requires IsOrder(lc)
    ensures CompareIdentifier(lc, a, b) < 0 <==> LowerIdentifier(lc, a, b)
    ensures CompareIdentifier(lc, a, b) < 0 <==> CompareIdentifier(lc, b, a) > 0
  {
  }

  lemma TieMore(lc: Locale, a: seq<string>, b: seq<string>, n: nat)
    requires a != [] && b != [] && n < |a| && n < |b|
    ensures TieUpTo(lc, a, b, n + 1) <==> Ties(lc, a[0], b[0]) && TieUpTo(lc, a[1..], b[1..], n)
  {
    if TieUpTo(lc, a, b, n + 1) {
      forall i | 0 <= i < n ensures Ties(lc, a[1..][i], b[1..][i]) {
        assert Ties(lc, a[i + 1], b[i + 1]);
      }
    }
    if Ties(lc, a[0], b[0]) && TieUpTo(lc, a[1..], b[1..], n) {
      forall i | 0 <= i < n + 1 ensures Ties(lc, a[i], b[i]) {
        if i > 0 {
          assert Ties(lc, a[1..][i - 1], b[1..][i - 1]);
        }
      }
    }
  }

  /** Being lower is being lower at the first identifier, or a tie there and being lower behind it. */
  lemma LowerPrereleaseStep(lc: Locale, a: seq<string>, b: seq<string>)
    requires IsOrder(lc) && a != [] && b != []
    ensures LowerPrerelease(lc, a, b) <==>
              LowerIdentifier(lc, a[0], b[0]) || (Ties(lc, a[0], b[0]) && LowerPrerelease(lc, a[1..], b[1..]))
  {
    var ta, tb := a[1..], b[1..];
    if LowerIdentifier(lc, a[0], b[0]) {
      assert TieUpTo(lc, a, b, 0);
    }
    if Ties(lc, a[0], b[0]) && LowerPrerelease(lc, ta, tb) {
      if |ta| < |tb| && TieUpTo(lc, ta, tb, |ta|) {
        TieMore(lc, a, b, |ta|);
      } else {
        var i: nat :| i < |ta| && i < |tb| && TieUpTo(lc, ta, tb, i) && LowerIdentifier(lc, ta[i], tb[i]);
        TieMore(lc, a, b, i);
        assert LowerIdentifier(lc, a[i + 1], b[i + 1]);
      }
    }
    if LowerPrerelease(lc, a, b) && !LowerIdentifier(lc, a[0], b[0]) {
      if |a| < |b| && TieUpTo(lc, a, b, |a|) {
        TieMore(lc, a, b, |ta|);
      } else {
        var i: nat :| i < |a| && i < |b| && TieUpTo(lc, a, b, i) && LowerIdentifier(lc, a[i], b[i]);
        assert i > 0;
        TieMore(lc, a, b, i - 1);
        assert LowerIdentifier(lc, ta[i - 1], tb[i - 1]);
      }
    }
  }

  lemma {:induction false} PrereleaseOrder(lc: Locale, a: seq<string>, b: seq<string>)
    requires IsOrder(lc)
    ensures ComparePrerelease(lc, a, b) < 0 <==> LowerPrerelease(lc, a, b)
    ensures ComparePrerelease(lc, a, b) < 0 <==> ComparePrerelease(lc, b, a) > 0
    decreases |a|
  {
    if a != [] && b != [] {
      IdentifierOrder(lc, a[0], b[0]);
      IdentifierOrder(lc, b[0], a[0]);
      LowerPrereleaseStep(lc, a, b);
      PrereleaseOrder(lc, a[1..], b[1..]);
    }
  }

  /** The comparison, by whatever order of text, is the precedence with that order. */
  lemma {:induction false} CompareIsItsPrecedence(lc: Locale, a: Parsed, b: Parsed)
    requires IsOrder(lc)
    ensures CompareParsed(lc, a, b) < 0 <==> LowerPrecedence(lc, a, b)
    ensures CompareParsed(lc, a, b) > 0 <==> LowerPrecedence(lc, b, a)
  {
    PrereleaseOrder(lc, a.prerelease, b.prerelease);
    PrereleaseOrder(lc, b.prerelease, a.prerelease);
  }

  lemma {:induction false} AsciiIsAntisymmetric(a: string, b: string)
    ensures AsciiCompare(a, b) < 0 <==> AsciiCompare(b, a) > 0
    ensures AsciiCompare(a, b) == 0 <==> a == b
  {
    if a != [] && b != [] && a[0] == b[0] {
      AsciiIsAntisymmetric(a[1..], b[1..]);
      assert a == [a[0]] + a[1..] && b == [b[0]] + b[1..];
    }
  }

  lemma {:induction false} AsciiIsTransitive(a: string, b: string, c: string)
    requires AsciiCompare(a, b) <= 0 && AsciiCompare(b, c) <= 0
    ensures AsciiCompare(a, c) <= 0
  {
    if a != [] && b != [] && c != [] && a[0] == b[0] == c[0] {
      AsciiIsTransitive(a[1..], b[1..], c[1..]);
    }
  }

  lemma {:induction false} AsciiIsOrder()
    ensures IsOrder(AsciiCompare)
  {
    forall a, b ensures AsciiCompare(a, b) < 0 <==> AsciiCompare(b, a) > 0 {
      AsciiIsAntisymmetric(a, b);
    }
    forall a, b, c | AsciiCompare(a, b) <= 0 && AsciiCompare(b, c) <= 0 ensures AsciiCompare(a, c) <= 0 {
      AsciiIsTransitive(a, b, c);
    }
  }

  /** On these two identifiers localeCompare has the sign of ASCII order, or is not asked. */
  predicate AgreesAt(lc: Locale, x: string, y: string) {
    IsNumeric(x) || IsNumeric(y) ||
    ((lc(x, y) < 0 <==> AsciiCompare(x, y) < 0) && (lc(x, y) > 0 <==> AsciiCompare(x, y) > 0))
  }

  ghost predicate AgreesOn(lc: Locale, a: seq<string>, b: seq<string>) {
    forall i :: 0 <= i < |a| && i < |b| ==> AgreesAt(lc, a[i], b[i])
  }

  lemma {:induction false} AgreementIsEnough(lc: Locale, a: seq<string>, b: seq<string>)
    requires AgreesOn(lc, a, b)
    ensures ComparePrerelease(lc, a, b) < 0 <==> ComparePrerelease(AsciiCompare, a, b) < 0
    ensures ComparePrerelease(lc, a, b) > 0 <==> ComparePrerelease(AsciiCompare, a, b) > 0
  {
    if a != [] && b != [] {
      assert AgreesAt(lc, a[0], b[0]);
      forall i | 0 <= i < |a[1..]| && i < |b[1..]| ensures AgreesAt(lc, a[1..][i], b[1..][i]) {
        assert AgreesAt(lc, a[i + 1], b[i + 1]);
      }
      AgreementIsEnough(lc, a[1..], b[1..]);
    }
  }

  /** Where localeCompare has the sign of ASCII order on the identifiers that are compared, the
      comparison is the precedence of Semantic Versioning, in both directions. */
  lemma {:induction false} CompareIsPrecedence(lc: Locale, a: Parsed, b: Parsed)
    requires AgreesOn(lc, a.prerelease, b.prerelease)
    ensures CompareParsed(lc, a, b) < 0 <==> LowerPrecedence(AsciiCompare, a, b)
    ensures CompareParsed(lc, a, b) > 0 <==> LowerPrecedence(AsciiCompare, b, a)
  {
    AsciiIsOrder();
    AgreementIsEnough(lc, a.prerelease, b.prerelease);
    CompareIsItsPrecedence(AsciiCompare, a, b);
  }

  predicate IsIdentifierChar(c: char) {
    IsDigit(c) || 'A' <= c <= 'Z' || 'a' <= c <= 'z' || c == '-'
  }

  /** What the expression of a tag lets through between two dots. */
  ghost predicate IsIdentifier(s: string) {
    forall i :: 0 <= i < |s| ==> IsIdentifierChar(s[i])
  }

  ghost predicate IsTag(p: Parsed) {
    forall i :: 0 <= i < |p.prerelease| ==> IsIdentifier(p.prerelease[i])
  }

  /** Main result: the comparison is the precedence of Semantic Versioning on all tags exactly when localeCompare
      has the sign of ASCII order on all identifiers that are not numeric. */
  lemma {:induction false} PrecedenceIff(lc: Locale)
    ensures (forall a, b :: IsTag(a) && IsTag(b) ==>
               (CompareParsed(lc, a, b) < 0 <==> LowerPrecedence(AsciiCompare, a, b)) &&
               (CompareParsed(lc, a, b) > 0 <==> LowerPrecedence(AsciiCompare, b, a)))
            <==> forall x, y :: IsIdentifier(x) && IsIdentifier(y) ==> AgreesAt(lc, x, y)
  {
    if forall x, y :: IsIdentifier(x) && IsIdentifier(y) ==> AgreesAt(lc, x, y) {
      forall a, b | IsTag(a) && IsTag(b)
        ensures CompareParsed(lc, a, b) < 0 <==> LowerPrecedence(AsciiCompare, a, b)
        ensures CompareParsed(lc, a, b) > 0 <==> LowerPrecedence(AsciiCompare, b, a)
      {
        CompareIsPrecedence(lc, a, b);
      }
    } else {
      var x, y :| IsIdentifier(x) && IsIdentifier(y) && !AgreesAt(lc, x, y);
      var a, b := Parsed(0, 0, 0, [x]), Parsed(0, 0, 0, [y]);
      OneIdentifier(lc, x, y);
      OneIdentifier(AsciiCompare, x, y);
      AsciiIsOrder();
      CompareIsItsPrecedence(AsciiCompare, a, b);
      assert IsTag(a) && IsTag(b);
    }
  }

  lemma OneIdentifier(lc: Locale, x: string, y: string)
    requires !IsNumeric(x) && !IsNumeric(y)
    ensures CompareParsed(lc, Parsed(0, 0, 0, [x]), Parsed(0, 0, 0, [y])) == lc(x, y)
  {
    assert [x][1..] == [] && [y][1..] == [];
    assert ComparePrerelease(lc, [x], [y]) == lc(x, y);
  }

  /** A localeCompare that goes by the letter before its case does not: it puts alpha before Beta, section 11 after. */
  lemma LocaleIsNotAscii(lc: Locale)
    requires lc("alpha", "Beta") < 0
    ensures CompareParsed(lc, Parsed(1, 0, 0, ["alpha"]), Parsed(1, 0, 0, ["Beta"])) < 0
    ensures LowerPrecedence(AsciiCompare, Parsed(1, 0, 0, ["Beta"]), Parsed(1, 0, 0, ["alpha"]))
  {
    var a, b := ["alpha"], ["Beta"];
    assert "alpha"[0] == 'a' && "Beta"[0] == 'B';
    assert !IsDigit("alpha"[0]) && !IsDigit("Beta"[0]);
    assert AsciiCompare("Beta", "alpha") == -1;
    assert LowerIdentifier(AsciiCompare, b[0], a[0]);
    assert TieUpTo(AsciiCompare, b, a, 0);
    assert LowerPrerelease(AsciiCompare, b, a);
  }

  lemma IdentifierTransitive(lc: Locale, a: string, b: string, c: string)
    requires IsOrder(lc) && CompareIdentifier(lc, a, b) <= 0 && CompareIdentifier(lc, b, c) <= 0
    ensures CompareIdentifier(lc, a, c) <= 0
    ensures CompareIdentifier(lc, a, c) == 0 ==> CompareIdentifier(lc, a, b) == 0 && CompareIdentifier(lc, b, c) == 0
  {
    if !IsNumeric(a) && !IsNumeric(b) && !IsNumeric(c) && lc(a, c) == 0 {
      assert lc(c, a) == 0;
      assert lc(c, b) <= 0;
      assert lc(b, a) <= 0;
    }
  }

  lemma {:induction false} PrereleaseTransitive(lc: Locale, a: seq<string>, b: seq<string>, c: seq<string>)
    requires IsOrder(lc) && ComparePrerelease(lc, a, b) <= 0 && ComparePrerelease(lc, b, c) <= 0
    ensures ComparePrerelease(lc, a, c) <= 0
    ensures ComparePrerelease(lc, a, c) == 0 ==> ComparePrerelease(lc, a, b) == 0 && ComparePrerelease(lc, b, c) == 0
    decreases |a|
  {
    if a != [] && b != [] && c != [] {
      IdentifierTransitive(lc, a[0], b[0], c[0]);
      if CompareIdentifier(lc, a[0], b[0]) == 0 && CompareIdentifier(lc, b[0], c[0]) == 0 {
        PrereleaseTransitive(lc, a[1..], b[1..], c[1..]);
      }
    }
  }

  /** Main result: on parsed tags the comparison is a total preorder: antisymmetric in sign and transitive
      through the walk over the prerelease identifiers. */
  lemma CompareIsOrder(lc: Locale, a: Parsed, b: Parsed, c: Parsed)
    requires IsOrder(lc)
    ensures CompareParsed(lc, a, b) < 0 <==> CompareParsed(lc, b, a) > 0
    ensures CompareParsed(lc, a, b) <= 0 && CompareParsed(lc, b, c) <= 0 ==> CompareParsed(lc, a, c) <= 0
  {
    PrereleaseOrder(lc, a.prerelease, b.prerelease);
    if ComparePrerelease(lc, a.prerelease, b.prerelease) <= 0 &&
       ComparePrerelease(lc, b.prerelease, c.prerelease) <= 0 {
      PrereleaseTransitive(lc, a.prerelease, b.prerelease, c.prerelease);
    }
  }

  // ----- The newest release -----

  datatype Release = Release(tagName: string, prerelease: bool, htmlURL: string)

  function Candidates(releases: seq<Release>, prerelease: bool): seq<Release> {
    if releases == [] then []
    else
      var last := releases[|releases| - 1];
      Candidates(releases[..|releases| - 1], prerelease) + if last.prerelease == prerelease then [last] else []
  }

  /** The reduction: a later item replaces the current one only when it is newer. */
  function Latest(lc: Locale, parse: Parser, items: seq<Release>): Release
    requires items != []
  {
    var n := |items| - 1;
    if n == 0 then items[0]
    else
      var before := Latest(lc, parse, items[..n]);
      if Compare(lc, parse, items[n].tagName, before.tagName) > 0 then items[n] else before
  }

  function PickLatest(lc: Locale, parse: Parser, releases: seq<Release>, prerelease: bool): Option<Release> {
    var c := Candidates(releases, prerelease);
    if c == [] then None else Some(Latest(lc, parse, c))
  }

  ghost predicate AllParse(parse: Parser, releases: seq<Release>) {
    forall r :: r in releases ==> parse(r.tagName).Some?
  }

  lemma {:induction false} CandidatesAre(releases: seq<Release>, prerelease: bool)
    ensures forall r :: r in Candidates(releases, prerelease) <==> r in releases && r.prerelease == prerelease
  {
    if releases != [] {
      var before, last := releases[..|releases| - 1], releases[|releases| - 1];
      CandidatesAre(before, prerelease);
      assert releases == before + [last];
    }
  }

  lemma NewerThanNewer(lc: Locale, a: Parsed, b: Parsed, c: Parsed)
    requires IsOrder(lc)
    ensures CompareParsed(lc, a, b) < 0 && CompareParsed(lc, b, c) <= 0 ==> CompareParsed(lc, a, c) < 0
    ensures CompareParsed(lc, a, b) <= 0 && CompareParsed(lc, b, c) < 0 ==> CompareParsed(lc, a, c) < 0
    ensures CompareParsed(lc, a, a) == 0
  {
    CompareIsOrder(lc, a, b, c);
    CompareIsOrder(lc, b, c, a);
    CompareIsOrder(lc, c, a, b);
    CompareIsOrder(lc, a, c, b);
    CompareIsOrder(lc, a, a, a);
  }

  /** Position k holds the first maximum of the items. */
  ghost predicate IsFirstMaximum(lc: Locale, parse: Parser, items: seq<Release>, k: nat)
    requires k < |items|
  {
    && (forall i :: 0 <= i < |items| ==> Compare(lc, parse, items[i].tagName, items[k].tagName) <= 0)
    && (forall i :: 0 <= i < k ==> Compare(lc, parse, items[i].tagName, items[k].tagName) < 0)
  }

  lemma MaximumOrLast(lc: Locale, parse: Parser, items: seq<Release>, j: nat)
    requires IsOrder(lc) && AllParse(parse, items) && |items| > 1 && j < |items| - 1
    requires IsFirstMaximum(lc, parse, items[..|items| - 1], j)
    ensures var n := |items| - 1;
            var best := if Compare(lc, parse, items[n].tagName, items[j].tagName) > 0 then n else j;
            IsFirstMaximum(lc, parse, items, best)
  {
    var n := |items| - 1;
    var vn, vj := parse(items[n].tagName).value, parse(items[j].tagName).value;
    CompareIsOrder(lc, vn, vj, vn);
    CompareIsOrder(lc, vj, vn, vj);
    NewerThanNewer(lc, vn, vj, vn);
    forall i | 0 <= i < n
      ensures Compare(lc, parse, items[n].tagName, items[j].tagName) > 0 ==>
                Compare(lc, parse, items[i].tagName, items[n].tagName) < 0
    {
      assert items[i] == items[..n][i];
      NewerThanNewer(lc, parse(items[i].tagName).value, vj, vn);
    }
    assert forall i :: 0 <= i < n ==> items[i] == items[..n][i];
  }

  /** The reduction finds a maximum, and of several equal ones the first. */
  lemma {:induction false} LatestIsFirstMaximum(lc: Locale, parse: Parser, items: seq<Release>) returns (k: nat)
    requires items != [] && IsOrder(lc) && AllParse(parse, items)
    ensures k < |items| && items[k] == Latest(lc, parse, items)
    ensures IsFirstMaximum(lc, parse, items, k)
  {
    var n := |items| - 1;
    if n == 0 {
      k := 0;
      var v := parse(items[0].tagName).value;
      NewerThanNewer(lc, v, v, v);
    } else {
      var before := items[..n];
      assert forall r :: r in before ==> r in items;
      var j := LatestIsFirstMaximum(lc, parse, before);
      MaximumOrLast(lc, parse, items, j);
      k := if Compare(lc, parse, items[n].tagName, items[j].tagName) > 0 then n else j;
    }
  }

  datatype Notice = Stable(tag: string, url: string) | Prerelease(tag: string, url: string)

  function ResolveNotice(lc: Locale, parse: Parser, current: string, releases: seq<Release>): Option<Notice> {
    var stable := PickLatest(lc, parse, releases, false);
    if stable.Some? && Compare(lc, parse, current, stable.value.tagName) < 0
    then Some(Stable(stable.value.tagName, stable.value.htmlURL))
    else
      var pre := PickLatest(lc, parse, releases, true);
      if pre.Some? && Compare(lc, parse, current, pre.value.tagName) < 0
      then Some(Prerelease(pre.value.tagName, pre.value.htmlURL))
      else None
  }

  /** Some release of this kind is newer than the current version. */
  ghost predicate HasNewer(lc: Locale, parse: Parser, current: string, releases: seq<Release>, prerelease: bool) {
    exists r :: r in releases && r.prerelease == prerelease && Compare(lc, parse, current, r.tagName) < 0
  }

  /** r is a newest release of its kind, and newer than the current version. */
  ghost predicate IsNewest(lc: Locale, parse: Parser, current: string, releases: seq<Release>, r: Release) {
    && r in releases && Compare(lc, parse, current, r.tagName) < 0
    && forall x :: x in releases && x.prerelease == r.prerelease ==> Compare(lc, parse, x.tagName, r.tagName) <= 0
  }

  lemma PickIsNewest(lc: Locale, parse: Parser, current: string, releases: seq<Release>, prerelease: bool)
    requires IsOrder(lc) && AllParse(parse, releases) && parse(current).Some?
    ensures var p := PickLatest(lc, parse, releases, prerelease);
            && (p.Some? && Compare(lc, parse, current, p.value.tagName) < 0 <==>
                  HasNewer(lc, parse, current, releases, prerelease))
            && (p.Some? ==> p.value.prerelease == prerelease)
            && (HasNewer(lc, parse, current, releases, prerelease) ==> IsNewest(lc, parse, current, releases, p.value))
  {
    CandidatesAre(releases, prerelease);
    var c := Candidates(releases, prerelease);
    if c != [] {
      var k := LatestIsFirstMaximum(lc, parse, c);
      assert c[k] in c;
      if HasNewer(lc, parse, current, releases, prerelease) {
        var r :| r in releases && r.prerelease == prerelease && Compare(lc, parse, current, r.tagName) < 0;
        assert r in c;
        NewerThanNewer(lc, parse(current).value, parse(r.tagName).value, parse(c[k].tagName).value);
      }
    }
  }

  /** Main result: when all tags parse, the notice is stable exactly when some stable release is newer than
      the current version, otherwise prerelease exactly when some prerelease is; it names a newest one. */
  lemma NoticeIsRight(lc: Locale, parse: Parser, current: string, releases: seq<Release>)
    requires IsOrder(lc) && AllParse(parse, releases) && parse(current).Some?
    ensures var n := ResolveNotice(lc, parse, current, releases);
            var stable := HasNewer(lc, parse, current, releases, false);
            var pre := HasNewer(lc, parse, current, releases, true);
            && (n.Some? && n.value.Stable? <==> stable)
            && (n.Some? && n.value.Prerelease? <==> !stable && pre)
            && (n.Some? ==> exists r ::
                  IsNewest(lc, parse, current, releases, r) && r.tagName == n.value.tag && r.htmlURL == n.value.url &&
                  r.prerelease == n.value.Prerelease?)
  {
    PickIsNewest(lc, parse, current, releases, false);
    PickIsNewest(lc, parse, current, releases, true);
  }

  // ----- Tags that do not parse -----

  /** Releases a and b are in one order while the text of x, which is no release, lies between them in the other. */
  ghost predicate Contradicts(lc: Locale, parse: Parser, a: string, b: string, x: string) {
    && parse(a).Some? && parse(b).Some? && parse(x).None?
    && lc(b, x) <= 0 && lc(x, a) <= 0 && Compare(lc, parse, a, b) <= 0
    && (Compare(lc, parse, a, b) < 0 || lc(b, x) < 0 || lc(x, a) < 0)
  }

  ghost predicate TransitiveAt(lc: Locale, parse: Parser, p: string, q: string, r: string) {
    Compare(lc, parse, p, q) <= 0 && Compare(lc, parse, q, r) <= 0 ==> Compare(lc, parse, p, r) <= 0
  }

  lemma {:induction false} CompareFlips(lc: Locale, parse: Parser, a: string, b: string)
    requires IsOrder(lc)
    ensures Compare(lc, parse, a, b) < 0 <==> Compare(lc, parse, b, a) > 0
  {
    if parse(a).Some? && parse(b).Some? {
      CompareIsOrder(lc, parse(a).value, parse(b).value, parse(a).value);
    }
  }

  /** A step that fails does so because of a contradiction among its three tags. */
  lemma {:induction false} FailureContradicts(lc: Locale, parse: Parser, p: string, q: string, r: string)
    requires IsOrder(lc) && !TransitiveAt(lc, parse, p, q, r)
    ensures exists a, b, x :: Contradicts(lc, parse, a, b, x)
  {
    CompareFlips(lc, parse, r, p);
    if parse(p).Some? && parse(q).Some? && parse(r).Some? {
      CompareIsOrder(lc, parse(p).value, parse(q).value, parse(r).value);
    } else if parse(p).Some? && parse(q).Some? {
      assert Contradicts(lc, parse, p, q, r);
    } else if parse(q).Some? && parse(r).Some? {
      assert Contradicts(lc, parse, q, r, p);
    } else if parse(p).Some? && parse(r).Some? {
      assert Contradicts(lc, parse, r, p, q);
    }
  }

  lemma {:induction false} ContradictionFails(lc: Locale, parse: Parser, a: string, b: string, x: string)
    requires IsOrder(lc) && Contradicts(lc, parse, a, b, x)
    ensures !TransitiveAt(lc, parse, b, x, a) || !TransitiveAt(lc, parse, x, a, b) || !TransitiveAt(lc, parse, a, b, x)
  {
    CompareFlips(lc, parse, a, b);
    assert lc(b, x) < 0 <==> lc(x, b) > 0;
    assert lc(x, a) < 0 <==> lc(a, x) > 0;
  }

  /** Main result: the comparison is transitive on all tags exactly when no tag that does not parse lies, as text,
      between two releases against their order. */
  lemma {:induction false} TransitiveIff(lc: Locale, parse: Parser)
    requires IsOrder(lc)
    ensures (forall p, q, r :: TransitiveAt(lc, parse, p, q, r)) <==> !exists a, b, x :: Contradicts(lc, parse, a, b, x)
  {
    if p, q, r :| !TransitiveAt(lc, parse, p, q, r) {
      FailureContradicts(lc, parse, p, q, r);
    }
    if a, b, x :| Contradicts(lc, parse, a, b, x) {
      ContradictionFails(lc, parse, a, b, x);
    }
  }

  /** Between tags that parse and tags that do not, the comparison is no order at all: these three form a cycle. */
  lemma MixedTagsCycle(lc: Locale, parse: Parser)
    requires lc("10.0.0", "5x") < 0 && lc("5x", "9.0.0") < 0
    requires parse("10.0.0") == Some(Parsed(10, 0, 0, [])) && parse("9.0.0") == Some(Parsed(9, 0, 0, []))
    requires parse("5x") == None
    ensures Compare(lc, parse, "9.0.0", "10.0.0") < 0
    ensures Compare(lc, parse, "10.0.0", "5x") < 0
    ensures Compare(lc, parse, "5x", "9.0.0") < 0
  {
    var nine, ten := Parsed(9, 0, 0, []), Parsed(10, 0, 0, []);
    assert CompareParsed(lc, nine, ten) == -1;
    assert parse("5x").None?;
  }
}

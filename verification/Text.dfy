/** The string operations of Go's standard library that the service relies on. */
module Text {

  datatype Option<+T> = None | Some(value: T)

  /** White space in the sense of Unicode's White_Space property, as strings.TrimSpace cuts it. */
  predicate IsSpace(c: char) {
    '\t' <= c <= '\r' || c == ' ' || c == '\U{0085}' || c == '\U{00A0}' || c == '\U{1680}' ||
    '\U{2000}' <= c <= '\U{200A}' || c == '\U{2028}' || c == '\U{2029}' || c == '\U{202F}' ||
    c == '\U{205F}' || c == '\U{3000}'
  }

  /** These are the 25 characters of that property. */
  lemma {:induction false} SpacesAre(c: char)
    ensures IsSpace(c) <==>
              (c as int) in {9, 10, 11, 12, 13, 32, 0x85, 0xA0, 0x1680, 0x2000, 0x2001, 0x2002, 0x2003, 0x2004, 0x2005,
                             0x2006, 0x2007, 0x2008, 0x2009, 0x200A, 0x2028, 0x2029, 0x202F, 0x205F, 0x3000}
  {
  }

  function TrimLeft(s: string): (r: string)
    ensures |r| <= |s| && r == s[|s| - |r|..]
    ensures r != "" ==> !IsSpace(r[0])
  {
    if s != "" && IsSpace(s[0]) then TrimLeft(s[1..]) else s
  }

  function TrimRight(s: string): (r: string)
    ensures |r| <= |s| && r == s[..|r|]
    ensures r != "" ==> !IsSpace(r[|r| - 1])
  {
    if s != "" && IsSpace(s[|s| - 1]) then TrimRight(s[..|s| - 1]) else s
  }

  /** strings.TrimSpace: no white space is left at either end. */
  function Trim(s: string): (r: string)
    ensures |r| <= |s|
    ensures r != "" ==> !IsSpace(r[0]) && !IsSpace(r[|r| - 1])
  {
    TrimRight(TrimLeft(s))
  }

  lemma TrimIsIdempotent(s: string)
    ensures Trim(Trim(s)) == Trim(s)
  {
    var r := Trim(s);
    if r != "" {
      assert TrimLeft(r) == r;
      assert TrimRight(r) == r;
    }
  }

  lemma {:induction false} TrimRightIsSlice(s: string)
    ensures forall c :: c in TrimRight(s) ==> c in s
  {
  }

  lemma {:induction false} TrimIsSlice(s: string)
    ensures forall c :: c in Trim(s) ==> c in s
  {
    TrimRightIsSlice(TrimLeft(s));
  }

  ghost predicate IsBlank(s: string) {
    forall c :: c in s ==> IsSpace(c)
  }

  lemma {:induction false} TrimLeftCuts(s: string)
    ensures IsBlank(s[..|s| - |TrimLeft(s)|])
  {
    if s != "" && IsSpace(s[0]) {
      TrimLeftCuts(s[1..]);
      var n := |s| - |TrimLeft(s)|;
      assert s[..n] == [s[0]] + s[1..][..n - 1];
    }
  }

  lemma {:induction false} TrimRightCuts(s: string)
    ensures IsBlank(s[|TrimRight(s)|..])
  {
    if s != "" && IsSpace(s[|s| - 1]) {
      var n, k := |s| - 1, |TrimRight(s)|;
      TrimRightCuts(s[..n]);
      assert s[k..] == s[..n][k..] + [s[n]];
    }
  }

  /** Trimming cuts white space off both ends and nothing else. */
  lemma {:induction false} TrimCutsBlanks(s: string) returns (before: string, after: string)
    ensures s == before + Trim(s) + after && IsBlank(before) && IsBlank(after)
  {
    var left := TrimLeft(s);
    TrimLeftCuts(s);
    TrimRightCuts(left);
    before, after := s[..|s| - |left|], left[|TrimRight(left)|..];
    ThreeParts(s, before, left, TrimRight(left), after);
  }

  lemma ThreeParts(s: string, before: string, left: string, middle: string, after: string)
    requires |left| <= |s| && before == s[..|s| - |left|] && left == s[|s| - |left|..]
    requires |middle| <= |left| && middle == left[..|middle|] && after == left[|middle|..]
    ensures s == before + middle + after
  {
    assert left == middle + after;
  }

  lemma TrimOfNothing()
    ensures Trim("") == ""
  {
    assert TrimLeft("") == "";
  }

  function LowerChar(c: char): char {
    if 'A' <= c <= 'Z' then (c as int + 32) as char else c
  }

  /** strings.ToLower on the ASCII letters. */
  function Lower(s: string): (r: string)
    ensures |r| == |s|
    ensures forall i :: 0 <= i < |s| ==> r[i] == LowerChar(s[i])
  {
    seq(|s|, i requires 0 <= i < |s| => LowerChar(s[i]))
  }

  /** A lower-cased text has no letter left to lower. */
  lemma {:induction false} LowerKeeps(s: string)
    requires forall c :: c in s ==> LowerChar(c) == c
    ensures Lower(s) == s
  {
    assert forall i :: 0 <= i < |s| ==> s[i] in s;
  }

  /** The capitals go to the letters behind each other from 'a' on, and nothing else changes. */
  lemma {:induction false} LowerCharMeans(c: char)
    ensures if 'A' <= c <= 'Z' then 'a' <= LowerChar(c) <= 'z' && LowerChar(c) - 'a' == c - 'A' else LowerChar(c) == c
  {
  }

  lemma LowerCharTwice(c: char)
    ensures LowerChar(LowerChar(c)) == LowerChar(c)
  {
  }

  lemma {:induction false} LoweredIsLow(s: string, c: char)
    requires c in Lower(s)
    ensures LowerChar(c) == c
  {
    var low := Lower(s);
    var i :| 0 <= i < |low| && low[i] == c;
    LowerCharTwice(s[i]);
  }

  /** strings.TrimSpace(strings.ToLower(s)), done twice, is done once. */
  lemma {:induction false} TrimLowerIsIdempotent(s: string)
    ensures Trim(Lower(Trim(Lower(s)))) == Trim(Lower(s))
  {
    var low := Lower(s);
    var tidy := Trim(low);
    TrimIsSlice(low);
    TrimIsIdempotent(low);
    assert Lower(tidy) == tidy by {
      forall c | c in tidy ensures LowerChar(c) == c {
        LoweredIsLow(s, c);
      }
      LowerKeeps(tidy);
    }
  }

  /** strings.Split(s, "\n"). */
  function Lines(s: string): (r: seq<string>)
    ensures |r| > 0
    ensures forall l :: l in r ==> '\n' !in l
  {
    if s == "" then [""]
    else if s[0] == '\n' then [""] + Lines(s[1..])
    else
      var rest := Lines(s[1..]);
      [[s[0]] + rest[0]] + rest[1..]
  }

  /** strings.Join(parts, "\n"). */
  function JoinLines(parts: seq<string>): string {
    if parts == [] then ""
    else if |parts| == 1 then parts[0]
    else parts[0] + "\n" + JoinLines(parts[1..])
  }

  lemma {:induction false} LinesOfLine(s: string)
    requires '\n' !in s
    ensures Lines(s) == [s]
  {
    if s != "" {
      LinesOfLine(s[1..]);
      assert [s[0]] + s[1..] == s;
    }
  }

  lemma LinesOfCons(c: char, s: string)
    requires c != '\n'
    ensures Lines([c] + s) == [[c] + Lines(s)[0]] + Lines(s)[1..]
  {
    assert ([c] + s)[1..] == s;
  }

  lemma LinesOfBreak(s: string)
    ensures Lines("\n" + s) == [""] + Lines(s)
  {
    assert ("\n" + s)[1..] == s;
  }

  lemma PrependToFirst(c: char, la: seq<string>, lb: seq<string>)
    requires la != []
    ensures [[c] + (la + lb)[0]] + (la + lb)[1..] == ([[c] + la[0]] + la[1..]) + lb
  {
  }

  /** Joining two texts by a line break splits into the lines of both. */
  lemma {:induction false} LinesOfJoin(a: string, b: string)
    ensures Lines(a + ("\n" + b)) == Lines(a) + Lines(b)
  {
    var tail := "\n" + b;
    if a == "" {
      assert a + tail == tail;
      LinesOfBreak(b);
    } else {
      var c, rest := a[0], a[1..];
      assert a == [c] + rest && a + tail == [c] + (rest + tail);
      LinesOfJoin(rest, b);
      var la, lb := Lines(rest), Lines(b);
      if c == '\n' {
        LinesOfBreak(rest);
        LinesOfBreak(rest + tail);
        assert [""] + (la + lb) == ([""] + la) + lb;
      } else {
        LinesOfCons(c, rest);
        LinesOfCons(c, rest + tail);
        PrependToFirst(c, la, lb);
      }
    }
  }
}

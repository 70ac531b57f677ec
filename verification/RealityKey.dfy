/** The alternate spelling of a Reality public key (buildOutboundWithAlternateRealityKey in
    server/internal/service/target_service.go): a base64 key is respelled in the other one of the
    alphabets of sections 4 and 5 of RFC 4648. */
module RealityKey {
  import opened Text

  // ----- The respelling -----

  function Swap(s: string, a: char, b: char): (r: string)
    ensures |r| == |s|
    ensures forall i :: 0 <= i < |s| ==> r[i] == if s[i] == a then b else s[i]
  {
    seq(|s|, i requires 0 <= i < |s| => if s[i] == a then b else s[i])
  }

  function Pads(n: nat): (r: string)
    ensures |r| == n && forall i :: 0 <= i < n ==> r[i] == '='
  {
    seq(n, _ => '=')
  }

  /** strings.TrimRight(s, "="). */
  function Unpad(s: string): (r: string)
    ensures r <= s
    ensures r == "" || r[|r| - 1] != '='
    ensures forall i :: |r| <= i < |s| ==> s[i] == '='
  {
    if s != "" && s[|s| - 1] == '=' then Unpad(s[..|s| - 1]) else s
  }

  function ToStd(s: string): (r: string)
    ensures |r| == |s|
  {
    Swap(Swap(s, '-', '+'), '_', '/')
  }

  function ToURL(s: string): (r: string)
    ensures |r| == |s|
  {
    Swap(Swap(s, '+', '-'), '/', '_')
  }

  predicate HasURLChar(s: string) {
    '-' in s || '_' in s
  }

  predicate HasStdChar(s: string) {
    '+' in s || '/' in s
  }

  /** The other spelling of a trimmed, non-empty key. */
  function Respell(key: string): string {
    if HasURLChar(key) then ToStd(key) + Pads((4 - |key| % 4) % 4) else Unpad(ToURL(key))
  }

  function Alternate(key: string): Option<string> {
    if key == "" || Trim(Respell(key)) == "" || Respell(key) == key then None else Some(Respell(key))
  }

  // ----- Keys as sections 4 and 5 of RFC 4648 write them -----

  datatype Alphabet = Std | URL

  type Sextet = v | 0 <= v < 64

  function Char(al: Alphabet, v: Sextet): char {
    if v < 26 then ('A' as int + v) as char
    else if v < 52 then ('a' as int + (v - 26)) as char
    else if v < 62 then ('0' as int + (v - 52)) as char
    else if v == 62 then if al.Std? then '+' else '-'
    else if al.Std? then '/' else '_'
  }

  function Chars(al: Alphabet, x: seq<Sextet>): (r: string)
    ensures |r| == |x|
    ensures forall i :: 0 <= i < |x| ==> r[i] == Char(al, x[i])
  {
    seq(|x|, i requires 0 <= i < |x| => Char(al, x[i]))
  }

  /** The standard alphabet is padded to a multiple of four, the URL one is used without padding. */
  function Encode(al: Alphabet, x: seq<Sextet>): string {
    match al
    case Std => Chars(Std, x) + Pads((4 - |x| % 4) % 4)
    case URL => Chars(URL, x)
  }

  type Byte = v | 0 <= v < 256

  /** Three bytes make four groups of six bits; a rest of one or two makes two or three, filled up with zeros. */
  function Sextets(b: seq<Byte>): (x: seq<Sextet>)
    ensures |x| % 4 != 1
    ensures b != [] ==> x != []
  {
    if b == [] then []
    else if |b| == 1 then [b[0] / 4, b[0] % 4 * 16]
    else if |b| == 2 then [b[0] / 4, b[0] % 4 * 16 + b[1] / 16, b[1] % 16 * 4]
    else [b[0] / 4, b[0] % 4 * 16 + b[1] / 16, b[1] % 16 * 4 + b[2] / 64, b[2] % 64] + Sextets(b[3..])
  }

  function EncodeBytes(al: Alphabet, b: seq<Byte>): string {
    Encode(al, Sextets(b))
  }

  /** Some group is one on which the alphabets differ. */
  ghost predicate Special(x: seq<Sextet>) {
    exists i :: 0 <= i < |x| && x[i] >= 62
  }

  // ----- Characters -----

  lemma CharMeans(al: Alphabet, v: Sextet)
    ensures var c := Char(al, v);
            && !IsSpace(c) && c != '='
            && (c == '-' || c == '_' <==> al.URL? && v >= 62)
            && (c == '+' || c == '/' <==> al.Std? && v >= 62)
            && (v < 62 ==> c == Char(Std, v) == Char(URL, v))
  {
  }

  lemma CharsSwap(x: seq<Sextet>)
    ensures ToStd(Chars(URL, x)) == Chars(Std, x)
    ensures ToURL(Chars(Std, x)) == Chars(URL, x)
  {
    forall i | 0 <= i < |x|
      ensures ToStd(Chars(URL, x))[i] == Char(Std, x[i]) && ToURL(Chars(Std, x))[i] == Char(URL, x[i])
    {
      CharMeans(Std, x[i]);
      CharMeans(URL, x[i]);
    }
  }

  lemma NoURLChar(s: string)
    requires forall i :: 0 <= i < |s| ==> s[i] != '-' && s[i] != '_'
    ensures !HasURLChar(s)
  {
  }

  lemma HasURLCharAt(s: string, i: nat)
    requires i < |s| && (s[i] == '-' || s[i] == '_')
    ensures HasURLChar(s)
  {
  }

  lemma URLCharsOf(x: seq<Sextet>)
    ensures HasURLChar(Chars(URL, x)) <==> Special(x)
  {
    forall i | 0 <= i < |x| ensures Chars(URL, x)[i] == '-' || Chars(URL, x)[i] == '_' <==> x[i] >= 62 {
      CharMeans(URL, x[i]);
    }
    if Special(x) {
      var i :| 0 <= i < |x| && x[i] >= 62;
      HasURLCharAt(Chars(URL, x), i);
    } else {
      NoURLChar(Chars(URL, x));
    }
  }

  lemma StdHasNoURLChar(x: seq<Sextet>)
    ensures !HasURLChar(Encode(Std, x))
  {
    forall i | 0 <= i < |Encode(Std, x)| ensures Encode(Std, x)[i] != '-' && Encode(Std, x)[i] != '_' {
      if i < |x| {
        CharMeans(Std, x[i]);
      }
    }
    NoURLChar(Encode(Std, x));
  }

  lemma {:induction false} UnpadOf(body: string, n: nat)
    requires body != "" && body[|body| - 1] != '='
    ensures Unpad(body + Pads(n)) == body
  {
    var s := body + Pads(n);
    if n == 0 {
      assert s == body;
    } else {
      assert s[..|s| - 1] == body + Pads(n - 1);
      assert s[|s| - 1] == '=';
      UnpadOf(body, n - 1);
    }
  }

  lemma {:induction false} TrimRightKeeps(s: string)
    requires s != "" && !IsSpace(s[0])
    ensures TrimRight(s) != ""
  {
    if |s| > 1 && IsSpace(s[|s| - 1]) {
      TrimRightKeeps(s[..|s| - 1]);
    }
  }

  lemma KeyIsNotBlank(al: Alphabet, x: seq<Sextet>)
    requires x != []
    ensures Encode(al, x) != "" && Trim(Encode(al, x)) != ""
  {
    var key := Encode(al, x);
    assert key[0] == Char(al, x[0]);
    CharMeans(al, x[0]);
    assert TrimLeft(key) == key;
    TrimRightKeeps(key);
  }

  // ----- The respelling is the other spelling of the same bytes -----

  lemma ToURLOfPadded(body: string, n: nat)
    ensures ToURL(body + Pads(n)) == ToURL(body) + Pads(n)
  {
  }

  lemma RespellStd(x: seq<Sextet>)
    requires x != []
    ensures Respell(Encode(Std, x)) == Encode(URL, x)
  {
    var n := (4 - |x| % 4) % 4;
    StdHasNoURLChar(x);
    CharsSwap(x);
    ToURLOfPadded(Chars(Std, x), n);
    CharMeans(URL, x[|x| - 1]);
    UnpadOf(Chars(URL, x), n);
  }

  lemma RespellURL(x: seq<Sextet>)
    requires x != []
    ensures Respell(Encode(URL, x)) == if Special(x) then Encode(Std, x) else Encode(URL, x)
  {
    CharsSwap(x);
    URLCharsOf(x);
    var key := Chars(URL, x);
    if !Special(x) {
      forall i | 0 <= i < |x| ensures Chars(Std, x)[i] == key[i] {
        CharMeans(URL, x[i]);
      }
      assert ToURL(key) == key;
      CharMeans(URL, x[|x| - 1]);
      UnpadOf(key, 0);
      assert key + Pads(0) == key;
    }
  }

  /** Whether the two spellings differ at all. */
  lemma SpellingsDiffer(x: seq<Sextet>)
    ensures Encode(Std, x) == Encode(URL, x) <==> !Special(x) && |x| % 4 == 0
  {
    forall i | 0 <= i < |x| ensures Chars(Std, x)[i] == Chars(URL, x)[i] <==> x[i] < 62 {
      CharMeans(Std, x[i]);
      CharMeans(URL, x[i]);
    }
    if Special(x) {
      var i :| 0 <= i < |x| && x[i] >= 62;
      assert Encode(Std, x)[i] != Encode(URL, x)[i];
    }
  }

  /** Main result: the alternate of a padded standard key is the unpadded URL key of the same bytes, and there
      is none exactly when the two are spelled alike. */
  lemma {:induction false} AlternateOfStd(b: seq<Byte>)
    requires b != []
    ensures var x := Sextets(b);
            Alternate(EncodeBytes(Std, b)) ==
            if Special(x) || |x| % 4 != 0 then Some(EncodeBytes(URL, b)) else None
  {
    var x := Sextets(b);
    RespellStd(x);
    KeyIsNotBlank(Std, x);
    KeyIsNotBlank(URL, x);
    SpellingsDiffer(x);
  }

  /** Main result: the alternate of an unpadded URL key is the padded standard key of the same bytes if the key
      has a - or a _; without either it has no alternate, even when only the padding is missing. */
  lemma {:induction false} AlternateOfURL(b: seq<Byte>)
    requires b != []
    ensures Alternate(EncodeBytes(URL, b)) == if Special(Sextets(b)) then Some(EncodeBytes(Std, b)) else None
  {
    var x := Sextets(b);
    RespellURL(x);
    KeyIsNotBlank(Std, x);
    KeyIsNotBlank(URL, x);
    SpellingsDiffer(x);
  }

  /** Main result: for a key that has an alternate, the alternate of the alternate is the key again exactly when
      the key has one of + / - _. */
  lemma {:induction false} AlternateUndoesItselfIff(al: Alphabet, b: seq<Byte>)
    requires b != []
    ensures var key := EncodeBytes(al, b);
            Alternate(key).Some? ==> (Alternate(Alternate(key).value) == Some(key) <==> Special(Sextets(b)))
    ensures Special(Sextets(b)) <==> HasStdChar(EncodeBytes(al, b)) || HasURLChar(EncodeBytes(al, b))
  {
    AlternateOfStd(b);
    AlternateOfURL(b);
    SpecialShows(al, Sextets(b));
  }

  lemma SpecialShows(al: Alphabet, x: seq<Sextet>)
    ensures Special(x) <==> HasStdChar(Encode(al, x)) || HasURLChar(Encode(al, x))
  {
    var key := Encode(al, x);
    forall i | 0 <= i < |key|
      ensures key[i] == '+' || key[i] == '/' || key[i] == '-' || key[i] == '_' <==> i < |x| && x[i] >= 62
    {
      if i < |x| {
        CharMeans(al, x[i]);
      }
    }
    if Special(x) {
      var i :| 0 <= i < |x| && x[i] >= 62;
      assert key[i] in key;
    }
  }
}

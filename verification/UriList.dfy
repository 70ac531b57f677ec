/** parseURIList (server/internal/service/target_service.go). The parser of one URI is a parameter. */
module UriList {
  import opened Text

  datatype Parsed = Parsed(
    uid: string, name: string, protocol: string, server: string, port: int, rawJSON: string, order: nat)

  /** parseURI: a trimmed line to a node, whose order is still 0. */
  type Parser = string -> Option<Parsed>

  /** What one line contributes: nothing, or one node. */
  type LineParser = string -> Option<Parsed>

  /** A blank line contributes nothing, any other line what parseURI makes of it without its outer blanks. */
  function ByLine(p: Parser): LineParser {
    line => var t := Trim(line); if t == "" then None else p(t)
  }

  lemma BlankLinesContributeNothing(p: Parser)
    ensures ByLine(p)("") == None
  {
    TrimOfNothing();
  }

  /** White space around a line does not matter, and a line without any is parsed as it is. */
  lemma {:induction false} LinesAreTrimmed(p: Parser, line: string)
    ensures ByLine(p)(line) == ByLine(p)(Trim(line))
    ensures Trim(line) == line && line != "" ==> ByLine(p)(line) == p(line)
  {
    TrimIsIdempotent(line);
  }

  function NodesOfLines(f: LineParser, lines: seq<string>): seq<Parsed> {
    if lines == [] then []
    else
      var before, last := NodesOfLines(f, lines[..|lines| - 1]), f(lines[|lines| - 1]);
      if last.Some? then before + [last.value] else before
  }

  function Renumber(nodes: seq<Parsed>): (r: seq<Parsed>)
    ensures |r| == |nodes|
  {
    seq(|nodes|, k requires 0 <= k < |nodes| => nodes[k].(order := k))
  }

  /** The nodes of a text, before they are numbered. */
  function NodesOf(f: LineParser, text: string): seq<Parsed> {
    NodesOfLines(f, Lines(text))
  }

  function ParseURIList(f: LineParser, text: string): seq<Parsed> {
    Renumber(NodesOf(f, text))
  }

  ghost predicate IsNumbered(nodes: seq<Parsed>) {
    forall k :: 0 <= k < |nodes| ==> nodes[k].order == k
  }

  /** How many of the lines can be parsed. */
  function Parses(f: LineParser, lines: seq<string>): nat {
    if lines == [] then 0
    else Parses(f, lines[..|lines| - 1]) + if f(lines[|lines| - 1]).Some? then 1 else 0
  }

  lemma {:induction false} NodeOfLine(f: LineParser, lines: seq<string>, i: nat)
    requires i < |lines| && f(lines[i]).Some?
    ensures |NodesOfLines(f, lines)| == Parses(f, lines)
    ensures Parses(f, lines[..i]) < |NodesOfLines(f, lines)|
    ensures NodesOfLines(f, lines)[Parses(f, lines[..i])] == f(lines[i]).value
  {
    var n := |lines| - 1;
    NodesAreParses(f, lines[..n]);
    if i < n {
      NodeOfLine(f, lines[..n], i);
      assert lines[..n][..i] == lines[..i];
    }
  }

  lemma {:induction false} NodesAreParses(f: LineParser, lines: seq<string>)
    ensures |NodesOfLines(f, lines)| == Parses(f, lines)
  {
    if lines != [] {
      NodesAreParses(f, lines[..|lines| - 1]);
    }
  }

  /** Main result: parseURIList yields one node for each line that parses, in the order of the lines, numbered from 0
      and otherwise as the line was parsed. */
  lemma {:induction false} ParseIsNumbered(f: LineParser, text: string)
    ensures var nodes, lines := ParseURIList(f, text), Lines(text);
            && IsNumbered(nodes) && |nodes| == Parses(f, lines)
            && forall i :: 0 <= i < |lines| && f(lines[i]).Some? ==>
                 var k := Parses(f, lines[..i]); k < |nodes| && nodes[k] == f(lines[i]).value.(order := k)
  {
    var nodes, lines := ParseURIList(f, text), Lines(text);
    NodesAreParses(f, lines);
    forall i | 0 <= i < |lines| && f(lines[i]).Some?
      ensures var k := Parses(f, lines[..i]); k < |nodes| && nodes[k] == f(lines[i]).value.(order := k)
    {
      NodeOfLine(f, lines, i);
    }
  }

  /** The loop over the lines; f trims and parses one. */
  method ParseLines(f: LineParser, lines: seq<string>) returns (out: seq<Parsed>)
    ensures out == Renumber(NodesOfLines(f, lines)) && IsNumbered(out)
  {
    out := [];
    var order := 0;
    var i := 0;
    while i < |lines|
      invariant 0 <= i <= |lines| && order == |out|
      invariant out == Renumber(NodesOfLines(f, lines[..i]))
    {
      assert lines[..i + 1][..i] == lines[..i];
      var node := f(lines[i]);
      if node.Some? {
        out := out + [node.value.(order := order)];
        order := order + 1;
      }
      i := i + 1;
    }
    assert lines[..i] == lines;
  }

  lemma {:induction false} NodesOfConcat(f: LineParser, a: seq<string>, b: seq<string>)
    ensures NodesOfLines(f, a + b) == NodesOfLines(f, a) + NodesOfLines(f, b)
  {
    if b == [] {
      assert a + b == a;
    } else {
      var n := |b| - 1;
      assert (a + b)[..|a + b| - 1] == a + b[..n];
      NodesOfConcat(f, a, b[..n]);
    }
  }

  /** The nodes of several texts, one after the other. */
  function NodesOfAll(f: LineParser, texts: seq<string>): seq<Parsed> {
    if texts == [] then [] else NodesOf(f, texts[0]) + NodesOfAll(f, texts[1..])
  }

  lemma NodesOfJoin(f: LineParser, a: string, b: string)
    ensures NodesOf(f, a + ("\n" + b)) == NodesOf(f, a) + NodesOf(f, b)
  {
    LinesOfJoin(a, b);
    NodesOfConcat(f, Lines(a), Lines(b));
  }

  lemma JoinIsBreak(texts: seq<string>)
    requires |texts| > 1
    ensures JoinLines(texts) == texts[0] + ("\n" + JoinLines(texts[1..]))
  {
  }

  lemma NodesOfAllMore(f: LineParser, texts: seq<string>)
    requires |texts| > 1
    requires NodesOf(f, JoinLines(texts[1..])) == NodesOfAll(f, texts[1..])
    ensures NodesOf(f, JoinLines(texts)) == NodesOf(f, texts[0]) + NodesOfAll(f, texts[1..])
  {
    JoinIsBreak(texts);
    NodesOfJoin(f, texts[0], JoinLines(texts[1..]));
  }

  lemma NodesOfOne(f: LineParser, texts: seq<string>)
    requires |texts| == 1
    ensures NodesOf(f, JoinLines(texts)) == NodesOfAll(f, texts)
  {
    assert texts[1..] == [];
  }

  lemma NodesOfNone(f: LineParser)
    requires f("") == None
    ensures NodesOf(f, JoinLines([])) == []
  {
    assert [""][..0] == [];
  }

  /** Parsing the joined list is parsing each of its texts. */
  lemma {:induction false} NodesOfJoined(f: LineParser, texts: seq<string>)
    requires f("") == None
    ensures NodesOf(f, JoinLines(texts)) == NodesOfAll(f, texts)
    decreases |texts|
  {
    if |texts| == 0 {
      NodesOfNone(f);
    } else if |texts| == 1 {
      NodesOfOne(f, texts);
    } else {
      NodesOfJoined(f, texts[1..]);
      NodesOfAllMore(f, texts);
    }
  }

  /** Main result: parseURIList of the joined list is the renumbered concatenation of the parses of its entries. */
  lemma {:induction false} ParseOfJoined(f: LineParser, texts: seq<string>)
    requires f("") == None
    ensures ParseURIList(f, JoinLines(texts)) == Renumber(NodesOfAll(f, texts))
  {
    NodesOfJoined(f, texts);
  }

  /** The same for parseURIList as it is, which trims each line and passes over blank ones, with any
      parser of one URI. */
  lemma ParseURIListOfJoined(p: Parser, texts: seq<string>)
    ensures ParseURIList(ByLine(p), JoinLines(texts)) == Renumber(NodesOfAll(ByLine(p), texts))
  {
    BlankLinesContributeNothing(p);
    ParseOfJoined(ByLine(p), texts);
  }

  /** A text without a line break has at most one node. */
  lemma OneLineOneNode(f: LineParser, text: string)
    requires '\n' !in text
    ensures |NodesOf(f, text)| <= 1
  {
    LinesOfLine(text);
    var line := [text];
    assert line[..|line| - 1] == [];
    assert NodesOfLines(f, line[..|line| - 1]) == [];
  }
}

/**
  MGSAT.csv: one attribute of a concept per line,
  `CUI,METAUI,STYPE,CODE,ATUI,ATN,SAB,ATV,SUPPRESS`, the value ATV quoted or not.
*/
module MgSat {
  import opened Wrappers
  import opened Regex
  import opened Driver
  import opened Text
  import Sanitize
  import Turtle

  datatype Record = Record(
    cui: string, metaui: string, stype: string, code: string, atui: string,
    atn: string, sab: string, atv: string, suppress: string)

  /** `^(\w+),(\w+),(\w+),([\.\:\w]*),(\w+),([\w\-\_]+),(\w+),`: the seven fields before the value. */
  const Head: Pattern := [
    Start, Open(1), Rep(Word, Plus), Close(1), Lit(','), Open(2), Rep(Word, Plus), Close(2), Lit(','),
    Open(3), Rep(Word, Plus), Close(3), Lit(','), Open(4), Rep(DotColonOrWord, Star), Close(4), Lit(','),
    Open(5), Rep(Word, Plus), Close(5), Lit(','), Open(6), Rep(WordOrHyphen, Plus), Close(6), Lit(','),
    Open(7), Rep(Word, Plus), Close(7), Lit(',')]

  /** The value group `(.*)`. */
  const Value: Pattern := Cap(8, AnyButNewline, Star)

  /** `,(\w)[\r\n]*?$`: the suppress flag. */
  const Flag: Pattern := Cap(9, Word, One)
  const Ending: Pattern := [Rep(LineBreak, LazyStar), End]

  /** The value between double quotes, `\"(.*)\"`. */
  const Quoted: Pattern := Head + ([Lit('"')] + Value + [Lit('"')] + ([Lit(',')] + Flag + Ending))

  /** The value as it stands, `(.*)`. */
  const Bare: Pattern := Head + (Value + ([Lit(',')] + Flag + Ending))

  const ParseError := Raise("", "Parse error on MGSAT.\n")

  function Fields(line: string, c: Captures): Record
    requires Within(c, |line|, |line|)
  {
    Record(Field(line, c, 1), Field(line, c, 2), Field(line, c, 3), Field(line, c, 4), Field(line, c, 5),
      Field(line, c, 6), Field(line, c, 7), Field(line, c, 8), Field(line, c, 9))
  }

  /**
    `MGSAT.parse`: the quoted shape first, then the bare one; it raises exactly
    when the bare shape does not fit, since that one accepts every quoted line too.
  */
  function Parse(line: string): (r: Result<Record, Halt>)
    ensures r.Failure? <==> !Matches(Bare, line)
    ensures r.Failure? ==> r.error == ParseError
  {
    SearchIff(Quoted, line);
    SearchIff(Bare, line);
    QuotedWithinBare(line);
    match Search(Quoted, line)
    case Some(c) => Success(Fields(line, c))
    case None =>
      match Search(Bare, line)
      case Some(c) => Success(Fields(line, c))
      case None => Failure(ParseError)
  }

  /** The lines of `MGSAT.construct_turtle`: a blank node for the attribute. */
  function TurtleLines(rec: Record): (r: seq<string>)
    ensures |r| == 11 && r[0] == "medgen:" + rec.cui + "\n" && r[7] == "    rdf:value \"" + Sanitize.MgsatLiteral(rec.atv) + "\" ;\n"
  {
    [ "medgen:" + rec.cui + "\n",
      "  mo:mgsat [\n",
      "    a mo:MGSAT ;\n",
      "    dct:identifier \"" + rec.atui + "\" ;\n",
      "    mo:metaui \"" + rec.metaui + "\" ;\n",
      "    mo:stype \"" + rec.stype + "\" ;\n",
      "    rdfs:label \"" + rec.atn + "\" ;\n",
      "    rdf:value \"" + Sanitize.MgsatLiteral(rec.atv) + "\" ;\n",
      "    dct:source mo:" + rec.sab + " ;\n",
      "    mo:suppress mo:" + rec.suppress + "\n",
      "  ] .\n\n" ]
  }

  /** `MGSAT.construct_turtle`. */
  function ConstructTurtle(rec: Record): (r: string)
    ensures "medgen:" + rec.cui + "\n" <= r && Puts(r) == r
  {
    ConcatLast(TurtleLines(rec));
    Concat(TurtleLines(rec))
  }

  /** One data line: the parse error, or a block that already ends with its line feed. */
  function Step(line: string): (r: Result<Option<string>, Halt>)
    ensures r.Failure? <==> Parse(line).Failure?
    ensures r.Success? ==> r.value.Some? && Puts(r.value.value) == r.value.value
  {
    match Parse(line)
    case Failure(h) => Failure(h)
    case Success(rec) => Success(Some(ConstructTurtle(rec)))
  }

  /** `MGSAT.rdf` over the data lines: at most one block per line, and a halt exactly when some line does not parse. */
  function Rdf(lines: seq<string>): (r: Run)
    ensures |r.printed| <= |lines|
    ensures r.halt.None? <==> forall k :: 0 <= k < |lines| ==> Parse(lines[k]).Success?
  {
    Each(lines, Step)
  }

  // ---------------------------------------------------------------------

  lemma Shapes()
    ensures Quoted == Head + ([Lit('"'), Open(8), Rep(AnyButNewline, Star), Close(8), Lit('"')] + ([Lit(',')] + Flag + Ending))
    ensures Bare == Head + ([Open(8), Rep(AnyButNewline, Star), Close(8)] + ([Lit(',')] + Flag + Ending))
  {
  }

  /** The quotes around a value can be left to the unquoted value group. */
  lemma AbsorbQuotes(post: Pattern, s: string, j: nat)
    requires j <= |s|
    requires CanMatch([Lit('"'), Open(8), Rep(AnyButNewline, Star), Close(8), Lit('"')] + post, s, j)
    ensures CanMatch([Open(8), Rep(AnyButNewline, Star), Close(8)] + post, s, j)
  {
    var m := QuotedRun(post, s, j);
    AllInJoin(AnyButNewline, s, j, j + 1, m);
    AllInJoin(AnyButNewline, s, j, m, m + 1);
    BareRun(post, s, j, m + 1);
  }

  /** A quoted value: a quote at `j`, a run of non-newlines, a quote at `m`, and then `post`. */
  lemma QuotedRun(post: Pattern, s: string, j: nat) returns (m: nat)
    requires j <= |s|
    requires CanMatch([Lit('"'), Open(8), Rep(AnyButNewline, Star), Close(8), Lit('"')] + post, s, j)
    ensures j < m < |s| && s[j] == '"' && s[m] == '"'
    ensures AllIn(AnyButNewline, s, j + 1, m) && CanMatch(post, s, m + 1)
  {
    var t4 := [Lit('"')] + post;
    var t3 := [Close(8)] + t4;
    var t2 := [Rep(AnyButNewline, Star)] + t3;
    var t1 := [Open(8)] + t2;
    assert [Lit('"'), Open(8), Rep(AnyButNewline, Star), Close(8), Lit('"')] + post == [Lit('"')] + t1;
    ConsLit('"', t1, s, j);
    ConsBracket(Open(8), t2, s, j + 1);
    ConsRep(AnyButNewline, Star, t3, s, j + 1);
    m :| j + 1 <= m <= |s| && AllIn(AnyButNewline, s, j + 1, m) && CanMatch(t3, s, m);
    ConsBracket(Close(8), t4, s, m);
    ConsLit('"', post, s, m);
  }

  /** An unquoted value: a run of non-newlines from `j` to `k`, and then `post`. */
  lemma BareRun(post: Pattern, s: string, j: nat, k: nat)
    requires j <= k <= |s| && AllIn(AnyButNewline, s, j, k) && CanMatch(post, s, k)
    ensures CanMatch([Open(8), Rep(AnyButNewline, Star), Close(8)] + post, s, j)
  {
    var closed := [Close(8)] + post;
    assert [Open(8), Rep(AnyButNewline, Star), Close(8)] + post == [Open(8)] + ([Rep(AnyButNewline, Star)] + closed);
    ConsBracket(Close(8), post, s, k);
    ConsRep(AnyButNewline, Star, closed, s, j);
    assert Admits(Star, k - j) && CanMatch(closed, s, k);
    ConsBracket(Open(8), [Rep(AnyButNewline, Star)] + closed, s, j);
  }

  /** Every line the quoted shape accepts, the bare shape accepts too. */
  lemma QuotedWithinBare(line: string)
    ensures Matches(Quoted, line) ==> Matches(Bare, line)
  {
    var post := [Lit(',')] + Flag + Ending;
    var x: Pattern := [Lit('"'), Open(8), Rep(AnyButNewline, Star), Close(8), Lit('"')] + post;
    var y: Pattern := [Open(8), Rep(AnyButNewline, Star), Close(8)] + post;
    Shapes();
    if Matches(Quoted, line) {
      var i :| 0 <= i <= |line| && CanMatch(Head + x, line, i);
      forall j | i <= j <= |line| && CanMatch(x, line, j) ensures CanMatch(y, line, j) {
        AbsorbQuotes(post, line, j);
      }
      Congruence(Head, x, y, line, i);
    }
  }

  lemma Regroup(a: Pattern, b: Pattern, c: Pattern, d: Pattern, e: Pattern, f: Pattern)
    ensures a + (b + c + d + (e + f + Ending)) == (a + b + c + d + e) + f + Ending
  {
  }

  lemma Assoc(a: Pattern, b: Pattern, c: Pattern)
    ensures a + (b + c) == a + b + c
  {
  }

  lemma GroupOnce()
    ensures Open(8) !in [Lit('"')] + ([Lit(',')] + Flag + Ending) && Close(8) !in [Lit('"')] + ([Lit(',')] + Flag + Ending)
    ensures Open(8) !in [Lit(',')] + Flag + Ending && Close(8) !in [Lit(',')] + Flag + Ending
    ensures Open(9) !in Ending && Close(9) !in Ending
  {
  }

  lemma QuotedValue(line: string, c: Captures)
    requires Search(Quoted, line) == Some(c)
    ensures Within(c, |line|, |line|) && '\n' !in Field(line, c, 8)
  {
    GroupOnce();
    var post := [Lit('"')] + ([Lit(',')] + Flag + Ending);
    assert Quoted == (Head + [Lit('"')]) + Value + post;
    CaptureInParts(Head + [Lit('"')], 8, AnyButNewline, Star, post, line, c);
    FieldOf(AnyButNewline, Star, line, c, 8);
  }

  lemma BareValue(line: string, c: Captures)
    requires Search(Bare, line) == Some(c)
    ensures Within(c, |line|, |line|) && '\n' !in Field(line, c, 8)
  {
    GroupOnce();
    var post := [Lit(',')] + Flag + Ending;
    Assoc(Head, Value, post);
    CaptureInParts(Head, 8, AnyButNewline, Star, post, line, c);
    FieldOf(AnyButNewline, Star, line, c, 8);
  }

  /** The value captured by either shape has no line feed. */
  lemma ValueOneLine(line: string)
    requires Parse(line).Success?
    ensures '\n' !in Parse(line).value.atv
  {
    if Search(Quoted, line).Some? {
      QuotedValue(line, Search(Quoted, line).value);
    } else {
      BareValue(line, Search(Bare, line).value);
    }
  }

  lemma QuotedFlag(line: string, c: Captures)
    requires Search(Quoted, line) == Some(c)
    ensures Within(c, |line|, |line|) && |Field(line, c, 9)| == 1 && IsWordChar(Field(line, c, 9)[0])
  {
    GroupOnce();
    Regroup(Head, [Lit('"')], Value, [Lit('"')], [Lit(',')], Flag);
    CaptureInParts(Head + [Lit('"')] + Value + [Lit('"')] + [Lit(',')], 9, Word, One, Ending, line, c);
    FieldOf(Word, One, line, c, 9);
  }

  lemma BareFlag(line: string, c: Captures)
    requires Search(Bare, line) == Some(c)
    ensures Within(c, |line|, |line|) && |Field(line, c, 9)| == 1 && IsWordChar(Field(line, c, 9)[0])
  {
    GroupOnce();
    assert Bare == (Head + Value + [Lit(',')]) + Flag + Ending;
    CaptureInParts(Head + Value + [Lit(',')], 9, Word, One, Ending, line, c);
    FieldOf(Word, One, line, c, 9);
  }

  /** The suppress flag is one word character in either shape. */
  lemma SuppressFlag(line: string)
    requires Parse(line).Success?
    ensures |Parse(line).value.suppress| == 1 && IsWordChar(Parse(line).value.suppress[0])
  {
    if Search(Quoted, line).Some? {
      QuotedFlag(line, Search(Quoted, line).value);
    } else {
      BareFlag(line, Search(Bare, line).value);
    }
  }

  /** A parsed value without carriage returns reads back from its `rdf:value` literal with its backslashes gone. */
  lemma ValueReadsBack(line: string)
    requires Parse(line).Success? && '\r' !in Parse(line).value.atv
    ensures Turtle.Unescape(Sanitize.MgsatLiteral(Parse(line).value.atv)) == Some(Sanitize.Delete(Parse(line).value.atv, '\\'))
  {
    ValueOneLine(line);
    Turtle.MgsatRoundTrip(Parse(line).value.atv);
  }

  /** Every data line prints its block, in order, unless some line does not parse; then the run raises at the first such line. */
  lemma RdfBlocks(lines: seq<string>)
    ensures (forall k :: 0 <= k < |lines| ==> Matches(Bare, lines[k])) ==>
      Rdf(lines).printed == seq(|lines|, k requires 0 <= k < |lines| => ConstructTurtle(Parse(lines[k]).value))
    ensures Rdf(lines).halt.Some? <==> exists k :: 0 <= k < |lines| && !Matches(Bare, lines[k])
    ensures Rdf(lines).halt.Some? ==> Rdf(lines).halt == Some(ParseError)
  {
    if forall k :: 0 <= k < |lines| ==> Matches(Bare, lines[k]) {
      RdfPrints(lines);
    }
    RdfHalts(lines);
  }

  /** When every line parses, each prints its block, in order. */
  lemma RdfPrints(lines: seq<string>)
    requires forall k :: 0 <= k < |lines| ==> Matches(Bare, lines[k])
    ensures Rdf(lines).printed == seq(|lines|, k requires 0 <= k < |lines| => ConstructTurtle(Parse(lines[k]).value))
  {
    EachPrintsAll(lines, Step);
  }

  /** The run halts exactly when some line does not parse, and then with the parse error. */
  lemma RdfHalts(lines: seq<string>)
    ensures Rdf(lines).halt.Some? <==> exists k :: 0 <= k < |lines| && !Matches(Bare, lines[k])
    ensures Rdf(lines).halt.Some? ==> Rdf(lines).halt == Some(ParseError)
  {
    if Rdf(lines).halt.Some? {
      var k := FirstHalt(lines, Step);
    }
  }
}

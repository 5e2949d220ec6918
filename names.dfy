/** NAMES.csv: one concept name per line, `CUI,name,source,SUPPRESS`. */
module Names {
  import opened Wrappers
  import opened Regex
  import opened Driver
  import opened Text
  import Sanitize

  datatype Record = Record(cui: string, name: string, source: string, suppress: string)

  /** `^(\S+),([^\".]+),(.+),(\w)[\r\n]*?$`: a name with neither quote nor dot. */
  const Plain: Pattern := [
    Start, Open(1), Rep(NonSpace, Plus), Close(1), Lit(','),
    Open(2), Rep(NotQuoteOrDot, Plus), Close(2), Lit(','),
    Open(3), Rep(AnyButNewline, Plus), Close(3), Lit(','),
    Open(4), Rep(Word, One), Close(4), Rep(LineBreak, LazyStar), End]

  /** `^(\S+),\"(.+)\",(.+),(\w)[\r\n]*?$`: a quoted name. */
  const Quoted: Pattern := [
    Start, Open(1), Rep(NonSpace, Plus), Close(1), Lit(','),
    Lit('"'), Open(2), Rep(AnyButNewline, Plus), Close(2), Lit('"'), Lit(','),
    Open(3), Rep(AnyButNewline, Plus), Close(3), Lit(','),
    Open(4), Rep(Word, One), Close(4), Rep(LineBreak, LazyStar), End]

  /** `^(\S+),\"(.+)[\r\n]*?$`: a quoted name that does not close on this line. */
  const OpenQuote: Pattern := [
    Start, Open(1), Rep(NonSpace, Plus), Close(1), Lit(','),
    Lit('"'), Open(2), Rep(AnyButNewline, Plus), Close(2), Rep(LineBreak, LazyStar), End]

  /** `^(\S+),(.+)[\r\n]*?$`: anything after the first comma. */
  const Bare: Pattern := [
    Start, Open(1), Rep(NonSpace, Plus), Close(1), Lit(','),
    Open(2), Rep(AnyButNewline, Plus), Close(2), Rep(LineBreak, LazyStar), End]

  const ParseError := Raise("", "Parse error on NAMES.\n")

  /** `NAMES.parse`: the first pattern that matches decides; the last two leave source and suppress "Unknown". */
  function Parse(line: string): (r: Result<Record, Halt>)
    ensures r.Failure? ==> r.error == ParseError
  {
    match Search(Plain, line)
    case Some(c) => Success(Record(Field(line, c, 1), Field(line, c, 2), Field(line, c, 3), Field(line, c, 4)))
    case None =>
      match Search(Quoted, line)
      case Some(c) => Success(Record(Field(line, c, 1), Field(line, c, 2), Field(line, c, 3), Field(line, c, 4)))
      case None =>
        match Search(OpenQuote, line)
        case Some(c) => Success(Record(Field(line, c, 1), Field(line, c, 2), "Unknown", "Unknown"))
        case None =>
          match Search(Bare, line)
          case Some(c) => Success(Record(Field(line, c, 1), Field(line, c, 2), "Unknown", "Unknown"))
          case None => Failure(ParseError)
  }

  /** The lines of `NAMES.construct_turtle`: the concept, its label, and a blank node for the name and its source. */
  function TurtleLines(rec: Record): (r: seq<string>)
    ensures |r| == 10 && r[0] == "medgen:" + rec.cui + "\n" && r[9] == "\n"
  {
    var quoted := Sanitize.NamesLiteral(rec.name);
    [ "medgen:" + rec.cui + "\n",
      "  a mo:ConceptID ;\n",
      "  dct:identifier \"" + rec.cui + "\" ;\n",
      "  rdfs:label \"" + quoted + "\" ;\n",
      "  mo:name [\n",
      "    rdfs:label \"" + quoted + "\" ;\n",
      "    dct:source mo:" + Sanitize.RemoveSpace(rec.source) + " ;\n",
      "    mo:suppress mo:" + rec.suppress + "\n",
      "  ] .\n",
      "\n" ]
  }

  /** `NAMES.construct_turtle`: the block starts with the concept's subject line and ends with a blank line. */
  function ConstructTurtle(rec: Record): (r: string)
    ensures "medgen:" + rec.cui + "\n" <= r
    ensures Puts(r) == r
  {
    ConcatLast(TurtleLines(rec));
    Concat(TurtleLines(rec))
  }

  /** One data line: the parse error, or a block that already ends with its line feed. */
  function Step(line: string): (r: Result<Option<string>, Halt>)
    ensures r.Failure? <==> Parse(line).Failure?
    ensures r.Success? ==> r.value.Some? && Puts(r.value.value) == r.value.value
  {
    match Parse(line)
    case Failure(h) => Failure(h)
    case Success(rec) => Success(Some(ConstructTurtle(rec)))
  }

  /** `NAMES.rdf` over the data lines: at most one block per line, and a halt exactly when some line does not parse. */
  function Rdf(lines: seq<string>): (r: Run)
    ensures |r.printed| <= |lines|
    ensures r.halt.None? <==> forall k :: 0 <= k < |lines| ==> Parse(lines[k]).Success?
  {
    Each(lines, Step)
  }

  // ---------------------------------------------------------------------

  /** Every line the unclosed-quote pattern accepts, the bare pattern accepts too. */
  lemma OpenQuoteWithinBare(line: string)
    ensures Matches(OpenQuote, line) ==> Matches(Bare, line)
  {
    var pre: Pattern := [Start, Open(1), Rep(NonSpace, Plus), Close(1), Lit(',')];
    var tail: Pattern := [Close(2), Rep(LineBreak, LazyStar), End];
    var x: Pattern := [Lit('"'), Open(2), Rep(AnyButNewline, Plus)] + tail;
    var y: Pattern := [Open(2), Rep(AnyButNewline, Plus)] + tail;
    assert OpenQuote == pre + x;
    assert Bare == pre + y;
    if Matches(OpenQuote, line) {
      var i :| 0 <= i <= |line| && CanMatch(OpenQuote, line, i);
      forall j | i <= j <= |line| && CanMatch(x, line, j) ensures CanMatch(y, line, j) {
        AbsorbLit('"', 2, AnyButNewline, tail, line, j);
      }
      Congruence(pre, x, y, line, i);
    }
  }

  /** `NAMES.parse` raises exactly when the line fits none of the plain, quoted and bare shapes. */
  lemma ParseFails(line: string)
    ensures Parse(line).Failure? <==> !Matches(Plain, line) && !Matches(Quoted, line) && !Matches(Bare, line)
  {
    SearchIff(Plain, line);
    SearchIff(Quoted, line);
    SearchIff(OpenQuote, line);
    SearchIff(Bare, line);
    OpenQuoteWithinBare(line);
  }

  /** A non-empty text without whitespace. */
  predicate IsToken(t: string) {
    |t| >= 1 && forall k :: 0 <= k < |t| ==> !IsSpaceChar(t[k])
  }

  lemma TokenOf(s: string, c: Captures, g: nat)
    requires Within(c, |s|, |s|) && g in c && c[g].0 <= c[g].1 <= |s|
    requires AllIn(NonSpace, s, c[g].0, c[g].1) && Admits(Plus, c[g].1 - c[g].0)
    ensures IsToken(Field(s, c, g))
  {
    FieldOf(NonSpace, Plus, s, c, g);
  }

  /** Group 1 opens and closes once, at the start, in the plain NAMES pattern. */
  lemma PlainCuiOnce()
    ensures Open(1) !in Plain[4..] && Close(1) !in Plain[4..]
  {
    assert Plain[4..] == [Lit(','), Open(2), Rep(NotQuoteOrDot, Plus), Close(2), Lit(','),
      Open(3), Rep(AnyButNewline, Plus), Close(3), Lit(','),
      Open(4), Rep(Word, One), Close(4), Rep(LineBreak, LazyStar), End];
  }

  /** And in the quoted one. */
  lemma QuotedCuiOnce()
    ensures Open(1) !in Quoted[4..] && Close(1) !in Quoted[4..]
  {
    assert Quoted[4..] == [Lit(','),
      Lit('"'), Open(2), Rep(AnyButNewline, Plus), Close(2), Lit('"'), Lit(','),
      Open(3), Rep(AnyButNewline, Plus), Close(3), Lit(','),
      Open(4), Rep(Word, One), Close(4), Rep(LineBreak, LazyStar), End];
  }

  lemma PlainCui(line: string, c: Captures)
    requires Search(Plain, line) == Some(c)
    ensures IsToken(Field(line, c, 1))
  {
    assert Plain[1] == Open(1) && Plain[2] == Rep(NonSpace, Plus) && Plain[3] == Close(1);
    PlainCuiOnce();
    CaptureIn(Plain, 1, line, c);
    TokenOf(line, c, 1);
  }

  lemma PlainSuppress(line: string, c: Captures)
    requires Search(Plain, line) == Some(c)
    ensures var f := Field(line, c, 4); |f| == 1 && IsWordChar(f[0])
  {
    assert Plain[13] == Open(4) && Plain[14] == Rep(Word, One) && Plain[15] == Close(4);
    assert Plain[16..] == [Rep(LineBreak, LazyStar), End];
    CaptureIn(Plain, 13, line, c);
    FieldOf(Word, One, line, c, 4);
  }

  lemma QuotedCui(line: string, c: Captures)
    requires Search(Quoted, line) == Some(c)
    ensures IsToken(Field(line, c, 1))
  {
    assert Quoted[1] == Open(1) && Quoted[2] == Rep(NonSpace, Plus) && Quoted[3] == Close(1);
    QuotedCuiOnce();
    CaptureIn(Quoted, 1, line, c);
    TokenOf(line, c, 1);
  }

  lemma QuotedSuppress(line: string, c: Captures)
    requires Search(Quoted, line) == Some(c)
    ensures var f := Field(line, c, 4); |f| == 1 && IsWordChar(f[0])
  {
    assert Quoted[15] == Open(4) && Quoted[16] == Rep(Word, One) && Quoted[17] == Close(4);
    assert Quoted[18..] == [Rep(LineBreak, LazyStar), End];
    CaptureIn(Quoted, 15, line, c);
    FieldOf(Word, One, line, c, 4);
  }

  lemma OpenQuoteGroups(line: string, c: Captures)
    requires Search(OpenQuote, line) == Some(c)
    ensures IsToken(Field(line, c, 1))
  {
    assert OpenQuote[1] == Open(1) && OpenQuote[2] == Rep(NonSpace, Plus) && OpenQuote[3] == Close(1);
    assert OpenQuote[4..] == [Lit(','),
      Lit('"'), Open(2), Rep(AnyButNewline, Plus), Close(2), Rep(LineBreak, LazyStar), End];
    CaptureIn(OpenQuote, 1, line, c);
    TokenOf(line, c, 1);
  }

  lemma BareGroups(line: string, c: Captures)
    requires Search(Bare, line) == Some(c)
    ensures IsToken(Field(line, c, 1))
  {
    assert Bare[1] == Open(1) && Bare[2] == Rep(NonSpace, Plus) && Bare[3] == Close(1);
    assert Bare[4..] == [Lit(','), Open(2), Rep(AnyButNewline, Plus), Close(2), Rep(LineBreak, LazyStar), End];
    CaptureIn(Bare, 1, line, c);
    TokenOf(line, c, 1);
  }

  /** With the plain or the quoted pattern the suppress flag is one word character. */
  lemma SuppressOfFullShapes(line: string)
    requires Matches(Plain, line) || Matches(Quoted, line)
    ensures Parse(line).Success?
    ensures |Parse(line).value.suppress| == 1 && IsWordChar(Parse(line).value.suppress[0])
  {
    SearchIff(Plain, line);
    SearchIff(Quoted, line);
    match Search(Plain, line)
    case Some(c) => PlainSuppress(line, c);
    case None => QuotedSuppress(line, Search(Quoted, line).value);
  }

  /** Source and suppress default to "Unknown" exactly when neither full shape matches. */
  lemma DefaultsIff(line: string)
    requires Parse(line).Success?
    ensures Parse(line).value.suppress == "Unknown" <==> !Matches(Plain, line) && !Matches(Quoted, line)
    ensures !Matches(Plain, line) && !Matches(Quoted, line) ==> Parse(line).value.source == "Unknown"
  {
    SearchIff(Plain, line);
    SearchIff(Quoted, line);
    if Matches(Plain, line) || Matches(Quoted, line) {
      SuppressOfFullShapes(line);
    }
  }

  /** The CUI is a non-empty run without whitespace, so `medgen:CUI` is a single Turtle token. */
  lemma CuiIsToken(line: string)
    requires Parse(line).Success?
    ensures IsToken(Parse(line).value.cui)
  {
    match Search(Plain, line)
    case Some(c) => PlainCui(line, c);
    case None =>
      match Search(Quoted, line)
      case Some(c) => QuotedCui(line, c);
      case None =>
        match Search(OpenQuote, line)
        case Some(c) => OpenQuoteGroups(line, c);
        case None => BareGroups(line, Search(Bare, line).value);
  }
}

/** MGDEF.csv: one definition per line, `CUI,DEF,source,SUPPRESS`. */
module MgDef {
  import opened Wrappers
  import opened Regex
  import opened Driver
  import opened Text
  import Sanitize

  datatype Record = Record(cui: string, definition: string, source: string, suppress: string)

  /** `^(\w+),\"(.+)\",([\w\s]+?),(\w)[\r\n]+?$`: a quoted definition. */
  const Quoted: Pattern := [
    Start, Open(1), Rep(Word, Plus), Close(1), Lit(','),
    Lit('"'), Open(2), Rep(AnyButNewline, Plus), Close(2), Lit('"'), Lit(','),
    Open(3), Rep(WordOrSpace, LazyPlus), Close(3), Lit(','),
    Open(4), Rep(Word, One), Close(4), Rep(LineBreak, LazyPlus), End]

  /** `^(\w+),(.+),([\w\s]+?),(\w)[\r\n]+?$`: an unquoted definition. */
  const Bare: Pattern := [
    Start, Open(1), Rep(Word, Plus), Close(1), Lit(','),
    Open(2), Rep(AnyButNewline, Plus), Close(2), Lit(','),
    Open(3), Rep(WordOrSpace, LazyPlus), Close(3), Lit(','),
    Open(4), Rep(Word, One), Close(4), Rep(LineBreak, LazyPlus), End]

  /** `^(\w+),([.\\]+),([\w\s]+?),(\w)[\r\n]+?$`: a definition made only of dots and backslashes. */
  const Dots: Pattern := [
    Start, Open(1), Rep(Word, Plus), Close(1), Lit(','),
    Open(2), Rep(DotOrBackslash, Plus), Close(2), Lit(','),
    Open(3), Rep(WordOrSpace, LazyPlus), Close(3), Lit(','),
    Open(4), Rep(Word, One), Close(4), Rep(LineBreak, LazyPlus), End]

  function Fields(line: string, c: Captures): Record
    requires Within(c, |line|, |line|)
  {
    Record(Field(line, c, 1), Field(line, c, 2), Field(line, c, 3), Field(line, c, 4))
  }

  /**
    `MGDEF.parse`: the first of the three patterns that matches gives the four
    fields; when none does, the raised error is rescued at once and the
    sentinel `"NA"` (here `None`) is returned instead.
  */
  function Parse(line: string): (r: Option<Record>)
    ensures r.None? ==> Search(Quoted, line).None? && Search(Bare, line).None?
  {
    match Search(Quoted, line)
    case Some(c) => Some(Fields(line, c))
    case None =>
      match Search(Bare, line)
      case Some(c) => Some(Fields(line, c))
      case None =>
        match Search(Dots, line)
        case Some(c) => Some(Fields(line, c))
        case None => None
  }

  /** The lines of `MGDEF.construct_turtle`: the definition twice, then its source and suppress flag. */
  function TurtleLines(rec: Record): (r: seq<string>)
    ensures |r| == 8 && r[0] == "medgen:" + rec.cui + "\n" && r[7] == "\n"
  {
    var literal := Sanitize.MgdefLiteral(rec.definition);
    [ "medgen:" + rec.cui + "\n",
      "  skos:definition \"" + literal + "\" ;\n",
      "  mo:mgdef [\n",
      "    skos:definition \"" + literal + "\" ;\n",
      "    dct:source mo:" + Sanitize.RemoveSpace(rec.source) + " ;\n",
      "    mo:suppress mo:" + rec.suppress + "\n",
      "  ] .\n",
      "\n" ]
  }

  /** `MGDEF.construct_turtle`: the block starts with the concept's subject line and ends with a blank line. */
  function ConstructTurtle(rec: Record): (r: string)
    ensures "medgen:" + rec.cui + "\n" <= r
    ensures Puts(r) == r
  {
    ConcatLast(TurtleLines(rec));
    Concat(TurtleLines(rec))
  }

  /** One data line: a block for a parsed line, nothing for "NA". */
  function Step(line: string): (r: Result<Option<string>, Halt>)
    ensures r.Success?
    ensures r.value.None? <==> Parse(line).None?
  {
    match Parse(line)
    case None => Success(None)
    case Some(rec) => Success(Some(ConstructTurtle(rec)))
  }

  /** `MGDEF.rdf`: every data line in turn, printing the block of each line that parses. */
  method Rdf(lines: seq<string>) returns (printed: seq<string>)
    ensures Each(lines, Step) == Run(printed, None)
  {
    printed := [];
    var i := 0;
    while i < |lines|
      invariant 0 <= i <= |lines|
      invariant Each(lines, Step) == Then(printed, Each(lines[i..], Step))
    {
      EachAt(lines, i, Step);
      var ary := Step(lines[i]);
      if ary.value.Some? {
        var out := Puts(ary.value.value);
        ThenThen(printed, [out], Each(lines[i + 1..], Step));
        printed := printed + [out];
      }
      i := i + 1;
    }
    assert lines[i..] == [];
  }

  // ---------------------------------------------------------------------

  /** The conversion never stops early, whatever the lines: a line no pattern fits is skipped. */
  lemma RdfNeverHalts(lines: seq<string>)
    ensures Each(lines, Step).halt.None?
    ensures |Each(lines, Step).printed| <= |lines|
  {
    forall k | 0 <= k < |lines| ensures Step(lines[k]).Success? {
    }
  }

  /** The part before the definition group's repetition, shared by the unquoted and the dots pattern. */
  const Head: Pattern := [Start, Open(1), Rep(Word, Plus), Close(1), Lit(','), Open(2)]

  /** The part after it. */
  const Tail: Pattern := [Close(2), Lit(','),
    Open(3), Rep(WordOrSpace, LazyPlus), Close(3), Lit(','),
    Open(4), Rep(Word, One), Close(4), Rep(LineBreak, LazyPlus), End]

  lemma HeadTail()
    ensures Dots == Head + ([Rep(DotOrBackslash, Plus)] + Tail)
    ensures Bare == Head + ([Rep(AnyButNewline, Plus)] + Tail)
  {
  }

  /** Every line the dots-and-backslashes pattern accepts, the unquoted pattern accepts too. */
  lemma DotsWithinBare(line: string)
    ensures Matches(Dots, line) ==> Matches(Bare, line)
  {
    HeadTail();
    MatchesWiden(Head, DotOrBackslash, AnyButNewline, Plus, Tail, line);
  }

  /**
    `MGDEF.parse` gives "NA" exactly when neither the quoted nor the unquoted
    pattern fits: the third pattern never decides anything.
  */
  lemma ParseNone(line: string)
    ensures Parse(line).None? <==> !Matches(Quoted, line) && !Matches(Bare, line)
  {
    SearchIff(Quoted, line);
    SearchIff(Bare, line);
    SearchIff(Dots, line);
    DotsWithinBare(line);
  }

  /** A non-empty run of word characters. */
  predicate IsWordRun(t: string) {
    |t| >= 1 && forall k :: 0 <= k < |t| ==> IsWordChar(t[k])
  }

  lemma WordRunOf(s: string, c: Captures, g: nat, q: Quant)
    requires q == Plus || q == One
    requires Within(c, |s|, |s|) && g in c && c[g].0 <= c[g].1 <= |s|
    requires AllIn(Word, s, c[g].0, c[g].1) && Admits(q, c[g].1 - c[g].0)
    ensures IsWordRun(Field(s, c, g))
    ensures q == One ==> |Field(s, c, g)| == 1
  {
    FieldOf(Word, q, s, c, g);
  }

  /** Group 1 opens and closes once, at the start, in the quoted pattern. */
  lemma QuotedCuiOnce()
    ensures Open(1) !in Quoted[4..] && Close(1) !in Quoted[4..]
  {
    assert Quoted[4..] == [Lit(','),
      Lit('"'), Open(2), Rep(AnyButNewline, Plus), Close(2), Lit('"'), Lit(','),
      Open(3), Rep(WordOrSpace, LazyPlus), Close(3), Lit(','),
      Open(4), Rep(Word, One), Close(4), Rep(LineBreak, LazyPlus), End];
  }

  /** And in the bare one. */
  lemma BareCuiOnce()
    ensures Open(1) !in Bare[4..] && Close(1) !in Bare[4..]
  {
    assert Bare[4..] == [Lit(','),
      Open(2), Rep(AnyButNewline, Plus), Close(2), Lit(','),
      Open(3), Rep(WordOrSpace, LazyPlus), Close(3), Lit(','),
      Open(4), Rep(Word, One), Close(4), Rep(LineBreak, LazyPlus), End];
  }

  lemma QuotedCui(line: string, c: Captures)
    requires Search(Quoted, line) == Some(c)
    ensures IsWordRun(Field(line, c, 1))
  {
    assert Quoted[1] == Open(1) && Quoted[2] == Rep(Word, Plus) && Quoted[3] == Close(1);
    QuotedCuiOnce();
    CaptureIn(Quoted, 1, line, c);
    WordRunOf(line, c, 1, Plus);
  }

  lemma QuotedSuppress(line: string, c: Captures)
    requires Search(Quoted, line) == Some(c)
    ensures IsWordRun(Field(line, c, 4)) && |Field(line, c, 4)| == 1
  {
    assert Quoted[15] == Open(4) && Quoted[16] == Rep(Word, One) && Quoted[17] == Close(4);
    assert Quoted[18..] == [Rep(LineBreak, LazyPlus), End];
    CaptureIn(Quoted, 15, line, c);
    WordRunOf(line, c, 4, One);
  }

  lemma BareCui(line: string, c: Captures)
    requires Search(Bare, line) == Some(c)
    ensures IsWordRun(Field(line, c, 1))
  {
    assert Bare[1] == Open(1) && Bare[2] == Rep(Word, Plus) && Bare[3] == Close(1);
    BareCuiOnce();
    CaptureIn(Bare, 1, line, c);
    WordRunOf(line, c, 1, Plus);
  }

  lemma BareSuppress(line: string, c: Captures)
    requires Search(Bare, line) == Some(c)
    ensures IsWordRun(Field(line, c, 4)) && |Field(line, c, 4)| == 1
  {
    assert Bare[13] == Open(4) && Bare[14] == Rep(Word, One) && Bare[15] == Close(4);
    assert Bare[16..] == [Rep(LineBreak, LazyPlus), End];
    CaptureIn(Bare, 13, line, c);
    WordRunOf(line, c, 4, One);
  }

  /** A parsed record has a word-character CUI and a one-character suppress flag. */
  lemma ParsedShape(line: string)
    requires Parse(line).Some?
    ensures IsWordRun(Parse(line).value.cui)
    ensures IsWordRun(Parse(line).value.suppress) && |Parse(line).value.suppress| == 1
  {
    ParseNone(line);
    SearchIff(Quoted, line);
    SearchIff(Bare, line);
    match Search(Quoted, line)
    case Some(c) =>
      QuotedCui(line, c);
      QuotedSuppress(line, c);
    case None =>
      var c := Search(Bare, line).value;
      BareCui(line, c);
      BareSuppress(line, c);
  }
}

/** MGSTY.csv: the semantic type of a concept, `CUI,TUI,STY,ATUI`. */
module MgSty {
  import opened Wrappers
  import opened Regex
  import opened Driver
  import opened Text

  /** The parsed fields; `atui` is Ruby's `$13`, nil (`None`) when that group did not take part. */
  datatype Record = Record(cui: string, tui: string, atui: Option<string>)

  /** `^(\w+),(\w+),.+,(\w+)[\r\n]*?$`: three groups, the last after the last comma that leaves a word. */
  const Row: Pattern := [
    Start, Open(1), Rep(Word, Plus), Close(1), Lit(','), Open(2), Rep(Word, Plus), Close(2), Lit(','),
    Rep(AnyButNewline, Plus), Lit(','), Open(3), Rep(Word, Plus), Close(3), Rep(LineBreak, LazyStar), End]

  const ParseError := Raise("", "Parse error on MGSTY.\n")

  /** `MGSTY.parse`: groups 1 and 2 and `$13`, a group the pattern does not have. */
  function Parse(line: string): (r: Result<Record, Halt>)
    ensures r.Failure? <==> !Matches(Row, line)
    ensures r.Failure? ==> r.error == ParseError
  {
    SearchIff(Row, line);
    match Search(Row, line)
    case Some(c) => Success(Record(Field(line, c, 1), Field(line, c, 2), Group(line, c, 13)))
    case None => Failure(ParseError)
  }

  /** `MGSTY.construct_turtle`: the concept and its semantic type; the ATUI it is given is not used. */
  function ConstructTurtle(cui: string, tui: string, atui: Option<string>): (r: string)
    ensures "medgen:" + cui + "\n" <= r && Puts(r) == r
  {
    "medgen:" + cui + "\n" + "  mo:sty sty:" + tui + " .\n" + "\n"
  }

  /** One data line: the parse error, or a block that already ends with its line feed. */
  function Step(line: string): (r: Result<Option<string>, Halt>)
    ensures r.Failure? <==> Parse(line).Failure?
    ensures r.Success? ==> r.value.Some? && Puts(r.value.value) == r.value.value
  {
    match Parse(line)
    case Failure(h) => Failure(h)
    case Success(rec) => Success(Some(ConstructTurtle(rec.cui, rec.tui, rec.atui)))
  }

  /** `MGSTY.rdf` over the data lines: at most one block per line, and a halt exactly when some line does not parse. */
  function Rdf(lines: seq<string>): (r: Run)
    ensures |r.printed| <= |lines|
    ensures r.halt.None? <==> forall k :: 0 <= k < |lines| ==> Parse(lines[k]).Success?
  {
    Each(lines, Step)
  }

  // ---------------------------------------------------------------------

  /** The block does not depend on the ATUI. */
  lemma AtuiIgnored(cui: string, tui: string, a: Option<string>, b: Option<string>)
    ensures ConstructTurtle(cui, tui, a) == ConstructTurtle(cui, tui, b)
  {
  }

  lemma NoGroup13()
    ensures Open(13) !in Row && Close(13) !in Row
  {
  }

  /** `$13` is always nil: the pattern has three groups. */
  lemma AtuiNil(line: string)
    requires Parse(line).Success?
    ensures Parse(line).value.atui == None
  {
    NoGroup13();
    SearchUntouched(Row, line, Search(Row, line).value, 13);
  }

  /** A non-empty run of word characters. */
  predicate IsWordRun(t: string) {
    |t| >= 1 && forall k :: 0 <= k < |t| ==> IsWordChar(t[k])
  }

  lemma WordRunOf(s: string, c: Captures, g: nat)
    requires Within(c, |s|, |s|) && g in c && c[g].0 <= c[g].1 <= |s|
    requires AllIn(Word, s, c[g].0, c[g].1) && Admits(Plus, c[g].1 - c[g].0)
    ensures IsWordRun(Field(s, c, g))
  {
    FieldOf(Word, Plus, s, c, g);
  }

  const Tail2: Pattern := [Lit(','), Rep(AnyButNewline, Plus), Lit(','), Open(3), Rep(Word, Plus), Close(3),
    Rep(LineBreak, LazyStar), End]

  lemma RowParts()
    ensures Row == [Start] + Cap(1, Word, Plus) + ([Lit(',')] + Cap(2, Word, Plus) + Tail2)
    ensures Row == [Start] + Cap(1, Word, Plus) + [Lit(',')] + Cap(2, Word, Plus) + Tail2
    ensures Open(1) !in [Lit(',')] + Cap(2, Word, Plus) + Tail2 && Close(1) !in [Lit(',')] + Cap(2, Word, Plus) + Tail2
    ensures Open(2) !in Tail2 && Close(2) !in Tail2
  {
  }

  /** The concept and its semantic type are both word runs. */
  lemma ParsedShape(line: string)
    requires Parse(line).Success?
    ensures IsWordRun(Parse(line).value.cui) && IsWordRun(Parse(line).value.tui)
  {
    var c := Search(Row, line).value;
    RowParts();
    CaptureInParts([Start], 1, Word, Plus, [Lit(',')] + Cap(2, Word, Plus) + Tail2, line, c);
    WordRunOf(line, c, 1);
    CaptureInParts([Start] + Cap(1, Word, Plus) + [Lit(',')], 2, Word, Plus, Tail2, line, c);
    WordRunOf(line, c, 2);
  }

  /** Every data line prints its block, in order, unless some line does not parse; then the run raises at the first such line. */
  lemma RdfBlocks(lines: seq<string>)
    ensures (forall k :: 0 <= k < |lines| ==> Matches(Row, lines[k])) ==>
      Rdf(lines).printed == seq(|lines|, k requires 0 <= k < |lines| =>
        var rec := Parse(lines[k]).value; ConstructTurtle(rec.cui, rec.tui, rec.atui))
    ensures Rdf(lines).halt.Some? <==> exists k :: 0 <= k < |lines| && !Matches(Row, lines[k])
    ensures Rdf(lines).halt.Some? ==> Rdf(lines).halt == Some(ParseError)
  {
    if forall k :: 0 <= k < |lines| ==> Matches(Row, lines[k]) {
      RdfPrints(lines);
    }
    RdfHalts(lines);
  }

  /** When every line parses, each prints its block, in order. */
  lemma RdfPrints(lines: seq<string>)
    requires forall k :: 0 <= k < |lines| ==> Matches(Row, lines[k])
    ensures Rdf(lines).printed == seq(|lines|, k requires 0 <= k < |lines| =>
        var rec := Parse(lines[k]).value; ConstructTurtle(rec.cui, rec.tui, rec.atui))
  {
    EachPrintsAll(lines, Step);
  }

  /** The run halts exactly when some line does not parse, and then with the parse error. */
  lemma RdfHalts(lines: seq<string>)
    ensures Rdf(lines).halt.Some? <==> exists k :: 0 <= k < |lines| && !Matches(Row, lines[k])
    ensures Rdf(lines).halt.Some? ==> Rdf(lines).halt == Some(ParseError)
  {
    if Rdf(lines).halt.Some? {
      var k := FirstHalt(lines, Step);
    }
  }
}

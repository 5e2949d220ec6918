/**
  MGREL.csv: one relationship between two concepts per line, eleven
  comma-separated word fields `CUI1,AUI1,STYPE1,REL,CUI2,AUI2,RELA,RUI,SAB,SL,SUPPRESS`.
*/
module MgRel {
  import opened Wrappers
  import opened Regex
  import opened Driver
  import opened Text
  import Sanitize

  datatype Record = Record(
    cui1: string, aui1: string, stype1: string, rel: string, cui2: string, aui2: string,
    rela: string, rui: string, sab: string, sl: string, suppress: string)

  /** The fields of a record in column order. */
  function Columns(rec: Record): (r: seq<string>)
    ensures |r| == 11 && r[0] == rec.cui1 && r[6] == rec.rela && r[8] == rec.sab && r[10] == rec.suppress
  {
    [rec.cui1, rec.aui1, rec.stype1, rec.rel, rec.cui2, rec.aui2, rec.rela, rec.rui, rec.sab, rec.sl, rec.suppress]
  }

  /** How many word characters column `g` (from 1) takes: `*` for RELA, exactly one for SUPPRESS, `+` otherwise. */
  function Quantity(g: nat): Quant {
    if g == 7 then Star else if g == 11 then One else Plus
  }

  /** `(\w+),…,(\w*),…,(\w)`: the columns from `g` on, each a capture group of word characters. */
  function From(g: nat): Pattern
    requires 1 <= g <= 11
    decreases 11 - g
  {
    if g == 11 then Cap(11, Word, One) else Cap(g, Word, Quantity(g)) + [Lit(',')] + From(g + 1)
  }

  const Ending: Pattern := [Rep(LineBreak, LazyStar), End]

  /** `^(\w+),(\w+),(\w+),(\w+),(\w+),(\w+),(\w*),(\w+),(\w+),(\w+),(\w)[\r\n]*?$`. */
  const Row: Pattern := [Start] + From(1) + Ending

  const ParseError := Raise("", "Parse error on MGREL.\n")

  /** `MGREL.parse`: the eleven groups, or a raise when the line does not have that shape. */
  function Parse(line: string): (r: Result<Record, Halt>)
    ensures r.Failure? <==> !Matches(Row, line)
    ensures r.Failure? ==> r.error == ParseError
  {
    SearchIff(Row, line);
    match Search(Row, line)
    case Some(c) => Success(Fields(line, c))
    case None => Failure(ParseError)
  }

  /** The record of groups 1 to 11. */
  function Fields(line: string, c: Captures): (r: Record)
    requires Within(c, |line|, |line|)
    ensures forall k :: 0 <= k < 11 ==> Columns(r)[k] == Field(line, c, k + 1)
  {
    var f := seq(11, k requires 0 <= k < 11 => Field(line, c, k + 1));
    var r := Record(f[0], f[1], f[2], f[3], f[4], f[5], f[6], f[7], f[8], f[9], f[10]);
    assert Columns(r) == f;
    r
  }

  /** The `mo:rela` line, which the block carries only for a non-empty RELA. */
  function RelaLine(rela: string): string {
    "  mo:rela \"" + rela + "\" ;\n"
  }

  predicate IsRelaLine(l: string) {
    |l| >= 11 && l[..11] == "  mo:rela \""
  }

  /** The lines of `MGREL.construct_turtle`: a blank node for the relationship. */
  function TurtleLines(rec: Record): (r: seq<string>)
    ensures |r| == if rec.rela == "" then 10 else 11
    ensures rec.rela != "" ==> r[7] == RelaLine(rec.rela)
    ensures (exists k :: 0 <= k < |r| && IsRelaLine(r[k])) <==> rec.rela != ""
  {
    var h := Head(rec);
    var t := Tail(rec);
    var r := h + (if rec.rela == "" then [] else [RelaLine(rec.rela)]) + t;
    assert IsRelaLine(RelaLine(rec.rela));
    assert forall k :: 0 <= k < |r| && k != 7 ==> r[k] == if k < 7 then h[k] else t[k - |r| + 3];
    r
  }

  /** The seven lines before the optional `mo:rela` line, none of them one. */
  function Head(rec: Record): (r: seq<string>)
    ensures |r| == 7 && r[0] == "[\n" && forall k :: 0 <= k < 7 ==> !IsRelaLine(r[k])
  {
    Unlike("  dct:identifier \"", rec.rui + "\" ;\n");
    Unlike("  mo:cui1 medgen:", rec.cui1 + " ;\n");
    Unlike("  mo:aui1 \"", rec.aui1 + "\" ;\n");
    Unlike("  mo:cui2 medgen:", rec.cui2 + " ;\n");
    Unlike("  mo:aui2 \"", rec.aui2 + "\" ;\n");
    [
      "[\n",
      "  a mo:MGREL ;\n",
      "  dct:identifier \"" + (rec.rui + "\" ;\n"),
      "  mo:cui1 medgen:" + (rec.cui1 + " ;\n"),
      "  mo:aui1 \"" + (rec.aui1 + "\" ;\n"),
      "  mo:cui2 medgen:" + (rec.cui2 + " ;\n"),
      "  mo:aui2 \"" + (rec.aui2 + "\" ;\n")]
  }

  /** The three lines after it, none of them one either. */
  function Tail(rec: Record): (r: seq<string>)
    ensures |r| == 3 && r[2] == "] .\n\n" && forall k :: 0 <= k < 3 ==> !IsRelaLine(r[k])
  {
    Unlike("  dct:source mo:", rec.sab + " ;\n");
    Unlike("  mo:suppress mo:", rec.suppress + "\n");
    [
      "  dct:source mo:" + (rec.sab + " ;\n"),
      "  mo:suppress mo:" + (rec.suppress + "\n"),
      "] .\n\n"]
  }

  /** A line whose sixth character is not the `r` of `mo:rela` is some other line. */
  lemma Unlike(a: string, x: string)
    requires |a| >= 6 && a[5] != 'r'
    ensures !IsRelaLine(a + x)
  {
    if |a + x| >= 11 {
      var l := a + x;
      assert l[..11][5] == a[5];
    }
  }

  /** `MGREL.construct_turtle`. */
  function ConstructTurtle(rec: Record): (r: string)
    ensures "[\n" <= r && Puts(r) == r
  {
    ConcatLast(TurtleLines(rec));
    Concat(TurtleLines(rec))
  }

  /** One data line: the parse error, or a block that already ends with its line feed. */
  function Step(line: string): (r: Result<Option<string>, Halt>)
    ensures r.Failure? <==> Parse(line).Failure?
    ensures r.Success? ==> r.value.Some? && Puts(r.value.value) == r.value.value
  {
    match Parse(line)
    case Failure(h) => Failure(h)
    case Success(rec) => Success(Some(ConstructTurtle(rec)))
  }

  /** `MGREL.rdf` over the data lines: at most one block per line, and a halt exactly when some line does not parse. */
  function Rdf(lines: seq<string>): (r: Run)
    ensures |r.printed| <= |lines|
    ensures r.halt.None? <==> forall k :: 0 <= k < |lines| ==> Parse(lines[k]).Success?
  {
    Each(lines, Step)
  }

  // ---------------------------------------------------------------------

  /** The columns before column `g`. */
  function Before(g: nat): Pattern
    requires 1 <= g <= 11
  {
    if g == 1 then [Start] else Before(g - 1) + Cap(g - 1, Word, Quantity(g - 1)) + [Lit(',')]
  }

  /** What follows column `g`. */
  function After(g: nat): Pattern
    requires 1 <= g <= 11
  {
    (if g == 11 then [] else [Lit(',')] + From(g + 1)) + Ending
  }

  lemma {:induction false} Prefixes(g: nat)
    requires 1 <= g <= 11
    ensures Before(g) + From(g) == [Start] + From(1)
  {
    if g > 1 {
      Prefixes(g - 1);
      var c := Cap(g - 1, Word, Quantity(g - 1));
      assert From(g - 1) == c + [Lit(',')] + From(g);
      assert Before(g) + From(g) == Before(g - 1) + (c + [Lit(',')] + From(g));
    }
  }

  lemma Regroup(b: Pattern, c: Pattern, l: Pattern, f: Pattern, e: Pattern)
    ensures (b + (c + l + f)) + e == b + c + ((l + f) + e)
  {
  }

  /** Row is column `g` with what comes before and after it. */
  lemma Around(g: nat)
    requires 1 <= g <= 11
    ensures Row == Before(g) + Cap(g, Word, Quantity(g)) + After(g)
  {
    Prefixes(g);
    assert Row == (Before(g) + From(g)) + Ending;
    var c := Cap(g, Word, Quantity(g));
    if g == 11 {
      assert From(11) == c;
      assert After(11) == Ending;
    } else {
      assert From(g) == c + [Lit(',')] + From(g + 1);
      Regroup(Before(g), c, [Lit(',')], From(g + 1), Ending);
    }
  }

  /** Columns after `g` do not mention group `h < g`. */
  lemma {:induction false} Later(g: nat, h: nat)
    requires 1 <= g <= 11 && h < g
    ensures Open(h) !in From(g) && Close(h) !in From(g)
    decreases 11 - g
  {
    if g < 11 {
      Later(g + 1, h);
    }
  }

  lemma AfterLacks(g: nat)
    requires 1 <= g <= 11
    ensures Open(g) !in After(g) && Close(g) !in After(g)
  {
    if g < 11 {
      Later(g + 1, g);
    }
  }

  /** A run of word characters that column `g`'s quantifier admits. */
  predicate IsColumn(g: nat, t: string) {
    Admits(Quantity(g), |t|) && forall k :: 0 <= k < |t| ==> IsWordChar(t[k])
  }

  /** Each captured column is a run of word characters that its quantifier admits. */
  lemma ColumnShape(line: string, c: Captures, g: nat)
    requires Search(Row, line) == Some(c) && 1 <= g <= 11
    ensures IsColumn(g, Field(line, c, g))
  {
    Around(g);
    AfterLacks(g);
    CaptureInParts(Before(g), g, Word, Quantity(g), After(g), line, c);
    FieldOf(Word, Quantity(g), line, c, g);
  }

  /**
    A parsed record's fields are word runs: RELA possibly empty, SUPPRESS a
    single character, every other field non-empty.
  */
  lemma ParsedShape(line: string)
    requires Parse(line).Success?
    ensures var cols := Columns(Parse(line).value); forall k :: 0 <= k < 11 ==> IsColumn(k + 1, cols[k])
  {
    var c := Search(Row, line).value;
    var cols := Columns(Parse(line).value);
    forall k | 0 <= k < 11
      ensures IsColumn(k + 1, cols[k])
    {
      ColumnShape(line, c, k + 1);
    }
  }

  /** The source is printed as it stands; since it is a word run, `remove_space` would not change it either. */
  lemma SourceVerbatim(line: string)
    requires Parse(line).Success?
    ensures Sanitize.RemoveSpace(Parse(line).value.sab) == Parse(line).value.sab
  {
    ParsedShape(line);
    var sab := Parse(line).value.sab;
    assert IsColumn(9, Columns(Parse(line).value)[8]);
    assert forall k :: 0 <= k < |sab| ==> IsWordChar(sab[k]);
    Sanitize.RemoveSpaceNoSpace(sab);
  }

  /** Every data line prints its block, in order, unless some line does not parse; then the run raises at the first such line. */
  lemma RdfBlocks(lines: seq<string>)
    ensures (forall k :: 0 <= k < |lines| ==> Matches(Row, lines[k])) ==>
      Rdf(lines).printed == seq(|lines|, k requires 0 <= k < |lines| => ConstructTurtle(Parse(lines[k]).value))
    ensures Rdf(lines).halt.Some? <==> exists k :: 0 <= k < |lines| && !Matches(Row, lines[k])
    ensures Rdf(lines).halt.Some? ==> Rdf(lines).halt == Some(ParseError)
  {
    if forall k :: 0 <= k < |lines| ==> Matches(Row, lines[k]) {
      RdfPrints(lines);
    }
    RdfHalts(lines);
  }

  /** When every line parses, each prints its block, in order. */
  lemma RdfPrints(lines: seq<string>)
    requires forall k :: 0 <= k < |lines| ==> Matches(Row, lines[k])
    ensures Rdf(lines).printed == seq(|lines|, k requires 0 <= k < |lines| => ConstructTurtle(Parse(lines[k]).value))
  {
    EachPrintsAll(lines, Step);
  }

  /** The run halts exactly when some line does not parse, and then with the parse error. */
  lemma RdfHalts(lines: seq<string>)
    ensures Rdf(lines).halt.Some? <==> exists k :: 0 <= k < |lines| && !Matches(Row, lines[k])
    ensures Rdf(lines).halt.Some? ==> Rdf(lines).halt == Some(ParseError)
  {
    if Rdf(lines).halt.Some? {
      var k := FirstHalt(lines, Step);
    }
  }
}

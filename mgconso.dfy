/**
  MGCONSO.csv: one source term per line, thirteen comma-separated fields
  `CUI,TS,STT,ISPREF,AUI,SAUI,SCUI,SDUI,SAB,TTY,CODE,STR,SUPPRESS`.  Only the
  terms of eight sources are converted, each with a link back to its source.
*/
module MgConso {
  import opened Wrappers
  import opened Regex
  import opened Driver
  import opened Text
  import opened SeeAlso
  import Sanitize

  datatype Record = Record(
    cui: string, ts: string, stt: string, ispref: string, aui: string,
    saui: string, scui: string, sdui: string, sab: string, tty: string,
    code: string, str: string, suppress: string)

  /** `^(\w+),(\w+),(\w+),(\w+),(\w+),(\S*),(\S*),`: everything before the SDUI group. */
  const Head: Pattern := [
    Start, Open(1), Rep(Word, Plus), Close(1), Lit(','), Open(2), Rep(Word, Plus), Close(2), Lit(','),
    Open(3), Rep(Word, Plus), Close(3), Lit(','), Open(4), Rep(Word, Plus), Close(4), Lit(','),
    Open(5), Rep(Word, Plus), Close(5), Lit(','),
    Open(6), Rep(NonSpace, Star), Close(6), Lit(','), Open(7), Rep(NonSpace, Star), Close(7), Lit(',')]

  /** `,(\w+),(\w+),`: from the end of the SDUI group to the CODE group. */
  const Mid: Pattern := [
    Lit(','), Open(9), Rep(Word, Plus), Close(9), Lit(','), Open(10), Rep(Word, Plus), Close(10), Lit(',')]

  /** `(.+?),\"(.+)\",(\w)[\r\n]*?$`: a quoted name and a suppress flag. */
  const FullTail: Pattern := FullName + Cap(13, Word, One) + FullEnd

  const FullName: Pattern := [
    Open(11), Rep(AnyButNewline, LazyPlus), Close(11), Lit(','),
    Lit('"'), Open(12), Rep(AnyButNewline, Plus), Close(12), Lit('"'), Lit(',')]

  const FullEnd: Pattern := [Rep(LineBreak, LazyStar), End]

  /** `(.+?),\"(.+\",[\w\s]+?)[\r\n]+$`: the name group runs on to the flag. */
  const OpenTail: Pattern := [
    Open(11), Rep(AnyButNewline, LazyPlus), Close(11), Lit(','),
    Lit('"'), Open(12), Rep(AnyButNewline, Plus), Lit('"'), Lit(','), Rep(WordOrSpace, LazyPlus), Close(12),
    Rep(LineBreak, Plus), End]

  /** `(.+),\"(.?)\",\w[\r\n]+$`: a name of at most one character. */
  const ShortTail: Pattern := [
    Open(11), Rep(AnyButNewline, Plus), Close(11), Lit(','),
    Lit('"'), Open(12), Rep(AnyButNewline, Opt), Close(12), Lit('"'), Lit(','),
    Rep(Word, One), Rep(LineBreak, Plus), End]

  /** `(.?),\"\",\w[\r\n]+$`: an empty quoted name. */
  const EmptyTail: Pattern := [
    Open(11), Rep(AnyButNewline, Opt), Close(11), Lit(','),
    Lit('"'), Lit('"'), Lit(','), Rep(Word, One), Rep(LineBreak, Plus), End]

  /** `(.+?),(.+),\w[\r\n]+$`: an unquoted name. */
  const BareTail: Pattern := [
    Open(11), Rep(AnyButNewline, LazyPlus), Close(11), Lit(','),
    Open(12), Rep(AnyButNewline, Plus), Close(12), Lit(','), Rep(Word, One), Rep(LineBreak, Plus), End]

  /** The SDUI group `(\S*)`, field 8. */
  const Sdui: Pattern := Cap(8, NonSpace, Star)

  /** The five patterns of `MGCONSO.parse`, in the order it tries them. */
  const Full: Pattern := Head + Sdui + (Mid + FullTail)
  const OpenName: Pattern := Head + Sdui + (Mid + OpenTail)
  const ShortName: Pattern := Head + Sdui + (Mid + ShortTail)
  const EmptyName: Pattern := Head + Sdui + (Mid + EmptyTail)
  const BareName: Pattern := Head + Sdui + (Mid + BareTail)

  const ParseError := Raise("", "Parse error on MGCONSO.\n")

  /** The first twelve fields of a match, with the quoted name given by `str`, and a suppress flag. */
  function Fields(line: string, c: Captures, str: string, suppress: string): Record
    requires Within(c, |line|, |line|)
  {
    Record(Field(line, c, 1), Field(line, c, 2), Field(line, c, 3), Field(line, c, 4), Field(line, c, 5),
      Field(line, c, 6), Field(line, c, 7), Field(line, c, 8), Field(line, c, 9), Field(line, c, 10),
      Field(line, c, 11), str, suppress)
  }

  /**
    `MGCONSO.parse`: the first of the five patterns that matches gives the
    fields.  Only the first captures a suppress flag; the others set it to "N",
    and the fourth sets the name to "".  No match raises.
  */
  function Parse(line: string): (r: Result<Record, Halt>)
    ensures r.Failure? ==> r.error == ParseError
    ensures r.Success? && Search(Full, line).None? ==> r.value.suppress == "N"
  {
    match Search(Full, line)
    case Some(c) => Success(Fields(line, c, Field(line, c, 12), Field(line, c, 13)))
    case None =>
      match Search(OpenName, line)
      case Some(c) => Success(Fields(line, c, Field(line, c, 12), "N"))
      case None =>
        match Search(ShortName, line)
        case Some(c) => Success(Fields(line, c, Field(line, c, 12), "N"))
        case None =>
          match Search(EmptyName, line)
          case Some(c) => Success(Fields(line, c, "", "N"))
          case None =>
            match Search(BareName, line)
            case Some(c) => Success(Fields(line, c, Field(line, c, 12), "N"))
            case None => Failure(ParseError)
  }

  /** The lines of the block before the cross-reference. */
  function HeadLines(rec: Record): (r: seq<string>)
    ensures |r| == 8 && r[0] == "medgen:" + rec.cui + "\n"
  {
    [ "medgen:" + rec.cui + "\n",
      "  mo:mgconso [\n",
      "    rdfs:label \"" + Sanitize.ConsoLiteral(rec.str) + "\" ;\n",
      "    mo:ts mo:" + rec.ts + " ;\n",
      "    mo:stt mo:" + rec.stt + " ;\n",
      "    mo:ispref ispref:" + rec.ispref + " ;\n",
      "    mo:aui \"" + rec.aui + "\" ;\n",
      "    dct:source mo:" + Sanitize.RemoveSpace(rec.sab) + " ;\n" ]
  }

  /** The lines of the block after the cross-reference. */
  function TailLines(rec: Record): (r: seq<string>)
    ensures |r| == 3 && r[2] == "\n"
  {
    [ "    mo:suppress mo:" + rec.suppress + "\n",
      "  ] .\n",
      "\n" ]
  }

  /** The lines `construct_turtle` collects, with the cross-reference line `link` when there is one. */
  function BlockLines(rec: Record, link: Option<string>): (r: seq<string>)
    ensures |r| == if link.Some? then 12 else 11
    ensures r[0] == "medgen:" + rec.cui + "\n" && r[|r| - 1] == "\n"
    ensures link.Some? ==> r[8] == link.value
  {
    HeadLines(rec) + (if link.Some? then [link.value] else []) + TailLines(rec)
  }

  /** The block of `MGCONSO.construct_turtle`, or the `exit` of its OMIM branch. */
  function Block(rec: Record, flag: Flag): (r: Result<string, Halt>)
    ensures r.Failure? <==> Link(flag, rec.sdui, rec.scui).Failure?
    ensures r.Success? ==> "medgen:" + rec.cui + "\n" <= r.value
  {
    match Link(flag, rec.sdui, rec.scui)
    case Failure(h) => Failure(h)
    case Success(link) => Success(Concat(BlockLines(rec, link)))
  }

  /** `MGCONSO.construct_turtle`: collect the lines in an array, then join them. */
  method ConstructTurtle(rec: Record, flag: Flag) returns (r: Result<string, Halt>)
    ensures r == Block(rec, flag)
  {
    var lines := ["medgen:" + rec.cui + "\n"];
    lines := lines + [
      "  mo:mgconso [\n",
      "    rdfs:label \"" + Sanitize.ConsoLiteral(rec.str) + "\" ;\n",
      "    mo:ts mo:" + rec.ts + " ;\n",
      "    mo:stt mo:" + rec.stt + " ;\n",
      "    mo:ispref ispref:" + rec.ispref + " ;\n",
      "    mo:aui \"" + rec.aui + "\" ;\n",
      "    dct:source mo:" + Sanitize.RemoveSpace(rec.sab) + " ;\n"];
    assert lines == HeadLines(rec);
    var link := Link(flag, rec.sdui, rec.scui);
    if link.Failure? {
      return Failure(link.error);
    }
    if link.value.Some? {
      lines := lines + [link.value.value];
    }
    lines := lines + ["    mo:suppress mo:" + rec.suppress + "\n"] + ["  ] .\n"] + ["\n"];
    assert lines == BlockLines(rec, link.value);
    r := Success(Concat(lines));
  }

  /** One data line: a parse error halts; a converted source prints its block or exits; any other prints nothing. */
  function Step(line: string): (r: Result<Option<string>, Halt>)
    ensures r.Success? && r.value.Some? <==>
      Parse(line).Success? && FlagOf(Parse(line).value.sab).Some? &&
      Block(Parse(line).value, FlagOf(Parse(line).value.sab).value).Success?
    ensures r.Failure? <==>
      Parse(line).Failure? ||
      (FlagOf(Parse(line).value.sab).Some? && Block(Parse(line).value, FlagOf(Parse(line).value.sab).value).Failure?)
    ensures Parse(line).Failure? ==> r == Failure(ParseError)
    ensures Parse(line).Success? && r.Failure? ==> r.error == Exit(Parse(line).value.sdui + UnknownOmim)
  {
    match Parse(line)
    case Failure(h) => Failure(h)
    case Success(rec) =>
      match FlagOf(rec.sab)
      case None => Success(None)
      case Some(flag) =>
        match Block(rec, flag)
        case Failure(h) => Failure(h)
        case Success(b) => Success(Some(b))
  }

  /** `MGCONSO.rdf`: the lines in turn, until a parse error or an `exit`. */
  method Rdf(lines: seq<string>) returns (run: Run)
    ensures run == Each(lines, Step)
  {
    var printed := [];
    var i := 0;
    while i < |lines|
      invariant 0 <= i <= |lines|
      invariant Each(lines, Step) == Then(printed, Each(lines[i..], Step))
    {
      EachAt(lines, i, Step);
      var ary := Parse(lines[i]);
      if ary.Failure? {
        return Run(printed, Some(ary.error));
      }
      var flag := FlagOf(ary.value.sab);
      if flag.Some? {
        var block := ConstructTurtle(ary.value, flag.value);
        if block.Failure? {
          return Run(printed, Some(block.error));
        }
        ThenThen(printed, [Puts(block.value)], Each(lines[i + 1..], Step));
        printed := printed + [Puts(block.value)];
      }
      i := i + 1;
    }
    assert lines[i..] == [];
    return Run(printed, None);
  }

  // ---------------------------------------------------------------------

  /** `MGCONSO.parse` raises exactly when none of its five patterns fits. */
  lemma ParseFails(line: string)
    ensures Parse(line).Failure? <==>
      !Matches(Full, line) && !Matches(OpenName, line) && !Matches(ShortName, line) &&
      !Matches(EmptyName, line) && !Matches(BareName, line)
  {
    SearchIff(Full, line);
    SearchIff(OpenName, line);
    SearchIff(ShortName, line);
    SearchIff(EmptyName, line);
    SearchIff(BareName, line);
  }

  lemma SduiOnce(tail: Pattern)
    requires Open(8) !in tail && Close(8) !in tail
    ensures Open(8) !in Mid + tail && Close(8) !in Mid + tail
  {
  }

  /** In any of the five patterns the SDUI group captures a run without whitespace. */
  lemma SduiOf(tail: Pattern, line: string, r: Captures)
    requires Open(8) !in tail && Close(8) !in tail
    requires Search(Head + Sdui + (Mid + tail), line) == Some(r)
    ensures '\n' !in Field(line, r, 8)
  {
    SduiOnce(tail);
    CaptureInParts(Head, 8, NonSpace, Star, Mid + tail, line, r);
    NoLineFeed(line, r);
  }

  lemma NoLineFeed(s: string, c: Captures)
    requires Within(c, |s|, |s|) && 8 in c && c[8].0 <= c[8].1 <= |s|
    requires AllIn(NonSpace, s, c[8].0, c[8].1)
    ensures '\n' !in Field(s, c, 8)
  {
    FieldOf(NonSpace, Star, s, c, 8);
  }

  /** Only the shared prefix and the SDUI group open or close group 8. */
  lemma TailsLackSdui()
    ensures Open(8) !in FullTail && Close(8) !in FullTail
    ensures Open(8) !in OpenTail && Close(8) !in OpenTail
    ensures Open(8) !in ShortTail && Close(8) !in ShortTail
    ensures Open(8) !in EmptyTail && Close(8) !in EmptyTail
    ensures Open(8) !in BareTail && Close(8) !in BareTail
  {
    assert Open(8) !in FullName && Close(8) !in FullName;
    assert Open(8) !in Cap(13, Word, One) && Close(8) !in Cap(13, Word, One);
  }

  /** The SDUI of a parsed line is a run without whitespace, so it holds no line feed. */
  lemma SduiOneLine(line: string)
    requires Parse(line).Success?
    ensures '\n' !in Parse(line).value.sdui
  {
    TailsLackSdui();
    if Search(Full, line).Some? {
      SduiOf(FullTail, line, Search(Full, line).value);
    } else if Search(OpenName, line).Some? {
      SduiOf(OpenTail, line, Search(OpenName, line).value);
    } else if Search(ShortName, line).Some? {
      SduiOf(ShortTail, line, Search(ShortName, line).value);
    } else if Search(EmptyName, line).Some? {
      SduiOf(EmptyTail, line, Search(EmptyName, line).value);
    } else {
      SduiOf(BareTail, line, Search(BareName, line).value);
    }
  }

  lemma Regroup(a: Pattern, b: Pattern, m: Pattern, x: Pattern, y: Pattern, z: Pattern)
    ensures a + b + (m + (x + y + z)) == (a + b + (m + x)) + y + z
  {
  }

  /** With the first pattern the suppress flag is the one word character it captured. */
  lemma FullSuppress(line: string)
    requires Search(Full, line).Some?
    ensures Parse(line).Success?
    ensures |Parse(line).value.suppress| == 1 && IsWordChar(Parse(line).value.suppress[0])
  {
    var c := Search(Full, line).value;
    var pre := Head + Sdui + (Mid + FullName);
    Regroup(Head, Sdui, Mid, FullName, Cap(13, Word, One), FullEnd);
    CaptureInParts(pre, 13, Word, One, FullEnd, line, c);
    FieldOf(Word, One, line, c, 13);
  }

  /** The suppress flag is "N" exactly for lines the first pattern does not fit, or that carry `N` themselves. */
  lemma SuppressN(line: string)
    requires Parse(line).Success?
    ensures !Matches(Full, line) ==> Parse(line).value.suppress == "N"
    ensures Matches(Full, line) ==> |Parse(line).value.suppress| == 1 && IsWordChar(Parse(line).value.suppress[0])
  {
    SearchIff(Full, line);
    if Matches(Full, line) {
      FullSuppress(line);
    }
  }

  /** No abbreviation of a converted source holds whitespace, so its `dct:source` term is the SAB itself. */
  lemma SourceTerm(f: Flag)
    ensures Sanitize.RemoveSpace(Abbreviation(f)) == Abbreviation(f)
  {
    var a := Abbreviation(f);
    assert forall k :: 0 <= k < |a| ==> !IsSpaceChar(a[k]);
    Sanitize.RemoveSpaceNoSpace(a);
  }

  /**
    A converted line's block names the concept, its source as `mo:SAB`, and a
    cross-reference line exactly when the source is not GTR.
  */
  lemma BlockShape(rec: Record, flag: Flag)
    requires rec.sab == Abbreviation(flag) && Block(rec, flag).Success?
    ensures var link := Link(flag, rec.sdui, rec.scui).value;
      Block(rec, flag).value == Concat(BlockLines(rec, link)) &&
      BlockLines(rec, link)[7] == "    dct:source mo:" + rec.sab + " ;\n" &&
      (link.None? <==> flag == Gtr)
  {
    SourceTerm(flag);
  }

  /** Lines of any source but the eight print nothing and do not stop the conversion. */
  lemma OtherSourceSilent(line: string)
    requires Parse(line).Success? && FlagOf(Parse(line).value.sab).None?
    ensures Step(line) == Success(None)
  {
  }

  /**
    A line stops the conversion when it does not parse, or when it is an OMIM
    row whose SDUI is neither digits, nor digits, a dot and digits, nor
    contains `MTHU`.
  */
  predicate Stops(line: string) {
    Parse(line).Failure? ||
    (FlagOf(Parse(line).value.sab) == Some(Omim) && OmimObject(Parse(line).value.sdui).None?)
  }

  /** The halt of a line that stops the conversion: the parse error, or the OMIM diagnostic and `exit`. */
  function HaltOf(line: string): Halt {
    if Parse(line).Failure? then ParseError else Exit(Parse(line).value.sdui + UnknownOmim)
  }

  /** Line `k` is the first that stops the conversion. */
  predicate FirstStop(lines: seq<string>, k: int) {
    0 <= k < |lines| && Stops(lines[k]) && forall j :: 0 <= j < k ==> !Stops(lines[j])
  }

  /** A line halts exactly when it stops the conversion, and then with its halt. */
  lemma StepHalts(line: string)
    ensures Step(line).Failure? <==> Stops(line)
    ensures Step(line).Failure? ==> Step(line).error == HaltOf(line)
  {
    if Parse(line).Success? {
      var rec := Parse(line).value;
      SduiOneLine(line);
      OmimLink(rec.sdui, rec.scui);
    }
  }

  /**
    `MGCONSO.rdf` halts exactly when some line stops it, and then with the
    halt of the first such line: the parse error or the OMIM `exit`.
  */
  lemma RdfHalts(lines: seq<string>)
    ensures Each(lines, Step).halt.Some? <==> exists k :: 0 <= k < |lines| && Stops(lines[k])
    ensures Each(lines, Step).halt.Some? ==> exists k :: FirstStop(lines, k) && Each(lines, Step).halt.value == HaltOf(lines[k])
  {
    forall k | 0 <= k < |lines| ensures Step(lines[k]).Failure? <==> Stops(lines[k]) {
      StepHalts(lines[k]);
    }
    if Each(lines, Step).halt.Some? {
      var k := FirstHalt(lines, Step);
      StepHalts(lines[k]);
      assert FirstStop(lines, k);
    }
  }
}

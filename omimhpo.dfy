/**
  MedGen_HPO_OMIM_Mapping.txt: one OMIM disease / HPO phenotype relation per
  line, ten or more `|`-separated fields, rendered as a statement and its
  reification.  The semantic type's name is mapped to its id through the
  table `parse_umls_semantictype` reads from the UMLS semantic-type ontology.
*/
module OmimHpo {
  import opened Wrappers
  import opened Regex
  import opened Driver
  import opened Text

  // ---------------------------------------------------------------------
  // `parse_umls_semantictype`

  /** `\/(\w+)\> a owl\:Class`: a class declaration; group 1 is the semantic type's id. */
  const ClassDecl: Pattern := [Lit('/')] + Cap(1, Word, Plus) + Lits("> a owl:Class")

  /** `skos\:prefLabel\s+\"(.+)\"\@en`: an English preferred label; group 1 is the label. */
  const PrefLabel: Pattern :=
    Lits("skos:prefLabel") + [Rep(Space, Plus), Lit('"')] + Cap(1, AnyButNewline, Plus) + Lits("\"@en")

  /** What one line of the ontology contributes. */
  datatype LineKind = ClassLine(id: string) | LabelLine(name: string) | Other

  /**
    The `if`/`elsif` of the scanning loop: a class declaration wins over a label
    on the same line.  The id is a run of word characters, and a label is a
    non-empty text within the line.
  */
  function Kind(line: string): (r: LineKind)
    ensures r.ClassLine? ==> |r.id| >= 1 && forall k :: 0 <= k < |r.id| ==> IsWordChar(r.id[k])
    ensures r.LabelLine? ==> |r.name| >= 1 && '\n' !in r.name
  {
    match Search(ClassDecl, line)
    case Some(c) => ClassIdOf(line, c); ClassLine(Field(line, c, 1))
    case None =>
      match Search(PrefLabel, line)
      case Some(c) => LabelOf(line, c); LabelLine(Field(line, c, 1))
      case None => Other
  }

  /** A literal text mentions no group. */
  lemma LitsNoGroup(t: string, g: nat)
    ensures Open(g) !in Lits(t) && Close(g) !in Lits(t)
  {
  }

  /** `$1` of a class declaration is the `\w+` run after the slash. */
  lemma ClassIdOf(line: string, c: Captures)
    requires Search(ClassDecl, line) == Some(c)
    ensures Within(c, |line|, |line|)
    ensures var id := Field(line, c, 1); |id| >= 1 && forall k :: 0 <= k < |id| ==> IsWordChar(id[k])
  {
    LitsNoGroup("> a owl:Class", 1);
    CaptureInParts([Lit('/')], 1, Word, Plus, Lits("> a owl:Class"), line, c);
    FieldOf(Word, Plus, line, c, 1);
  }

  /** `$1` of a preferred label is the `.+` run between the quotes. */
  lemma LabelOf(line: string, c: Captures)
    requires Search(PrefLabel, line) == Some(c)
    ensures Within(c, |line|, |line|)
    ensures var name := Field(line, c, 1); |name| >= 1 && '\n' !in name
  {
    LitsNoGroup("\"@en", 1);
    var pre := Lits("skos:prefLabel") + [Rep(Space, Plus), Lit('"')];
    assert PrefLabel == pre + Cap(1, AnyButNewline, Plus) + Lits("\"@en");
    CaptureInParts(pre, 1, AnyButNewline, Plus, Lits("\"@en"), line, c);
    FieldOf(AnyButNewline, Plus, line, c, 1);
  }

  /** Which lines are class declarations and which are labels, by the two patterns. */
  lemma KindMatches(line: string)
    ensures Kind(line).ClassLine? <==> Matches(ClassDecl, line)
    ensures Kind(line).LabelLine? <==> !Matches(ClassDecl, line) && Matches(PrefLabel, line)
  {
    SearchIff(ClassDecl, line);
    SearchIff(PrefLabel, line);
  }

  /** The kind of every line, in order. */
  function Kinds(lines: seq<string>): (r: seq<LineKind>)
    ensures |r| == |lines|
  {
    if lines == [] then [] else Kinds(lines[..|lines| - 1]) + [Kind(lines[|lines| - 1])]
  }

  lemma {:induction false} KindsAt(lines: seq<string>, i: nat)
    requires i < |lines|
    ensures Kinds(lines)[i] == Kind(lines[i])
    decreases |lines|
  {
    if i < |lines| - 1 {
      var init := lines[..|lines| - 1];
      KindsAt(init, i);
      assert init[i] == lines[i];
    }
  }

  /** The loop's state after a prefix of the lines: the last id seen and the label table so far. */
  datatype Scan = Scan(id: string, labels: map<string, string>)

  function Scanned(ks: seq<LineKind>, n: nat): Scan
    requires n <= |ks|
  {
    if n == 0 then Scan("", map[]) else Next(Scanned(ks, n - 1), ks[n - 1])
  }

  /** One line through the loop: a class sets the id in force, a label maps to it, and nothing else changes. */
  function Next(s: Scan, kind: LineKind): (r: Scan)
    ensures r.id == if kind.ClassLine? then kind.id else s.id
    ensures r.labels.Keys == s.labels.Keys + (if kind.LabelLine? then {kind.name} else {})
    ensures kind.LabelLine? ==> r.labels[kind.name] == s.id
    ensures forall n :: n in s.labels && !(kind.LabelLine? && kind.name == n) ==> r.labels[n] == s.labels[n]
  {
    match kind
    case ClassLine(id) => s.(id := id)
    case LabelLine(name) => s.(labels := s.labels[name := s.id])
    case Other => s
  }

  /** The table `parse_umls_semantictype` returns for the lines of the ontology: a key for each label some line declares. */
  function Labels(lines: seq<string>): (r: map<string, string>)
    ensures forall name :: name in r <==> exists j :: 0 <= j < |lines| && Kind(lines[j]) == LabelLine(name)
  {
    LabelsDeclared(Kinds(lines), |lines|);
    KindsAll(lines);
    Scanned(Kinds(lines), |lines|).labels
  }

  lemma KindsAll(lines: seq<string>)
    ensures forall j :: 0 <= j < |lines| ==> Kinds(lines)[j] == Kind(lines[j])
  {
    forall j | 0 <= j < |lines| ensures Kinds(lines)[j] == Kind(lines[j]) {
      KindsAt(lines, j);
    }
  }

  /** `parse_umls_semantictype`: scan the ontology line by line, mapping each label to the id declared last before it. */
  method ParseSemanticTypes(lines: seq<string>) returns (labels: map<string, string>)
    ensures labels == Labels(lines)
  {
    ghost var ks := Kinds(lines);
    var id := "";
    labels := map[];
    var i := 0;
    while i < |lines|
      invariant 0 <= i <= |lines|
      invariant Scan(id, labels) == Scanned(ks, i)
    {
      var kind := KindOf(lines, i);
      ghost var before := Scan(id, labels);
      if kind.ClassLine? {
        id := kind.id;
      } else if kind.LabelLine? {
        labels := labels[kind.name := id];
      }
      assert Scan(id, labels) == Next(before, kind);
      i := i + 1;
    }
  }

  /** The kind of line `i`, as the fold sees it. */
  function KindOf(lines: seq<string>, i: nat): (r: LineKind)
    requires i < |lines|
    ensures r == Kinds(lines)[i]
  {
    KindsAt(lines, i);
    Kind(lines[i])
  }

  /** A label is in the table exactly when some line declares it. */
  lemma {:induction false} LabelsDeclared(ks: seq<LineKind>, n: nat)
    requires n <= |ks|
    ensures forall name :: name in Scanned(ks, n).labels <==> exists j :: 0 <= j < n && ks[j] == LabelLine(name)
    decreases n
  {
    if n > 0 {
      LabelsDeclared(ks, n - 1);
    }
  }

  /** The id in force at line `n` is the one of the last class declared before it, or `""` when none was. */
  lemma {:induction false} IdInForce(ks: seq<LineKind>, i: nat, n: nat)
    requires i < n <= |ks| && ks[i].ClassLine?
    requires forall j :: i < j < n ==> !ks[j].ClassLine?
    ensures Scanned(ks, n).id == ks[i].id
    decreases n
  {
    if n - 1 > i {
      IdInForce(ks, i, n - 1);
    }
  }

  lemma {:induction false} NoIdYet(ks: seq<LineKind>, n: nat)
    requires n <= |ks|
    requires forall j :: 0 <= j < n ==> !ks[j].ClassLine?
    ensures Scanned(ks, n).id == ""
    decreases n
  {
    if n > 0 {
      NoIdYet(ks, n - 1);
    }
  }

  /** A label declared more than once keeps the id in force at its last declaration. */
  lemma {:induction false} LastLabelWins(ks: seq<LineKind>, j: nat, n: nat, name: string)
    requires j < n <= |ks| && ks[j] == LabelLine(name)
    requires forall m :: j < m < n ==> ks[m] != LabelLine(name)
    ensures name in Scanned(ks, n).labels && Scanned(ks, n).labels[name] == Scanned(ks, j).id
    decreases n
  {
    if n - 1 > j {
      LastLabelWins(ks, j, n - 1, name);
    }
  }

  // ---------------------------------------------------------------------
  // `MedGenOMIMHPOMapping.parse` and `construct_turtle`

  const ParseMessage := "Parse error on MedGen_HPO_OMIM_Mapping.txt .\n"

  /** `MedGenOMIMHPOMapping.parse`: the `|`-separated fields, empty ones kept; fewer than ten print the line and raise. */
  function Parse(line: string): (r: Result<seq<string>, Halt>)
    ensures r.Failure? ==> r.error == Raise(line, ParseMessage)
    ensures r.Success? ==> |r.value| >= 10 && Join(r.value, "|") == line
  {
    var ary := SplitKeep(line, "|");
    if |ary| < 10 then Failure(Raise(line, ParseMessage))
    else
      JoinSplitAll(line, "|");
      Success(ary)
  }

  /** A line parses exactly when it holds at least nine `|`, and the fields then hold none. */
  lemma ParseCounts(line: string)
    ensures Parse(line).Success? <==> Count('|', line) >= 9
    ensures Parse(line).Success? ==> forall f :: f in Parse(line).value ==> '|' !in f
  {
    SplitAllCount(line, '|');
    SplitAllFields(line, '|');
    if line == "" {
      assert Count('|', line) == 0;
    }
  }

  /** The ten fields `ary[0..9]` hands to `construct_turtle`. */
  datatype Record = Record(
    omimCui: string, mimNumber: string, omimName: string, relationship: string,
    hpoCui: string, hpoId: string, hpoName: string, medgenName: string,
    medgenSource: string, sty: string)

  function Fields(ary: seq<string>): (rec: Record)
    requires |ary| >= 10
  {
    Record(ary[0], ary[1], ary[2], ary[3], ary[4], ary[5], ary[6], ary[7], ary[8], ary[9])
  }

  /** The predicate of the relation: an empty relationship is rendered as `undefined_relationship`. */
  function Predicate(relationship: string): (r: string)
    ensures r != ""
    ensures relationship != "" ==> r == relationship
  {
    if relationship == "" then "undefined_relationship" else relationship
  }

  /** `sty_label2id[sty]`: a label missing from the table reads as `nil`, which interpolates as `""`. */
  function StyId(labels: map<string, string>, sty: string): (r: string)
    ensures sty in labels ==> r == labels[sty]
  {
    if sty in labels then labels[sty] else ""
  }

  /** The lines of `MedGenOMIMHPOMapping.construct_turtle`: the relation, then its reification. */
  function TurtleLines(rec: Record, labels: map<string, string>): (r: seq<string>)
    ensures |r| == 10 && r[9] == "\n"
  {
    var p := Predicate(rec.relationship);
    [ "medgen:" + rec.hpoCui + " mo:" + p + " medgen:" + rec.omimCui + " .\n",
      "[\n",
      "  a rdf:Statement ;\n",
      "  rdf:subject medgen:" + rec.hpoCui + " ;\n",
      "  rdf:predicate mo:" + p + " ;\n",
      "  rdf:object medgen:" + rec.omimCui + " ;\n",
      "  dct:source mo:" + rec.medgenSource + " ;\n",
      "  mo:sty sty:" + StyId(labels, rec.sty) + "\n",
      "] .\n",
      "\n" ]
  }

  /** `MedGenOMIMHPOMapping.construct_turtle`: the block starts with the relation and ends with a blank line. */
  function ConstructTurtle(rec: Record, labels: map<string, string>): (r: string)
    ensures "medgen:" + rec.hpoCui + " mo:" + Predicate(rec.relationship) + " medgen:" + rec.omimCui + " .\n" <= r
    ensures Puts(r) == r
  {
    ConcatLast(TurtleLines(rec, labels));
    Concat(TurtleLines(rec, labels))
  }

  /** The statement and its reification name the same subject, predicate and object. */
  lemma ReifiedAlike(rec: Record, labels: map<string, string>)
    ensures var r := TurtleLines(rec, labels);
      var p := if rec.relationship == "" then "undefined_relationship" else rec.relationship;
      r[0] == "medgen:" + rec.hpoCui + " mo:" + p + " medgen:" + rec.omimCui + " .\n" &&
      r[3] == "  rdf:subject medgen:" + rec.hpoCui + " ;\n" &&
      r[4] == "  rdf:predicate mo:" + p + " ;\n" &&
      r[5] == "  rdf:object medgen:" + rec.omimCui + " ;\n"
  {
  }

  /** A semantic type missing from the table leaves the `sty:` name empty. */
  lemma UnknownSty(rec: Record, labels: map<string, string>)
    requires rec.sty !in labels
    ensures TurtleLines(rec, labels)[7] == "  mo:sty sty:\n"
  {
  }

  /** One data line: a block, or the parse error. */
  function Step(labels: map<string, string>, line: string): (r: Result<Option<string>, Halt>)
    ensures r.Failure? <==> Parse(line).Failure?
    ensures r.Success? ==> r.value.Some?
  {
    match Parse(line)
    case Failure(h) => Failure(h)
    case Success(ary) => Success(Some(ConstructTurtle(Fields(ary), labels)))
  }

  /** `MedGenOMIMHPOMapping.rdf`: the table is read first, then every data line is converted. */
  function Rdf(styLines: seq<string>, lines: seq<string>): (r: Run)
    ensures |r.printed| <= |lines|
    ensures r.halt.None? <==> forall k :: 0 <= k < |lines| ==> Parse(lines[k]).Success?
  {
    var labels := Labels(styLines);
    Each(lines, line => Step(labels, line))
  }

  /**
    The conversion prints one block per line, in order, when every line holds
    nine `|`; otherwise it stops at a line with fewer, which goes to standard
    error, and the parse error is raised.
  */
  lemma RdfBlocks(styLines: seq<string>, lines: seq<string>)
    ensures var run := Rdf(styLines, lines);
      run.halt.None? <==> forall k :: 0 <= k < |lines| ==> Count('|', lines[k]) >= 9
    ensures var run := Rdf(styLines, lines);
      run.halt.Some? ==>
        exists k :: 0 <= k < |lines| && Count('|', lines[k]) < 9 && run.halt.value == Raise(lines[k], ParseMessage)
    ensures var run := Rdf(styLines, lines);
      run.halt.None? ==> (|run.printed| == |lines| &&
        forall k :: 0 <= k < |lines| ==> run.printed[k] == ConstructTurtle(Fields(Parse(lines[k]).value), Labels(styLines)))
  {
    if Rdf(styLines, lines).halt.None? {
      RdfPrints(styLines, lines);
    }
    var labels := Labels(styLines);
    var step: Step := line => Step(labels, line);
    forall k | 0 <= k < |lines| ensures step(lines[k]).Success? <==> Count('|', lines[k]) >= 9 {
      ParseCounts(lines[k]);
    }
    if Each(lines, step).halt.Some? {
      var k := FirstHalt(lines, step);
      ParseCounts(lines[k]);
    }
  }

  /** When every line has its nine `|`, each prints its block, in input order. */
  lemma RdfPrints(styLines: seq<string>, lines: seq<string>)
    requires forall k :: 0 <= k < |lines| ==> Parse(lines[k]).Success?
    ensures var run := Rdf(styLines, lines);
      |run.printed| == |lines| &&
      forall k :: 0 <= k < |lines| ==> run.printed[k] == ConstructTurtle(Fields(Parse(lines[k]).value), Labels(styLines))
  {
    var labels := Labels(styLines);
    EachPrintsAll(lines, line => Step(labels, line));
  }
}

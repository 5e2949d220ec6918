/**
  mim2gene_medgen: one OMIM entry per line, six tab-separated fields
  `MIM number, GeneID, type, source, MedGenCUI, comment`.  Gene and phenotype
  entries are linked to NCBI Gene, and the type first seen for each MIM number
  is kept in the class-level hash `@@mim2type`, which is printed after the loop.
*/
module Mim2Gene {
  import opened Wrappers
  import opened Driver
  import opened Text

  // ---------------------------------------------------------------------
  // `MIM2GENE.parse`

  const ParseMessage := "Parse error on mim2gene_medgen.\n"

  /** `MIM2GENE.parse`: chomp, split on tabs dropping trailing empty fields; anything but six fields prints the line and raises. */
  function Parse(line: string): (r: Result<seq<string>, Halt>)
    ensures r.Failure? ==> r.error == Raise(line, ParseMessage)
    ensures r.Success? ==> |r.value| == 6 && r.value[5] != ""
  {
    var ary := Split(Chomp(line), "\t");
    if |ary| != 6 then Failure(Raise(line, ParseMessage)) else Success(ary)
  }

  /** A line that parses holds at least five tabs before its line break, and its fields hold none. */
  lemma ParseTabs(line: string)
    requires Parse(line).Success?
    ensures Count('\t', Chomp(line)) >= 5
    ensures forall f :: f in Parse(line).value ==> '\t' !in f
  {
    var s := Chomp(line);
    SplitAllCount(s, '\t');
    SplitAllFields(s, '\t');
    var all := SplitAll(s, "\t");
    assert Parse(line).value <= all;
    forall f | f in Parse(line).value ensures '\t' !in f {
      var k :| 0 <= k < 6 && Parse(line).value[k] == f;
      assert all[k] == f;
    }
  }

  /**
    Which lines parse: those whose text, line break and trailing tabs removed,
    holds exactly five tabs.  The six fields are that text cut at its tabs, so a
    line with an empty comment field raises.
  */
  lemma ParseIff(line: string)
    ensures var t := TrimEnd(Chomp(line), '\t');
      Parse(line).Success? <==> Count('\t', t) == 5
    ensures Parse(line).Success? ==> Join(Parse(line).value, "\t") == TrimEnd(Chomp(line), '\t')
  {
    var t := TrimEnd(Chomp(line), '\t');
    SplitTrimmed(Chomp(line), '\t');
    if t != [] {
      SplitAllCount(t, '\t');
      JoinSplitAll(t, "\t");
    }
  }

  /** A line of five tab-free fields and an empty comment field raises: `split` drops the empty field. */
  lemma EmptyCommentRaises(fields: seq<string>)
    requires |fields| == 5 && forall f :: f in fields ==> '\t' !in f
    ensures Parse(Join(fields, "\t") + "\t\n").Failure?
  {
    JoinCount(fields, '\t');
    FourTabsRaises(Join(fields, "\t"));
  }

  /** The same, read off the tabs: a text with four tabs, then a tab and the line feed. */
  lemma FourTabsRaises(p: string)
    requires Count('\t', p) == 4
    ensures Parse(p + "\t\n").Failure?
  {
    ChompTab(p);
    TrimEndSnoc(p, '\t');
    CountTrimEnd(p, '\t');
    ParseIff(p + "\t\n");
  }

  lemma ChompTab(p: string)
    ensures Chomp(p + "\t\n") == p + "\t"
  {
    assert (p + "\t\n")[..|p| + 1] == p + "\t";
  }

  // ---------------------------------------------------------------------
  // `MIM2GENE.construct_turtle`

  /** `"\"#{e}\""`: the text between double quotes. */
  function Quote(e: string): (r: string)
    ensures |r| == |e| + 2 && r[0] == '"' && r[|r| - 1] == '"' && r[1..|r| - 1] == e
  {
    "\"" + e + "\""
  }

  function Quoted(parts: seq<string>): (r: seq<string>)
    ensures |r| == |parts| && forall k :: 0 <= k < |r| ==> r[k] == Quote(parts[k])
  {
    seq(|parts|, k requires 0 <= k < |parts| => Quote(parts[k]))
  }

  /** The `dct:source` objects: `-` is kept, otherwise each `; `-separated source is quoted. */
  function Sources(source: string): string {
    if source == "-" then "-" else Join(Quoted(Split(Strip(source), "; ")), ", ")
  }

  /** A single source, surrounding whitespace aside, becomes one quoted literal. */
  lemma SingleSource(source: string)
    requires source != "-" && Strip(source) != ""
    requires forall k :: 0 <= k <= |Strip(source)| ==> !At(Strip(source), "; ", k)
    ensures Sources(source) == Quote(Strip(source))
  {
    var s := Strip(source);
    assert Find(s, "; ", 0) == None;
    assert SplitAll(s, "; ") == [s];
    assert DropTrailingEmpty([s]) == [s];
  }

  /** The lines of the reified `RO_0003302` ("causes or contributes to condition") statement. */
  function PhenotypeLines(ary: seq<string>): (r: seq<string>)
    requires |ary| == 6
    ensures |r| == 9 && r[0] == "ncbigene:" + ary[1] + " obo:RO_0003302 medgen:" + ary[4] + " .\n" && r[8] == "] .\n\n"
  {
    [ "ncbigene:" + ary[1] + " obo:RO_0003302 medgen:" + ary[4] + " .\n",
      "[\n",
      "  rdf:subject ncbigene:" + ary[1] + " ;\n",
      "  rdf:predicate obo:RO_0003302 ;\n",
      "  rdf:object medgen:" + ary[4] + " ;\n",
      "  dct:source " + Sources(ary[3]) + " ;\n",
      "  rdfs:comment \"" + ary[5] + "\" ;\n",
      "  a rdf:Statement\n",
      "] .\n\n" ]
  }

  /** The phenotype block, which ends with a blank line. */
  function Statement(ary: seq<string>): (r: string)
    requires |ary| == 6
    ensures r != [] && r[|r| - 1] == '\n'
    ensures PhenotypeLines(ary)[0] <= r
  {
    var parts := PhenotypeLines(ary);
    ConcatLast(parts);
    Concat(parts)
  }

  /** The `rdfs:seeAlso` link of a gene row, which ends with a blank line. */
  function SeeAlso(ary: seq<string>): (r: string)
    requires |ary| == 6
    ensures r != [] && r[|r| - 1] == '\n'
  {
    var r := "ncbigene:" + ary[1] + " rdfs:seeAlso omim:" + ary[0] + " .\n\n";
    assert r[|r| - 1] == '\n';
    r
  }

  /** The block `construct_turtle` returns for one row; `""` when there is nothing to print. */
  function Turtle(ary: seq<string>): (r: string)
    requires |ary| == 6
    ensures r != "" <==> ary[1] != "-" && (ary[2] == "phenotype" || ary[2] == "gene")
    ensures r != "" ==> Puts(r) == r
  {
    if ary[1] == "-" then ""
    else if ary[2] == "phenotype" then Statement(ary)
    else if ary[2] == "gene" then SeeAlso(ary)
    else ""
  }

  /** A phenotype row's block opens with the statement that the gene causes or contributes to the condition. */
  lemma PhenotypeBlock(ary: seq<string>)
    requires |ary| == 6 && ary[2] == "phenotype" && ary[1] != "-"
    ensures "ncbigene:" + ary[1] + " obo:RO_0003302 medgen:" + ary[4] + " .\n" <= Turtle(ary)
  {
  }

  /** A gene row's block is the one `rdfs:seeAlso` link from the gene to the MIM entry. */
  lemma GeneBlock(ary: seq<string>)
    requires |ary| == 6 && ary[2] == "gene" && ary[1] != "-"
    ensures Turtle(ary) == "ncbigene:" + ary[1] + " rdfs:seeAlso omim:" + ary[0] + " .\n\n"
  {
  }

  // ---------------------------------------------------------------------
  // `@@mim2type`: a hash that remembers insertion order.

  datatype Hash = Hash(order: seq<string>, types: map<string, string>)

  /** The keys, listed once each in the order they were first written. */
  ghost predicate Ordered(h: Hash) {
    (forall m :: m in h.types <==> m in h.order) &&
    (forall i, j :: 0 <= i < j < |h.order| ==> h.order[i] != h.order[j])
  }

  /** `@@mim2type[mim] ||= t`: only a MIM number not yet typed gets a type, and it joins the end of the order. */
  function Noted(h: Hash, mim: string, t: string): Hash {
    if mim in h.types then h else Hash(h.order + [mim], h.types[mim := t])
  }

  /**
    `||=` writes once: the MIM number keeps the type it had, or gets `t` and
    joins the end of the order; no other entry changes, and the hash stays
    insertion-ordered.
  */
  lemma NotedOnce(h: Hash, mim: string, t: string)
    ensures var r := Noted(h, mim, t);
      (Ordered(h) ==> Ordered(r)) &&
      mim in r.types && r.types[mim] == (if mim in h.types then h.types[mim] else t) &&
      (forall m :: m != mim ==> (m in r.types <==> m in h.types) && (m in h.types ==> r.types[m] == h.types[m])) &&
      h.order <= r.order
  {
  }

  /** What `construct_turtle` makes of a parsed row: the MIM number, the type and the block. */
  datatype Entry = Entry(mim: string, kind: string, turtle: string)

  function EntryOf(ary: seq<string>): (e: Entry)
    requires |ary| == 6
  {
    Entry(ary[0], ary[2], Turtle(ary))
  }

  /** What one row does to the hash: a gene or phenotype row notes its type, any other row nothing. */
  function Effect(h: Hash, e: Entry): (r: Hash)
    ensures e.kind != "gene" && e.kind != "phenotype" ==> r == h
  {
    if e.kind == "phenotype" || e.kind == "gene" then Noted(h, e.mim, e.kind) else h
  }

  /** The lines printed after the loop: one per MIM number, in insertion order. */
  function Summary(h: Hash): (r: seq<string>)
    requires Ordered(h)
    ensures |r| == |h.order|
    ensures forall k :: 0 <= k < |r| ==> r[k] == "omim:" + h.order[k] + " mo:mim_type \"" + h.types[h.order[k]] + "\" . \n\n"
  {
    seq(|h.order|, k requires 0 <= k < |h.order| => "omim:" + h.order[k] + " mo:mim_type \"" + h.types[h.order[k]] + "\" . \n\n")
  }

  // ---------------------------------------------------------------------
  // The conversion, stated over whole inputs.

  /** `parse` and then `construct_turtle` on one line. */
  function Outcome(line: string): (r: Result<Entry, Halt>)
    ensures r.Failure? <==> Parse(line).Failure?
    ensures r.Failure? ==> r.error == Raise(line, ParseMessage)
  {
    match Parse(line)
    case Failure(e) => Failure(e)
    case Success(ary) => Success(EntryOf(ary))
  }

  /** The outcome of every line, in order. */
  function Results(lines: seq<string>): (r: seq<Result<Entry, Halt>>)
    ensures |r| == |lines|
  {
    if lines == [] then [] else Results(lines[..|lines| - 1]) + [Outcome(lines[|lines| - 1])]
  }

  /** `rs` holds the outcome of every line. */
  ghost predicate Describes(rs: seq<Result<Entry, Halt>>, lines: seq<string>) {
    |rs| == |lines| && forall k {:trigger Outcome(lines[k])} :: 0 <= k < |lines| ==> rs[k] == Outcome(lines[k])
  }

  lemma ResultsDescribe(lines: seq<string>)
    ensures Describes(Results(lines), lines)
  {
    forall k | 0 <= k < |lines| ensures Results(lines)[k] == Outcome(lines[k]) {
      ResultsAt(lines, k);
    }
  }

  lemma {:induction false} ResultsAt(lines: seq<string>, i: nat)
    requires i < |lines|
    ensures Results(lines)[i] == Outcome(lines[i])
    decreases |lines|
  {
    if i < |lines| - 1 {
      var init := lines[..|lines| - 1];
      ResultsAt(init, i);
      assert init[i] == lines[i];
    }
  }

  /** The loop's progress: what it printed, whether it raised, and the hash. */
  datatype Progress = Progress(printed: seq<string>, halt: Option<Halt>, hash: Hash)

  function Converted(rs: seq<Result<Entry, Halt>>, n: nat, h0: Hash): Progress
    requires n <= |rs|
  {
    if n == 0 then Progress([], None, h0)
    else
      var p := Converted(rs, n - 1, h0);
      if p.halt.Some? then p
      else
        match rs[n - 1]
        case Failure(e) => p.(halt := Some(e))
        case Success(e) =>
          Progress(p.printed + (if e.turtle == "" then [] else [Puts(e.turtle)]), None, Effect(p.hash, e))
  }

  /** What `MIM2GENE.rdf` prints, starting from the hash `h0` earlier calls left. */
  function Conversion(lines: seq<string>, h0: Hash): (r: Progress)
    requires Ordered(h0)
  {
    ConvertedOrdered(Results(lines), |lines|, h0);
    var p := Converted(Results(lines), |lines|, h0);
    if p.halt.Some? then p else p.(printed := p.printed + Summary(p.hash))
  }

  /** The hash stays insertion-ordered through the loop. */
  lemma {:induction false} ConvertedOrdered(rs: seq<Result<Entry, Halt>>, n: nat, h0: Hash)
    requires n <= |rs| && Ordered(h0)
    ensures Ordered(Converted(rs, n, h0).hash)
    decreases n
  {
    if n > 0 {
      ConvertedOrdered(rs, n - 1, h0);
      var p := Converted(rs, n - 1, h0);
      if p.halt.None? && rs[n - 1].Success? {
        EffectOrdered(p.hash, rs[n - 1].value);
      }
    }
  }

  lemma {:induction false} HaltSticks(rs: seq<Result<Entry, Halt>>, i: nat, n: nat, h0: Hash)
    requires i <= n <= |rs| && Converted(rs, i, h0).halt.Some?
    ensures Converted(rs, n, h0) == Converted(rs, i, h0)
    decreases n - i
  {
    if i < n {
      HaltSticks(rs, i, n - 1, h0);
    }
  }

  /** Row `j` is a gene or phenotype row for `m`. */
  predicate Typed(rs: seq<Result<Entry, Halt>>, j: nat, m: string)
    requires j < |rs|
  {
    rs[j].Success? && rs[j].value.mim == m && (rs[j].value.kind == "gene" || rs[j].value.kind == "phenotype")
  }

  /** A run that has not halted after line `i` had not halted before it, and line `i` went through `Effect`. */
  lemma StepBack(rs: seq<Result<Entry, Halt>>, i: nat, h0: Hash)
    requires i < |rs| && Converted(rs, i + 1, h0).halt.None?
    ensures Converted(rs, i, h0).halt.None? && rs[i].Success?
    ensures Converted(rs, i + 1, h0).hash == Effect(Converted(rs, i, h0).hash, rs[i].value)
  {
  }

  /** One row types `m` when it is a gene or phenotype row for it, and never retypes it. */
  lemma EffectOn(h: Hash, e: Entry, m: string)
    ensures m in Effect(h, e).types <==> m in h.types || (e.mim == m && (e.kind == "gene" || e.kind == "phenotype"))
    ensures m in h.types ==> Effect(h, e).types[m] == h.types[m]
  {
    NotedOnce(h, e.mim, e.kind);
  }

  /** Every row keeps the hash insertion-ordered. */
  lemma EffectOrdered(h: Hash, e: Entry)
    requires Ordered(h)
    ensures Ordered(Effect(h, e))
  {
    NotedOnce(h, e.mim, e.kind);
  }

  /**
    A MIM number is typed after the loop exactly when it was typed before or
    some row up to there is a gene or phenotype row for it.
  */
  lemma {:induction false} TypedIff(rs: seq<Result<Entry, Halt>>, n: nat, h0: Hash)
    requires n <= |rs| && Converted(rs, n, h0).halt.None?
    ensures forall m :: m in Converted(rs, n, h0).hash.types <==>
      m in h0.types || exists j :: 0 <= j < n && Typed(rs, j, m)
    decreases n
  {
    if n > 0 {
      StepBack(rs, n - 1, h0);
      TypedIff(rs, n - 1, h0);
      var h := Converted(rs, n - 1, h0).hash;
      forall m ensures m in Converted(rs, n, h0).hash.types <==> m in h0.types || exists j :: 0 <= j < n && Typed(rs, j, m) {
        EffectOn(h, rs[n - 1].value, m);
        if Typed(rs, n - 1, m) {
          assert m in Converted(rs, n, h0).hash.types;
        } else {
          assert (exists j :: 0 <= j < n && Typed(rs, j, m)) <==> exists j :: 0 <= j < n - 1 && Typed(rs, j, m);
        }
      }
    }
  }

  /** First write wins: a MIM number new to the hash keeps the type of its first gene or phenotype row. */
  lemma {:induction false} FirstTypeKept(rs: seq<Result<Entry, Halt>>, j: nat, n: nat, h0: Hash, m: string)
    requires j < n <= |rs| && Converted(rs, n, h0).halt.None?
    requires m !in h0.types && Typed(rs, j, m)
    requires forall i :: 0 <= i < j ==> !Typed(rs, i, m)
    ensures m in Converted(rs, n, h0).hash.types && Converted(rs, n, h0).hash.types[m] == rs[j].value.kind
    decreases n
  {
    StepBack(rs, n - 1, h0);
    if n - 1 > j {
      FirstTypeKept(rs, j, n - 1, h0, m);
      EffectOn(Converted(rs, n - 1, h0).hash, rs[n - 1].value, m);
    } else {
      Untyped(rs, j, h0, m);
    }
  }

  lemma {:induction false} Untyped(rs: seq<Result<Entry, Halt>>, j: nat, h0: Hash, m: string)
    requires j <= |rs| && Converted(rs, j, h0).halt.None?
    requires m !in h0.types && forall i :: 0 <= i < j ==> !Typed(rs, i, m)
    ensures m !in Converted(rs, j, h0).hash.types
    decreases j
  {
    if j > 0 {
      StepBack(rs, j - 1, h0);
      Untyped(rs, j - 1, h0, m);
      var e := rs[j - 1].value;
      assert !Typed(rs, j - 1, m);
      assert !(e.mim == m && (e.kind == "gene" || e.kind == "phenotype"));
      EffectOn(Converted(rs, j - 1, h0).hash, e, m);
    }
  }

  /**
    One more line: a line that parses prints its block, when it has one, and
    notes its type; a line that does not parse ends the loop with the blocks
    printed so far.
  */
  lemma Advance(rs: seq<Result<Entry, Halt>>, i: nat, h0: Hash, p: Progress)
    requires i < |rs| && Converted(rs, i, h0) == p && p.halt.None?
    ensures rs[i].Failure? ==> Converted(rs, |rs|, h0) == Progress(p.printed, Some(rs[i].error), p.hash)
    ensures rs[i].Success? ==> var e := rs[i].value;
      Converted(rs, i + 1, h0) == Progress(p.printed + (if e.turtle == "" then [] else [Puts(e.turtle)]), None, Effect(p.hash, e))
  {
    if rs[i].Failure? {
      HaltSticks(rs, i + 1, |rs|, h0);
    }
  }

  /** Each line prints at most one block, so the blocks, then the summary, are all the output. */
  lemma {:induction false} PrintedBound(rs: seq<Result<Entry, Halt>>, n: nat, h0: Hash)
    requires n <= |rs|
    ensures |Converted(rs, n, h0).printed| <= n
    decreases n
  {
    if n > 0 {
      PrintedBound(rs, n - 1, h0);
    }
  }

  // ---------------------------------------------------------------------
  // The class `MIM2GENE` with its class variable.

  class Mim2Type {
    /** The MIM numbers of `@@mim2type`, in insertion order. */
    var order: seq<string>
    /** The type stored for each MIM number. */
    var types: map<string, string>

    ghost predicate Valid()
      reads this
    {
      Ordered(Hash(order, types))
    }

    /** `@@mim2type = {}`. */
    constructor()
      ensures Valid() && order == [] && types == map[]
    {
      order := [];
      types := map[];
    }

    /** `@@mim2type[mim] ||= t`. */
    method Note(mim: string, t: string)
      requires Valid()
      modifies this
      ensures Valid()
      ensures Hash(order, types) == Noted(old(Hash(order, types)), mim, t)
    {
      NotedOnce(Hash(order, types), mim, t);
      if mim !in types {
        order := order + [mim];
        types := types[mim := t];
      }
    }

    /** `MIM2GENE.construct_turtle`: notes the row's type and returns its block, `""` when there is none. */
    method ConstructTurtle(ary: seq<string>) returns (r: string)
      requires |ary| == 6 && Valid()
      modifies this
      ensures Valid()
      ensures r == Turtle(ary)
      ensures Hash(order, types) == Effect(old(Hash(order, types)), EntryOf(ary))
    {
      if ary[2] == "phenotype" {
        Note(ary[0], "phenotype");
      } else if ary[2] == "gene" {
        Note(ary[0], "gene");
      }
      r := Turtle(ary);
    }

    /** `@@mim2type.each`: the summary line of every entry, in insertion order. */
    method Drain() returns (out: seq<string>)
      requires Valid()
      ensures out == Summary(Hash(order, types))
    {
      out := [];
      var k := 0;
      while k < |order|
        invariant 0 <= k <= |order|
        invariant |out| == k
        invariant forall j :: 0 <= j < k ==> out[j] == Summary(Hash(order, types))[j]
      {
        var line := "omim:" + order[k] + " mo:mim_type \"" + types[order[k]] + "\" . \n\n";
        out := out + [Puts(line)];
        k := k + 1;
      }
    }

    /**
      The body of the loop on line `i`: `parse`, then `construct_turtle` on what
      it returns, taking the conversion one line further.
    */
    method Line(lines: seq<string>, i: nat, ghost rs: seq<Result<Entry, Halt>>, ghost h0: Hash, ghost printed: seq<string>)
      returns (r: Result<Entry, Halt>)
      requires i < |lines| && Valid() && Describes(rs, lines)
      requires Converted(rs, i, h0) == Progress(printed, None, Hash(order, types))
      modifies this
      ensures Valid()
      ensures r.Failure? ==> Converted(rs, |rs|, h0) == Progress(printed, Some(r.error), Hash(order, types))
      ensures r.Success? ==> var e := r.value;
        Converted(rs, i + 1, h0) == Progress(printed + (if e.turtle == "" then [] else [Puts(e.turtle)]), None, Hash(order, types))
    {
      ghost var before := Progress(printed, None, Hash(order, types));
      assert rs[i] == Outcome(lines[i]);
      Advance(rs, i, h0, before);
      var ary := Parse(lines[i]);
      if ary.Failure? {
        return Failure(ary.error);
      }
      var turtle := ConstructTurtle(ary.value);
      r := Success(Entry(ary.value[0], ary.value[2], turtle));
    }

    /** The `while line = f.gets` loop of `MIM2GENE.rdf`: the blocks, and the raise that ends it early. */
    method Convert(lines: seq<string>, ghost rs: seq<Result<Entry, Halt>>) returns (printed: seq<string>, halt: Option<Halt>)
      requires Valid() && Describes(rs, lines)
      modifies this
      ensures Valid()
      ensures Converted(rs, |rs|, old(Hash(order, types))) == Progress(printed, halt, Hash(order, types))
    {
      ghost var h0 := Hash(order, types);
      printed := [];
      var i := 0;
      while i < |lines|
        invariant 0 <= i <= |lines| && Valid()
        invariant Converted(rs, i, h0) == Progress(printed, None, Hash(order, types))
      {
        var outcome := Line(lines, i, rs, h0, printed);
        if outcome.Failure? {
          return printed, Some(outcome.error);
        }
        if outcome.value.turtle != "" {
          printed := printed + [Puts(outcome.value.turtle)];
        }
        i := i + 1;
      }
      halt := None;
    }

    /**
      `MIM2GENE.rdf`: every data line through `construct_turtle`, printing the
      non-empty blocks, then the hash.  A line that does not parse raises, and
      the hash is then not printed; what it holds stays for the next call.
    */
    method Rdf(lines: seq<string>) returns (run: Run)
      requires Valid()
      modifies this
      ensures Valid()
      ensures var p := Conversion(lines, old(Hash(order, types)));
        run == Run(p.printed, p.halt) && Hash(order, types) == p.hash
    {
      ResultsDescribe(lines);
      var printed, halt := Convert(lines, Results(lines));
      if halt.Some? {
        return Run(printed, halt);
      }
      var summary := Drain();
      run := Run(printed + summary, None);
    }
  }

  /** Each summary line is what `puts` prints for it: it already ends with a line feed. */
  lemma SummaryPrinted(h: Hash)
    requires Ordered(h)
    ensures forall k :: 0 <= k < |h.order| ==> Puts(Summary(h)[k]) == Summary(h)[k]
  {
  }
}

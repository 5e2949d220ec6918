/**
  medgen_pubmed_lnk.txt: one link between a concept and a PubMed article per
  line, `UID|CUI|NAME|PMID|`.  Consecutive lines of one UID become one block
  listing their articles.
*/
module PubMed {
  import opened Wrappers
  import opened Regex
  import opened Driver
  import opened Text

  datatype Record = Record(uid: string, cui: string, name: string, pmid: string)

  /** The group `uid2pubmed` holds: the first line's UID, CUI and name, and the PMIDs of its lines. */
  datatype Group = Group(uid: string, cui: string, name: string, pmids: seq<string>)

  /** `^(\d+)\|(\w+)\|(.+)\|(\d+)\|[\r\n]*?$`. */
  const Row: Pattern := [
    Start, Open(1), Rep(Digit, Plus), Close(1), Lit('|'), Open(2), Rep(Word, Plus), Close(2), Lit('|'),
    Open(3), Rep(AnyButNewline, Plus), Close(3), Lit('|'), Open(4), Rep(Digit, Plus), Close(4), Lit('|'),
    Rep(LineBreak, LazyStar), End]

  const ParseError := Raise("", "Parse error on medgen_pubmed_lnk.txt .\n")

  /** `parse(f.gets)` at the end of the input: `nil` has no `force_encoding`, so Ruby raises a NoMethodError. */
  const NoData := Raise("", "undefined method `force_encoding' for nil")

  /** `MedGenPubMed.parse`: the four groups, or a raise. */
  function Parse(line: string): (r: Result<Record, Halt>)
    ensures r.Failure? ==> r.error == ParseError
  {
    match Search(Row, line)
    case Some(c) => Success(Record(Field(line, c, 1), Field(line, c, 2), Field(line, c, 3), Field(line, c, 4)))
    case None => Failure(ParseError)
  }

  /** Ruby's `String#inspect`, which renders the name as a quoted literal; it is not modelled, only passed in. */
  type Inspect = string -> string

  /** The two objects one PMID contributes to `dct:references`. */
  function Render(pmid: string): string {
    "pubmed:" + pmid + ", pubmedid:" + pmid
  }

  function Rendered(pmids: seq<string>): (r: seq<string>)
    ensures |r| == |pmids| && forall k :: 0 <= k < |r| ==> r[k] == Render(pmids[k])
  {
    seq(|pmids|, k requires 0 <= k < |pmids| => Render(pmids[k]))
  }

  /** The block of `MedGenPubMed.construct_turtle` for a group. */
  function Block(g: Group, inspect: Inspect): (r: string)
    ensures "medgen:" + g.uid + "\n" <= r && Puts(r) == r
  {
    var r := "medgen:" + g.uid + "\n" + ("  rdfs:seeAlso medgen:" + g.cui + " ;\n" +
      "  rdfs:label " + inspect(g.name) + " ;\n" +
      "  dct:references " + Join(Rendered(g.pmids), ", ") + " .\n\n");
    assert r[|r| - 1] == '\n';
    r
  }

  /** `MedGenPubMed.construct_turtle`: `pmids.map!` rewrites the array it is given in place, then the block is built from it. */
  method ConstructTurtle(uid: string, cui: string, name: string, pmids: array<string>, inspect: Inspect) returns (r: string)
    modifies pmids
    ensures pmids[..] == Rendered(old(pmids[..]))
    ensures r == Block(Group(uid, cui, name, old(pmids[..])), inspect)
  {
    ghost var before := pmids[..];
    var i := 0;
    while i < pmids.Length
      invariant 0 <= i <= pmids.Length
      invariant forall k :: 0 <= k < i ==> pmids[k] == Render(before[k])
      invariant forall k :: i <= k < pmids.Length ==> pmids[k] == before[k]
    {
      pmids[i] := Render(pmids[i]);
      i := i + 1;
    }
    assert pmids[..] == Rendered(before);
    r := "medgen:" + uid + "\n" + ("  rdfs:seeAlso medgen:" + cui + " ;\n" +
      "  rdfs:label " + inspect(name) + " ;\n" +
      "  dct:references " + Join(pmids[..], ", ") + " .\n\n");
  }

  /** `construct_turtle(*uid2pubmed)`: the held group's PMIDs go to `construct_turtle` as a fresh array. */
  method TurtleOf(held: Group, inspect: Inspect) returns (r: string)
    ensures r == Block(held, inspect)
  {
    var pmids := new string[|held.pmids|](k requires 0 <= k < |held.pmids| => held.pmids[k]);
    assert pmids[..] == held.pmids;
    r := ConstructTurtle(held.uid, held.cui, held.name, pmids, inspect);
  }

  // ---------------------------------------------------------------------
  // What the conversion prints, stated over whole inputs.

  /** The result of `parse` on every line. */
  function Results(lines: seq<string>): (r: seq<Result<Record, Halt>>)
    ensures |r| == |lines| && forall k :: 0 <= k < |lines| ==> r[k] == Parse(lines[k])
  {
    seq(|lines|, k requires 0 <= k < |lines| => Parse(lines[k]))
  }

  /** The records of the first `n` results, up to the first failure, and that failure's halt. */
  datatype Parsed = Parsed(recs: seq<Record>, halt: Option<Halt>)

  function ParsedUntil(rs: seq<Result<Record, Halt>>, n: nat): (r: Parsed)
    requires n <= |rs|
    ensures r.halt.None? <==> forall k :: 0 <= k < n ==> rs[k].Success?
    ensures r.halt.None? ==> |r.recs| == n && forall k :: 0 <= k < n ==> r.recs[k] == rs[k].value
    ensures r.halt.Some? ==> exists k :: 0 <= k < n && rs[k] == Failure(r.halt.value)
  {
    if n == 0 then Parsed([], None)
    else
      var p := ParsedUntil(rs, n - 1);
      if p.halt.Some? then p
      else
        match rs[n - 1]
        case Failure(h) => Parsed(p.recs, Some(h))
        case Success(rec) => Parsed(p.recs + [rec], None)
  }

  /** Consecutive records of one UID gathered into one group, in input order. */
  function Grouped(recs: seq<Record>): (gs: seq<Group>)
    ensures recs != [] <==> gs != []
    ensures recs != [] ==> gs[|gs| - 1].uid == recs[|recs| - 1].uid
  {
    if recs == [] then []
    else
      var gs := Grouped(recs[..|recs| - 1]);
      var rec := recs[|recs| - 1];
      if gs != [] && gs[|gs| - 1].uid == rec.uid then
        var last := gs[|gs| - 1];
        gs[..|gs| - 1] + [last.(pmids := last.pmids + [rec.pmid])]
      else gs + [Group(rec.uid, rec.cui, rec.name, [rec.pmid])]
  }

  /** The blocks printed for `gs`: every group but the last, which is still held when the input ends. */
  function Emitted(gs: seq<Group>, inspect: Inspect): (r: seq<string>)
    ensures |r| == if gs == [] then 0 else |gs| - 1
  {
    if |gs| <= 1 then [] else Emitted(gs[..|gs| - 1], inspect) + [Puts(Block(gs[|gs| - 2], inspect))]
  }

  /** What `MedGenPubMed.rdf` prints and how it ends: it raises on an empty input, and otherwise exactly when some line does not parse. */
  function Conversion(lines: seq<string>, inspect: Inspect): (r: Run)
    ensures lines == [] ==> r == Run([], Some(NoData))
    ensures lines != [] ==> (r.halt.None? <==> forall k :: 0 <= k < |lines| ==> Parse(lines[k]).Success?)
  {
    if lines == [] then Run([], Some(NoData))
    else
      var p := ParsedUntil(Results(lines), |lines|);
      Run(Emitted(Grouped(p.recs), inspect), p.halt)
  }

  // ---------------------------------------------------------------------
  // The steps of `MedGenPubMed.rdf`'s loop, stated on the conversion.

  /** After `i` lines no parse has failed, `held` is the last group and every earlier group is printed. */
  ghost predicate Holding(rs: seq<Result<Record, Halt>>, i: nat, held: Group, printed: seq<string>, inspect: Inspect)
    requires i <= |rs|
  {
    var p := ParsedUntil(rs, i);
    var gs := Grouped(p.recs);
    p.halt.None? && gs != [] && held == gs[|gs| - 1] && printed == Emitted(gs, inspect)
  }

  /** Once a line fails to parse, later lines change nothing. */
  lemma {:induction false} HaltSticks(rs: seq<Result<Record, Halt>>, i: nat, n: nat)
    requires i <= n <= |rs| && ParsedUntil(rs, i).halt.Some?
    ensures ParsedUntil(rs, n) == ParsedUntil(rs, i)
    decreases n - i
  {
    if i < n {
      HaltSticks(rs, i, n - 1);
    }
  }

  /** Starting a new group prints the one held so far. */
  lemma EmittedNew(gs: seq<Group>, g: Group, inspect: Inspect)
    requires gs != []
    ensures Emitted(gs + [g], inspect) == Emitted(gs, inspect) + [Puts(Block(gs[|gs| - 1], inspect))]
  {
    assert (gs + [g])[..|gs|] == gs;
  }

  /** Growing the held group prints nothing. */
  lemma EmittedSame(gs: seq<Group>, g: Group, inspect: Inspect)
    requires gs != []
    ensures Emitted(gs[..|gs| - 1] + [g], inspect) == Emitted(gs, inspect)
  {
    var t := gs[..|gs| - 1] + [g];
    assert t[..|t| - 1] == gs[..|gs| - 1];
    if |gs| >= 2 {
      assert t[|t| - 2] == gs[|gs| - 2];
    }
  }

  /** One more record either grows the last group or starts a new one. */
  lemma GroupedSnoc(recs: seq<Record>, rec: Record)
    ensures var gs := Grouped(recs);
      Grouped(recs + [rec]) ==
        if gs != [] && gs[|gs| - 1].uid == rec.uid then
          gs[..|gs| - 1] + [gs[|gs| - 1].(pmids := gs[|gs| - 1].pmids + [rec.pmid])]
        else gs + [Group(rec.uid, rec.cui, rec.name, [rec.pmid])]
  {
    assert (recs + [rec])[..|recs|] == recs && (recs + [rec])[|recs|] == rec;
  }

  /** The first line, when it parses, starts the first group. */
  lemma StartGroup(rs: seq<Result<Record, Halt>>, rec: Record, inspect: Inspect)
    requires |rs| >= 1 && rs[0] == Success(rec)
    ensures Holding(rs, 1, Group(rec.uid, rec.cui, rec.name, [rec.pmid]), [], inspect)
  {
    GroupedSnoc([], rec);
    assert [] + [rec] == [rec];
  }

  /** A line of the held group's UID adds its PMID to the group. */
  lemma SameGroup(rs: seq<Result<Record, Halt>>, i: nat, held: Group, printed: seq<string>, rec: Record, inspect: Inspect)
    requires i < |rs| && Holding(rs, i, held, printed, inspect)
    requires rs[i] == Success(rec) && held.uid == rec.uid
    ensures Holding(rs, i + 1, held.(pmids := held.pmids + [rec.pmid]), printed, inspect)
  {
    var recs := ParsedUntil(rs, i).recs;
    var gs := Grouped(recs);
    var grown := held.(pmids := held.pmids + [rec.pmid]);
    assert ParsedUntil(rs, i + 1) == Parsed(recs + [rec], None);
    GroupedSnoc(recs, rec);
    var t := gs[..|gs| - 1] + [grown];
    assert Grouped(recs + [rec]) == t;
    assert t[|t| - 1] == grown;
    EmittedSame(gs, grown, inspect);
  }

  /** A line of another UID prints the held group and starts a new one. */
  lemma NewGroup(rs: seq<Result<Record, Halt>>, i: nat, held: Group, printed: seq<string>, rec: Record, inspect: Inspect)
    requires i < |rs| && Holding(rs, i, held, printed, inspect)
    requires rs[i] == Success(rec) && held.uid != rec.uid
    ensures Holding(rs, i + 1, Group(rec.uid, rec.cui, rec.name, [rec.pmid]), printed + [Puts(Block(held, inspect))], inspect)
  {
    var recs := ParsedUntil(rs, i).recs;
    var gs := Grouped(recs);
    var g := Group(rec.uid, rec.cui, rec.name, [rec.pmid]);
    assert ParsedUntil(rs, i + 1) == Parsed(recs + [rec], None);
    GroupedSnoc(recs, rec);
    assert Grouped(recs + [rec]) == gs + [g];
    EmittedNew(gs, g, inspect);
  }

  /** A line that does not parse ends the parse with the records before it. */
  lemma FailAt(rs: seq<Result<Record, Halt>>, i: nat)
    requires i < |rs| && ParsedUntil(rs, i).halt.None? && rs[i].Failure?
    ensures ParsedUntil(rs, |rs|) == Parsed(ParsedUntil(rs, i).recs, Some(rs[i].error))
  {
    HaltSticks(rs, i + 1, |rs|);
  }

  /** At the end of the input the held group is still unprinted. */
  lemma EndOfInput(lines: seq<string>, held: Group, printed: seq<string>, inspect: Inspect)
    requires lines != [] && Holding(Results(lines), |lines|, held, printed, inspect)
    ensures Conversion(lines, inspect) == Run(printed, None)
  {
  }

  /**
    The loop of `MedGenPubMed.rdf`: consecutive lines of one UID are gathered,
    and a group is printed when the next UID begins.  When every line parses,
    the group still held at the end comes back in `held`.
  */
  method Gather(lines: seq<string>, inspect: Inspect) returns (run: Run, held: Option<Group>)
    ensures run == Conversion(lines, inspect)
    ensures held.Some? <==> run.halt.None?
    ensures held.Some? ==> var gs := Grouped(ParsedUntil(Results(lines), |lines|).recs);
      gs != [] && held.value == gs[|gs| - 1]
  {
    if |lines| == 0 {
      return Run([], Some(NoData)), None;
    }
    ghost var rs := Results(lines);
    var ary := Parse(lines[0]);
    if ary.Failure? {
      assert rs[0] == ary;
      HaltSticks(rs, 1, |lines|);
      return Run([], Some(ary.error)), None;
    }
    var group := Group(ary.value.uid, ary.value.cui, ary.value.name, [ary.value.pmid]);
    var printed: seq<string> := [];
    StartGroup(rs, ary.value, inspect);
    var i := 1;
    while i < |lines|
      invariant 1 <= i <= |lines|
      invariant Holding(rs, i, group, printed, inspect)
    {
      ary := Parse(lines[i]);
      if ary.Failure? {
        assert rs[i] == ary;
        FailAt(rs, i);
        return Run(printed, Some(ary.error)), None;
      }
      var rec := ary.value;
      assert rs[i] == Success(rec);
      if group.uid != rec.uid {
        var block := TurtleOf(group, inspect);
        NewGroup(rs, i, group, printed, rec, inspect);
        printed := printed + [Puts(block)];
        group := Group(rec.uid, rec.cui, rec.name, [rec.pmid]);
      } else {
        SameGroup(rs, i, group, printed, rec, inspect);
        group := group.(pmids := group.pmids + [rec.pmid]);
      }
      i := i + 1;
    }
    EndOfInput(lines, group, printed, inspect);
    return Run(printed, None), Some(group);
  }

  /** `MedGenPubMed.rdf` as written: the loop's output, and nothing after it. */
  method Rdf(lines: seq<string>, inspect: Inspect) returns (run: Run)
    ensures run == Conversion(lines, inspect)
  {
    var held;
    run, held := Gather(lines, inspect);
  }

  // ---------------------------------------------------------------------
  // Properties of the grouping.

  /** The PMIDs of the records, in input order. */
  function Pmids(recs: seq<Record>): (r: seq<string>)
    ensures |r| == |recs| && forall k :: 0 <= k < |recs| ==> r[k] == recs[k].pmid
  {
    seq(|recs|, k requires 0 <= k < |recs| => recs[k].pmid)
  }

  /** The PMIDs of the groups, one group after another. */
  function Flatten(gs: seq<Group>): seq<string> {
    if gs == [] then [] else Flatten(gs[..|gs| - 1]) + gs[|gs| - 1].pmids
  }

  /** Groups hold at least one PMID, and neighbouring groups have different UIDs. */
  predicate Separated(gs: seq<Group>) {
    (forall k :: 0 <= k < |gs| ==> gs[k].pmids != []) &&
    (forall k :: 0 < k < |gs| ==> gs[k - 1].uid != gs[k].uid)
  }

  lemma FlattenSnoc(gs: seq<Group>, g: Group)
    ensures Flatten(gs + [g]) == Flatten(gs) + g.pmids
  {
    assert (gs + [g])[..|gs|] == gs;
  }

  lemma PmidsSnoc(recs: seq<Record>, rec: Record)
    ensures Pmids(recs + [rec]) == Pmids(recs) + [rec.pmid]
  {
  }

  /** Growing the last group keeps the PMIDs in order and the groups separated. */
  lemma GrowKeeps(gs: seq<Group>, pmids: seq<string>, rec: Record)
    requires gs != [] && gs[|gs| - 1].uid == rec.uid
    requires Flatten(gs) == pmids && Separated(gs)
    ensures var last := gs[|gs| - 1];
      var t := gs[..|gs| - 1] + [last.(pmids := last.pmids + [rec.pmid])];
      Flatten(t) == pmids + [rec.pmid] && Separated(t)
  {
    var last := gs[|gs| - 1];
    var grown := last.(pmids := last.pmids + [rec.pmid]);
    assert gs == gs[..|gs| - 1] + [last];
    FlattenSnoc(gs[..|gs| - 1], last);
    FlattenSnoc(gs[..|gs| - 1], grown);
    var t := gs[..|gs| - 1] + [grown];
    assert forall k :: 0 <= k < |t| - 1 ==> t[k] == gs[k];
  }

  /** Starting a group of a new UID keeps the PMIDs in order and the groups separated. */
  lemma NewKeeps(gs: seq<Group>, pmids: seq<string>, rec: Record)
    requires gs != [] ==> gs[|gs| - 1].uid != rec.uid
    requires Flatten(gs) == pmids && Separated(gs)
    ensures var t := gs + [Group(rec.uid, rec.cui, rec.name, [rec.pmid])];
      Flatten(t) == pmids + [rec.pmid] && Separated(t)
  {
    FlattenSnoc(gs, Group(rec.uid, rec.cui, rec.name, [rec.pmid]));
  }

  /**
    Group `g` gathers the records from `lo` up to `hi`: all of them have its
    UID, its CUI and name are the first one's, and its PMIDs are theirs, in order.
  */
  predicate Gathers(recs: seq<Record>, lo: nat, hi: nat, g: Group) {
    lo < hi <= |recs| &&
    (forall j :: lo <= j < hi ==> recs[j].uid == g.uid) &&
    g.cui == recs[lo].cui && g.name == recs[lo].name && g.pmids == Pmids(recs[lo..hi])
  }

  /** The boundaries `0 == b[0] < ... < b[|gs|] == |recs|` cut `recs` into the runs the groups gather. */
  predicate Runs(recs: seq<Record>, gs: seq<Group>, b: seq<nat>) {
    |b| == |gs| + 1 && b[0] == 0 && b[|gs|] == |recs| &&
    forall k :: 0 <= k < |gs| ==> Gathers(recs, b[k], b[k + 1], gs[k])
  }

  /** A run gathered from `recs` is still gathered once a record is appended. */
  lemma GathersSnoc(recs: seq<Record>, rec: Record, lo: nat, hi: nat, g: Group)
    requires Gathers(recs, lo, hi, g)
    ensures Gathers(recs + [rec], lo, hi, g)
  {
    assert (recs + [rec])[lo..hi] == recs[lo..hi];
  }

  /** Growing the last group moves the last boundary past the new record. */
  lemma GrowRuns(recs: seq<Record>, gs: seq<Group>, b: seq<nat>, rec: Record)
    requires gs != [] && gs[|gs| - 1].uid == rec.uid && Runs(recs, gs, b)
    ensures var last := gs[|gs| - 1];
      var t := gs[..|gs| - 1] + [last.(pmids := last.pmids + [rec.pmid])];
      Runs(recs + [rec], t, b[..|gs|] + [|recs| + 1])
  {
    var last := gs[|gs| - 1];
    var t := gs[..|gs| - 1] + [last.(pmids := last.pmids + [rec.pmid])];
    var c := b[..|gs|] + [|recs| + 1];
    var n := |gs| - 1;
    forall k | 0 <= k < n ensures Gathers(recs + [rec], c[k], c[k + 1], t[k]) {
      GathersSnoc(recs, rec, b[k], b[k + 1], gs[k]);
    }
    assert Gathers(recs, b[n], |recs|, last);
    assert (recs + [rec])[b[n]..|recs| + 1] == recs[b[n]..|recs|] + [rec];
    PmidsSnoc(recs[b[n]..|recs|], rec);
    assert Gathers(recs + [rec], c[n], c[n + 1], t[n]);
  }

  /** A record of a new UID adds one boundary and a group gathering just that record. */
  lemma NewRuns(recs: seq<Record>, gs: seq<Group>, b: seq<nat>, rec: Record)
    requires Runs(recs, gs, b)
    ensures Runs(recs + [rec], gs + [Group(rec.uid, rec.cui, rec.name, [rec.pmid])], b + [|recs| + 1])
  {
    var t := gs + [Group(rec.uid, rec.cui, rec.name, [rec.pmid])];
    var c := b + [|recs| + 1];
    forall k | 0 <= k < |gs| ensures Gathers(recs + [rec], c[k], c[k + 1], t[k]) {
      GathersSnoc(recs, rec, b[k], b[k + 1], gs[k]);
    }
    assert (recs + [rec])[|recs|..|recs| + 1] == [rec];
    assert Gathers(recs + [rec], c[|gs|], c[|gs| + 1], t[|gs|]);
  }

  /** One more record keeps the groups gathering runs. */
  lemma RunsSnoc(init: seq<Record>, rec: Record, b: seq<nat>)
    requires Runs(init, Grouped(init), b)
    ensures exists c :: Runs(init + [rec], Grouped(init + [rec]), c)
  {
    GroupedSnoc(init, rec);
    var gs := Grouped(init);
    if gs != [] && gs[|gs| - 1].uid == rec.uid {
      GrowRuns(init, gs, b, rec);
    } else {
      NewRuns(init, gs, b, rec);
    }
  }

  /** Each group gathers one run of consecutive records, the runs covering all records in order. */
  lemma {:induction false} GroupedRuns(recs: seq<Record>)
    ensures exists b :: Runs(recs, Grouped(recs), b)
    decreases |recs|
  {
    if recs == [] {
      assert Grouped(recs) == [];
      assert Runs(recs, Grouped(recs), [0]);
    } else {
      var init := recs[..|recs| - 1];
      assert recs == init + [recs[|recs| - 1]];
      GroupedRuns(init);
      var b: seq<nat> :| Runs(init, Grouped(init), b);
      RunsSnoc(init, recs[|recs| - 1], b);
    }
  }

  /**
    Grouping loses no PMID and reorders none, every group is non-empty, a
    group ends exactly where the UID changes, and each group gathers one run
    of consecutive records of its UID, named after the first of them.
  */
  lemma {:induction false} GroupedKeepsAll(recs: seq<Record>)
    ensures Flatten(Grouped(recs)) == Pmids(recs)
    ensures Separated(Grouped(recs))
    ensures exists b :: Runs(recs, Grouped(recs), b)
    decreases |recs|
  {
    GroupedRuns(recs);
    if recs != [] {
      var init := recs[..|recs| - 1];
      var rec := recs[|recs| - 1];
      assert recs == init + [rec];
      GroupedKeepsAll(init);
      GroupedSnoc(init, rec);
      PmidsSnoc(init, rec);
      var gs := Grouped(init);
      if gs != [] && gs[|gs| - 1].uid == rec.uid {
        GrowKeeps(gs, Pmids(init), rec);
      } else {
        NewKeeps(gs, Pmids(init), rec);
      }
    }
  }

  /** The blocks printed are those of every group but the last, in order. */
  lemma {:induction false} EmittedAll(gs: seq<Group>, inspect: Inspect)
    ensures forall k :: 0 <= k < |gs| - 1 ==> Emitted(gs, inspect)[k] == Puts(Block(gs[k], inspect))
    decreases |gs|
  {
    if |gs| > 1 {
      var init := gs[..|gs| - 1];
      var e := Emitted(init, inspect);
      EmittedAll(init, inspect);
      assert Emitted(gs, inspect) == e + [Puts(Block(gs[|gs| - 2], inspect))];
      forall k | 0 <= k < |gs| - 1 ensures Emitted(gs, inspect)[k] == Puts(Block(gs[k], inspect)) {
        if k < |e| {
          assert init[k] == gs[k];
        } else {
          assert k == |e|;
        }
      }
    }
  }

  /** A line that does not parse fails with the parse error, and only a line `Row` rejects does. */
  lemma ParseFails(line: string)
    ensures Parse(line).Failure? <==> !Matches(Row, line)
  {
    SearchIff(Row, line);
  }

  /** One parsed record makes one group, which is still held at the end. */
  lemma OneRecord(rs: seq<Result<Record, Halt>>, inspect: Inspect)
    requires |rs| == 1 && rs[0].Success?
    ensures ParsedUntil(rs, 1) == Parsed([rs[0].value], None)
    ensures Emitted(Grouped([rs[0].value]), inspect) == []
  {
    GroupedSnoc([], rs[0].value);
    assert [] + [rs[0].value] == [rs[0].value];
  }

  /** As written, one well-formed data line converts to no output at all. */
  lemma OneLineLost(line: string, inspect: Inspect)
    requires Parse(line).Success?
    ensures Conversion([line], inspect) == Run([], None)
  {
    OneRecord(Results([line]), inspect);
  }

  /** As written, the PMIDs of the last UID are never printed, whatever the input. */
  lemma LastGroupLost(lines: seq<string>, inspect: Inspect)
    requires Conversion(lines, inspect).halt.None?
    ensures var gs := Grouped(ParsedUntil(Results(lines), |lines|).recs);
      gs != [] && |Conversion(lines, inspect).printed| == |gs| - 1
  {
  }

  // ---------------------------------------------------------------------
  // The conversion with the last group printed after the loop.

  /** The intended conversion: as `Conversion`, and when the whole input parses the held group is printed too. */
  function Flushed(lines: seq<string>, inspect: Inspect): (r: Run)
    ensures r.halt == Conversion(lines, inspect).halt && Conversion(lines, inspect).printed <= r.printed
    ensures r.halt.None? ==> |r.printed| == |Grouped(ParsedUntil(Results(lines), |lines|).recs)|
  {
    var run := Conversion(lines, inspect);
    if run.halt.Some? then run
    else
      var gs := Grouped(ParsedUntil(Results(lines), |lines|).recs);
      Run(run.printed + [Puts(Block(gs[|gs| - 1], inspect))], None)
  }

  /** `MedGenPubMed.rdf` with `puts construct_turtle(*uid2pubmed)` after the loop. */
  method RdfFlushed(lines: seq<string>, inspect: Inspect) returns (run: Run)
    ensures run == Flushed(lines, inspect)
  {
    var held;
    run, held := Gather(lines, inspect);
    if held.Some? {
      var block := TurtleOf(held.value, inspect);
      run := Run(run.printed + [Puts(block)], None);
    }
  }

  /** The printed blocks followed by the held one are the blocks of all groups, in order. */
  lemma AllPrinted(gs: seq<Group>, inspect: Inspect)
    requires gs != []
    ensures var out := Emitted(gs, inspect) + [Puts(Block(gs[|gs| - 1], inspect))];
      |out| == |gs| && forall k :: 0 <= k < |gs| ==> out[k] == Puts(Block(gs[k], inspect))
  {
    var e := Emitted(gs, inspect);
    var out := e + [Puts(Block(gs[|gs| - 1], inspect))];
    EmittedAll(gs, inspect);
    assert |e| == |gs| - 1;
    forall k | 0 <= k < |gs| ensures out[k] == Puts(Block(gs[k], inspect)) {
      if k < |e| {
        assert out[k] == e[k];
      } else {
        assert k == |e|;
      }
    }
  }

  /**
    With the flush, an input that parses throughout prints one block per
    group, in order, and those blocks between them list every PMID of the
    input in input order.
  */
  lemma FlushedPrintsAll(lines: seq<string>, inspect: Inspect)
    requires Flushed(lines, inspect).halt.None?
    ensures var recs := ParsedUntil(Results(lines), |lines|).recs;
      var gs := Grouped(recs);
      var out := Flushed(lines, inspect).printed;
      |out| == |gs| && (forall k :: 0 <= k < |gs| ==> out[k] == Puts(Block(gs[k], inspect))) &&
      Flatten(gs) == Pmids(recs) && Separated(gs) && exists b :: Runs(recs, gs, b)
  {
    var recs := ParsedUntil(Results(lines), |lines|).recs;
    AllPrinted(Grouped(recs), inspect);
    GroupedKeepsAll(recs);
  }
}

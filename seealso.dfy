/**
  The cross-reference line of an MGCONSO block.  `MGCONSO.rdf` turns the source
  abbreviation (SAB) into a flag, and `construct_turtle` turns the flag and the
  source's own identifiers (SDUI, SCUI) into one `rdfs:seeAlso` line, no line,
  or a fatal `exit`.
*/
module SeeAlso {
  import opened Wrappers
  import opened Regex
  import opened Text
  import opened Driver

  /** The symbols `rdf` passes to `construct_turtle`, one per converted source. */
  datatype Flag = Gtr | Hpo | Msh | Omim | Ordo | Nci | SnomedCtUs | Mondo

  /** The SAB each flag is chosen for. */
  function Abbreviation(f: Flag): string {
    match f
    case Gtr => "GTR"
    case Hpo => "HPO"
    case Msh => "MSH"
    case Omim => "OMIM"
    case Ordo => "ORDO"
    case Nci => "NCI"
    case SnomedCtUs => "SNOMEDCT_US"
    case Mondo => "MONDO"
  }

  /** The `case ary[8]` of `MGCONSO.rdf`: a flag for the eight converted sources, none for any other. */
  function FlagOf(sab: string): (r: Option<Flag>)
    ensures r.Some? ==> Abbreviation(r.value) == sab
    ensures r.None? <==> sab !in {"GTR", "HPO", "MSH", "OMIM", "ORDO", "NCI", "SNOMEDCT_US", "MONDO"}
  {
    if sab == "GTR" then Some(Gtr)
    else if sab == "HPO" then Some(Hpo)
    else if sab == "MSH" then Some(Msh)
    else if sab == "OMIM" then Some(Omim)
    else if sab == "ORDO" then Some(Ordo)
    else if sab == "NCI" then Some(Nci)
    else if sab == "SNOMEDCT_US" then Some(SnomedCtUs)
    else if sab == "MONDO" then Some(Mondo)
    else None
  }

  /** Every flag is chosen for exactly its own abbreviation. */
  lemma FlagOfAbbreviation(f: Flag)
    ensures FlagOf(Abbreviation(f)) == Some(f)
  {
  }

  /** `/HP\:(\d+)/`, unanchored. */
  const HpId: Pattern := Lits("HP:") + Cap(1, Digit, Plus)

  /** `/MONDO\:(\d+)/`, unanchored. */
  const MondoId: Pattern := Lits("MONDO:") + Cap(1, Digit, Plus)

  /** `/^\d+$/`. */
  const OmimNumber: Pattern := [Start, Rep(Digit, Plus), End]

  /** `/^(\d+)\.\d+$/`. */
  const OmimDecimal: Pattern := [Start, Open(1), Rep(Digit, Plus), Close(1), Lit('.'), Rep(Digit, Plus), End]

  /** `/MTHU/`. */
  const Mthu: Pattern := Lits("MTHU")

  /** `$1` after `p =~ sdui`: the captured digits, or "" when the match failed and left `$1` nil. */
  function Digits(p: Pattern, sdui: string): string {
    match Search(p, sdui)
    case Some(c) => Field(sdui, c, 1)
    case None => ""
  }

  function Line(target: string): string {
    "    rdfs:seeAlso " + target + " ;\n"
  }

  const UnknownOmim := " Unknown OMIM ID pattern.\n"

  /**
    The `case flag` of `MGCONSO.construct_turtle`: GTR has no branch of its own
    and falls to the empty `else`; an OMIM identifier of no known shape prints a
    diagnostic and exits.
  */
  function Link(flag: Flag, sdui: string, scui: string): (r: Result<Option<string>, Halt>)
    ensures r.Failure? ==> flag == Omim && r.error == Exit(sdui + UnknownOmim)
    ensures (r.Success? && r.value.None?) <==> flag == Gtr
  {
    match flag
    case Gtr => Success(None)
    case Hpo => Success(Some(Line("obo:HP_" + Digits(HpId, sdui))))
    case Msh => Success(Some(Line("mesh:" + sdui)))
    case Omim =>
      if Search(OmimNumber, sdui).Some? then Success(Some(Line("omim:" + sdui)))
      else if Search(OmimDecimal, sdui).Some? then Success(Some(Line("omim:" + Digits(OmimDecimal, sdui))))
      else if Search(Mthu, sdui).Some? then Success(Some(Line("bp_omim:" + sdui)))
      else Failure(Exit(sdui + UnknownOmim))
    case Ordo => Success(Some(Line("ordo:" + sdui)))
    case Nci => Success(Some(Line("nci:" + scui)))
    case SnomedCtUs => Success(Some(Line("snomedct:" + scui)))
    case Mondo => Success(Some(Line("obo:MONDO_" + Digits(MondoId, sdui))))
  }

  // ---------------------------------------------------------------------
  // The identifiers, described without patterns.

  /** A non-empty run of ASCII digits. */
  predicate IsDigits(t: string) {
    |t| >= 1 && forall k :: 0 <= k < |t| ==> IsDigitChar(t[k])
  }

  /** The integer part of a text of the form `digits.digits`. */
  function IntegerPart(s: string): Option<string> {
    match Find(s, ".", 0)
    case Some(k) => if IsDigits(s[..k]) && IsDigits(s[k + 1..]) then Some(s[..k]) else None
    case None => None
  }

  /** What the OMIM branch links to, in order of preference; None where it exits. */
  function OmimObject(sdui: string): Option<string> {
    if IsDigits(sdui) then Some("omim:" + sdui)
    else if IntegerPart(sdui).Some? then Some("omim:" + IntegerPart(sdui).value)
    else if Find(sdui, "MTHU", 0).Some? then Some("bp_omim:" + sdui)
    else None
  }

  // ---------------------------------------------------------------------

  lemma OmimNumberIff(s: string)
    requires '\n' !in s
    ensures Search(OmimNumber, s).Some? <==> IsDigits(s)
  {
    SearchIff(OmimNumber, s);
    var tail: Pattern := [Rep(Digit, Plus), End];
    assert OmimNumber[1..] == tail && tail[1..] == [End];
    CanMatchRep(tail, s, 0);
    if Matches(OmimNumber, s) {
      var i :| 0 <= i <= |s| && CanMatch(OmimNumber, s, i);
      OneLine(s, i);
      CanMatchRep(tail, s, i);
      var j :| i <= j <= |s| && Admits(Plus, j - i) && AllIn(Digit, s, i, j) && CanMatch([End], s, j);
      OneLine(s, j);
    }
    if IsDigits(s) {
      assert AllIn(Digit, s, 0, |s|);
      assert CanMatch([End], s, |s|);
      assert CanMatch(OmimNumber, s, 0);
    }
  }

  /** After the integer part: the group closes at the dot, and the fraction runs to the end. */
  lemma DecimalFraction(s: string, k: nat)
    requires k < |s| - 1 && s[k] == '.' && AllIn(Digit, s, k + 1, |s|)
    ensures MatchFrom(OmimDecimal[3..], s, k, map[1 := (0, 0)]) == Some(map[1 := (0, k)])
  {
    var p := OmimDecimal[3..];
    var c1: Captures := map[1 := (0, 0)];
    var c2: Captures := map[1 := (0, k)];
    MaxRunExact(Digit, s, k + 1, |s|);
    assert p[1..][1..][1..] == [End];
    assert MatchFrom(p[1..][1..][1..], s, |s|, c2) == Some(c2);
    MatchFromGreedy(p[1..][1..], s, k + 1, c2);
    MatchFromLit(p[1..], s, k, c2);
    MatchFromClose(p, s, k, c1);
    assert c1[1 := (0, k)] == c2;
  }

  lemma DigitsAllIn(s: string, i: nat, j: nat)
    requires i <= j <= |s| && IsDigits(s[i..j])
    ensures AllIn(Digit, s, i, j)
  {
    forall m | i <= m < j ensures IsDigitChar(s[m]) {
      assert s[m] == s[i..j][m - i];
    }
  }

  /** The integer part, from the group's opening on. */
  lemma DecimalInteger(s: string, k: nat)
    requires 1 <= k < |s| - 1 && s[k] == '.' && AllIn(Digit, s, 0, k) && AllIn(Digit, s, k + 1, |s|)
    ensures MatchFrom(OmimDecimal[1..], s, 0, map[]) == Some(map[1 := (0, k)])
  {
    var p := OmimDecimal[1..];
    var c0: Captures := map[];
    var c1: Captures := map[1 := (0, 0)];
    MaxRunExact(Digit, s, 0, k);
    DecimalFraction(s, k);
    assert p[1..][1..] == OmimDecimal[3..];
    MatchFromGreedy(p[1..], s, 0, c1);
    MatchFromOpen(p, s, 0, c0);
    assert c0[1 := (0, 0)] == c1;
  }

  /** On `digits.digits` the decimal pattern captures the integer part. */
  lemma OmimDecimalCaptures(s: string, k: nat)
    requires k < |s| && s[k] == '.' && IsDigits(s[..k]) && IsDigits(s[k + 1..])
    ensures Search(OmimDecimal, s) == Some(map[1 := (0, k)])
  {
    assert s[..k] == s[0..k] && s[k + 1..] == s[k + 1..|s|];
    DigitsAllIn(s, 0, k);
    DigitsAllIn(s, k + 1, |s|);
    DecimalInteger(s, k);
    SearchFirst(OmimDecimal, s);
  }

  /** What a match of the decimal pattern says about a line-free text: digits, a dot at `j`, digits. */
  lemma DecimalShape(s: string) returns (j: nat)
    requires '\n' !in s && Matches(OmimDecimal, s)
    ensures 1 <= j < |s| - 1 && s[j] == '.'
    ensures AllIn(Digit, s, 0, j) && AllIn(Digit, s, j + 1, |s|)
  {
    var p := OmimDecimal;
    var i :| 0 <= i <= |s| && CanMatch(p, s, i);
    CanMatchStep(p, s, i);
    OneLine(s, i);
    CanMatchStep(p[1..], s, 0);
    var tail := [Rep(Digit, Plus), End];
    assert p[1..][1..] == [Rep(Digit, Plus), Close(1), Lit('.')] + tail;
    j := RunThenDot(Digit, tail, s, 0);
    RunThenEnd(Digit, s, j + 1);
  }

  /** A `+` run of `cls`, a group's close and a dot at `k`: the dot sits at some `j` past a nonempty run. */
  lemma RunThenDot(cls: Class, tail: Pattern, s: string, k: nat) returns (j: nat)
    requires k <= |s| && CanMatch([Rep(cls, Plus), Close(1), Lit('.')] + tail, s, k)
    ensures k < j < |s| && AllIn(cls, s, k, j) && s[j] == '.' && CanMatch(tail, s, j + 1)
  {
    var p := [Rep(cls, Plus), Close(1), Lit('.')] + tail;
    CanMatchRep(p, s, k);
    j :| k <= j <= |s| && Admits(Plus, j - k) && AllIn(cls, s, k, j) && CanMatch(p[1..], s, j);
    CanMatchStep(p[1..], s, j);
    assert p[1..][1..] == [Lit('.')] + tail;
    CanMatchStep([Lit('.')] + tail, s, j);
    assert ([Lit('.')] + tail)[1..] == tail;
  }

  /** In a text without line feeds, a `+` run of `cls` then `$` from `k` covers the rest of the text. */
  lemma RunThenEnd(cls: Class, s: string, k: nat)
    requires '\n' !in s && k <= |s| && CanMatch([Rep(cls, Plus), End], s, k)
    ensures k < |s| && AllIn(cls, s, k, |s|)
  {
    var p := [Rep(cls, Plus), End];
    CanMatchRep(p, s, k);
    var e :| k <= e <= |s| && Admits(Plus, e - k) && AllIn(cls, s, k, e) && CanMatch(p[1..], s, e);
    assert p[1..] == [End];
    CanMatchStep([End], s, e);
    OneLine(s, e);
  }

  /** Digits, a dot at `j` and digits: the integer part is the text before the dot. */
  lemma IntegerPartAt(s: string, j: nat)
    requires 1 <= j < |s| - 1 && s[j] == '.'
    requires AllIn(Digit, s, 0, j) && AllIn(Digit, s, j + 1, |s|)
    ensures IntegerPart(s) == Some(s[..j])
  {
    AtOne(s, '.', j);
    forall m | 0 <= m < j ensures !At(s, ".", m) {
      AtOne(s, '.', m);
      assert IsDigitChar(s[m]);
    }
    FindFirst(s, ".", 0, j);
    assert IsDigits(s[..j]) by {
      var head := s[..j];
      forall m | 0 <= m < |head| ensures IsDigitChar(head[m]) {
        assert head[m] == s[m];
      }
    }
    assert IsDigits(s[j + 1..]) by {
      var tail := s[j + 1..];
      forall m | 0 <= m < |tail| ensures IsDigitChar(tail[m]) {
        assert tail[m] == s[j + 1 + m];
      }
    }
  }

  /** The decimal pattern matches a line-free text exactly when it has an integer part, and captures it. */
  lemma OmimDecimalIff(s: string)
    requires '\n' !in s
    ensures Search(OmimDecimal, s).Some? <==> IntegerPart(s).Some?
    ensures IntegerPart(s).Some? ==> Digits(OmimDecimal, s) == IntegerPart(s).value
  {
    SearchIff(OmimDecimal, s);
    if Matches(OmimDecimal, s) {
      var j := DecimalShape(s);
      IntegerPartAt(s, j);
    }
    if IntegerPart(s).Some? {
      var k := Find(s, ".", 0).value;
      AtOne(s, '.', k);
      OmimDecimalCaptures(s, k);
      assert Field(s, map[1 := (0, k)], 1) == s[..k];
    }
  }

  lemma MthuIff(s: string)
    ensures Search(Mthu, s).Some? <==> Find(s, "MTHU", 0).Some?
  {
    SearchIff(Mthu, s);
    assert Mthu + [] == Mthu;
    if Matches(Mthu, s) {
      var i :| 0 <= i <= |s| && CanMatch(Mthu, s, i);
      CanMatchLits("MTHU", [], s, i);
      assert At(s, "MTHU", i);
    }
    if Find(s, "MTHU", 0).Some? {
      var i := Find(s, "MTHU", 0).value;
      assert At(s, "MTHU", i);
      CanMatchLits("MTHU", [], s, i);
      assert CanMatch([], s, i + 4);
      assert CanMatch(Mthu, s, i);
      assert Matches(Mthu, s);
    }
  }

  /**
    For an identifier without line breaks (every SDUI the MGCONSO patterns
    accept is one), the OMIM branch links to the whole number, else to the
    integer part, else to the BioPortal OMIM term for an `MTHU` identifier, and
    exits otherwise.
  */
  lemma OmimLink(sdui: string, scui: string)
    requires '\n' !in sdui
    ensures Link(Omim, sdui, scui) == match OmimObject(sdui)
      case Some(o) => Success(Some(Line(o)))
      case None => Failure(Exit(sdui + UnknownOmim))
  {
    OmimNumberIff(sdui);
    OmimDecimalIff(sdui);
    MthuIff(sdui);
  }

  /** `(\d+)` at `i` on digits up to the end takes them all. */
  lemma DigitsToEnd(s: string, i: nat)
    requires i < |s| && AllIn(Digit, s, i, |s|)
    ensures MatchFrom(Cap(1, Digit, Plus), s, i, map[]) == Some(map[1 := (i, |s|)])
  {
    var rest := Cap(1, Digit, Plus);
    var c0: Captures := map[];
    var c1: Captures := map[1 := (i, i)];
    var c2: Captures := map[1 := (i, |s|)];
    MaxRunExact(Digit, s, i, |s|);
    assert rest[1..] == [Rep(Digit, Plus), Close(1)] && rest[1..][1..] == [Close(1)] && [Close(1)][1..] == [];
    MatchFromClose([Close(1)], s, |s|, c1);
    assert c1[1 := (i, |s|)] == c2;
    MatchFromGreedy(rest[1..], s, i, c1);
    MatchFromOpen(rest, s, i, c0);
    assert c0[1 := (i, i)] == c1;
  }

  /** `/T(\d+)/` on `T` followed by digits captures exactly those digits. */
  lemma PrefixedDigits(t: string, d: string)
    requires IsDigits(d)
    ensures Digits(Lits(t) + Cap(1, Digit, Plus), t + d) == d
  {
    var s := t + d;
    assert s[..|t|] == t && s[|t|..] == d && s[0..|t|] == t;
    assert AllIn(Digit, s, |t|, |s|) by {
      forall m | |t| <= m < |s| ensures IsDigitChar(s[m]) {
        assert s[m] == d[m - |t|];
      }
    }
    DigitsToEnd(s, |t|);
    MatchFromLits(t, Cap(1, Digit, Plus), s, 0, map[]);
    SearchFirst(Lits(t) + Cap(1, Digit, Plus), s);
    assert Field(s, map[1 := (|t|, |s|)], 1) == s[|t|..];
  }

  /** The prefixed-digits extraction gives digits, or "" exactly when the pattern does not match. */
  lemma DigitsOrEmpty(t: string, s: string)
    ensures var p := Lits(t) + Cap(1, Digit, Plus);
      (Digits(p, s) == "" <==> !Matches(p, s)) && (Digits(p, s) != "" ==> IsDigits(Digits(p, s)))
  {
    var p := Lits(t) + Cap(1, Digit, Plus);
    SearchIff(p, s);
    if Search(p, s).Some? {
      var c := Search(p, s).value;
      assert p[|t|] == Open(1) && p[|t| + 1] == Rep(Digit, Plus) && p[|t| + 2] == Close(1) && p[|t| + 3..] == [];
      CaptureIn(p, |t|, s, c);
      FieldOf(Digit, Plus, s, c, 1);
    }
  }

  /** `obo:HP_` is followed by the digits of an `HP:` identifier, and by nothing when there is none. */
  lemma HpoLink(sdui: string, scui: string, d: string)
    ensures IsDigits(d) ==> Link(Hpo, "HP:" + d, scui) == Success(Some(Line("obo:HP_" + d)))
    ensures Link(Hpo, sdui, scui) == Success(Some(Line("obo:HP_"))) <==> !Matches(HpId, sdui)
  {
    if IsDigits(d) {
      PrefixedDigits("HP:", d);
    }
    DigitsOrEmpty("HP:", sdui);
    assert Line("obo:HP_" + Digits(HpId, sdui)) == Line("obo:HP_") <==> Digits(HpId, sdui) == "" by {
      var x := Digits(HpId, sdui);
      if Line("obo:HP_" + x) == Line("obo:HP_") {
        assert |x| == 0;
      }
    }
  }

  /** The same for `MONDO:` identifiers. */
  lemma MondoLink(sdui: string, scui: string, d: string)
    ensures IsDigits(d) ==> Link(Mondo, "MONDO:" + d, scui) == Success(Some(Line("obo:MONDO_" + d)))
    ensures Link(Mondo, sdui, scui) == Success(Some(Line("obo:MONDO_"))) <==> !Matches(MondoId, sdui)
  {
    if IsDigits(d) {
      PrefixedDigits("MONDO:", d);
    }
    DigitsOrEmpty("MONDO:", sdui);
    assert Line("obo:MONDO_" + Digits(MondoId, sdui)) == Line("obo:MONDO_") <==> Digits(MondoId, sdui) == "" by {
      var x := Digits(MondoId, sdui);
      if Line("obo:MONDO_" + x) == Line("obo:MONDO_") {
        assert |x| == 0;
      }
    }
  }
}

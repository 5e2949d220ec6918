/**
  The fragment of Ruby's regular expressions that the converter's patterns use:
  the anchors `^` and `$` (line anchors, as in Ruby), literal characters, one
  character class under one of the quantifiers (none), `?`, `*`, `+`, `*?`, `+?`,
  and capture groups that are not themselves quantified.

  `MatchFrom` is Ruby's backtracking order: a greedy quantifier tries the longest
  run first, a lazy one the shortest, and `Search` tries start positions from the
  left.  `CanMatch` says declaratively which strings a pattern accepts; the two
  are proved to agree (`MatchIff`, `SearchIff`).
*/
module Regex {
  import opened Wrappers

  /** The character classes that occur in the converter's patterns (ASCII, as Ruby's `\w`, `\d`, `\s`). */
  datatype Class =
    | Word            // \w
    | Digit           // \d
    | Space           // \s
    | NonSpace        // \S
    | AnyButNewline   // .
    | LineBreak       // [\r\n]
    | NotQuoteOrDot   // [^\".]
    | DotOrBackslash  // [.\\]
    | DotColonOrWord  // [\.\:\w]
    | WordOrHyphen    // [\w\-\_]
    | WordOrSpace     // [\w\s]

  predicate IsWordChar(c: char) {
    ('A' <= c <= 'Z') || ('a' <= c <= 'z') || ('0' <= c <= '9') || c == '_'
  }

  predicate IsDigitChar(c: char) {
    '0' <= c <= '9'
  }

  /** Ruby's `\s`: space, tab, line feed, vertical tab, form feed, carriage return. */
  predicate IsSpaceChar(c: char) {
    c == ' ' || c == '\t' || c == '\n' || c == '\U{B}' || c == '\U{C}' || c == '\r'
  }

  predicate In(cls: Class, c: char) {
    match cls
    case Word => IsWordChar(c)
    case Digit => IsDigitChar(c)
    case Space => IsSpaceChar(c)
    case NonSpace => !IsSpaceChar(c)
    case AnyButNewline => c != '\n'
    case LineBreak => c == '\r' || c == '\n'
    case NotQuoteOrDot => c != '"' && c != '.'
    case DotOrBackslash => c == '.' || c == '\\'
    case DotColonOrWord => c == '.' || c == ':' || IsWordChar(c)
    case WordOrHyphen => IsWordChar(c) || c == '-'
    case WordOrSpace => IsWordChar(c) || IsSpaceChar(c)
  }

  /** Exactly one, `?`, `*`, `+`, `*?`, `+?`. */
  datatype Quant = One | Opt | Star | Plus | LazyStar | LazyPlus

  function MinCount(q: Quant): nat {
    if q == One || q == Plus || q == LazyPlus then 1 else 0
  }

  predicate AtMostOne(q: Quant) {
    q == One || q == Opt
  }

  predicate IsLazy(q: Quant) {
    q == LazyStar || q == LazyPlus
  }

  /** How many characters the quantifier `q` lets one atom consume. */
  predicate Admits(q: Quant, k: nat) {
    MinCount(q) <= k && (AtMostOne(q) ==> k <= 1)
  }

  datatype Atom =
    | Start                     // ^
    | End                       // $
    | Lit(c: char)              // a literal character
    | Rep(cls: Class, q: Quant) // a character class under a quantifier
    | Open(g: nat)              // ( of group g
    | Close(g: nat)             // ) of group g

  type Pattern = seq<Atom>

  /** Group number to the half-open span [start, end) it captured. */
  type Captures = map<nat, (nat, nat)>

  /** The literal characters of `t`, in order. */
  function Lits(t: string): (p: Pattern)
    ensures |p| == |t|
    ensures forall k :: 0 <= k < |t| ==> p[k] == Lit(t[k])
  {
    seq(|t|, k requires 0 <= k < |t| => Lit(t[k]))
  }

  /** A capture group around one quantified class: `(cls q)`. */
  function Cap(g: nat, cls: Class, q: Quant): Pattern {
    [Open(g), Rep(cls, q), Close(g)]
  }

  /**
    `^` as the converter's patterns use it: the start of the string or just
    after a line feed.  Ruby's `^` does not hold after a line feed that ends
    the string; every `^` here comes first in its pattern, so the search never
    asks at that position whether a match could start there.
  */
  predicate AtLineStart(s: string, i: nat)
    requires i <= |s|
  {
    i == 0 || s[i - 1] == '\n'
  }

  /** Ruby's `$`: the end of the string or just before a line feed. */
  predicate AtLineEnd(s: string, i: nat)
    requires i <= |s|
  {
    i == |s| || s[i] == '\n'
  }

  predicate AllIn(cls: Class, s: string, i: nat, j: nat)
    requires i <= j <= |s|
  {
    forall m :: i <= m < j ==> In(cls, s[m])
  }

  /** Every capture lies inside the string and starts at or before position `i`. */
  ghost predicate Within(caps: Captures, i: nat, n: nat) {
    forall g :: g in caps ==> caps[g].0 <= caps[g].1 <= n && caps[g].0 <= i
  }

  /** The longest run of `cls` characters starting at `i`. */
  function MaxRun(cls: Class, s: string, i: nat): (n: nat)
    requires i <= |s|
    ensures i + n <= |s|
    ensures AllIn(cls, s, i, i + n)
    ensures i + n == |s| || !In(cls, s[i + n])
    decreases |s| - i
  {
    if i < |s| && In(cls, s[i]) then 1 + MaxRun(cls, s, i + 1) else 0
  }

  /** The most characters the atom `Rep(cls, q)` can consume at position `i` (see `SpanMax` for "most"). */
  function Span(cls: Class, q: Quant, s: string, i: nat): (n: nat)
    requires i <= |s|
    ensures i + n <= |s|
    ensures AllIn(cls, s, i, i + n)
    ensures AtMostOne(q) ==> n <= 1
  {
    var n := MaxRun(cls, s, i);
    if AtMostOne(q) && n > 1 then 1 else n
  }

  /** Every run of `cls` the quantifier `q` allows at `i` is at most `Span` long. */
  lemma SpanMax(cls: Class, q: Quant, s: string, i: nat, j: nat)
    requires i <= j <= |s| && AllIn(cls, s, i, j) && (AtMostOne(q) ==> j - i <= 1)
    ensures j <= i + Span(cls, q, s, i)
  {
    var n := MaxRun(cls, s, i);
    if i + n < j {
      assert false;
    }
  }

  /** Where count `k` sits among the counts tried. */
  function CountIndex(lazy: bool, lo: nat, hi: nat, k: nat): nat
    requires lo <= k <= hi
  {
    if lazy then k - lo else hi - k
  }

  /** The counts a quantifier tries, in Ruby's order: longest first when greedy, shortest first when lazy. */
  function Counts(lazy: bool, lo: nat, hi: nat): (ks: seq<nat>)
    requires lo <= hi
    ensures |ks| == hi - lo + 1
    ensures forall m :: 0 <= m < |ks| ==> lo <= ks[m] <= hi
    ensures forall k :: lo <= k <= hi ==> CountIndex(lazy, lo, hi, k) < |ks| && ks[CountIndex(lazy, lo, hi, k)] == k
  {
    seq(hi - lo + 1, m requires 0 <= m <= hi - lo => if lazy then lo + m else hi - m)
  }

  /** Ruby's backtracking match of `p` anchored at position `i`; the captures so far are `caps`. */
  function MatchFrom(p: Pattern, s: string, i: nat, caps: Captures): (r: Option<Captures>)
    requires i <= |s|
    requires Within(caps, i, |s|)
    ensures r.Some? ==> Within(r.value, |s|, |s|)
    decreases |p|, 2, 0
  {
    if p == [] then Some(caps)
    else
      var rest := p[1..];
      match p[0]
      case Start => if AtLineStart(s, i) then MatchFrom(rest, s, i, caps) else None
      case End => if AtLineEnd(s, i) then MatchFrom(rest, s, i, caps) else None
      case Lit(c) => if i < |s| && s[i] == c then MatchFrom(rest, s, i + 1, caps) else None
      case Open(g) => MatchFrom(rest, s, i, caps[g := (i, i)])
      case Close(g) => MatchFrom(rest, s, i, caps[g := (if g in caps then caps[g].0 else i, i)])
      case Rep(_, _) => MatchRep(p, s, i, caps)
  }

  /** `MatchFrom` at a quantified class: try each count the quantifier allows. */
  function MatchRep(p: Pattern, s: string, i: nat, caps: Captures): (r: Option<Captures>)
    requires p != [] && p[0].Rep?
    requires i <= |s|
    requires Within(caps, i, |s|)
    ensures r.Some? ==> Within(r.value, |s|, |s|)
    decreases |p|, 1, 0
  {
    var cls, q := p[0].cls, p[0].q;
    var n := Span(cls, q, s, i);
    if n < MinCount(q) then None
    else TryCounts(p[1..], s, i, Counts(IsLazy(q), MinCount(q), n), caps)
  }

  /** Try the remaining pattern after consuming each count of `ks` in turn; the first success wins. */
  function TryCounts(rest: Pattern, s: string, i: nat, ks: seq<nat>, caps: Captures): (r: Option<Captures>)
    requires forall m :: 0 <= m < |ks| ==> i + ks[m] <= |s|
    requires i <= |s| && Within(caps, i, |s|)
    ensures r.Some? ==> Within(r.value, |s|, |s|)
    decreases |rest| + 1, 0, |ks|
  {
    if ks == [] then None
    else
      var first := MatchFrom(rest, s, i + ks[0], caps);
      if first.Some? then first else TryCounts(rest, s, i, ks[1..], caps)
  }

  /** Ruby's `pattern =~ s`: the leftmost start position at which the pattern matches. */
  function SearchFrom(p: Pattern, s: string, start: nat): (r: Option<Captures>)
    requires start <= |s| + 1
    ensures r.Some? ==> Within(r.value, |s|, |s|)
    decreases |s| + 1 - start
  {
    if start > |s| then None
    else
      var m := MatchFrom(p, s, start, map[]);
      if m.Some? then m else SearchFrom(p, s, start + 1)
  }

  function Search(p: Pattern, s: string): (r: Option<Captures>)
    ensures r.Some? ==> Within(r.value, |s|, |s|)
  {
    SearchFrom(p, s, 0)
  }

  /** The text of group `g` (Ruby's `$g`); nil when the group did not take part. */
  function Group(s: string, caps: Captures, g: nat): (r: Option<string>)
    requires Within(caps, |s|, |s|)
    ensures r.Some? <==> g in caps
    ensures r.Some? ==> |r.value| <= |s|
  {
    if g in caps then Some(s[caps[g].0 .. caps[g].1]) else None
  }

  /** `$g` as interpolated into a string: the group's text, or "" for nil. */
  function Field(s: string, caps: Captures, g: nat): (r: string)
    requires Within(caps, |s|, |s|)
    ensures g !in caps ==> r == ""
  {
    Group(s, caps, g).GetOr("")
  }

  // ---------------------------------------------------------------------
  // The language of a pattern, stated without any search order.

  /** `p` can match the text of `s` that begins at position `i`. */
  ghost predicate CanMatch(p: Pattern, s: string, i: nat)
    requires i <= |s|
    decreases |p|, 1
  {
    if p == [] then true
    else match p[0]
      case Start => AtLineStart(s, i) && CanMatch(p[1..], s, i)
      case End => AtLineEnd(s, i) && CanMatch(p[1..], s, i)
      case Lit(c) => i < |s| && s[i] == c && CanMatch(p[1..], s, i + 1)
      case Open(_) => CanMatch(p[1..], s, i)
      case Close(_) => CanMatch(p[1..], s, i)
      case Rep(cls, q) => RepThen(cls, q, p[1..], s, i)
  }

  /** A run of `cls` that `q` admits, from `i` to some `j` where `rest` can match. */
  ghost predicate RepThen(cls: Class, q: Quant, rest: Pattern, s: string, i: nat)
    requires i <= |s|
    decreases |rest| + 1, 0
  {
    exists j :: i <= j <= |s| && Admits(q, j - i) && AllIn(cls, s, i, j) && CanMatch(rest, s, j)
  }

  /** `p =~ s` succeeds. */
  ghost predicate Matches(p: Pattern, s: string) {
    exists i :: 0 <= i <= |s| && CanMatch(p, s, i)
  }

  lemma {:induction false} MatchIff(p: Pattern, s: string, i: nat, caps: Captures)
    requires i <= |s| && Within(caps, i, |s|)
    ensures MatchFrom(p, s, i, caps).Some? <==> CanMatch(p, s, i)
    decreases |p|, 2, 0
  {
    if p != [] {
      var rest := p[1..];
      match p[0]
      case Start => if AtLineStart(s, i) { MatchIff(rest, s, i, caps); }
      case End => if AtLineEnd(s, i) { MatchIff(rest, s, i, caps); }
      case Lit(c) => if i < |s| && s[i] == c { MatchIff(rest, s, i + 1, caps); }
      case Open(g) => MatchIff(rest, s, i, caps[g := (i, i)]);
      case Close(g) => MatchIff(rest, s, i, caps[g := (if g in caps then caps[g].0 else i, i)]);
      case Rep(_, _) => RepIff(p, s, i, caps);
    }
  }

  lemma {:induction false} RepIff(p: Pattern, s: string, i: nat, caps: Captures)
    requires p != [] && p[0].Rep?
    requires i <= |s| && Within(caps, i, |s|)
    ensures MatchFrom(p, s, i, caps).Some? <==> CanMatch(p, s, i)
    decreases |p|, 1, 0
  {
    var cls, q := p[0].cls, p[0].q;
    var n := Span(cls, q, s, i);
    MatchFromRep(p, s, i, caps);
    CanMatchRep(p, s, i);
    if n < MinCount(q) {
      NoRun(cls, q, p[1..], s, i);
    } else {
      var ks := Counts(IsLazy(q), MinCount(q), n);
      TryCountsIff(p[1..], s, i, ks, caps);
      RunsTried(cls, q, p[1..], s, i);
      TriedRuns(cls, q, p[1..], s, i);
    }
  }

  /** When the longest run is too short for the quantifier, no run is admissible. */
  lemma NoRun(cls: Class, q: Quant, rest: Pattern, s: string, i: nat)
    requires i <= |s| && Span(cls, q, s, i) < MinCount(q)
    ensures !exists j :: i <= j <= |s| && Admits(q, j - i) && AllIn(cls, s, i, j) && CanMatch(rest, s, j)
  {
    if j :| i <= j <= |s| && Admits(q, j - i) && AllIn(cls, s, i, j) && CanMatch(rest, s, j) {
      SpanMax(cls, q, s, i, j);
    }
  }

  /** Every admissible run is among the counts a quantifier tries. */
  lemma RunsTried(cls: Class, q: Quant, rest: Pattern, s: string, i: nat)
    requires i <= |s| && MinCount(q) <= Span(cls, q, s, i)
    ensures var ks := Counts(IsLazy(q), MinCount(q), Span(cls, q, s, i));
      (exists j :: i <= j <= |s| && Admits(q, j - i) && AllIn(cls, s, i, j) && CanMatch(rest, s, j)) ==>
      (exists m :: 0 <= m < |ks| && CanMatch(rest, s, i + ks[m]))
  {
    if j :| i <= j <= |s| && Admits(q, j - i) && AllIn(cls, s, i, j) && CanMatch(rest, s, j) {
      var m := RunTried(cls, q, s, i, j);
    }
  }

  /** Every count a quantifier tries is an admissible run. */
  lemma TriedRuns(cls: Class, q: Quant, rest: Pattern, s: string, i: nat)
    requires i <= |s| && MinCount(q) <= Span(cls, q, s, i)
    ensures var ks := Counts(IsLazy(q), MinCount(q), Span(cls, q, s, i));
      (exists m :: 0 <= m < |ks| && CanMatch(rest, s, i + ks[m])) ==>
      (exists j :: i <= j <= |s| && Admits(q, j - i) && AllIn(cls, s, i, j) && CanMatch(rest, s, j))
  {
    var ks := Counts(IsLazy(q), MinCount(q), Span(cls, q, s, i));
    if m :| 0 <= m < |ks| && CanMatch(rest, s, i + ks[m]) {
      SpanAdmits(cls, q, s, i, ks[m]);
    }
  }

  /** An admissible run ending at `j` is one of the counts tried. */
  lemma RunTried(cls: Class, q: Quant, s: string, i: nat, j: nat) returns (m: nat)
    requires i <= j <= |s| && Admits(q, j - i) && AllIn(cls, s, i, j)
    ensures MinCount(q) <= Span(cls, q, s, i)
    ensures var ks := Counts(IsLazy(q), MinCount(q), Span(cls, q, s, i));
      m < |ks| && i + ks[m] == j
  {
    SpanMax(cls, q, s, i, j);
    m := CountIndex(IsLazy(q), MinCount(q), Span(cls, q, s, i), j - i);
  }

  lemma MatchFromRep(p: Pattern, s: string, i: nat, caps: Captures)
    requires p != [] && p[0].Rep?
    requires i <= |s| && Within(caps, i, |s|)
    ensures var n := Span(p[0].cls, p[0].q, s, i);
      MatchFrom(p, s, i, caps) ==
        if n < MinCount(p[0].q) then None
        else TryCounts(p[1..], s, i, Counts(IsLazy(p[0].q), MinCount(p[0].q), n), caps)
  {
    assert MatchFrom(p, s, i, caps) == MatchRep(p, s, i, caps);
  }

  lemma CanMatchRep(p: Pattern, s: string, i: nat)
    requires p != [] && p[0].Rep?
    requires i <= |s|
    ensures CanMatch(p, s, i) <==>
      exists j :: i <= j <= |s| && Admits(p[0].q, j - i) && AllIn(p[0].cls, s, i, j) && CanMatch(p[1..], s, j)
  {
    assert CanMatch(p, s, i) == RepThen(p[0].cls, p[0].q, p[1..], s, i);
  }

  /** What `CanMatch` says about an atom other than a quantified class. */
  lemma CanMatchStep(p: Pattern, s: string, i: nat)
    requires p != [] && !p[0].Rep? && i <= |s| && CanMatch(p, s, i)
    ensures p[0].Lit? ==> i < |s| && s[i] == p[0].c && CanMatch(p[1..], s, i + 1)
    ensures !p[0].Lit? ==> CanMatch(p[1..], s, i)
    ensures p[0].Start? ==> AtLineStart(s, i)
    ensures p[0].End? ==> AtLineEnd(s, i)
  {
  }

  /** `CanMatch` of a pattern written as a literal in front of the rest. */
  lemma ConsLit(c: char, t: Pattern, s: string, i: nat)
    requires i <= |s|
    ensures CanMatch([Lit(c)] + t, s, i) <==> i < |s| && s[i] == c && CanMatch(t, s, i + 1)
  {
    assert ([Lit(c)] + t)[1..] == t;
  }

  /** `CanMatch` of a pattern written as a group bracket in front of the rest. */
  lemma ConsBracket(a: Atom, t: Pattern, s: string, i: nat)
    requires (a.Open? || a.Close?) && i <= |s|
    ensures CanMatch([a] + t, s, i) <==> CanMatch(t, s, i)
  {
    assert ([a] + t)[1..] == t;
  }

  /** `CanMatch` of a pattern written as a quantified class in front of the rest. */
  lemma ConsRep(cls: Class, q: Quant, t: Pattern, s: string, i: nat)
    requires i <= |s|
    ensures CanMatch([Rep(cls, q)] + t, s, i) <==>
      exists j :: i <= j <= |s| && Admits(q, j - i) && AllIn(cls, s, i, j) && CanMatch(t, s, j)
  {
    assert ([Rep(cls, q)] + t)[1..] == t;
    assert CanMatch([Rep(cls, q)] + t, s, i) == RepThen(cls, q, t, s, i);
  }

  /** Two adjacent runs of `cls` make one. */
  lemma AllInJoin(cls: Class, s: string, i: nat, j: nat, k: nat)
    requires i <= j <= k <= |s| && AllIn(cls, s, i, j) && AllIn(cls, s, j, k)
    ensures AllIn(cls, s, i, k)
  {
  }

  lemma {:induction false} TryCountsIff(rest: Pattern, s: string, i: nat, ks: seq<nat>, caps: Captures)
    requires forall m :: 0 <= m < |ks| ==> i + ks[m] <= |s|
    requires i <= |s| && Within(caps, i, |s|)
    ensures TryCounts(rest, s, i, ks, caps).Some? <==> exists m :: 0 <= m < |ks| && CanMatch(rest, s, i + ks[m])
    decreases |rest| + 1, 0, |ks|
  {
    if ks != [] {
      MatchIff(rest, s, i + ks[0], caps);
      TryCountsIff(rest, s, i, ks[1..], caps);
      if exists m :: 0 <= m < |ks| && CanMatch(rest, s, i + ks[m]) {
        var m :| 0 <= m < |ks| && CanMatch(rest, s, i + ks[m]);
        if m > 0 {
          assert ks[1..][m - 1] == ks[m];
        }
      }
      if TryCounts(rest, s, i, ks[1..], caps).Some? {
        var m :| 0 <= m < |ks[1..]| && CanMatch(rest, s, i + ks[1..][m]);
        assert ks[m + 1] == ks[1..][m];
      }
    }
  }

  lemma {:induction false} SearchFromIff(p: Pattern, s: string, start: nat)
    requires start <= |s| + 1
    ensures SearchFrom(p, s, start).Some? <==> exists i :: start <= i <= |s| && CanMatch(p, s, i)
    decreases |s| + 1 - start
  {
    if start <= |s| {
      MatchIff(p, s, start, map[]);
      SearchFromIff(p, s, start + 1);
    }
  }

  /** The search succeeds exactly when the string holds a match of the pattern somewhere. */
  lemma SearchIff(p: Pattern, s: string)
    ensures Search(p, s).Some? <==> Matches(p, s)
  {
    SearchFromIff(p, s, 0);
    assert Search(p, s) == SearchFrom(p, s, 0);
    if Search(p, s).Some? {
      var i: nat :| 0 <= i <= |s| && CanMatch(p, s, i);
      assert Matches(p, s);
    } else {
      forall i | 0 <= i <= |s| ensures !CanMatch(p, s, i) {
      }
    }
  }

  // ---------------------------------------------------------------------
  // What a successful match says about the text each group captured.

  /** A successful search is a successful match at some start position. */
  lemma {:induction false} SearchFromSome(p: Pattern, s: string, start: nat, r: Captures) returns (i: nat)
    requires start <= |s| + 1
    requires SearchFrom(p, s, start) == Some(r)
    ensures start <= i <= |s| && MatchFrom(p, s, i, map[]) == Some(r)
    decreases |s| + 1 - start
  {
    if MatchFrom(p, s, start, map[]).Some? {
      i := start;
    } else {
      i := SearchFromSome(p, s, start + 1, r);
    }
  }

  /** The counts tried by `TryCounts` include one after which the rest of the pattern produced its result. */
  lemma {:induction false} TryCountsSome(rest: Pattern, s: string, i: nat, ks: seq<nat>, caps: Captures, r: Captures)
    returns (m: nat)
    requires forall m :: 0 <= m < |ks| ==> i + ks[m] <= |s|
    requires i <= |s| && Within(caps, i, |s|)
    requires TryCounts(rest, s, i, ks, caps) == Some(r)
    ensures m < |ks| && MatchFrom(rest, s, i + ks[m], caps) == Some(r)
    decreases |ks|
  {
    TryCountsUnfold(rest, s, i, ks, caps);
    if MatchFrom(rest, s, i + ks[0], caps).Some? {
      m := 0;
    } else {
      var m' := TryCountsSome(rest, s, i, ks[1..], caps, r);
      m := m' + 1;
      assert ks[m] == ks[1..][m'];
    }
  }

  lemma TryCountsUnfold(rest: Pattern, s: string, i: nat, ks: seq<nat>, caps: Captures)
    requires ks != []
    requires forall m :: 0 <= m < |ks| ==> i + ks[m] <= |s|
    requires i <= |s| && Within(caps, i, |s|)
    ensures TryCounts(rest, s, i, ks, caps) ==
      if MatchFrom(rest, s, i + ks[0], caps).Some? then MatchFrom(rest, s, i + ks[0], caps) else TryCounts(rest, s, i, ks[1..], caps)
  {
  }

  /** The captures after the atom `a` at position `i`, when it is a group bracket. */
  function Bracketed(a: Atom, i: nat, caps: Captures): Captures {
    match a
    case Open(g) => caps[g := (i, i)]
    case Close(g) => caps[g := (if g in caps then caps[g].0 else i, i)]
    case _ => caps
  }

  /** One atom of a successful match: where the rest of the pattern took over, and with which captures. */
  lemma MatchStep(p: Pattern, s: string, i: nat, caps: Captures, r: Captures) returns (j: nat, c: Captures)
    requires p != [] && i <= |s| && Within(caps, i, |s|)
    requires MatchFrom(p, s, i, caps) == Some(r)
    ensures i <= j <= |s| && Within(c, j, |s|) && MatchFrom(p[1..], s, j, c) == Some(r)
    ensures c == Bracketed(p[0], i, caps)
  {
    c := Bracketed(p[0], i, caps);
    match p[0]
    case Start => j := i;
    case End => j := i;
    case Lit(_) => j := i + 1;
    case Open(_) => j := i;
    case Close(_) => j := i;
    case Rep(cls, q) =>
      MatchFromRep(p, s, i, caps);
      var ks := Counts(IsLazy(q), MinCount(q), Span(cls, q, s, i));
      var m := TryCountsSome(p[1..], s, i, ks, caps, r);
      j := i + ks[m];
  }

  /** Whatever `pre` did, a successful match of `pre + rest` ends with a successful match of `rest`. */
  lemma {:induction false} MatchPrefix(pre: Pattern, rest: Pattern, s: string, i: nat, caps: Captures, r: Captures)
    returns (j: nat, c: Captures)
    requires i <= |s| && Within(caps, i, |s|)
    requires MatchFrom(pre + rest, s, i, caps) == Some(r)
    ensures i <= j <= |s| && Within(c, j, |s|) && MatchFrom(rest, s, j, c) == Some(r)
    decreases |pre|
  {
    var p := pre + rest;
    if pre == [] {
      assert p == rest;
      j, c := i, caps;
    } else {
      assert p[1..] == pre[1..] + rest;
      var j', c' := MatchStep(p, s, i, caps, r);
      j, c := MatchPrefix(pre[1..], rest, s, j', c', r);
    }
  }

  /** What is not in a sequence is not in its tail. */
  lemma NotInTail(p: Pattern, a: Atom)
    requires p != [] && a !in p
    ensures a !in p[1..]
  {
  }

  /** A group the pattern never opens or closes keeps the capture it had, or stays absent. */
  lemma {:induction false} MatchUntouched(p: Pattern, s: string, i: nat, caps: Captures, r: Captures, g: nat)
    requires i <= |s| && Within(caps, i, |s|)
    requires Open(g) !in p && Close(g) !in p
    requires MatchFrom(p, s, i, caps) == Some(r)
    ensures g in r <==> g in caps
    ensures g in caps ==> r[g] == caps[g]
    decreases |p|
  {
    if p != [] {
      assert p[0] in p;
      NotInTail(p, Open(g));
      NotInTail(p, Close(g));
      var j, c := MatchStep(p, s, i, caps, r);
      MatchUntouched(p[1..], s, j, c, r, g);
    }
  }

  /** A successful search captures no group that the pattern does not contain. */
  lemma SearchUntouched(p: Pattern, s: string, r: Captures, g: nat)
    requires Open(g) !in p && Close(g) !in p
    requires Search(p, s) == Some(r)
    ensures g !in r
  {
    var i := SearchFromSome(p, s, 0, r);
    MatchUntouched(p, s, i, map[], r, g);
  }

  lemma MatchFromLit(p: Pattern, s: string, i: nat, caps: Captures)
    requires p != [] && p[0].Lit? && i < |s| && s[i] == p[0].c
    requires Within(caps, i, |s|)
    ensures MatchFrom(p, s, i, caps) == MatchFrom(p[1..], s, i + 1, caps)
  {
  }

  lemma MatchFromOpen(p: Pattern, s: string, i: nat, caps: Captures)
    requires p != [] && p[0].Open?
    requires i <= |s| && Within(caps, i, |s|)
    ensures MatchFrom(p, s, i, caps) == MatchFrom(p[1..], s, i, caps[p[0].g := (i, i)])
  {
  }

  lemma MatchFromClose(p: Pattern, s: string, i: nat, caps: Captures)
    requires p != [] && p[0].Close? && p[0].g in caps
    requires i <= |s| && Within(caps, i, |s|)
    ensures MatchFrom(p, s, i, caps) == MatchFrom(p[1..], s, i, caps[p[0].g := (caps[p[0].g].0, i)])
  {
  }

  /** A match at the very start is the leftmost one. */
  lemma SearchFirst(p: Pattern, s: string)
    requires MatchFrom(p, s, 0, map[]).Some?
    ensures Search(p, s) == MatchFrom(p, s, 0, map[])
  {
  }

  /** Literal characters that are there are consumed one by one, captures untouched. */
  lemma {:induction false} MatchFromLits(t: string, rest: Pattern, s: string, i: nat, caps: Captures)
    requires i + |t| <= |s| && s[i .. i + |t|] == t && Within(caps, i, |s|)
    ensures MatchFrom(Lits(t) + rest, s, i, caps) == MatchFrom(rest, s, i + |t|, caps)
    decreases |t|
  {
    var p := Lits(t) + rest;
    if t == [] {
      assert p == rest;
    } else {
      assert p[0] == Lit(t[0]) && p[1..] == Lits(t[1..]) + rest;
      assert s[i] == s[i .. i + |t|][0] == t[0];
      assert s[i + 1 .. i + 1 + |t[1..]|] == s[i .. i + |t|][1..];
      MatchFromLit(p, s, i, caps);
      MatchFromLits(t[1..], rest, s, i + 1, caps);
    }
  }

  /** A run of `cls` from `i` to `j` that cannot be extended is the longest run. */
  lemma {:induction false} MaxRunExact(cls: Class, s: string, i: nat, j: nat)
    requires i <= j <= |s| && AllIn(cls, s, i, j)
    requires j == |s| || !In(cls, s[j])
    ensures MaxRun(cls, s, i) == j - i
    decreases j - i
  {
    if i < j {
      MaxRunExact(cls, s, i + 1, j);
    }
  }

  /** A greedy quantifier keeps its longest run when the rest of the pattern succeeds after it. */
  lemma MatchFromGreedy(p: Pattern, s: string, i: nat, caps: Captures)
    requires p != [] && p[0].Rep? && !IsLazy(p[0].q)
    requires i <= |s| && Within(caps, i, |s|)
    requires MinCount(p[0].q) <= Span(p[0].cls, p[0].q, s, i)
    requires MatchFrom(p[1..], s, i + Span(p[0].cls, p[0].q, s, i), caps).Some?
    ensures MatchFrom(p, s, i, caps) == MatchFrom(p[1..], s, i + Span(p[0].cls, p[0].q, s, i), caps)
  {
    var n := Span(p[0].cls, p[0].q, s, i);
    var ks := Counts(false, MinCount(p[0].q), n);
    assert ks[0] == n;
    MatchFromRep(p, s, i, caps);
    TryCountsUnfold(p[1..], s, i, ks, caps);
  }

  /** Every count a quantifier tries consumes a run of its class that the quantifier admits. */
  lemma SpanAdmits(cls: Class, q: Quant, s: string, i: nat, k: nat)
    requires i <= |s| && MinCount(q) <= k <= Span(cls, q, s, i)
    ensures i + k <= |s| && AllIn(cls, s, i, i + k) && Admits(q, k)
  {
    forall m | i <= m < i + k ensures In(cls, s[m]) {
    }
  }

  /** Closing group `g` at `j` fixes its capture for the rest of a pattern that does not mention it. */
  lemma CaptureClose(p: Pattern, s: string, j: nat, caps: Captures, r: Captures)
    requires p != [] && p[0].Close? && p[0].g in caps
    requires Open(p[0].g) !in p[1..] && Close(p[0].g) !in p[1..]
    requires j <= |s| && Within(caps, j, |s|)
    requires MatchFrom(p, s, j, caps) == Some(r)
    ensures p[0].g in r && r[p[0].g] == (caps[p[0].g].0, j)
  {
    var g := p[0].g;
    MatchFromClose(p, s, j, caps);
    var c2 := caps[g := (caps[g].0, j)];
    MatchUntouched(p[1..], s, j, c2, r, g);
  }

  /** A group around one quantified class captures a run of that class of admissible length. */
  lemma CaptureAt(p: Pattern, s: string, i: nat, caps: Captures, r: Captures)
    requires |p| >= 3 && p[0].Open? && p[1].Rep? && p[2] == Close(p[0].g)
    requires Open(p[0].g) !in p[3..] && Close(p[0].g) !in p[3..]
    requires i <= |s| && Within(caps, i, |s|)
    requires MatchFrom(p, s, i, caps) == Some(r)
    ensures p[0].g in r && r[p[0].g].0 == i && i <= r[p[0].g].1 <= |s|
    ensures AllIn(p[1].cls, s, i, r[p[0].g].1) && Admits(p[1].q, r[p[0].g].1 - i)
  {
    var g, cls, q := p[0].g, p[1].cls, p[1].q;
    var p1 := p[1..];
    var p2 := p1[1..];
    assert p2[0] == Close(g) && p2[1..] == p[3..];
    var c1 := caps[g := (i, i)];
    MatchFromOpen(p, s, i, caps);
    MatchFromRep(p1, s, i, c1);
    var n := Span(cls, q, s, i);
    CaptureCounts(p2, cls, q, s, i, Counts(IsLazy(q), MinCount(q), n), c1, r);
  }

  lemma CaptureCounts(p: Pattern, cls: Class, q: Quant, s: string, i: nat, ks: seq<nat>, caps: Captures, r: Captures)
    requires p != [] && p[0].Close? && p[0].g in caps && caps[p[0].g].0 == i
    requires Open(p[0].g) !in p[1..] && Close(p[0].g) !in p[1..]
    requires i <= |s| && Within(caps, i, |s|)
    requires forall m :: 0 <= m < |ks| ==> MinCount(q) <= ks[m] <= Span(cls, q, s, i)
    requires forall m :: 0 <= m < |ks| ==> i + ks[m] <= |s|
    requires TryCounts(p, s, i, ks, caps) == Some(r)
    ensures p[0].g in r && r[p[0].g].0 == i && i <= r[p[0].g].1 <= |s|
    ensures AllIn(cls, s, i, r[p[0].g].1) && Admits(q, r[p[0].g].1 - i)
  {
    var m := TryCountsSome(p, s, i, ks, caps, r);
    var k := ks[m];
    SpanAdmits(cls, q, s, i, k);
    CaptureClose(p, s, i + k, caps, r);
  }

  /**
    The text captured by group `g` of a successful search, where `p[a..a + 3]` is
    `(cls q)` and the rest of the pattern does not mention `g`, is a run of `cls`.
  */
  lemma CaptureIn(p: Pattern, a: nat, s: string, r: Captures)
    requires a + 3 <= |p| && p[a].Open? && p[a + 1].Rep? && p[a + 2] == Close(p[a].g)
    requires Open(p[a].g) !in p[a + 3..] && Close(p[a].g) !in p[a + 3..]
    requires Search(p, s) == Some(r)
    ensures p[a].g in r && r[p[a].g].0 <= r[p[a].g].1 <= |s|
    ensures AllIn(p[a + 1].cls, s, r[p[a].g].0, r[p[a].g].1) && Admits(p[a + 1].q, r[p[a].g].1 - r[p[a].g].0)
  {
    var i := SearchFromSome(p, s, 0, r);
    assert p == p[..a] + p[a..];
    var j, c := MatchPrefix(p[..a], p[a..], s, i, map[], r);
    var t := p[a..];
    assert t[0] == p[a] && t[1] == p[a + 1] && t[2] == p[a + 2] && t[3..] == p[a + 3..];
    CaptureAt(t, s, j, c, r);
  }

  /** `CaptureIn` for a pattern written as the parts before, around and after the group. */
  lemma CaptureInParts(pre: Pattern, g: nat, cls: Class, q: Quant, post: Pattern, s: string, r: Captures)
    requires Open(g) !in post && Close(g) !in post
    requires Search(pre + Cap(g, cls, q) + post, s) == Some(r)
    ensures g in r && r[g].0 <= r[g].1 <= |s|
    ensures AllIn(cls, s, r[g].0, r[g].1) && Admits(q, r[g].1 - r[g].0)
  {
    var p := pre + Cap(g, cls, q) + post;
    var a := |pre|;
    assert p[a] == Open(g) && p[a + 1] == Rep(cls, q) && p[a + 2] == Close(g);
    assert p[a + 3..] == post;
    CaptureIn(p, a, s, r);
  }

  /** What `CaptureIn` says about a group's span, read off the captured text itself. */
  lemma FieldOf(cls: Class, q: Quant, s: string, c: Captures, g: nat)
    requires Within(c, |s|, |s|) && g in c && c[g].0 <= c[g].1 <= |s|
    requires AllIn(cls, s, c[g].0, c[g].1) && Admits(q, c[g].1 - c[g].0)
    ensures Admits(q, |Field(s, c, g)|)
    ensures forall k :: 0 <= k < |Field(s, c, g)| ==> In(cls, Field(s, c, g)[k])
  {
    var f := Field(s, c, g);
    assert f == s[c[g].0 .. c[g].1];
    forall k | 0 <= k < |f| ensures In(cls, f[k]) {
      assert f[k] == s[c[g].0 + k];
    }
  }

  // ---------------------------------------------------------------------
  // Comparing the languages of two patterns.

  /** Patterns that agree on a prefix: a suffix that matches wherever `x` does makes `pre + y` match wherever `pre + x` does. */
  lemma {:induction false} Congruence(pre: Pattern, x: Pattern, y: Pattern, s: string, i: nat)
    requires i <= |s|
    requires forall j :: i <= j <= |s| && CanMatch(x, s, j) ==> CanMatch(y, s, j)
    requires CanMatch(pre + x, s, i)
    ensures CanMatch(pre + y, s, i)
    decreases |pre|
  {
    if pre == [] {
      assert pre + x == x && pre + y == y;
    } else {
      var px, py := pre + x, pre + y;
      assert px[0] == pre[0] && px[1..] == pre[1..] + x;
      assert py[0] == pre[0] && py[1..] == pre[1..] + y;
      match pre[0]
      case Start => Congruence(pre[1..], x, y, s, i);
      case End => Congruence(pre[1..], x, y, s, i);
      case Lit(_) => Congruence(pre[1..], x, y, s, i + 1);
      case Open(_) => Congruence(pre[1..], x, y, s, i);
      case Close(_) => Congruence(pre[1..], x, y, s, i);
      case Rep(cls, q) =>
        CanMatchRep(px, s, i);
        CanMatchRep(py, s, i);
        var j :| i <= j <= |s| && Admits(q, j - i) && AllIn(cls, s, i, j) && CanMatch(px[1..], s, j);
        Congruence(pre[1..], x, y, s, j);
    }
  }

  /** Widening the class of one quantified atom keeps every match. */
  lemma WidenRep(c1: Class, c2: Class, q: Quant, rest: Pattern, s: string, i: nat)
    requires forall ch :: In(c1, ch) ==> In(c2, ch)
    requires i <= |s| && CanMatch([Rep(c1, q)] + rest, s, i)
    ensures CanMatch([Rep(c2, q)] + rest, s, i)
  {
    var p1, p2 := [Rep(c1, q)] + rest, [Rep(c2, q)] + rest;
    assert p1[1..] == rest && p2[1..] == rest;
    CanMatchRep(p1, s, i);
    CanMatchRep(p2, s, i);
    var j :| i <= j <= |s| && Admits(q, j - i) && AllIn(c1, s, i, j) && CanMatch(rest, s, j);
    assert AllIn(c2, s, i, j);
  }

  /** Whole-pattern form of `WidenRep`: every text `pre + [Rep(c1, q)] + rest` matches, `pre + [Rep(c2, q)] + rest` matches. */
  lemma MatchesWiden(pre: Pattern, c1: Class, c2: Class, q: Quant, rest: Pattern, s: string)
    requires forall ch :: In(c1, ch) ==> In(c2, ch)
    ensures Matches(pre + ([Rep(c1, q)] + rest), s) ==> Matches(pre + ([Rep(c2, q)] + rest), s)
  {
    var x, y := [Rep(c1, q)] + rest, [Rep(c2, q)] + rest;
    if Matches(pre + x, s) {
      var i :| 0 <= i <= |s| && CanMatch(pre + x, s, i);
      forall j | i <= j <= |s| && CanMatch(x, s, j) ensures CanMatch(y, s, j) {
        WidenRep(c1, c2, q, rest, s, j);
      }
      Congruence(pre, x, y, s, i);
    }
  }

  /** A literal in front of a `+` group of a class that contains it can be left to the group. */
  lemma AbsorbLit(c: char, g: nat, cls: Class, rest: Pattern, s: string, i: nat)
    requires In(cls, c)
    requires i <= |s| && CanMatch([Lit(c), Open(g), Rep(cls, Plus)] + rest, s, i)
    ensures CanMatch([Open(g), Rep(cls, Plus)] + rest, s, i)
  {
    var p1, p2 := [Lit(c), Open(g), Rep(cls, Plus)] + rest, [Open(g), Rep(cls, Plus)] + rest;
    assert p1[1..] == p2 && p2[1..][1..] == rest && p2[1..][0] == Rep(cls, Plus);
    CanMatchRep(p2[1..], s, i + 1);
    var j :| i + 1 <= j <= |s| && Admits(Plus, j - i - 1) && AllIn(cls, s, i + 1, j) && CanMatch(rest, s, j);
    assert AllIn(cls, s, i, j);
    CanMatchRep(p2[1..], s, i);
  }

  /** A run of literal characters matches exactly that text. */
  lemma {:induction false} CanMatchLits(t: string, rest: Pattern, s: string, i: nat)
    requires i <= |s|
    ensures CanMatch(Lits(t) + rest, s, i) <==> i + |t| <= |s| && s[i .. i + |t|] == t && CanMatch(rest, s, i + |t|)
    decreases |t|
  {
    var p := Lits(t) + rest;
    if t == [] {
      assert p == rest;
    } else {
      assert p[0] == Lit(t[0]) && p[1..] == Lits(t[1..]) + rest;
      if i < |s| && s[i] == t[0] {
        CanMatchLits(t[1..], rest, s, i + 1);
        if i + |t| <= |s| {
          assert s[i .. i + |t|] == [s[i]] + s[i + 1 .. i + |t|];
        }
      } else if i + |t| <= |s| {
        assert s[i .. i + |t|][0] == s[i];
      }
    }
  }

  /** In a text without line feeds, `^` holds only at the start and `$` only at the end. */
  lemma OneLine(s: string, i: nat)
    requires '\n' !in s && i <= |s|
    ensures AtLineStart(s, i) <==> i == 0
    ensures AtLineEnd(s, i) <==> i == |s|
  {
    if i > 0 {
      assert s[i - 1] in s;
    }
    if i < |s| {
      assert s[i] in s;
    }
  }
}

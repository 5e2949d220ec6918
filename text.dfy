/**
  The pieces of Ruby's String library the converter relies on: a one-character
  `gsub`, `split` with a (non-space) string separator in its two forms,
  `chomp`, `strip` and `Array#join`.
*/
module Text {
  import opened Wrappers

  /** `s.gsub(c, r)` for a one-character pattern: every occurrence of `c` becomes `r`. */
  function Replace(s: string, c: char, r: string): string
    decreases |s|
  {
    if s == [] then [] else (if s[0] == c then r else [s[0]]) + Replace(s[1..], c, r)
  }

  lemma {:induction false} ReplaceAppend(x: string, y: string, c: char, r: string)
    ensures Replace(x + y, c, r) == Replace(x, c, r) + Replace(y, c, r)
    decreases |x|
  {
    if x != [] {
      assert (x + y)[1..] == x[1..] + y;
      ReplaceAppend(x[1..], y, c, r);
    } else {
      assert x + y == y;
    }
  }

  /** Replacing a character that does not occur leaves the string as it is. */
  lemma {:induction false} ReplaceAbsent(s: string, c: char, r: string)
    requires c !in s
    ensures Replace(s, c, r) == s
    decreases |s|
  {
    if s != [] {
      assert c !in s[1..];
      ReplaceAbsent(s[1..], c, r);
    }
  }

  /** After the replacement `c` survives only where `r` brought it in. */
  lemma {:induction false} ReplaceRemoves(s: string, c: char, r: string)
    requires c !in r
    ensures c !in Replace(s, c, r)
    decreases |s|
  {
    if s != [] {
      ReplaceRemoves(s[1..], c, r);
    }
  }

  /** A character that is neither in `s` nor in `r` is not in the result either. */
  lemma {:induction false} ReplaceKeepsAbsent(s: string, c: char, r: string, x: char)
    requires x !in s && x !in r
    ensures x !in Replace(s, c, r)
    decreases |s|
  {
    if s != [] {
      assert x !in s[1..];
      ReplaceKeepsAbsent(s[1..], c, r, x);
    }
  }

  /** Deleting `d` commutes with replacing `c` by a text that has no `d`. */
  lemma {:induction false} DeleteCommutes(s: string, c: char, r: string, d: char)
    requires c != d && d !in r
    ensures Replace(Replace(s, c, r), d, "") == Replace(Replace(s, d, ""), c, r)
    decreases |s|
  {
    if s != [] {
      var head := if s[0] == c then r else [s[0]];
      ReplaceAppend(head, Replace(s[1..], c, r), d, "");
      ReplaceAbsentOrDeleted(head, c, r, d, s[0]);
      var kept := if s[0] == d then "" else [s[0]];
      ReplaceAppend(kept, Replace(s[1..], d, ""), c, r);
      DeleteCommutes(s[1..], c, r, d);
    }
  }

  lemma ReplaceAbsentOrDeleted(head: string, c: char, r: string, d: char, x: char)
    requires c != d && d !in r
    requires head == if x == c then r else [x]
    ensures Replace(head, d, "") == if x == d then "" else head
    ensures Replace(if x == d then "" else [x], c, r) == if x == d then "" else head
  {
    if x == c {
      ReplaceAbsent(r, d, "");
    } else {
      assert Replace([x], d, "") == (if x == d then "" else [x]) + Replace([], d, "");
      assert Replace([x], c, r) == (if x == c then r else [x]) + Replace([], c, r);
    }
  }

  /** How often `c` occurs in `s`. */
  function Count(c: char, s: string): nat
    decreases |s|
  {
    if s == [] then 0 else (if s[0] == c then 1 else 0) + Count(c, s[1..])
  }

  /** `sep` occurs in `s` at position `k`. */
  predicate At(s: string, sep: string, k: nat) {
    k + |sep| <= |s| && s[k .. k + |sep|] == sep
  }

  lemma AtOne(s: string, c: char, k: nat)
    ensures At(s, [c], k) <==> k < |s| && s[k] == c
  {
    if k < |s| {
      assert s[k .. k + 1] == [s[k]];
    }
  }

  lemma JoinCons(f: string, rest: seq<string>, sep: string)
    requires |rest| >= 1
    ensures Join([f] + rest, sep) == f + sep + Join(rest, sep)
  {
    assert ([f] + rest)[1..] == rest;
  }

  /** The leftmost occurrence of `sep` in `s` at or after `from`. */
  function Find(s: string, sep: string, from: nat): (r: Option<nat>)
    requires from <= |s|
    ensures r.Some? ==> from <= r.value && At(s, sep, r.value)
    ensures r.Some? ==> forall k :: from <= k < r.value ==> !At(s, sep, k)
    ensures r.None? ==> forall k :: from <= k <= |s| ==> !At(s, sep, k)
    decreases |s| - from
  {
    if At(s, sep, from) then Some(from)
    else if from == |s| then None
    else Find(s, sep, from + 1)
  }

  /** An occurrence with none before it is the one `Find` returns. */
  lemma {:induction false} FindFirst(s: string, sep: string, from: nat, k: nat)
    requires from <= k <= |s| && At(s, sep, k)
    requires forall m :: from <= m < k ==> !At(s, sep, m)
    ensures Find(s, sep, from) == Some(k)
    decreases k - from
  {
    if from < k {
      FindFirst(s, sep, from + 1, k);
    }
  }

  /** The fields between the leftmost non-overlapping occurrences of `sep`, all of them kept. */
  function SplitAll(s: string, sep: string): (r: seq<string>)
    requires |sep| > 0
    ensures |r| >= 1
    decreases |s|
  {
    match Find(s, sep, 0)
    case None => [s]
    case Some(k) => [s[..k]] + SplitAll(s[k + |sep|..], sep)
  }

  /** `fields.join(sep)`. */
  function Join(fields: seq<string>, sep: string): string
    decreases |fields|
  {
    if fields == [] then ""
    else if |fields| == 1 then fields[0]
    else fields[0] + sep + Join(fields[1..], sep)
  }

  /** `parts.join("")`: the parts one after another. */
  function Concat(parts: seq<string>): (r: string)
    ensures parts != [] ==> parts[0] <= r
    decreases |parts|
  {
    if parts == [] then "" else parts[0] + Concat(parts[1..])
  }

  /** The text ends as its last part does, when that part is not empty. */
  lemma {:induction false} ConcatLast(parts: seq<string>)
    requires parts != [] && parts[|parts| - 1] != []
    ensures var r, last := Concat(parts), parts[|parts| - 1]; r != [] && r[|r| - 1] == last[|last| - 1]
    decreases |parts|
  {
    if |parts| > 1 {
      assert parts[1..][|parts[1..]| - 1] == parts[|parts| - 1];
      ConcatLast(parts[1..]);
    }
  }

  /** Ruby's `s.split(sep, -1)`: every field is kept, trailing empty ones too; the empty string has no fields. */
  function SplitKeep(s: string, sep: string): seq<string>
    requires |sep| > 0
  {
    if s == "" then [] else SplitAll(s, sep)
  }

  /** Ruby's `s.split(sep)`: as `split(sep, -1)`, then the trailing empty fields are dropped. */
  function Split(s: string, sep: string): seq<string>
    requires |sep| > 0
  {
    if s == "" then [] else DropTrailingEmpty(SplitAll(s, sep))
  }

  function DropTrailingEmpty(fields: seq<string>): (r: seq<string>)
    ensures r <= fields
    ensures r == [] || r[|r| - 1] != ""
    ensures forall k :: |r| <= k < |fields| ==> fields[k] == ""
    decreases |fields|
  {
    if fields != [] && fields[|fields| - 1] == "" then DropTrailingEmpty(fields[..|fields| - 1]) else fields
  }

  /** Ruby's `chomp`: one trailing "\r\n", "\n" or "\r" is removed. */
  function Chomp(s: string): (r: string)
    ensures r <= s && |s| - 2 <= |r|
  {
    if |s| >= 2 && s[|s| - 2..] == "\r\n" then s[..|s| - 2]
    else if |s| >= 1 && (s[|s| - 1] == '\n' || s[|s| - 1] == '\r') then s[..|s| - 1]
    else s
  }

  /** The characters Ruby's `strip` removes: NUL and ASCII whitespace. */
  predicate IsStripped(c: char) {
    c == '\0' || c == ' ' || c == '\t' || c == '\n' || c == '\U{B}' || c == '\U{C}' || c == '\r'
  }

  /** Ruby's `lstrip`: the leading run of stripped characters goes, and the rest of `s` stays. */
  function StripStart(s: string): (r: string)
    ensures r == [] || !IsStripped(r[0])
    ensures |r| <= |s| && r == s[|s| - |r|..]
    ensures forall k :: 0 <= k < |s| - |r| ==> IsStripped(s[k])
    decreases |s|
  {
    if s != [] && IsStripped(s[0]) then
      var r := StripStart(s[1..]);
      assert forall k :: 1 <= k < |s| - |r| ==> s[k] == s[1..][k - 1];
      r
    else s
  }

  /** Ruby's `rstrip`: the trailing run of stripped characters goes, and the rest of `s` stays. */
  function StripEnd(s: string): (r: string)
    ensures r == [] || !IsStripped(r[|r| - 1])
    ensures r <= s
    ensures forall k :: |r| <= k < |s| ==> IsStripped(s[k])
    decreases |s|
  {
    if s != [] && IsStripped(s[|s| - 1]) then StripEnd(s[..|s| - 1]) else s
  }

  /** Ruby's `strip`: neither end is stripped any more, and only an all-whitespace text strips to "". */
  function Strip(s: string): (r: string)
    ensures r == [] || (!IsStripped(r[0]) && !IsStripped(r[|r| - 1]))
    ensures r == [] <==> forall k :: 0 <= k < |s| ==> IsStripped(s[k])
  {
    StripBoth(s);
    StripEnd(StripStart(s))
  }

  lemma StripBoth(s: string)
    ensures var r := StripEnd(StripStart(s)); r == [] || (!IsStripped(r[0]) && !IsStripped(r[|r| - 1]))
    ensures StripEnd(StripStart(s)) == [] <==> forall k :: 0 <= k < |s| ==> IsStripped(s[k])
  {
    var t := StripStart(s);
    var r := StripEnd(t);
    var d := |s| - |t|;
    if r == [] {
      assert t == [];
    } else {
      assert r[0] == t[0] && t[0] == s[d];
    }
  }

  /** Splitting and joining again gives back the string. */
  lemma {:induction false} JoinSplitAll(s: string, sep: string)
    requires |sep| > 0
    ensures Join(SplitAll(s, sep), sep) == s
    decreases |s|
  {
    match Find(s, sep, 0)
    case None =>
    case Some(k) =>
      var head, tail := s[..k], s[k + |sep|..];
      var fields := SplitAll(tail, sep);
      JoinSplitAll(tail, sep);
      JoinCons(head, fields, sep);
      assert s == head + sep + tail by {
        assert s[k .. k + |sep|] == sep;
        assert s == s[..k] + s[k .. k + |sep|] + s[k + |sep|..];
      }
  }

  /** With a one-character separator no field contains it; this and `JoinSplitAll` pin the fields down. */
  lemma {:induction false} SplitAllFields(s: string, c: char)
    ensures forall f :: f in SplitAll(s, [c]) ==> c !in f
    decreases |s|
  {
    match Find(s, [c], 0)
    case None =>
      forall k | 0 <= k < |s| ensures s[k] != c {
        AtOne(s, c, k);
      }
    case Some(k) =>
      forall m | 0 <= m < k ensures s[..k][m] != c {
        AtOne(s, c, m);
      }
      SplitAllFields(s[k + 1..], c);
  }

  /** Joining fields free of a one-character separator and splitting again gives back the fields. */
  lemma {:induction false} SplitAllJoin(fields: seq<string>, c: char)
    requires |fields| >= 1
    requires forall f :: f in fields ==> c !in f
    ensures SplitAll(Join(fields, [c]), [c]) == fields
    decreases |fields|
  {
    var s := Join(fields, [c]);
    var f := fields[0];
    assert c !in f;
    if |fields| == 1 {
      assert s == f;
      forall m | 0 <= m <= |s| ensures !At(s, [c], m) {
        AtOne(s, c, m);
      }
      assert Find(s, [c], 0) == None;
    } else {
      var rest := Join(fields[1..], [c]);
      assert s == f + [c] + rest;
      forall m | 0 <= m < |f| ensures !At(s, [c], m) {
        AtOne(s, c, m);
        assert s[m] == f[m];
      }
      AtOne(s, c, |f|);
      assert At(s, [c], |f|);
      assert Find(s, [c], 0) == Some(|f|);
      assert s[..|f|] == f;
      assert s[|f| + 1..] == rest;
      assert SplitAll(s, [c]) == [f] + SplitAll(rest, [c]);
      SplitAllJoin(fields[1..], c);
      assert fields == [f] + fields[1..];
    }
  }

  /** A one-character separator cuts the string into one more field than it has occurrences. */
  lemma {:induction false} SplitAllCount(s: string, c: char)
    ensures |SplitAll(s, [c])| == Count(c, s) + 1
    decreases |s|
  {
    match Find(s, [c], 0)
    case None =>
      forall k | 0 <= k < |s| ensures s[k] != c {
        AtOne(s, c, k);
      }
      CountAbsent(c, s);
    case Some(k) =>
      forall m | 0 <= m < k ensures s[..k][m] != c {
        AtOne(s, c, m);
      }
      AtOne(s, c, k);
      CountAbsent(c, s[..k]);
      assert c !in s[..k];
      assert s == s[..k] + ([c] + s[k + 1..]);
      CountAppend(c, s[..k], [c] + s[k + 1..]);
      assert ([c] + s[k + 1..])[1..] == s[k + 1..];
      assert Count(c, [c] + s[k + 1..]) == 1 + Count(c, s[k + 1..]);
      assert SplitAll(s, [c]) == [s[..k]] + SplitAll(s[k + 1..], [c]);
      SplitAllCount(s[k + 1..], c);
  }

  lemma {:induction false} CountAbsent(c: char, s: string)
    requires c !in s
    ensures Count(c, s) == 0
    decreases |s|
  {
    if s != [] {
      assert c !in s[1..];
      CountAbsent(c, s[1..]);
    }
  }

  lemma {:induction false} CountAppend(c: char, x: string, y: string)
    ensures Count(c, x + y) == Count(c, x) + Count(c, y)
    decreases |x|
  {
    if x == [] {
      assert x + y == y;
    } else {
      assert (x + y)[1..] == x[1..] + y;
      CountAppend(c, x[1..], y);
    }
  }

  /** `s` without its trailing run of `c`. */
  function TrimEnd(s: string, c: char): (r: string)
    ensures r <= s && (r == [] || r[|r| - 1] != c)
    ensures forall k :: |r| <= k < |s| ==> s[k] == c
    decreases |s|
  {
    if s != [] && s[|s| - 1] == c then TrimEnd(s[..|s| - 1], c) else s
  }

  /** Trimming `c` from a text that ends with `c` trims that one too. */
  lemma TrimEndSnoc(x: string, c: char)
    ensures TrimEnd(x + [c], c) == TrimEnd(x, c)
  {
    assert (x + [c])[..|x|] == x;
  }

  /** Trimming a character keeps at most as many of it. */
  lemma CountTrimEnd(x: string, c: char)
    ensures Count(c, TrimEnd(x, c)) <= Count(c, x)
  {
    var t := TrimEnd(x, c);
    assert x == t + x[|t|..];
    CountAppend(c, t, x[|t|..]);
  }

  /** Fields free of a one-character separator, joined by it, hold one separator fewer than there are fields. */
  lemma JoinCount(fields: seq<string>, c: char)
    requires |fields| >= 1 && forall f :: f in fields ==> c !in f
    ensures Count(c, Join(fields, [c])) == |fields| - 1
  {
    SplitAllJoin(fields, c);
    SplitAllCount(Join(fields, [c]), c);
  }

  /** A separator at the very end adds one empty field. */
  lemma {:induction false} SplitAllSnoc(x: string, c: char)
    ensures SplitAll(x + [c], [c]) == SplitAll(x, [c]) + [""]
    decreases |x|
  {
    var s := x + [c];
    forall m | 0 <= m < |x| ensures At(s, [c], m) <==> At(x, [c], m) {
      AtOne(s, c, m);
      AtOne(x, c, m);
    }
    assert Find([], [c], 0) == None;
    match Find(x, [c], 0)
    case None =>
      AtOne(s, c, |x|);
      FindFirst(s, [c], 0, |x|);
      assert s[..|x|] == x && s[|x| + 1..] == [];
    case Some(k) =>
      FindFirst(s, [c], 0, k);
      assert s[..k] == x[..k] && s[k + 1..] == x[k + 1..] + [c];
      SplitAllSnoc(x[k + 1..], c);
  }

  /** A text that does not end with the separator has a non-empty last field. */
  lemma {:induction false} SplitAllLast(x: string, c: char)
    requires x != [] && x[|x| - 1] != c
    ensures var fs := SplitAll(x, [c]); fs[|fs| - 1] != ""
    decreases |x|
  {
    match Find(x, [c], 0)
    case None =>
    case Some(k) =>
      AtOne(x, c, k);
      var y := x[k + 1..];
      assert y[|y| - 1] == x[|x| - 1];
      SplitAllLast(y, c);
  }

  /** What `split` keeps of `split(sep, -1)` for a one-character separator: the fields of the text without its trailing separators. */
  lemma {:induction false} SplitTrim(s: string, c: char)
    ensures DropTrailingEmpty(SplitAll(s, [c])) == if TrimEnd(s, c) == [] then [] else SplitAll(TrimEnd(s, c), [c])
    decreases |s|
  {
    if s == [] {
      assert Find(s, [c], 0) == None;
      assert DropTrailingEmpty([""]) == DropTrailingEmpty([]);
    } else if s[|s| - 1] == c {
      var x := s[..|s| - 1];
      assert s == x + [c];
      SplitAllSnoc(x, c);
      var fs := SplitAll(x, [c]);
      assert (fs + [""])[..|fs|] == fs;
      SplitTrim(x, c);
    } else {
      SplitAllLast(s, c);
    }
  }

  /** `s.split(c)` is `split(c, -1)` on `s` with its trailing separators removed. */
  lemma SplitTrimmed(s: string, c: char)
    ensures Split(s, [c]) == if TrimEnd(s, c) == [] then [] else SplitAll(TrimEnd(s, c), [c])
  {
    if s != [] {
      SplitTrim(s, c);
    }
  }
}

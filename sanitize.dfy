/**
  `String#remove_space`, which turns a source name into the local part of an
  `mo:` term, and the escaping each table's emitter applies to the text it puts
  between double quotes.
*/
module Sanitize {
  import opened Text
  import Regex

  predicate IsAsciiLetter(c: char) {
    ('A' <= c <= 'Z') || ('a' <= c <= 'z')
  }

  /** `\s([A-Za-z])` matches at the start of `s`. */
  predicate SpaceBeforeLetter(s: string) {
    |s| >= 2 && Regex.IsSpaceChar(s[0]) && IsAsciiLetter(s[1])
  }

  /**
    `s.remove_space`, that is `s.gsub(/\s([A-Za-z])/, '\1'.upcase)`.  The
    replacement `'\1'.upcase` is the two characters `\1` again, so each match is
    replaced by its letter unchanged; `gsub` resumes after the match.
  */
  function RemoveSpace(s: string): (r: string)
    ensures |r| <= |s|
    decreases |s|
  {
    if s == [] then []
    else if SpaceBeforeLetter(s) then [s[1]] + RemoveSpace(s[2..])
    else [s[0]] + RemoveSpace(s[1..])
  }

  /** The character at `k` is whitespace with an ASCII letter right after it. */
  predicate DroppedAt(s: string, k: nat)
    requires k < |s|
  {
    Regex.IsSpaceChar(s[k]) && k + 1 < |s| && IsAsciiLetter(s[k + 1])
  }

  /** The characters of `s` from position `k` on that are not `DroppedAt`, in order. */
  function Kept(s: string, k: nat): (r: string)
    requires k <= |s|
    ensures |r| <= |s| - k
    decreases |s| - k
  {
    if k == |s| then [] else (if DroppedAt(s, k) then [] else [s[k]]) + Kept(s, k + 1)
  }

  /**
    `remove_space` deletes exactly the whitespace characters that an ASCII letter
    follows, and keeps every other character, unchanged and in order.
  */
  lemma {:induction false} RemoveSpaceKeeps(s: string, k: nat)
    requires k <= |s|
    ensures RemoveSpace(s[k..]) == Kept(s, k)
    decreases |s| - k
  {
    var t := s[k..];
    if k < |s| {
      if SpaceBeforeLetter(t) {
        assert DroppedAt(s, k) && !DroppedAt(s, k + 1);
        assert t[2..] == s[k + 2..] && t[1] == s[k + 1];
        RemoveSpaceKeeps(s, k + 2);
      } else {
        assert !DroppedAt(s, k);
        assert t[1..] == s[k + 1..];
        RemoveSpaceKeeps(s, k + 1);
      }
    }
  }

  lemma RemoveSpaceIsFilter(s: string)
    ensures RemoveSpace(s) == Kept(s, 0)
  {
    assert s[0..] == s;
    RemoveSpaceKeeps(s, 0);
  }

  /** A name without whitespace, such as every source abbreviation, is left as it is. */
  lemma {:induction false} RemoveSpaceNoSpace(s: string)
    requires forall k :: 0 <= k < |s| ==> !Regex.IsSpaceChar(s[k])
    ensures RemoveSpace(s) == s
    decreases |s|
  {
    if s != [] {
      RemoveSpaceNoSpace(s[1..]);
    }
  }

  /** A prefix without whitespace passes through, and the rest is processed on its own. */
  lemma {:induction false} RemoveSpaceAfterWord(x: string, y: string)
    requires forall k :: 0 <= k < |x| ==> !Regex.IsSpaceChar(x[k])
    ensures RemoveSpace(x + y) == x + RemoveSpace(y)
    decreases |x|
  {
    if x != [] {
      assert (x + y)[1..] == x[1..] + y;
      assert !SpaceBeforeLetter(x + y);
      RemoveSpaceAfterWord(x[1..], y);
    } else {
      assert x + y == y;
    }
  }

  /** Whitespace before a letter goes and the letter stays. */
  lemma RemoveSpaceBeforeLetter(c: char, l: char, y: string)
    requires Regex.IsSpaceChar(c) && IsAsciiLetter(l)
    ensures RemoveSpace([c, l] + y) == [l] + RemoveSpace(y)
  {
    assert SpaceBeforeLetter([c, l] + y) && ([c, l] + y)[2..] == y;
  }

  lemma RemoveSpaceGeneReviews()
    ensures RemoveSpace("Gene Reviews") == "GeneReviews"
  {
    var tail := [' ', 'R'] + "eviews";
    assert "Gene Reviews" == "Gene" + tail;
    RemoveSpaceAfterWord("Gene", tail);
    RemoveSpaceBeforeLetter(' ', 'R', "eviews");
    RemoveSpaceNoSpace("eviews");
    assert RemoveSpace(tail) == "Reviews";
    assert "Gene" + "Reviews" == "GeneReviews";
  }

  /** A space before a digit is kept. */
  lemma RemoveSpaceBeforeDigit()
    ensures RemoveSpace("a 1") == "a 1"
  {
    assert !SpaceBeforeLetter(" 1") && " 1"[1..] == "1";
    RemoveSpaceNoSpace("1");
    RemoveSpaceAfterWord("a", " 1");
  }

  /** `remove_space` is not idempotent: of two spaces before a letter only the second goes. */
  lemma RemoveSpaceNotIdempotent()
    ensures RemoveSpace("  a") == " a"
    ensures RemoveSpace(" a") == "a"
  {
    assert !SpaceBeforeLetter("  a") && "  a"[1..] == " a";
    assert SpaceBeforeLetter(" a") && " a"[2..] == "";
  }

  // ---------------------------------------------------------------------
  // The escaping inside each emitter's quoted literals.

  /** `gsub('"', '\"')`: each double quote becomes backslash and quote. */
  function EscapeQuotes(s: string): (r: string)
    ensures |r| == |s| + Count('"', s)
  {
    EscapeQuotesLength(s);
    Replace(s, '"', "\\\"")
  }

  lemma {:induction false} EscapeQuotesLength(s: string)
    ensures |Replace(s, '"', "\\\"")| == |s| + Count('"', s)
    decreases |s|
  {
    if s != [] {
      EscapeQuotesLength(s[1..]);
    }
  }

  /** `gsub(c, "")`. */
  function Delete(s: string, c: char): (r: string)
    ensures c !in r
  {
    ReplaceRemoves(s, c, "");
    Replace(s, c, "")
  }

  /** The NAMES label: quotes escaped, then carriage returns and line feeds deleted. */
  function NamesLiteral(name: string): (r: string)
    ensures '\r' !in r && '\n' !in r
  {
    var t := Delete(EscapeQuotes(name), '\r');
    ReplaceKeepsAbsent(t, '\n', "", '\r');
    Delete(t, '\n')
  }

  /** The MGDEF text after its first two steps: carriage return to space, line feed deleted. */
  function MgdefCleaned(d: string): (r: string)
    ensures '\r' !in r && '\n' !in r
  {
    var t := Replace(d, '\r', " ");
    ReplaceRemoves(d, '\r', " ");
    ReplaceKeepsAbsent(t, '\n', "", '\r');
    Delete(t, '\n')
  }

  /**
    The MGDEF definition: carriage return to space, line feed deleted, every
    backslash doubled (the replacement `"\\\\\\\\"` is two backslashes once `gsub`
    reads it), and then quotes escaped.
  */
  function MgdefLiteral(d: string): (r: string)
    ensures '\r' !in r && '\n' !in r
  {
    var t := Replace(MgdefCleaned(d), '\\', "\\\\");
    ReplaceKeepsAbsent(MgdefCleaned(d), '\\', "\\\\", '\r');
    ReplaceKeepsAbsent(MgdefCleaned(d), '\\', "\\\\", '\n');
    ReplaceKeepsAbsent(t, '"', "\\\"", '\r');
    ReplaceKeepsAbsent(t, '"', "\\\"", '\n');
    EscapeQuotes(t)
  }

  /** The MGSAT value: backslashes deleted, then quotes escaped. */
  function MgsatLiteral(v: string): (r: string)
    ensures |r| == |Delete(v, '\\')| + Count('"', v)
  {
    var t := Delete(v, '\\');
    DeleteCount(v, '\\', '"');
    EscapeQuotes(t)
  }

  /** Deleting one character leaves the count of another as it was. */
  lemma {:induction false} DeleteCount(s: string, c: char, x: char)
    requires c != x
    ensures Count(x, Replace(s, c, "")) == Count(x, s)
    decreases |s|
  {
    if s != [] {
      var head := if s[0] == c then "" else [s[0]];
      ReplaceAppend(head, s[1..], c, "");
      CountAppend(x, head, Replace(s[1..], c, ""));
      assert head == [] || head == [s[0]];
      if head != [] {
        assert head[1..] == [];
      }
      DeleteCount(s[1..], c, x);
    }
  }

  /** The MGCONSO label: quotes escaped and nothing else. */
  function ConsoLiteral(s: string): (r: string)
    ensures |r| == |s| + Count('"', s)
  {
    EscapeQuotes(s)
  }
}

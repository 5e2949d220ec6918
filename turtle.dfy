/**
  How a Turtle parser reads back the text between the double quotes of a
  STRING_LITERAL_QUOTE: any character but `"`, `\`, line feed and carriage
  return stands for itself, and an ECHAR (`\t \b \n \r \f \" \' \\`) for the
  character it names (RDF 1.1 Turtle, section 6.4 "Escape Sequences").  The
  numeric escapes UCHAR (`\uXXXX`, `\UXXXXXXXX`) are not read: a label that
  holds one raw, which a Turtle parser would read as a single character, is
  unreadable here.  Against this decoder each emitter's escaping is checked,
  which labels come back intact and which do not; the unreadable literals
  exhibited below (a trailing backslash, `\d`) are unreadable for Turtle too.
*/
module Turtle {
  import opened Wrappers
  import opened Text
  import opened Sanitize

  /** The character an ECHAR `\c` stands for, if `c` is one of the eight allowed. */
  function EChar(c: char): Option<char> {
    if c == 't' then Some('\t')
    else if c == 'b' then Some('\U{8}')
    else if c == 'n' then Some('\n')
    else if c == 'r' then Some('\r')
    else if c == 'f' then Some('\U{C}')
    else if c == '"' then Some('"')
    else if c == '\'' then Some('\'')
    else if c == '\\' then Some('\\')
    else None
  }

  function Cons(c: char, rest: Option<string>): Option<string> {
    match rest
    case Some(t) => Some([c] + t)
    case None => None
  }

  /** The value of a quoted literal's body `b`, or None when `b` is not a valid body. */
  function Unescape(b: string): (r: Option<string>)
    ensures r.Some? ==> |r.value| <= |b|
    decreases |b|
  {
    if b == [] then Some([])
    else if b[0] == '\\' then
      if |b| >= 2 && EChar(b[1]).Some? then Cons(EChar(b[1]).value, Unescape(b[2..])) else None
    else if b[0] == '"' || b[0] == '\n' || b[0] == '\r' then None
    else Cons(b[0], Unescape(b[1..]))
  }

  /** The shortest valid body for a text without line breaks: only `\` and `"` escaped. */
  function Escape(s: string): (r: string)
    ensures |r| >= |s|
    decreases |s|
  {
    if s == [] then [] else EscapeChar(s[0]) + Escape(s[1..])
  }

  /** One character of `Escape`: `\` and `"` get a backslash in front. */
  function EscapeChar(c: char): string {
    if c == '\\' then "\\\\" else if c == '"' then "\\\"" else [c]
  }

  /** An escaped character in front of a body reads back as that character. */
  lemma UnescapeChar(c: char, rest: string)
    requires c != '\r' && c != '\n'
    ensures Unescape(EscapeChar(c) + rest) == Cons(c, Unescape(rest))
  {
    var b := EscapeChar(c) + rest;
    if c == '\\' || c == '"' {
      assert b[1] == c && b[2..] == rest;
    } else {
      assert b[1..] == rest;
    }
  }

  /** A text without line breaks comes back from its escaped form. */
  lemma {:induction false} UnescapeEscape(s: string)
    requires '\r' !in s && '\n' !in s
    ensures Unescape(Escape(s)) == Some(s)
    decreases |s|
  {
    if s != [] {
      assert s[0] in s && s == [s[0]] + s[1..];
      UnescapeChar(s[0], Escape(s[1..]));
      UnescapeEscape(s[1..]);
    }
  }

  /** Doubling backslashes and then escaping quotes, as MGDEF does, is `Escape`. */
  lemma {:induction false} EscapeQuotesAfterDoubling(s: string)
    ensures EscapeQuotes(Replace(s, '\\', "\\\\")) == Escape(s)
    decreases |s|
  {
    if s != [] {
      var head := if s[0] == '\\' then "\\\\" else [s[0]];
      ReplaceAppend(head, Replace(s[1..], '\\', "\\\\"), '"', "\\\"");
      if s[0] == '\\' {
        ReplaceAbsent(head, '"', "\\\"");
      } else {
        assert Replace(head, '"', "\\\"") == (if s[0] == '"' then "\\\"" else [s[0]]) + Replace([], '"', "\\\"");
      }
      EscapeQuotesAfterDoubling(s[1..]);
    }
  }

  /** Without backslashes, escaping quotes alone is `Escape`. */
  lemma {:induction false} EscapeQuotesNoBackslash(s: string)
    requires '\\' !in s
    ensures EscapeQuotes(s) == Escape(s)
    decreases |s|
  {
    ReplaceAbsent(s, '\\', "\\\\");
    EscapeQuotesAfterDoubling(s);
  }

  /** Every MGDEF definition reads back as the definition with CR turned to space and LF dropped. */
  lemma MgdefRoundTrip(d: string)
    ensures Unescape(MgdefLiteral(d)) == Some(MgdefCleaned(d))
  {
    EscapeQuotesAfterDoubling(MgdefCleaned(d));
    UnescapeEscape(MgdefCleaned(d));
  }

  /** Every MGSAT value without line breaks reads back as the value with its backslashes gone. */
  lemma MgsatRoundTrip(v: string)
    requires '\r' !in v && '\n' !in v
    ensures Unescape(MgsatLiteral(v)) == Some(Delete(v, '\\'))
  {
    var t := Delete(v, '\\');
    ReplaceKeepsAbsent(v, '\\', "", '\r');
    ReplaceKeepsAbsent(v, '\\', "", '\n');
    EscapeQuotesNoBackslash(t);
    UnescapeEscape(t);
  }

  /** A NAMES label reads back as the name without CR and LF, provided the name has no backslash. */
  lemma NamesRoundTrip(name: string)
    requires '\\' !in name
    ensures Unescape(NamesLiteral(name)) == Some(Delete(Delete(name, '\r'), '\n'))
  {
    var t := Delete(Delete(name, '\r'), '\n');
    DeleteCommutes(name, '"', "\\\"", '\r');
    DeleteCommutes(Delete(name, '\r'), '"', "\\\"", '\n');
    ReplaceKeepsAbsent(name, '\r', "", '\\');
    ReplaceKeepsAbsent(Delete(name, '\r'), '\n', "", '\\');
    ReplaceKeepsAbsent(Delete(name, '\r'), '\n', "", '\r');
    EscapeQuotesNoBackslash(t);
    UnescapeEscape(t);
  }

  /** An MGCONSO label reads back intact when it has no backslash and no line break. */
  lemma ConsoRoundTrip(s: string)
    requires '\\' !in s && '\r' !in s && '\n' !in s
    ensures Unescape(ConsoLiteral(s)) == Some(s)
  {
    EscapeQuotesNoBackslash(s);
    UnescapeEscape(s);
  }

  /** A NAMES name ending in a backslash gives a literal whose closing quote is escaped away. */
  lemma NamesTrailingBackslash()
    ensures Unescape(NamesLiteral("a\\")) == None
  {
    var n := "a\\";
    assert Replace(n, '"', "\\\"") == n by {
      ReplaceAbsent(n, '"', "\\\"");
    }
    assert Delete(n, '\r') == n by {
      ReplaceAbsent(n, '\r', "");
    }
    assert Delete(n, '\n') == n by {
      ReplaceAbsent(n, '\n', "");
    }
    assert n[1..] == "\\";
  }

  /** An MGCONSO label with a backslash before a letter is not a valid literal body either. */
  lemma ConsoBackslash()
    ensures Unescape(ConsoLiteral("\\d")) == None
  {
    ReplaceAbsent("\\d", '"', "\\\"");
  }
}

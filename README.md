# MedGen to RDF converter, modelled in Dafny

`rdf_converter_medgen.rb` turns the MedGen release tables into Turtle. Each
table class follows the same pattern:

- It reads a file line by line and skips the header.
- It parses each data line, possibly trying several regular expressions in
  turn, and prints one Turtle block per line with `puts`.
- It stops at the first `raise` or `exit`.

This project models that core:

- **`Regex`**: the fragment of Ruby's regular expressions that the parsers use,
  in two forms:
  - a backtracking matcher in Ruby's order: greedy quantifiers try the longest
    run first, lazy ones the shortest, and the search tries start positions from
    the left, with numbered captures;
  - a declarative language (`CanMatch`, `Matches`).

  The two are proved to agree. Every pattern of the converter is written out
  as data next to the parser that uses it.
- **`Text`**: Ruby's `gsub` of one character, `split` (with and without the
  `-1` limit), `join`, `chomp`, `strip` and `index`.
- **`Sanitize` and `Turtle`**:
  - `String#remove_space`;
  - the per-table escaping of quoted literals;
  - the reading of a Turtle string literal (its `ECHAR` escapes), so that each
    table's literal can be checked to read back as the text it came from.
- **`Driver`**: the `while line = f.gets` loop of NAMES, MGDEF, MGCONSO,
  MGSTY, MGREL, MGSAT and the OMIM-HPO mapping; PubMed and MIM2GENE run loops
  of their own (`PubMed.Gather`, `Mim2Gene.Mim2Type.Convert`). It works over
  the sequence of data lines, prints each block as `puts` would (a line feed
  is added unless the block ends in one), and halts at the first `raise`
  (the `Raise` case) or `exit` (the `Exit` case).
- **`Names`, `MgDef`, `MgConso` with `SeeAlso`, `MgSty`, `MgRel`, `MgSat`,
  `PubMed`, `OmimHpo`, `Mim2Gene`**: the `parse`, `construct_turtle` and
  `rdf` of each table class.

The parts that work by changing state are methods. Each is proved against a
function:

- `MgDef.Rdf`, `MgConso.Rdf` and `MgConso.ConstructTurtle`, which appends to
  `turtle_ary`;
- `PubMed.Gather`, which reassigns the held group and appends to it, and
  `PubMed.ConstructTurtle`, which rewrites the PMID array in place as `map!`
  does;
- `OmimHpo.ParseSemanticTypes`;
- the class `Mim2Gene.Mim2Type`, whose `order` and `types` fields are the
  class variable `@@mim2type`. A Ruby hash iterates in insertion order, so the
  hash is an insertion-ordered sequence of keys plus a map. The object
  outlives one `rdf` call, as the class variable does.

Behaviour kept exactly as the code has it:

- **Strings.** `remove_space` never changes case, because `'\1'.upcase` is
  still `\1`.
- **MGSTY.** `$13` is always nil.
- **MGDEF.**
  - A line no pattern matches is passed over silently: `parse` returns `"NA"`.
  - The third pattern never decides anything, because the second accepts
    every line it accepts.
- **MGCONSO.**
  - A source outside the eight known ones prints nothing.
  - The HPO and MONDO identifiers are searched without anchors; a miss yields
    an empty suffix.
  - An unknown OMIM identifier pattern exits.
- **OMIM-HPO mapping.**
  - `split("|", -1)` keeps the line break, so on a line of exactly ten fields
    the tenth field ends in it.
  - An unknown semantic-type label leaves the `sty:` suffix empty.
- **Escaping.** An MGSAT value or an MGCONSO label with a carriage return
  prints it raw. NAMES and MGCONSO do not double backslashes, so a name with a
  backslash can give a literal that Turtle does not read back
  (`Turtle.NamesTrailingBackslash`, `Turtle.ConsoBackslash`).
- **PubMed.** The group still held at the end of the input is never printed
  (see Findings).

## Model

| member | source | states |
|---|---|---|
| Regex.MatchFrom | rdf_converter_medgen.rb:53-60 | definition of Ruby's backtracking match anchored at one position, the atoms taken in order; its contract keeps every capture within the line, and `MatchIff` gives its meaning |
| Regex.MatchRep | rdf_converter_medgen.rb:99 | definition of the quantifier step: the admissible run lengths are tried longest first when greedy and shortest first when lazy; captures stay within the line (`RepIff`, `MatchFromGreedy`) |
| Regex.TryCounts | rdf_converter_medgen.rb:99 | definition: the first run length after which the rest matches wins; captures stay within the line (`TryCountsIff`) |
| Regex.SearchFrom | rdf_converter_medgen.rb:53 | definition of the unanchored search: start positions are tried from `start` to the right (`SearchFromIff`, `SearchFromSome`) |
| Regex.Search | rdf_converter_medgen.rb:53 | `pattern =~ line` as the search from position 0; captures stay within the line (`SearchIff`) |
| Regex.CanMatch | rdf_converter_medgen.rb:53-60 | declarative definition, with no search order, of the texts a pattern matches from a position; the reference `MatchIff` compares the matcher with |
| Regex.RepThen | rdf_converter_medgen.rb:99 | declarative definition: some run of the class that the quantifier admits is followed by a match of the rest |
| Regex.Matches | rdf_converter_medgen.rb:53 | declarative definition of `=~` succeeding: a match starts at some position; the reference for `SearchIff` |
| Regex.MatchIff | rdf_converter_medgen.rb:53-60 | Ruby's backtracking match from position `i` succeeds exactly when the pattern's declarative language admits a match from `i` (both directions) |
| Regex.RepIff | rdf_converter_medgen.rb:99 | for a quantified class at the head, trying the run lengths in greedy or lazy order finds a match exactly when some admissible run length is followed by a match of the rest |
| Regex.TryCountsIff | rdf_converter_medgen.rb:99 | trying the run lengths in turn succeeds exactly when one of them is followed by a match of the rest |
| Regex.SearchFromIff | rdf_converter_medgen.rb:53 | the left-to-right search from `start` finds a match exactly when one starts at some position from `start` on |
| Regex.SearchIff | rdf_converter_medgen.rb:53 | `pattern =~ line` succeeds exactly when the pattern matches somewhere in the line |
| Regex.SearchFromSome | rdf_converter_medgen.rb:53 | a successful search is the match from its leftmost successful start |
| Regex.SearchFirst | rdf_converter_medgen.rb:53 | a pattern that matches from position 0 is found there |
| Regex.MaxRun | rdf_converter_medgen.rb:53 | the longest run of a class from `i`: all in the class, and the next character is not |
| Regex.Span | rdf_converter_medgen.rb:99 | the longest run a quantifier may take: in the class and at most one character for `?` and single-character atoms |
| Regex.SpanMax | rdf_converter_medgen.rb:99 | every admissible run is no longer than `Span` |
| Regex.Counts | rdf_converter_medgen.rb:99 | the run lengths tried, longest first for greedy and shortest first for lazy quantifiers: each length between the bounds exactly once |
| Regex.MatchFromGreedy | rdf_converter_medgen.rb:167 | a greedy quantifier whose longest run lets the rest match takes the longest run |
| Regex.MatchStep | rdf_converter_medgen.rb:53 | one atom of a successful match consumes the input its kind says and records the capture it opens or closes |
| Regex.MatchPrefix | rdf_converter_medgen.rb:53 | a successful match of `pre + rest` passes through a match of `rest` |
| Regex.MatchUntouched | rdf_converter_medgen.rb:252 | a group the pattern never opens or closes keeps the capture it had |
| Regex.SearchUntouched | rdf_converter_medgen.rb:252 | after a search, a group the pattern does not contain is unset, as Ruby's `$13` is nil |
| Regex.Group | rdf_converter_medgen.rb:54 | `$g` is set exactly when group `g` took part in the match, and is a substring of the line |
| Regex.Field | rdf_converter_medgen.rb:54 | an unset group reads as the empty field |
| Regex.CaptureClose | rdf_converter_medgen.rb:54 | closing a group records its start and the current position |
| Regex.CaptureAt | rdf_converter_medgen.rb:54 | a group around a quantified class captures a run of that class of admissible length |
| Regex.CaptureCounts | rdf_converter_medgen.rb:54 | the same for each run length tried |
| Regex.CaptureIn | rdf_converter_medgen.rb:54 | in a search result, a group around a quantified class holds a run of that class |
| Regex.CaptureInParts | rdf_converter_medgen.rb:54 | the same for a pattern written as prefix, capture and suffix |
| Regex.FieldOf | rdf_converter_medgen.rb:54 | such a group's text has admissible length and every character in the class |
| Regex.Congruence | rdf_converter_medgen.rb:57-60 | replacing a suffix by one that accepts at least as much keeps a match |
| Regex.WidenRep | rdf_converter_medgen.rb:57-60 | widening the class of a leading quantifier keeps a match |
| Regex.MatchesWiden | rdf_converter_medgen.rb:57-60 | widening a class inside a pattern keeps every line it matched |
| Regex.AbsorbLit | rdf_converter_medgen.rb:55-60 | a literal before a run of a class containing it can be absorbed by the run |
| Regex.Lits | rdf_converter_medgen.rb:198 | definition: a literal text as one literal atom per character, stated position by position |
| Regex.CanMatchLits | rdf_converter_medgen.rb:198 | a literal prefix matches exactly when the text is there |
| Regex.MatchFromLits | rdf_converter_medgen.rb:198 | matching a literal prefix moves past it and keeps the captures |
| Regex.OneLine | rdf_converter_medgen.rb:53 | in a string without line feeds `^` holds only at 0 and `$` only at the end |
| Text.Replace | rdf_converter_medgen.rb:72 | definition of a one-character `gsub`: each occurrence of the character becomes the replacement, everything else stays in order; its laws are the `Replace*` and `DeleteCommutes` lemmas |
| Text.Count | rdf_converter_medgen.rb:423 | definition of the number of occurrences of a character, to which `SplitAllCount`, `ParseCounts` and `ParseIff` relate the fields |
| Text.Join | rdf_converter_medgen.rb:519 | definition of `Array#join`: the fields with the separator between neighbours; `JoinSplitAll` and `SplitAllJoin` make it the inverse of splitting |
| Text.SplitKeep | rdf_converter_medgen.rb:422 | definition of `split(sep, -1)`: the empty text has no fields, any other keeps every field, trailing empty ones too |
| Text.Split | rdf_converter_medgen.rb:500 | definition of `split(sep)`: the fields of `split(sep, -1)` without the trailing empty ones; `SplitTrimmed` says which fields these are |
| Text.Find | rdf_converter_medgen.rb:208 | `index`: the first position of a separator from `from` on, or none |
| Text.FindFirst | rdf_converter_medgen.rb:208 | a first occurrence is what `Find` returns |
| Text.SplitAll | rdf_converter_medgen.rb:422 | splitting on a separator yields at least one field |
| Text.JoinSplitAll | rdf_converter_medgen.rb:422 | joining the fields of `split(sep, -1)` with `sep` gives the string back |
| Text.SplitAllFields | rdf_converter_medgen.rb:422 | no field of a one-character split holds the separator |
| Text.SplitAllJoin | rdf_converter_medgen.rb:422 | splitting fields joined by a character they lack gives the fields back |
| Text.SplitAllCount | rdf_converter_medgen.rb:423 | a one-character split has one field more than the separator occurs |
| Text.DropTrailingEmpty | rdf_converter_medgen.rb:500 | `split` without a limit removes exactly the trailing empty fields |
| Text.Chomp | rdf_converter_medgen.rb:500 | `chomp` removes at most the final line break |
| Text.StripStart | rdf_converter_medgen.rb:519 | `lstrip` removes exactly the leading run of whitespace and NUL: what remains is a suffix of the text and starts with neither |
| Text.StripEnd | rdf_converter_medgen.rb:519 | `rstrip` removes exactly the trailing run of whitespace and NUL: what remains is a prefix of the text and ends with neither |
| Text.Strip | rdf_converter_medgen.rb:519 | `strip` leaves neither end whitespace or NUL, and gives `""` exactly for a text made only of them |
| Text.StripBoth | rdf_converter_medgen.rb:519 | the two facts `Strip` states, proved from `lstrip` and `rstrip` |
| Text.Concat | rdf_converter_medgen.rb:233 | `join("")` begins with its first part |
| Text.ConcatLast | rdf_converter_medgen.rb:233 | `join("")` ends with the last character of its last part |
| Text.ReplaceAppend | rdf_converter_medgen.rb:72 | `gsub` of one character distributes over concatenation |
| Text.ReplaceAbsent | rdf_converter_medgen.rb:72 | `gsub` of a character the string lacks changes nothing |
| Text.ReplaceRemoves | rdf_converter_medgen.rb:72 | after `gsub(c, r)` with `c` not in `r`, no `c` is left |
| Text.ReplaceKeepsAbsent | rdf_converter_medgen.rb:72 | `gsub` adds no character that neither the string nor the replacement has |
| Text.DeleteCommutes | rdf_converter_medgen.rb:121 | deleting one character and replacing another commute |
| Text.ReplaceAbsentOrDeleted | rdf_converter_medgen.rb:121 | the one-character case of `DeleteCommutes` |
| Text.AtOne | rdf_converter_medgen.rb:422 | a one-character separator occurs exactly where the character is |
| Text.JoinCons | rdf_converter_medgen.rb:519 | `join` of a field and more fields puts the separator between them |
| Text.CountAppend | rdf_converter_medgen.rb:423 | occurrence counts add over concatenation |
| Text.CountAbsent | rdf_converter_medgen.rb:423 | an absent character occurs zero times |
| Text.TrimEnd | rdf_converter_medgen.rb:500 | a text without its trailing run of one character: a prefix that does not end with it, and only that character is removed |
| Text.TrimEndSnoc | rdf_converter_medgen.rb:500 | trimming a text that ends with the character trims that one as well |
| Text.CountTrimEnd | rdf_converter_medgen.rb:500 | trimming never adds occurrences of the character |
| Text.SplitAllSnoc | rdf_converter_medgen.rb:500 | a separator at the very end adds exactly one empty field |
| Text.SplitAllLast | rdf_converter_medgen.rb:500 | a text that does not end with the separator has a non-empty last field |
| Text.SplitTrim | rdf_converter_medgen.rb:500 | dropping the trailing empty fields of `split(sep, -1)` gives the fields of the text without its trailing separators |
| Text.SplitTrimmed | rdf_converter_medgen.rb:500 | `split(c)` is `split(c, -1)` of the text without its trailing separators, or no fields when nothing else is left |
| Text.JoinCount | rdf_converter_medgen.rb:500 | fields free of a one-character separator, joined by it, hold one separator fewer than there are fields |
| Driver.Puts | rdf_converter_medgen.rb:47 | `puts` writes the string, then a line feed unless it already ends with one |
| Driver.Each | rdf_converter_medgen.rb:45-48 | the `while line = f.gets` loop halts exactly when some line fails, and prints at most one block per line |
| Driver.EachAt | rdf_converter_medgen.rb:45-48 | one iteration: a failure halts, nothing printed goes on, a block is printed with `puts` |
| Driver.EachAppend | rdf_converter_medgen.rb:45-48 | running over `a + b` is running over `a`, then over `b` unless `a` halted |
| Driver.StopsAt | rdf_converter_medgen.rb:45-48 | the run stops at the first failing line, with what the lines before it printed and that line's error |
| Driver.EachPrintsAll | rdf_converter_medgen.rb:45-48 | when every line yields a block, the run prints each block with `puts`, in order, and does not halt |
| Driver.FirstHalt | rdf_converter_medgen.rb:45-48 | a halted run halts with the error of its first failing line |
| Driver.ThenThen | rdf_converter_medgen.rb:45-48 | output printed in two steps is the concatenation |
| Sanitize.RemoveSpace | rdf_converter_medgen.rb:558-560 | `remove_space` never lengthens a string |
| Sanitize.RemoveSpaceKeeps | rdf_converter_medgen.rb:558-560 | `remove_space` deletes exactly the whitespace characters that an ASCII letter follows (a deleted space never makes the next character deletable) and keeps every other character, unchanged and in order |
| Sanitize.Kept | rdf_converter_medgen.rb:558-560 | independent reference for `remove_space`: the characters not dropped, in order, never more than the rest of the text |
| Sanitize.RemoveSpaceIsFilter | rdf_converter_medgen.rb:558-560 | the same for the whole string |
| Sanitize.RemoveSpaceNoSpace | rdf_converter_medgen.rb:558-560 | a string without whitespace is unchanged |
| Sanitize.RemoveSpaceAfterWord | rdf_converter_medgen.rb:558-560 | a whitespace-free prefix passes through unchanged |
| Sanitize.RemoveSpaceBeforeLetter | rdf_converter_medgen.rb:558-560 | a whitespace character before a letter goes and the letter stays as it is (`'\1'.upcase` upcases nothing) |
| Sanitize.RemoveSpaceGeneReviews | rdf_converter_medgen.rb:558-560 | `"Gene Reviews"` becomes `"GeneReviews"` |
| Sanitize.RemoveSpaceBeforeDigit | rdf_converter_medgen.rb:558-560 | a space before a digit is kept |
| Sanitize.RemoveSpaceNotIdempotent | rdf_converter_medgen.rb:558-560 | `"  a"` becomes `" a"`, which becomes `"a"`: not idempotent |
| Sanitize.EscapeQuotes | rdf_converter_medgen.rb:72 | `gsub('"', '\"')` adds one character per double quote |
| Sanitize.EscapeQuotesLength | rdf_converter_medgen.rb:72 | the same, on `gsub` itself |
| Sanitize.Delete | rdf_converter_medgen.rb:72 | `gsub(c, "")` leaves no `c` |
| Sanitize.DeleteCount | rdf_converter_medgen.rb:351 | deleting backslashes keeps the number of double quotes |
| Sanitize.NamesLiteral | rdf_converter_medgen.rb:72 | the NAMES label holds neither CR nor LF |
| Sanitize.MgdefCleaned | rdf_converter_medgen.rb:121 | after CR becomes a space and LF is deleted, the definition holds neither |
| Sanitize.MgdefLiteral | rdf_converter_medgen.rb:121 | the MGDEF literal holds neither CR nor LF |
| Sanitize.MgsatLiteral | rdf_converter_medgen.rb:351 | the MGSAT literal is the backslash-free value plus one backslash per double quote |
| Sanitize.ConsoLiteral | rdf_converter_medgen.rb:188 | the MGCONSO label adds one backslash per double quote |
| Turtle.EChar | rdf_converter_medgen.rb:121 | definition of the eight ECHAR escapes of section 6.4 of RDF 1.1 Turtle, each naming one character |
| Turtle.Unescape | rdf_converter_medgen.rb:121 | reading a Turtle string literal's body never lengthens it |
| Turtle.Escape | rdf_converter_medgen.rb:121 | full Turtle escaping never shortens a string |
| Turtle.UnescapeChar | rdf_converter_medgen.rb:121 | one escaped character reads back as itself |
| Turtle.UnescapeEscape | rdf_converter_medgen.rb:121 | a string without CR or LF escaped for Turtle reads back as itself |
| Turtle.EscapeQuotesAfterDoubling | rdf_converter_medgen.rb:121 | doubling backslashes and then escaping quotes, as MGDEF does, is full Turtle escaping |
| Turtle.EscapeQuotesNoBackslash | rdf_converter_medgen.rb:188 | without backslashes, escaping quotes alone is full Turtle escaping |
| Turtle.MgdefRoundTrip | rdf_converter_medgen.rb:121 | every MGDEF literal reads back as the cleaned definition |
| Turtle.MgsatRoundTrip | rdf_converter_medgen.rb:351 | an MGSAT literal of a value without CR or LF reads back as the value without its backslashes |
| Turtle.NamesRoundTrip | rdf_converter_medgen.rb:72 | a NAMES label without backslashes reads back as the name without CR and LF |
| Turtle.ConsoRoundTrip | rdf_converter_medgen.rb:188 | an MGCONSO label without backslashes, CR or LF reads back as itself |
| Turtle.NamesTrailingBackslash | rdf_converter_medgen.rb:72 | a name ending in a backslash gives a NAMES literal Turtle cannot read |
| Turtle.ConsoBackslash | rdf_converter_medgen.rb:188 | an MGCONSO label with a backslash before a letter gives a literal Turtle cannot read |
| Names.Parse | rdf_converter_medgen.rb:52-64 | a line no pattern matches raises the NAMES parse error |
| Names.ParseFails | rdf_converter_medgen.rb:52-64 | `NAMES.parse` raises exactly when none of the four patterns matches |
| Names.OpenQuoteWithinBare | rdf_converter_medgen.rb:57-60 | every line the third pattern accepts, the fourth accepts too |
| Names.DefaultsIff | rdf_converter_medgen.rb:52-64 | suppress is `"Unknown"` exactly when neither of the first two patterns matches, and then source is `"Unknown"` too |
| Names.SuppressOfFullShapes | rdf_converter_medgen.rb:53-56 | a line either of the first two patterns matches parses, with a one-word-character suppress |
| Names.CuiIsToken | rdf_converter_medgen.rb:53-60 | the CUI of every parsed line is a non-empty run of non-whitespace |
| Names.PlainCui | rdf_converter_medgen.rb:53-54 | the first pattern's CUI is such a run |
| Names.PlainSuppress | rdf_converter_medgen.rb:53-54 | the first pattern's suppress is one word character |
| Names.QuotedCui | rdf_converter_medgen.rb:55-56 | the second pattern's CUI is such a run |
| Names.QuotedSuppress | rdf_converter_medgen.rb:55-56 | the second pattern's suppress is one word character |
| Names.OpenQuoteGroups | rdf_converter_medgen.rb:57-58 | the third pattern's CUI is such a run |
| Names.BareGroups | rdf_converter_medgen.rb:59-60 | the fourth pattern's CUI is such a run |
| Names.TokenOf | rdf_converter_medgen.rb:53 | a captured run of non-whitespace is a token |
| Names.TurtleLines | rdf_converter_medgen.rb:66-80 | ten lines, from `medgen:<cui>` to the blank line |
| Names.ConstructTurtle | rdf_converter_medgen.rb:66-80 | the block starts with the subject line and ends in a line feed, so `puts` adds none |
| Names.Step | rdf_converter_medgen.rb:45-48 | a line halts exactly when it does not parse, and otherwise prints a block that already ends in a line feed |
| Names.Rdf | rdf_converter_medgen.rb:41-50 | `NAMES.rdf` prints at most one block per line, and halts exactly when some line does not parse |
| MgDef.Parse | rdf_converter_medgen.rb:98-115 | `"NA"` (here `None`) only when neither the quoted nor the bare pattern matches |
| MgDef.Fields | rdf_converter_medgen.rb:100 | definition: `[$1, $2, $3, $4]` as a record |
| MgDef.ParseNone | rdf_converter_medgen.rb:98-115 | `MGDEF.parse` gives `"NA"` exactly when neither the first nor the second pattern matches |
| MgDef.DotsWithinBare | rdf_converter_medgen.rb:102-107 | every line the third pattern accepts, the second accepts too, so the third never decides |
| MgDef.Step | rdf_converter_medgen.rb:93 | a line never halts the run, and prints nothing exactly when it parses to `"NA"` |
| MgDef.Rdf | rdf_converter_medgen.rb:87-96 | the loop prints what the per-line step prints and never halts |
| MgDef.RdfNeverHalts | rdf_converter_medgen.rb:87-96 | `MGDEF.rdf` never raises, and prints at most one block per line |
| MgDef.ParsedShape | rdf_converter_medgen.rb:99-104 | a parsed CUI is a non-empty word run and its suppress one word character |
| MgDef.QuotedCui | rdf_converter_medgen.rb:99 | the quoted pattern's CUI is a word run |
| MgDef.QuotedSuppress | rdf_converter_medgen.rb:99 | the quoted pattern's suppress is one word character |
| MgDef.BareCui | rdf_converter_medgen.rb:102 | the bare pattern's CUI is a word run |
| MgDef.BareSuppress | rdf_converter_medgen.rb:102 | the bare pattern's suppress is one word character |
| MgDef.WordRunOf | rdf_converter_medgen.rb:99 | a captured run of word characters is a word run |
| MgDef.TurtleLines | rdf_converter_medgen.rb:117-129 | eight lines, from `medgen:<cui>` to the blank line |
| MgDef.ConstructTurtle | rdf_converter_medgen.rb:117-129 | the block starts with the subject line and ends in a line feed |
| MgConso.Parse | rdf_converter_medgen.rb:166-180 | a line no pattern matches raises the MGCONSO parse error; the four fallback patterns set suppress to `"N"` |
| MgConso.Fields | rdf_converter_medgen.rb:168 | definition: `$1` to `$11` as a record, then the label and the suppress flag the matching pattern gives |
| MgConso.ParseFails | rdf_converter_medgen.rb:166-180 | `MGCONSO.parse` raises exactly when none of the five patterns matches |
| MgConso.SuppressN | rdf_converter_medgen.rb:166-176 | suppress is `"N"` unless the first pattern matches, and one word character when it does |
| MgConso.FullSuppress | rdf_converter_medgen.rb:167-168 | a line the first pattern matches parses with a one-word-character suppress |
| MgConso.SduiOneLine | rdf_converter_medgen.rb:167-176 | a parsed SDUI holds no line feed |
| MgConso.SduiOf | rdf_converter_medgen.rb:167-176 | the SDUI group of any of the five patterns holds no line feed |
| MgConso.NoLineFeed | rdf_converter_medgen.rb:167 | a run of non-whitespace holds no line feed |
| MgConso.HeadLines | rdf_converter_medgen.rb:184-193 | the eight lines up to `dct:source`, starting with `medgen:<cui>` |
| MgConso.TailLines | rdf_converter_medgen.rb:228-231 | the three closing lines, ending in the blank line |
| MgConso.BlockLines | rdf_converter_medgen.rb:184-233 | the block's lines, with the `rdfs:seeAlso` line, when there is one, as the ninth |
| MgConso.Block | rdf_converter_medgen.rb:182-234 | building the block fails exactly when the cross-reference fails (an unknown OMIM identifier), and otherwise starts with the subject line |
| MgConso.ConstructTurtle | rdf_converter_medgen.rb:182-234 | appending the lines one by one to `turtle_ary` and joining them gives `Block` |
| MgConso.Step | rdf_converter_medgen.rb:139-161 | a line prints a block exactly when it parses, its source is one of the eight and its cross-reference succeeds; it halts exactly when it does not parse (with the parse error) or its OMIM cross-reference fails (with the diagnostic and `exit`) |
| MgConso.Rdf | rdf_converter_medgen.rb:134-164 | the loop is the per-line step over every line, up to the first halt |
| MgConso.SourceTerm | rdf_converter_medgen.rb:193 | `remove_space` leaves each of the eight source abbreviations unchanged |
| MgConso.BlockShape | rdf_converter_medgen.rb:182-234 | a block is its lines joined, with `dct:source mo:<sab>` as the eighth, and it has no `rdfs:seeAlso` line exactly for GTR |
| MgConso.OtherSourceSilent | rdf_converter_medgen.rb:143-161 | a line whose source is none of the eight prints nothing and does not halt |
| MgConso.Stops | rdf_converter_medgen.rb:203-212 | definition of a line that stops the conversion: it does not parse, or it is an OMIM row whose SDUI is neither digits, nor digits, a dot and digits, nor holds `MTHU` |
| MgConso.HaltOf | rdf_converter_medgen.rb:211-212 | definition of that line's halt: the parse error, or the SDUI with ` Unknown OMIM ID pattern.` and `exit` |
| MgConso.FirstStop | rdf_converter_medgen.rb:139-161 | definition: the line is the first that stops the conversion |
| MgConso.StepHalts | rdf_converter_medgen.rb:203-212 | a line halts exactly when it stops the conversion, described without patterns, and then with its halt |
| MgConso.RdfHalts | rdf_converter_medgen.rb:134-164 | `MGCONSO.rdf` halts exactly when some line stops it, and then with the halt of the first such line |
| SeeAlso.FlagOf | rdf_converter_medgen.rb:143-161 | one of the eight abbreviations maps to the flag whose abbreviation it is, and any other source to none |
| SeeAlso.FlagOfAbbreviation | rdf_converter_medgen.rb:143-161 | every flag is reached from its abbreviation |
| SeeAlso.Digits | rdf_converter_medgen.rb:198-199 | definition of `$1` after a search: the captured digits, or `""` when the search failed and `$1` is nil (`DigitsOrEmpty`) |
| SeeAlso.Line | rdf_converter_medgen.rb:199 | definition: the `rdfs:seeAlso` line with its target |
| SeeAlso.Link | rdf_converter_medgen.rb:196-226 | the cross-reference fails only for OMIM, with the diagnostic and `exit`, and is absent exactly for GTR |
| SeeAlso.OmimLink | rdf_converter_medgen.rb:203-213 | OMIM: an all-digit SDUI links itself, `digits.digits` links its integer part, one containing `MTHU` links `bp_omim:`, and anything else exits |
| SeeAlso.IntegerPart | rdf_converter_medgen.rb:206-207 | pattern-free reference: the text before the first dot, when it and the text after it are non-empty digit runs |
| SeeAlso.OmimObject | rdf_converter_medgen.rb:203-213 | pattern-free reference for the OMIM branch, in the branch order; `OmimLink` proves the regex branches equal to it |
| SeeAlso.OmimNumberIff | rdf_converter_medgen.rb:204 | `/^\d+$/` matches a one-line SDUI exactly when it is all digits |
| SeeAlso.OmimDecimalIff | rdf_converter_medgen.rb:206-207 | `/^(\d+)\.\d+$/` matches exactly when the SDUI is digits, a dot and digits, and `$1` is the part before the dot |
| SeeAlso.OmimDecimalCaptures | rdf_converter_medgen.rb:206-207 | on such an SDUI the search captures exactly the integer part |
| SeeAlso.DecimalShape | rdf_converter_medgen.rb:206 | a match of that pattern is digits, a dot and digits |
| SeeAlso.IntegerPartAt | rdf_converter_medgen.rb:207 | the integer part of such an SDUI is everything before its dot |
| SeeAlso.DecimalInteger | rdf_converter_medgen.rb:206 | the match of the integer digits stops at the dot |
| SeeAlso.DecimalFraction | rdf_converter_medgen.rb:206 | the match after the dot takes the remaining digits |
| SeeAlso.DigitsAllIn | rdf_converter_medgen.rb:204 | an all-digit text is a run of the digit class |
| SeeAlso.DigitsToEnd | rdf_converter_medgen.rb:198 | a digit run to the end of the string is captured whole |
| SeeAlso.RunThenDot | rdf_converter_medgen.rb:206 | a run followed by a literal dot ends just before the dot |
| SeeAlso.RunThenEnd | rdf_converter_medgen.rb:204 | in a line without line feeds a run before `$` reaches the end |
| SeeAlso.MthuIff | rdf_converter_medgen.rb:208 | `/MTHU/` matches exactly when `MTHU` occurs in the SDUI |
| SeeAlso.HpoLink | rdf_converter_medgen.rb:197-200 | for `HP:` and digits the link is `obo:HP_<digits>`, and the link is a bare `obo:HP_` exactly when `/HP\:(\d+)/` does not match (unanchored, no abort) |
| SeeAlso.MondoLink | rdf_converter_medgen.rb:220-223 | the same for `MONDO:` and `obo:MONDO_` |
| SeeAlso.PrefixedDigits | rdf_converter_medgen.rb:198 | after a literal prefix, a digit run is captured whole |
| SeeAlso.DigitsOrEmpty | rdf_converter_medgen.rb:198-200 | the captured digits are empty exactly when the pattern does not match, and all digits otherwise |
| MgSty.Parse | rdf_converter_medgen.rb:250-256 | `MGSTY.parse` raises exactly when its pattern does not match, with the MGSTY parse error |
| MgSty.NoGroup13 | rdf_converter_medgen.rb:251 | the pattern has no thirteenth group |
| MgSty.AtuiNil | rdf_converter_medgen.rb:252 | the third value, `$13`, is always nil |
| MgSty.AtuiIgnored | rdf_converter_medgen.rb:258-265 | the block does not depend on the ATUI |
| MgSty.ConstructTurtle | rdf_converter_medgen.rb:258-265 | the block starts with `medgen:<cui>` and ends in a line feed |
| MgSty.Step | rdf_converter_medgen.rb:243-246 | a line halts exactly when it does not parse, and otherwise prints a block that already ends in a line feed |
| MgSty.Rdf | rdf_converter_medgen.rb:239-248 | `MGSTY.rdf` prints at most one block per line, and halts exactly when some line does not parse |
| MgSty.ParsedShape | rdf_converter_medgen.rb:251-252 | the parsed CUI and TUI are non-empty word runs |
| MgSty.WordRunOf | rdf_converter_medgen.rb:251 | a captured run of word characters is a word run |
| MgSty.RdfBlocks | rdf_converter_medgen.rb:239-248 | when every line parses each prints its block in order; the run halts exactly when some line does not parse, with the parse error |
| MgSty.RdfPrints | rdf_converter_medgen.rb:239-248 | when every line parses, each prints its block, in order |
| MgSty.RdfHalts | rdf_converter_medgen.rb:239-248 | the run halts exactly when some line does not parse, and then with the parse error |
| MgRel.Parse | rdf_converter_medgen.rb:282-288 | `MGREL.parse` raises exactly when its pattern does not match, with the MGREL parse error |
| MgRel.Columns | rdf_converter_medgen.rb:284 | the record's fields in column order |
| MgRel.Fields | rdf_converter_medgen.rb:284 | column `k` of the record is group `k + 1` |
| MgRel.ColumnShape | rdf_converter_medgen.rb:283 | each group is a word run: possibly empty for RELA, one character for SUPPRESS, non-empty otherwise |
| MgRel.ParsedShape | rdf_converter_medgen.rb:283-284 | every column of a parsed record has that shape |
| MgRel.SourceVerbatim | rdf_converter_medgen.rb:302 | the printed source is a word run, so `remove_space` would not change it |
| MgRel.Around | rdf_converter_medgen.rb:283 | the pattern is the prefix, group `g` and the suffix |
| MgRel.Prefixes | rdf_converter_medgen.rb:283 | the prefix before group `g` and the groups from `g` make up the pattern |
| MgRel.Later | rdf_converter_medgen.rb:283 | later groups do not mention an earlier group |
| MgRel.AfterLacks | rdf_converter_medgen.rb:283 | group `g` does not occur after itself |
| MgRel.Unlike | rdf_converter_medgen.rb:292-304 | a line whose sixth character is not `r` is not the `mo:rela` line |
| MgRel.Head | rdf_converter_medgen.rb:292-299 | the seven lines before RELA, none of them a `mo:rela` line |
| MgRel.Tail | rdf_converter_medgen.rb:302-304 | the three lines after it, none of them a `mo:rela` line |
| MgRel.TurtleLines | rdf_converter_medgen.rb:290-313 | ten lines, or eleven with `mo:rela` as the eighth, and a `mo:rela` line occurs exactly when RELA is non-empty |
| MgRel.ConstructTurtle | rdf_converter_medgen.rb:290-313 | the blank node starts with `[` and ends in a line feed |
| MgRel.Step | rdf_converter_medgen.rb:275-278 | a line halts exactly when it does not parse, and otherwise prints a block that already ends in a line feed |
| MgRel.Rdf | rdf_converter_medgen.rb:271-280 | `MGREL.rdf` prints at most one block per line, and halts exactly when some line does not parse |
| MgRel.RdfBlocks | rdf_converter_medgen.rb:271-280 | when every line parses each prints its block in order; the run halts exactly when some line does not parse, with the parse error |
| MgRel.RdfPrints | rdf_converter_medgen.rb:271-280 | when every line parses, each prints its block, in order |
| MgRel.RdfHalts | rdf_converter_medgen.rb:271-280 | the run halts exactly when some line does not parse, and then with the parse error |
| MgSat.Parse | rdf_converter_medgen.rb:330-338 | `MGSAT.parse` raises exactly when the bare pattern does not match, with the MGSAT parse error |
| MgSat.Fields | rdf_converter_medgen.rb:332 | definition: `$1` to `$9` as a record |
| MgSat.QuotedWithinBare | rdf_converter_medgen.rb:331-334 | every line the quoted pattern accepts, the bare one accepts too |
| MgSat.AbsorbQuotes | rdf_converter_medgen.rb:331-334 | a quoted value followed by the rest also matches as an unquoted value |
| MgSat.QuotedRun | rdf_converter_medgen.rb:331 | a quoted value is a quote, non-newlines and a quote |
| MgSat.BareRun | rdf_converter_medgen.rb:333 | a run of non-newlines matches the unquoted value group |
| MgSat.GroupOnce | rdf_converter_medgen.rb:331-333 | groups 8 and 9 occur once in each pattern |
| MgSat.QuotedValue | rdf_converter_medgen.rb:331 | the quoted value holds no line feed |
| MgSat.BareValue | rdf_converter_medgen.rb:333 | the bare value holds no line feed |
| MgSat.ValueOneLine | rdf_converter_medgen.rb:330-338 | a parsed value holds no line feed |
| MgSat.QuotedFlag | rdf_converter_medgen.rb:331 | the quoted pattern's suppress is one word character |
| MgSat.BareFlag | rdf_converter_medgen.rb:333 | the bare pattern's suppress is one word character |
| MgSat.SuppressFlag | rdf_converter_medgen.rb:330-338 | a parsed suppress is one word character |
| MgSat.ValueReadsBack | rdf_converter_medgen.rb:351 | a parsed value without CR prints as a literal that reads back as the value without backslashes |
| MgSat.TurtleLines | rdf_converter_medgen.rb:340-356 | eleven lines; the eighth is the `rdf:value` literal |
| MgSat.ConstructTurtle | rdf_converter_medgen.rb:340-356 | the block starts with `medgen:<cui>` and ends in a line feed |
| MgSat.Step | rdf_converter_medgen.rb:323-326 | a line halts exactly when it does not parse, and otherwise prints a block that already ends in a line feed |
| MgSat.Rdf | rdf_converter_medgen.rb:319-328 | `MGSAT.rdf` prints at most one block per line, and halts exactly when some line does not parse |
| MgSat.RdfBlocks | rdf_converter_medgen.rb:319-328 | when every line parses each prints its block in order; the run halts exactly when some line does not parse, with the parse error |
| MgSat.RdfPrints | rdf_converter_medgen.rb:319-328 | when every line parses, each prints its block, in order |
| MgSat.RdfHalts | rdf_converter_medgen.rb:319-328 | the run halts exactly when some line does not parse, and then with the parse error |
| PubMed.Parse | rdf_converter_medgen.rb:387-394 | a line the pattern does not match raises the PubMed parse error |
| PubMed.ParseFails | rdf_converter_medgen.rb:387-394 | `MedGenPubMed.parse` raises exactly when its pattern does not match |
| PubMed.Render | rdf_converter_medgen.rb:397 | definition: the two objects `pubmed:P, pubmedid:P` one PMID contributes |
| PubMed.Rendered | rdf_converter_medgen.rb:397 | definition: the `map!` rendering of each PMID, stated position by position |
| PubMed.ConstructTurtle | rdf_converter_medgen.rb:396-404 | rewrites the PMID array in place to the renderings and returns the group's block |
| PubMed.Block | rdf_converter_medgen.rb:396-404 | the block starts with `medgen:<uid>` and ends in a line feed |
| PubMed.TurtleOf | rdf_converter_medgen.rb:378 | printing the held group gives its block |
| PubMed.Results | rdf_converter_medgen.rb:373-376 | definition: the parse result of every line, stated position by position |
| PubMed.ParsedUntil | rdf_converter_medgen.rb:373-376 | it halts exactly when some of the first `n` lines fails, with the error of a failing line; otherwise the records are the `n` parse results, in order |
| PubMed.Grouped | rdf_converter_medgen.rb:374-382 | consecutive lines group by UID; there is a group exactly when there is a line, and the last group has the last line's UID |
| PubMed.GroupedSnoc | rdf_converter_medgen.rb:377-382 | a line with the held UID appends its PMID to the held group, any other starts a new group |
| PubMed.Gathers | rdf_converter_medgen.rb:377-381 | definition: a group gathers a run of consecutive records of its UID, named after the first, holding their PMIDs in order |
| PubMed.Runs | rdf_converter_medgen.rb:374-381 | definition: boundaries from 0 to the number of records that cut the records into the runs the groups gather |
| PubMed.GathersSnoc | rdf_converter_medgen.rb:377-381 | a run gathered from the records is still gathered after one more record |
| PubMed.GrowRuns | rdf_converter_medgen.rb:380-381 | a record of the held UID extends the last run to cover it |
| PubMed.NewRuns | rdf_converter_medgen.rb:377-379 | a record of a new UID adds a run holding just that record |
| PubMed.RunsSnoc | rdf_converter_medgen.rb:376-381 | one more record keeps every group gathering a run of consecutive records |
| PubMed.GroupedRuns | rdf_converter_medgen.rb:374-381 | for every input, the groups gather runs of consecutive records that together cover all records in order |
| PubMed.GroupedKeepsAll | rdf_converter_medgen.rb:374-382 | the groups' PMIDs, concatenated, are all PMIDs in input order; neighbouring groups have different UIDs; and boundaries `0 == b[0] < ... < b[n] == n-records` exist such that group k gathers records b[k] up to b[k + 1], all of its UID, with the first one's CUI and name and their PMIDs in order |
| PubMed.Emitted | rdf_converter_medgen.rb:377-379 | one block less than there are groups |
| PubMed.Conversion | rdf_converter_medgen.rb:368-385 | `MedGenPubMed.rdf` as written: an empty input raises, and otherwise the run halts exactly when some line does not parse |
| PubMed.EmittedAll | rdf_converter_medgen.rb:377-379 | the blocks printed are those of every group but the last, in order |
| PubMed.EmittedNew | rdf_converter_medgen.rb:377-379 | starting a new group prints the held one |
| PubMed.EmittedSame | rdf_converter_medgen.rb:381 | growing the held group prints nothing |
| PubMed.HaltSticks | rdf_converter_medgen.rb:375-383 | after a raise the outcome no longer changes |
| PubMed.StartGroup | rdf_converter_medgen.rb:373-374 | the first line starts the held group and nothing is printed |
| PubMed.SameGroup | rdf_converter_medgen.rb:380-381 | a line with the held UID appends its PMID |
| PubMed.NewGroup | rdf_converter_medgen.rb:377-379 | a line with a new UID prints the held group and starts its own |
| PubMed.FailAt | rdf_converter_medgen.rb:376 | a line that does not parse ends the run with its error |
| PubMed.EndOfInput | rdf_converter_medgen.rb:375 | at the end of the input what was printed is the outcome, and the held group is not printed |
| PubMed.Gather | rdf_converter_medgen.rb:368-385 | the loop's output and outcome are `Conversion`, and the group it still holds is the last group |
| PubMed.Rdf | rdf_converter_medgen.rb:368-385 | `MedGenPubMed.rdf` prints and halts as `Conversion` |
| PubMed.OneRecord | rdf_converter_medgen.rb:373-385 | a single parsed line gives one group and prints nothing |
| PubMed.OneLineLost | rdf_converter_medgen.rb:368-385 | a file with one data line prints nothing |
| PubMed.LastGroupLost | rdf_converter_medgen.rb:368-385 | whenever the run does not halt, it prints one block fewer than there are groups |
| PubMed.RdfFlushed | rdf_converter_medgen.rb:368-385 | the loop followed by printing the held group gives `Flushed` |
| PubMed.Flushed | rdf_converter_medgen.rb:368-385 | the corrected conversion: it ends as `Conversion` does, prints what it printed and more, and without a halt prints one block per group |
| PubMed.AllPrinted | rdf_converter_medgen.rb:377-379 | the printed blocks and then the held one are every group's block, in order |
| PubMed.FlushedPrintsAll | rdf_converter_medgen.rb:368-385 | with the flush every group is printed, in order; the groups together hold every PMID in input order, and each gathers one run of consecutive lines of its UID, named after the first of them |
| PubMed.Pmids | rdf_converter_medgen.rb:381 | definition: the PMIDs of the records, in order, stated position by position |
| PubMed.FlattenSnoc | rdf_converter_medgen.rb:381 | adding a group appends its PMIDs |
| PubMed.PmidsSnoc | rdf_converter_medgen.rb:381 | adding a record appends its PMID |
| PubMed.GrowKeeps | rdf_converter_medgen.rb:381 | growing the held group keeps the PMID order and the UID separation |
| PubMed.NewKeeps | rdf_converter_medgen.rb:379 | starting a group keeps them too |
| OmimHpo.Kind | rdf_converter_medgen.rb:436-441 | the `if`/`elsif` of the scan: a class id is a non-empty run of word characters, and a label is non-empty and within one line |
| OmimHpo.ClassIdOf | rdf_converter_medgen.rb:436-437 | `$1` of `/(\w+)> a owl:Class` is a non-empty run of word characters |
| OmimHpo.LabelOf | rdf_converter_medgen.rb:438-439 | `$1` of the `skos:prefLabel` pattern is non-empty and holds no line feed |
| OmimHpo.Next | rdf_converter_medgen.rb:436-441 | one line of the scan: a class sets the id in force, a label maps to the id in force, and nothing else in the table changes |
| OmimHpo.Scanned | rdf_converter_medgen.rb:434-444 | definition: the scan's id and table after the first `n` lines (`IdInForce`, `NoIdYet`, `LastLabelWins`, `LabelsDeclared`) |
| OmimHpo.Labels | rdf_converter_medgen.rb:430-446 | `parse_umls_semantictype` has a key exactly for each label some line of the ontology declares |
| OmimHpo.KindMatches | rdf_converter_medgen.rb:436-442 | a line is a class line exactly when the class pattern matches, and a label line exactly when only the label pattern does |
| OmimHpo.Kinds | rdf_converter_medgen.rb:435-443 | one kind per line |
| OmimHpo.KindsAt | rdf_converter_medgen.rb:435-443 | the kind of line `i` is that line's kind |
| OmimHpo.KindOf | rdf_converter_medgen.rb:435-443 | the same, computed in the loop |
| OmimHpo.ParseSemanticTypes | rdf_converter_medgen.rb:430-446 | the loop's hash is the fold `Labels` over the semantic-type lines |
| OmimHpo.LabelsDeclared | rdf_converter_medgen.rb:438-440 | a label is a key exactly when some label line names it |
| OmimHpo.IdInForce | rdf_converter_medgen.rb:436-437 | the id in force is that of the last class line |
| OmimHpo.NoIdYet | rdf_converter_medgen.rb:432 | before any class line the id is empty |
| OmimHpo.LastLabelWins | rdf_converter_medgen.rb:440 | a label maps to the id in force at its last label line; later duplicates overwrite |
| OmimHpo.Parse | rdf_converter_medgen.rb:421-428 | a raise carries the line and the parse error, and otherwise there are at least ten fields that joined by vertical bars give the line back |
| OmimHpo.Fields | rdf_converter_medgen.rb:416 | definition: the ten fields `ary[0..9]` as a record |
| OmimHpo.ParseCounts | rdf_converter_medgen.rb:422-423 | `parse` succeeds exactly when the line holds at least nine vertical bars, and no field holds one |
| OmimHpo.Predicate | rdf_converter_medgen.rb:452-469 | an empty relationship becomes `undefined_relationship`, any other is kept |
| OmimHpo.StyId | rdf_converter_medgen.rb:473 | a known semantic-type label maps to its id |
| OmimHpo.TurtleLines | rdf_converter_medgen.rb:448-477 | ten lines, ending in the blank line |
| OmimHpo.ConstructTurtle | rdf_converter_medgen.rb:448-477 | the triple comes first and the block ends in a line feed |
| OmimHpo.ReifiedAlike | rdf_converter_medgen.rb:452-471 | the triple and its reification name the same subject, predicate and object |
| OmimHpo.UnknownSty | rdf_converter_medgen.rb:473 | an unknown label gives an empty `sty:` suffix |
| OmimHpo.Step | rdf_converter_medgen.rb:414-417 | a line halts exactly when it does not parse, and otherwise prints a block |
| OmimHpo.Rdf | rdf_converter_medgen.rb:409-419 | `MedGenOMIMHPOMapping.rdf` prints at most one block per line, and halts exactly when some line does not parse |
| OmimHpo.RdfBlocks | rdf_converter_medgen.rb:409-419 | when every line has nine vertical bars, each prints its block in order; otherwise the run halts at a line with fewer, with that line and the parse error |
| OmimHpo.RdfPrints | rdf_converter_medgen.rb:414-417 | when every line parses, one block per line is printed, in input order |
| Mim2Gene.Parse | rdf_converter_medgen.rb:499-506 | a raise carries the line and the parse error, and otherwise there are exactly six fields, the last non-empty |
| Mim2Gene.ParseTabs | rdf_converter_medgen.rb:500 | a parsed line holds at least five tabs and its fields none |
| Mim2Gene.ParseIff | rdf_converter_medgen.rb:500-503 | a line parses exactly when its text, line break and trailing tabs removed, holds five tabs, and the six fields joined by tabs give that text back |
| Mim2Gene.EmptyCommentRaises | rdf_converter_medgen.rb:500-503 | five tab-free fields followed by an empty comment field raise, because `split` drops the empty field |
| Mim2Gene.FourTabsRaises | rdf_converter_medgen.rb:500-503 | a text with four tabs, then a tab and the line feed, raises |
| Mim2Gene.Quote | rdf_converter_medgen.rb:519 | a source between double quotes |
| Mim2Gene.Quoted | rdf_converter_medgen.rb:519 | definition: each source between double quotes, stated position by position |
| Mim2Gene.SingleSource | rdf_converter_medgen.rb:516-520 | a source without `"; "` is quoted whole, after `strip` |
| Mim2Gene.Sources | rdf_converter_medgen.rb:515-520 | definition of the `dct:source` objects: `-` is kept, otherwise the `"; "`-separated sources of the stripped text are quoted and joined with `", "` (`SingleSource`) |
| Mim2Gene.PhenotypeLines | rdf_converter_medgen.rb:526-536 | nine lines, from the `obo:RO_0003302` triple to the closing `] .` |
| Mim2Gene.Statement | rdf_converter_medgen.rb:526-536 | the phenotype block starts with its triple and ends in a line feed |
| Mim2Gene.SeeAlso | rdf_converter_medgen.rb:541-542 | the gene line ends in a line feed |
| Mim2Gene.Turtle | rdf_converter_medgen.rb:522-545 | the block is non-empty exactly when the gene id is not `-` and the type is gene or phenotype, and a non-empty block ends in a line feed |
| Mim2Gene.PhenotypeBlock | rdf_converter_medgen.rb:523-537 | a phenotype row with a gene id prints its triple first |
| Mim2Gene.GeneBlock | rdf_converter_medgen.rb:538-543 | a gene row with a gene id prints exactly the `rdfs:seeAlso` line |
| Mim2Gene.Noted | rdf_converter_medgen.rb:524 | definition of `@@mim2type[mim] ||= t` on the insertion-ordered hash (`NotedOnce`); the gene branch at line 539 is the same |
| Mim2Gene.EntryOf | rdf_converter_medgen.rb:508-546 | definition: the MIM number, the type and the block `construct_turtle` gives for a parsed row |
| Mim2Gene.NotedOnce | rdf_converter_medgen.rb:524 | the or-assignment is first-write-wins: a typed MIM keeps its type, a new one gets the type and joins the end of the order, nothing else changes |
| Mim2Gene.Effect | rdf_converter_medgen.rb:523-544 | a row of another type leaves the hash as it is |
| Mim2Gene.EffectOn | rdf_converter_medgen.rb:523-544 | a row adds its MIM number exactly when its type is gene or phenotype, and never changes a type already there |
| Mim2Gene.EffectOrdered | rdf_converter_medgen.rb:523-544 | the hash stays insertion-ordered |
| Mim2Gene.Summary | rdf_converter_medgen.rb:494-496 | definition: one summary line per entry, in insertion order, with the text of line 495, stated position by position |
| Mim2Gene.SummaryPrinted | rdf_converter_medgen.rb:495 | each summary line already ends in a line feed |
| Mim2Gene.Outcome | rdf_converter_medgen.rb:489-490 | `parse` then `construct_turtle` on one line: it fails exactly when the line does not parse, with the line and the parse error |
| Mim2Gene.Results | rdf_converter_medgen.rb:488-489 | one parse outcome per line |
| Mim2Gene.ResultsDescribe | rdf_converter_medgen.rb:488-489 | each outcome is that of its line |
| Mim2Gene.ResultsAt | rdf_converter_medgen.rb:488-489 | the same, one line at a time |
| Mim2Gene.Converted | rdf_converter_medgen.rb:488-492 | definition of the loop's progress after `n` lines, up to the first raise (`ConvertedOrdered`, `HaltSticks`, `TypedIff`, `Mim2Gene.Mim2Type.Convert`) |
| Mim2Gene.Conversion | rdf_converter_medgen.rb:484-497 | definition of `MIM2GENE.rdf`: the loop, then the summary unless the loop raised; `Mim2Gene.Mim2Type.Rdf` is proved equal to it |
| Mim2Gene.ConvertedOrdered | rdf_converter_medgen.rb:484-497 | the hash stays insertion-ordered through the loop |
| Mim2Gene.HaltSticks | rdf_converter_medgen.rb:488-492 | after a raise the outcome no longer changes |
| Mim2Gene.StepBack | rdf_converter_medgen.rb:488-492 | a run without a raise after line `i` had none before it |
| Mim2Gene.TypedIff | rdf_converter_medgen.rb:523-544 | after the loop a MIM number has a type exactly when it had one or some row typed it |
| Mim2Gene.FirstTypeKept | rdf_converter_medgen.rb:523-544 | the type kept is that of the first row that typed the MIM number |
| Mim2Gene.Untyped | rdf_converter_medgen.rb:523-544 | a MIM number no row typed stays untyped |
| Mim2Gene.Advance | rdf_converter_medgen.rb:488-491 | one iteration: a raise ends the run, otherwise a non-empty block is printed and the hash updated |
| Mim2Gene.PrintedBound | rdf_converter_medgen.rb:491 | at most one block per line |
| Mim2Gene.Mim2Type.constructor | rdf_converter_medgen.rb:482 | the class hash starts empty |
| Mim2Gene.Mim2Type.Note | rdf_converter_medgen.rb:524 | the or-assignment into `@@mim2type`, on the fields |
| Mim2Gene.Mim2Type.ConstructTurtle | rdf_converter_medgen.rb:508-546 | returns the block and updates the class hash by the row's effect |
| Mim2Gene.Mim2Type.Drain | rdf_converter_medgen.rb:494-496 | the summary lines of the hash, in insertion order |
| Mim2Gene.Mim2Type.Line | rdf_converter_medgen.rb:488-491 | one iteration of the loop, against the conversion |
| Mim2Gene.Mim2Type.Convert | rdf_converter_medgen.rb:488-492 | the loop prints and updates the hash as the conversion says |
| Mim2Gene.Mim2Type.Rdf | rdf_converter_medgen.rb:484-497 | `MIM2GENE.rdf` prints the blocks, then the summary, and leaves the hash as the conversion does; the hash persists across calls |

## Left out

- **I/O:**
  - Opening files, the header `f.gets`, `puts` and `STDERR.print` are not
    modelled: the data lines are a parameter, and the printed blocks and the
    halt are the result.
  - The text written to standard error is kept in the `Halt` value.
- **Prefixes:** the `$prefixes` switch, `MedGen.prefixes` and the `Prefixes`
  table (rdf_converter_medgen.rb:7-37, 586-587) only print a constant header.
- **Command line:** the option parsing and dispatch (rdf_converter_medgen.rb:563-615)
  are argument glue.
- **Encoding:** `force_encoding('UTF-8').scrub('?')` (rdf_converter_medgen.rb:388)
  is byte decoding. Lines are taken to be valid text, as `seq<char>`.
- **`name.inspect`** (rdf_converter_medgen.rb:402) is Ruby library escaping. It
  is the function parameter `inspect` of the PubMed members.
- **`String#to_snake`** (rdf_converter_medgen.rb:552-556) is called by no
  converter.
- **General regular expressions:** only the subset the converter's patterns use
  is modelled. Character classes are ASCII, as Ruby's `\w`, `\d` and `\s` are.
- **Turtle.Unescape: numeric escapes.** The reader decodes ECHAR only, not
  UCHAR (`\uXXXX`, `\UXXXXXXXX`), because none of the escaping the model
  verifies produces one; a label holding a raw UCHAR reads back as unreadable
  here, although a Turtle parser would accept it.
- **PubMed's empty-file error:** a PubMed file without data lines makes Ruby
  raise a `NoMethodError` on `nil`. Its exact text is represented by the
  constant `PubMed.NoData`.
- **Process exit status:** how the process ends after `exit` or an uncaught
  exception is not modelled; both are the `Halt` of the run.

## Findings

| source | as written | input that shows it | evidently intended | confidence | as-written member | corrected member |
|---|---|---|---|---|---|---|
| rdf_converter_medgen.rb:368-385 | the loop prints a group only when the next line has a different UID, and nothing is printed after the loop, so the last group of every file is lost | a header and a single data line (UID 2, CUI C0000039, PMID 1520723) print nothing (`PubMed.OneLineLost`) | every group, including the last, is printed once, in input order | not executed | PubMed.LastGroupLost | PubMed.FlushedPrintsAll |

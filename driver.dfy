/**
  The shape every converter's `rdf` shares: read the data lines one by one (the
  header line has already been skipped), turn each into at most one printed
  block, and stop at the first `raise` or `exit`.  Standard output is a sequence
  of `puts` results; standard error and the way the process ends are the `Halt`.
*/
module Driver {
  import opened Wrappers

  /** How a conversion stops before the end of its input. */
  datatype Halt =
    | Raise(stderr: string, message: string)  // `STDERR.print stderr` (empty when nothing is printed), then `raise message`
    | Exit(stderr: string)                    // `STDERR.print stderr`, then `exit`

  /** What a conversion writes to standard output, one element per `puts`, and whether it halted. */
  datatype Run = Run(printed: seq<string>, halt: Option<Halt>)

  /** What `puts s` writes: `s`, and a line feed after it unless `s` already ends with one. */
  function Puts(s: string): (r: string)
    ensures |r| >= 1 && r[|r| - 1] == '\n'
    ensures s <= r && |r| <= |s| + 1
    ensures s != [] && s[|s| - 1] == '\n' ==> r == s
  {
    if s != [] && s[|s| - 1] == '\n' then s else s + "\n"
  }

  /** Output printed before a run continues as `after`. */
  function Then(before: seq<string>, after: Run): Run {
    Run(before + after.printed, after.halt)
  }

  /** Printing `a` and then `b` before a run is printing `a + b` before it. */
  lemma ThenThen(a: seq<string>, b: seq<string>, r: Run)
    ensures Then(a, Then(b, r)) == Then(a + b, r)
  {
    assert a + (b + r.printed) == (a + b) + r.printed;
  }

  /** What one data line does: print a block, print nothing, or halt. */
  type Step = string -> Result<Option<string>, Halt>

  /** The loop `while line = f.gets`: every line through `step`, in order, up to the first halt. */
  function Each(lines: seq<string>, step: Step): (r: Run)
    ensures |r.printed| <= |lines|
    ensures r.halt.None? <==> forall k :: 0 <= k < |lines| ==> step(lines[k]).Success?
    decreases |lines|
  {
    if lines == [] then Run([], None)
    else
      var rest := Each(lines[1..], step);
      assert forall k :: 1 <= k < |lines| ==> lines[k] == lines[1..][k - 1];
      match step(lines[0])
      case Failure(h) => Run([], Some(h))
      case Success(None) => rest
      case Success(Some(b)) => Then([Puts(b)], rest)
  }

  /** One step of `Each` taken from position `i`; the loops of the converters advance with it. */
  lemma EachAt(lines: seq<string>, i: nat, step: Step)
    requires i < |lines|
    ensures Each(lines[i..], step) ==
      match step(lines[i])
      case Failure(h) => Run([], Some(h))
      case Success(None) => Each(lines[i + 1..], step)
      case Success(Some(b)) => Then([Puts(b)], Each(lines[i + 1..], step))
  {
    assert lines[i..][0] == lines[i] && lines[i..][1..] == lines[i + 1..];
  }

  /** Reading `a + b` is reading `a` and then, unless `a` halted, reading `b`. */
  lemma {:induction false} EachAppend(a: seq<string>, b: seq<string>, step: Step)
    ensures Each(a + b, step) == if Each(a, step).halt.Some? then Each(a, step) else Then(Each(a, step).printed, Each(b, step))
    decreases |a|
  {
    if a == [] {
      assert a + b == b;
    } else {
      assert (a + b)[0] == a[0] && (a + b)[1..] == a[1..] + b;
      EachAppend(a[1..], b, step);
      match step(a[0])
      case Failure(_) =>
      case Success(None) =>
      case Success(Some(x)) =>
        var ra := Each(a[1..], step);
        var rb := Each(b, step);
        assert [Puts(x)] + (ra.printed + rb.printed) == ([Puts(x)] + ra.printed) + rb.printed;
    }
  }

  /** Nothing after the first failing line is printed, and that line's halt is the run's. */
  lemma StopsAt(lines: seq<string>, k: nat, step: Step)
    requires k < |lines| && step(lines[k]).Failure?
    requires forall j :: 0 <= j < k ==> step(lines[j]).Success?
    ensures Each(lines, step) == Run(Each(lines[..k], step).printed, Some(step(lines[k]).error))
  {
    assert lines == lines[..k] + lines[k..];
    EachAppend(lines[..k], lines[k..], step);
    EachAt(lines, k, step);
  }

  /** When every line prints a block, the output is one `puts` per line, in input order. */
  lemma {:induction false} EachPrintsAll(lines: seq<string>, step: Step)
    requires forall k :: 0 <= k < |lines| ==> step(lines[k]).Success? && step(lines[k]).value.Some?
    ensures Each(lines, step).halt.None? && |Each(lines, step).printed| == |lines|
    ensures forall k :: 0 <= k < |lines| ==> Each(lines, step).printed[k] == Puts(step(lines[k]).value.value)
    decreases |lines|
  {
    if lines != [] {
      assert forall k :: 1 <= k < |lines| ==> lines[k] == lines[1..][k - 1];
      EachPrintsAll(lines[1..], step);
    }
  }

  /** A run that halts stops at its first failing line, with that line's halt. */
  lemma {:induction false} FirstHalt(lines: seq<string>, step: Step) returns (k: nat)
    requires Each(lines, step).halt.Some?
    ensures k < |lines| && step(lines[k]).Failure? && Each(lines, step).halt.value == step(lines[k]).error
    ensures forall j :: 0 <= j < k ==> step(lines[j]).Success?
    decreases |lines|
  {
    if step(lines[0]).Failure? {
      k := 0;
    } else {
      var m := FirstHalt(lines[1..], step);
      k := m + 1;
      assert forall j :: 1 <= j < k ==> lines[j] == lines[1..][j - 1];
    }
  }
}

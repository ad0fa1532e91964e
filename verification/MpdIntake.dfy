/**
 From bytes to commands: the reading half of `runThread` in
 src/Protocols/MPD.cpp. Lines are cut out of a client's buffer, then a line is
 cut into a name and arguments.
 */
module MpdIntake {
  import opened Tokeniser

  const NL: char := '\n'
  const CR: char := '\r'
  const SPACE: char := ' '
  const QUOTE: char := '"'

  // ---------- Framing ----------

  /** `find_last_of(d) + 1`, where "not found" plus one wraps round to 0. */
  function AfterLastIndex(s: string, d: char): (i: nat)
    ensures i <= |s| && d !in s[i..] && (i > 0 ==> s[i - 1] == d)
  {
    if s == "" then 0
    else if s[|s| - 1] == d then |s|
    else
      var i := AfterLastIndex(s[..|s| - 1], d);
      assert s[i..] == s[..|s| - 1][i..] + [s[|s| - 1]];
      i
  }

  /** One pass of the generate loop over a client's buffer: the lines it dispatches. The loop runs
      over every token of the buffer, so an unterminated tail is dispatched as well. */
  function Dispatched(buffer: string): seq<string> {
    Tokens(buffer, NL)
  }

  /** What the pass leaves in the buffer. */
  function Kept(buffer: string): string {
    buffer[AfterLastIndex(buffer, NL)..]
  }

  /** The newline-terminated lines of a text, in order, and what follows the last newline. */
  function Lines(text: string): seq<string> { Front(Split(text, NL)) }
  function Tail(text: string): string { Last(Split(text, NL)) }

  lemma NoneAtOrBehind(s: string, j: nat)
    requires j <= |s| && NL !in s[j..]
    ensures forall i :: j <= i < |s| ==> s[i] != NL
  {
    forall i | j <= i < |s| ensures s[i] != NL {
      assert s[i] == s[j..][i - j];
    }
  }

  /** The last newline is where a tail without newline begins, and there is only one such place. */
  lemma AfterLastUnique(s: string, j: nat)
    requires j <= |s| && NL !in s[j..] && (j > 0 ==> s[j - 1] == NL)
    ensures AfterLastIndex(s, NL) == j
  {
    NoneAtOrBehind(s, j);
    NoneAtOrBehind(s, AfterLastIndex(s, NL));
  }

  lemma KeptIsTail(buffer: string)
    ensures Kept(buffer) == Tail(buffer)
  {
    var t := Tail(buffer);
    LastField(buffer, NL);
    JoinOfSplit(buffer, NL);
    assert t in Split(buffer, NL);
    AfterLastUnique(buffer, |buffer| - |t|);
  }

  /** What happens to one client's buffer: bytes arrive, or the generate loop passes over it. */
  datatype BufferStep = Read(chunk: string) | Generate

  function Stream(run: seq<BufferStep>): string {
    if run == [] then "" else (if run[0].Read? then run[0].chunk else "") + Stream(run[1..])
  }

  /** The lines dispatched along a run that starts with `buffer`. */
  function Yielded(buffer: string, run: seq<BufferStep>): seq<string>
    decreases |run|
  {
    if run == [] then []
    else match run[0]
      case Read(chunk) => Yielded(buffer + chunk, run[1..])
      case Generate => Dispatched(buffer) + Yielded(Kept(buffer), run[1..])
  }

  function Remaining(buffer: string, run: seq<BufferStep>): string
    decreases |run|
  {
    if run == [] then buffer
    else match run[0]
      case Read(chunk) => Remaining(buffer + chunk, run[1..])
      case Generate => Remaining(Kept(buffer), run[1..])
  }

  /** The lines a pass that stops at the last newline would dispatch along the same run. */
  function Due(buffer: string, run: seq<BufferStep>): seq<string>
    decreases |run|
  {
    if run == [] then []
    else match run[0]
      case Read(chunk) => Due(buffer + chunk, run[1..])
      case Generate => Lines(buffer) + Due(Tail(buffer), run[1..])
  }

  lemma LinesConcat(a: string, b: string)
    ensures Lines(a + b) == Lines(a) + Lines(Tail(a) + b)
    ensures Tail(a + b) == Tail(Tail(a) + b)
  {
    SplitConcat(a, b, NL);
  }

  lemma TailHasNoLines(a: string)
    ensures Lines(Tail(a)) == [] && Tail(Tail(a)) == Tail(a)
  {
    JoinOfSplit(a, NL);
    var t := Tail(a);
    assert t in Split(a, NL);
    assert t[..|t|] == t;
    IndexOfUnique(t, NL, |t|);
  }

  lemma PassKeepsLines(buffer: string, more: string, due: seq<string>, left: seq<string>)
    requires due + left == Lines(Tail(buffer) + more)
    ensures (Lines(buffer) + due) + left == Lines(buffer + more)
    ensures Tail(buffer + more) == Tail(Tail(buffer) + more)
  {
    LinesConcat(buffer, more);
    assert (Lines(buffer) + due) + left == Lines(buffer) + (due + left);
  }

  /** Cutting at the last newline does not depend on how the bytes arrived: the lines due so far and
      the lines still in the buffer are the lines of everything received, and the buffer ends in the
      same unterminated tail. */
  lemma {:induction false} DueIsChunkIndependent(buffer: string, run: seq<BufferStep>)
    ensures Due(buffer, run) + Lines(Remaining(buffer, run)) == Lines(buffer + Stream(run))
    ensures Tail(Remaining(buffer, run)) == Tail(buffer + Stream(run))
    decreases |run|
  {
    if run == [] {
      assert buffer + "" == buffer;
      assert Due(buffer, run) == [] && [] + Lines(buffer) == Lines(buffer);
    } else if run[0].Read? {
      assert run == [Read(run[0].chunk)] + run[1..];
      DueAfterRead(buffer, run[0].chunk, run[1..]);
      DueIsChunkIndependent(buffer + run[0].chunk, run[1..]);
    } else {
      assert run == [Generate] + run[1..];
      DueIsChunkIndependent(Tail(buffer), run[1..]);
      PassThenRest(buffer, run[1..]);
    }
  }

  /** A pass in front of a run for which chunks do not matter. */
  lemma PassThenRest(buffer: string, rest: seq<BufferStep>)
    requires Due(Tail(buffer), rest) + Lines(Remaining(Tail(buffer), rest)) == Lines(Tail(buffer) + Stream(rest))
    requires Tail(Remaining(Tail(buffer), rest)) == Tail(Tail(buffer) + Stream(rest))
    ensures var run := [Generate] + rest;
      && Due(buffer, run) + Lines(Remaining(buffer, run)) == Lines(buffer + Stream(run))
      && Tail(Remaining(buffer, run)) == Tail(buffer + Stream(run))
  {
    DueAfterPass(buffer, rest);
    PassKeepsLines(buffer, Stream(rest), Due(Tail(buffer), rest), Lines(Remaining(Tail(buffer), rest)));
  }

  lemma DueAfterRead(buffer: string, chunk: string, rest: seq<BufferStep>)
    ensures var run := [Read(chunk)] + rest;
      && Due(buffer, run) == Due(buffer + chunk, rest)
      && Remaining(buffer, run) == Remaining(buffer + chunk, rest)
      && buffer + Stream(run) == (buffer + chunk) + Stream(rest)
  {
    assert ([Read(chunk)] + rest)[1..] == rest;
  }

  lemma DueAfterPass(buffer: string, rest: seq<BufferStep>)
    ensures var run := [Generate] + rest;
      && Due(buffer, run) == Lines(buffer) + Due(Tail(buffer), rest)
      && Remaining(buffer, run) == Remaining(Tail(buffer), rest)
      && Stream(run) == Stream(rest)
  {
    KeptIsTail(buffer);
    assert ([Generate] + rest)[1..] == rest;
  }

  // ---------- What the pass really dispatches ----------

  function NonEmpty(lines: seq<string>): seq<string> {
    if lines == [] then []
    else (if lines[0] == "" then [] else [lines[0]]) + NonEmpty(lines[1..])
  }

  /** The buffer is empty, or ends with a newline that closes a line with something in it. */
  predicate Clean(buffer: string) {
    buffer == "" || (|buffer| >= 2 && buffer[|buffer| - 1] == NL && buffer[|buffer| - 2] != NL)
  }

  /** Every pass of the run found a clean buffer. */
  predicate CleanRun(buffer: string, run: seq<BufferStep>)
    decreases |run|
  {
    run == [] ||
    match run[0]
    case Read(chunk) => CleanRun(buffer + chunk, run[1..])
    case Generate => Clean(buffer) && CleanRun(Kept(buffer), run[1..])
  }

  /** How many passes of the run found an unterminated tail. */
  function Partials(buffer: string, run: seq<BufferStep>): nat
    decreases |run|
  {
    if run == [] then 0
    else match run[0]
      case Read(chunk) => Partials(buffer + chunk, run[1..])
      case Generate => (if Tail(buffer) == "" then 0 else 1) + Partials(Kept(buffer), run[1..])
  }

  lemma {:induction false} NonEmptyConcat(a: seq<string>, b: seq<string>)
    ensures NonEmpty(a + b) == NonEmpty(a) + NonEmpty(b)
  {
    if a == [] {
      assert a + b == b;
    } else {
      assert (a + b)[1..] == a[1..] + b;
      NonEmptyConcat(a[1..], b);
    }
  }

  lemma SplitIsLinesAndTail(buffer: string)
    ensures Split(buffer, NL) == Lines(buffer) + [Tail(buffer)]
  {
  }

  lemma NonEmptyOfTokens(tokens: seq<string>, fields: seq<string>, n: nat)
    requires DropsTrailing(tokens, fields, n)
    ensures NonEmpty(tokens) == NonEmpty(fields)
  {
    var gone := fields[|tokens|..];
    assert fields == tokens + gone;
    NonEmptyConcat(tokens, gone);
    NothingNonEmpty(gone);
  }

  /** One pass: every complete line with something in it, then the tail if there is one. */
  lemma PassDispatches(buffer: string)
    ensures NonEmpty(Dispatched(buffer)) == NonEmpty(Lines(buffer)) + NonEmpty([Tail(buffer)])
  {
    TokensExact(buffer, NL);
    NonEmptyOfTokens(Dispatched(buffer), Split(buffer, NL), Dropped(buffer, NL));
    SplitIsLinesAndTail(buffer);
    NonEmptyConcat(Lines(buffer), [Tail(buffer)]);
  }

  /** One pass over a buffer without a tail: it dispatches the lines, all of them exactly when the
      buffer is clean. */
  lemma PassWithoutTail(buffer: string)
    ensures Tail(buffer) == "" ==> |Dispatched(buffer)| <= |Lines(buffer)|
    ensures Tail(buffer) == "" && |Dispatched(buffer)| == |Lines(buffer)| ==> Clean(buffer)
    ensures Clean(buffer) ==> Dispatched(buffer) == Lines(buffer) && Tail(buffer) == ""
  {
    TokensExact(buffer, NL);
    LastField(buffer, NL);
    assert Clean(buffer) <==> Dropped(buffer, NL) == 1;
    assert |Lines(buffer)| == |Split(buffer, NL)| - 1;
  }

  lemma {:induction false} NothingNonEmpty(lines: seq<string>)
    requires forall k :: 0 <= k < |lines| ==> lines[k] == ""
    ensures NonEmpty(lines) == []
  {
    if lines != [] {
      NothingNonEmpty(lines[1..]);
    }
  }

  /** Along any run, no complete command line is lost; but each pass over an unterminated tail
      dispatches that tail once too often. */
  lemma {:induction false} PartialsAreExtra(buffer: string, run: seq<BufferStep>)
    ensures |NonEmpty(Yielded(buffer, run))| == |NonEmpty(Due(buffer, run))| + Partials(buffer, run)
    decreases |run|
  {
    if run != [] {
      match run[0]
      case Read(chunk) => PartialsAreExtra(buffer + chunk, run[1..]);
      case Generate =>
        KeptIsTail(buffer);
        PassDispatches(buffer);
        NonEmptyConcat(Dispatched(buffer), Yielded(Kept(buffer), run[1..]));
        NonEmptyConcat(Lines(buffer), Due(Tail(buffer), run[1..]));
        PartialsAreExtra(Kept(buffer), run[1..]);
    }
  }

  lemma {:induction false} WithoutPartials(buffer: string, run: seq<BufferStep>)
    requires Partials(buffer, run) == 0
    ensures |Yielded(buffer, run)| <= |Due(buffer, run)|
    ensures |Yielded(buffer, run)| == |Due(buffer, run)| ==> CleanRun(buffer, run)
    decreases |run|
  {
    if run != [] {
      match run[0]
      case Read(chunk) => WithoutPartials(buffer + chunk, run[1..]);
      case Generate =>
        KeptIsTail(buffer);
        PassWithoutTail(buffer);
        WithoutPartials(Kept(buffer), run[1..]);
    }
  }

  lemma {:induction false} CleanYieldsDue(buffer: string, run: seq<BufferStep>)
    requires CleanRun(buffer, run)
    ensures Yielded(buffer, run) == Due(buffer, run)
    decreases |run|
  {
    if run != [] {
      match run[0]
      case Read(chunk) => CleanYieldsDue(buffer + chunk, run[1..]);
      case Generate =>
        KeptIsTail(buffer);
        PassWithoutTail(buffer);
        CleanYieldsDue(Kept(buffer), run[1..]);
    }
  }

  /** Framing, over every division of the stream into reads and every placement of passes. Whatever
      happens, after a pass the buffer holds exactly the unterminated tail of the whole stream. The
      lines dispatched are exactly the newline-terminated lines of the whole stream, in order, if
      and only if every pass found the buffer empty or ending with a closed, non-empty line. */
  lemma FramingExactlyWhen(run: seq<BufferStep>)
    ensures var all := run + [Generate];
      && Remaining("", all) == Tail(Stream(all))
      && (Yielded("", all) == Lines(Stream(all)) <==> CleanRun("", all))
  {
    var all := run + [Generate];
    DueIsChunkIndependent("", all);
    assert "" + Stream(all) == Stream(all);
    EndsWithPass("", run);
    TailHasNoLines(Remaining("", run));
    assert Due("", all) + [] == Due("", all);
    PartialsAreExtra("", all);
    if Yielded("", all) == Due("", all) {
      WithoutPartials("", all);
    }
    if CleanRun("", all) {
      CleanYieldsDue("", all);
    }
  }

  lemma {:induction false} EndsWithPass(buffer: string, run: seq<BufferStep>)
    ensures Remaining(buffer, run + [Generate]) == Tail(Remaining(buffer, run))
    decreases |run|
  {
    if run == [] {
      KeptIsTail(buffer);
      assert [Generate][1..] == [] && run + [Generate] == [Generate];
      assert Remaining(buffer, [Generate]) == Remaining(Kept(buffer), []);
    } else {
      assert (run + [Generate])[1..] == run[1..] + [Generate];
      match run[0]
      case Read(chunk) => EndsWithPass(buffer + chunk, run[1..]);
      case Generate => EndsWithPass(Kept(buffer), run[1..]);
    }
  }

  lemma TwoPasses(a: string, b: string)
    ensures var run := [Read(a), Generate, Read(b), Generate];
      Stream(run) == a + b && Yielded("", run) == Dispatched(a) + Dispatched(Kept(a) + b)
  {
    var r3 := [Generate];
    var r2 := [Read(b), Generate];
    var r1 := [Generate, Read(b), Generate];
    var r0 := [Read(a), Generate, Read(b), Generate];
    assert r3[1..] == [] && r2[1..] == r3 && r1[1..] == r2 && r0[1..] == r1;
    assert Stream(r3) == "" && Stream(r2) == b && Stream(r1) == b;
    var k := Kept(a);
    assert Yielded(k + b, r3) == Dispatched(k + b);
    assert Yielded(k, r2) == Dispatched(k + b);
    assert "" + a == a;
  }

  lemma OneClosedLine(line: string)
    requires line != "" && NL !in line
    ensures Dispatched(line) == [line] && Kept(line) == line
    ensures Dispatched(line + [NL]) == [line] && Lines(line + [NL]) == [line]
  {
    assert line[..|line|] == line;
    IndexOfUnique(line, NL, |line|);
    TokensLast(line, NL);
    KeptIsTail(line);
    var closed := line + [NL];
    assert closed[..|line|] == line;
    IndexOfUnique(closed, NL, |line|);
    TokensLast(closed, NL);
  }

  /** Any command that arrives in two reads with a pass in between is dispatched twice, first cut. */
  lemma CutCommandIsDispatchedTwice(a: string, b: string, run: seq<BufferStep>)
    requires a != "" && NL !in a && NL !in b
    requires run == [Read(a), Generate, Read(b + [NL]), Generate]
    ensures Lines(Stream(run)) == [a + b] && Yielded("", run) == [a] + [a + b]
  {
    var whole := (a + b) + [NL];
    assert a + (b + [NL]) == whole;
    assert Stream(run) == whole && Yielded("", run) == Dispatched(a) + Dispatched(Kept(a) + (b + [NL])) by {
      TwoPasses(a, b + [NL]);
    }
    assert Dispatched(a) == [a] && Kept(a) == a by { OneClosedLine(a); }
    assert Dispatched(whole) == [a + b] && Lines(whole) == [a + b] by { OneClosedLine(a + b); }
  }
}

/**
 From the bytes of a client to its handled commands: the buffers of
 src/Protocols/MPD.cpp put in front of the runs of MpdRun, so that framing and
 parsing meet the hand-off between the threads.

 `table` is the search for a name in the table of commands.
 */
module MpdPipeline {
  import opened Common
  import opened MpdState
  import opened MpdHandler
  import opened MpdClientIds
  import I = MpdIntake
  import L = MpdParse
  import R = MpdRun
  import H = MpdHistory

  type Table = string -> Option<CommandId>

  datatype Wire<P> = Wire(proto: Proto<P>, buffers: map<ClientId, string>)

  /** `words` are what the uninitialised flag word holds when each of the messages runs. */
  datatype WireStep =
    | Bytes(c: ClientId, chunk: string)         // runThread: recv into the client's buffer
    | Pass(c: ClientId, words: seq<set<nat>>)   // runThread: the generate loop over the client's buffer
    | Inner(step: R.Step)                       // everything else

  function BufferOf<P>(w: Wire<P>, c: ClientId): string { if c in w.buffers then w.buffers[c] else "" }

  // ---------- Messages ----------

  function MessagesOf(c: ClientId, cmds: seq<L.Command>, table: Table, words: seq<set<nat>>): seq<Message> {
    if cmds == [] then []
    else
      var word := if words == [] then {} else words[0];
      [Message(c, cmds[0].line, table(cmds[0].name), cmds[0].args, word)]
      + MessagesOf(c, cmds[1..], table, if words == [] then [] else words[1..])
  }

  /** What a message says: all of it but the client and the uninitialised word. */
  datatype Meaning = Meaning(line: string, command: Option<CommandId>, args: seq<string>)

  function Meanings(msgs: seq<Message>): seq<Meaning> {
    if msgs == [] then [] else [Meaning(msgs[0].line, msgs[0].command, msgs[0].args)] + Meanings(msgs[1..])
  }

  function Meant(cmds: seq<L.Command>, table: Table): seq<Meaning> {
    if cmds == [] then [] else [Meaning(cmds[0].line, table(cmds[0].name), cmds[0].args)] + Meant(cmds[1..], table)
  }

  lemma {:induction false} MeaningsConcat(a: seq<Message>, b: seq<Message>)
    ensures Meanings(a + b) == Meanings(a) + Meanings(b)
  {
    if a == [] {
      assert a + b == b;
    } else {
      assert (a + b)[1..] == a[1..] + b;
      MeaningsConcat(a[1..], b);
    }
  }

  lemma {:induction false} MeantConcat(a: seq<L.Command>, b: seq<L.Command>, table: Table)
    ensures Meant(a + b, table) == Meant(a, table) + Meant(b, table)
  {
    if a == [] {
      assert a + b == b;
    } else {
      assert (a + b)[1..] == a[1..] + b;
      MeantConcat(a[1..], b, table);
    }
  }

  /** The messages made for `c` say what the commands mean, and are all of `c`. */
  lemma {:induction false} MessagesMean(
      c: ClientId, d: ClientId, cmds: seq<L.Command>, table: Table, words: seq<set<nat>>)
    ensures R.Of(d, MessagesOf(c, cmds, table, words)) == if c == d then MessagesOf(c, cmds, table, words) else []
    ensures Meanings(MessagesOf(c, cmds, table, words)) == Meant(cmds, table)
    decreases |cmds|
  {
    if cmds != [] {
      var more := if words == [] then [] else words[1..];
      MessagesMean(c, d, cmds[1..], table, more);
      var msgs := MessagesOf(c, cmds, table, words);
      assert msgs[1..] == MessagesOf(c, cmds[1..], table, more);
    }
  }

  lemma {:induction false} ParseLinesConcat(a: seq<string>, b: seq<string>)
    ensures L.ParseLines(a + b) ==
      if L.ParseLines(a).Some? then L.Prepend(L.ParseLines(a).value, L.ParseLines(b)) else None
    decreases |a|
  {
    if a == [] {
      assert a + b == b;
      L.PrependNothing(L.ParseLines(b));
    } else {
      assert (a + b)[1..] == a[1..] + b;
      ParseLinesConcat(a[1..], b);
      var first := L.ParseLine(a[0]);
      if first.Parsed? && L.ParseLines(a[1..]).Some? {
        L.PrependAll([first.command], L.ParseLines(a[1..]).value, L.ParseLines(b));
      }
    }
  }

  // ---------- Steps ----------

  /** Bytes arrive and are looked at for connected clients only, and every line must have a defined parse. */
  predicate Enabled<P>(w: Wire<P>, step: WireStep) {
    match step
    case Bytes(c, _) => w.proto.running && c in w.proto.clients
    case Pass(c, _) => w.proto.running && c in w.proto.clients && L.ParseLines(I.Dispatched(BufferOf(w, c))).Some?
    case Inner(inner) => !inner.Generate? && R.Enabled(w.proto, inner)
  }

  /** Enabled, and no handler crashes. */
  predicate Possible<P>(w: Wire<P>, step: WireStep, exec: Player<P>, pooled: bool)
    requires R.Inv(w.proto)
  {
    Enabled(w, step) && (step.Inner? ==> R.Apply(w.proto, step.step, exec, pooled).Returned?)
  }

  function Buffers<P>(w: Wire<P>, step: WireStep): map<ClientId, string> {
    match step
    case Bytes(c, chunk) => w.buffers[c := BufferOf(w, c) + chunk]
    case Pass(c, _) => w.buffers[c := I.Kept(BufferOf(w, c))]
    case Inner(Disconnect(c)) => w.buffers - {c}
    case Inner(Accept(k)) => w.buffers[Candidate(w.proto.counter, k) := ""]
    case _ => w.buffers
  }

  /** The generate step of MpdRun, on its own. */
  function Made<P>(s: Proto<P>, msgs: seq<Message>): (s': Proto<P>)
    requires R.Inv(s) && s.running
    ensures R.Inv(s')
  {
    R.StepKeepsInv(s, R.Generate(msgs), (p, cmd, args) => Exec(p, [], [], Fine), false);
    s.(batch := s.batch + msgs, produced := s.produced + msgs)
  }

  function Apply<P>(w: Wire<P>, step: WireStep, exec: Player<P>, pooled: bool, table: Table): (w': Wire<P>)
    requires R.Inv(w.proto) && Possible(w, step, exec, pooled)
    ensures R.Inv(w'.proto)
  {
    match step
    case Bytes(_, _) => Wire(w.proto, Buffers(w, step))
    case Pass(c, words) =>
      var cmds := L.ParseLines(I.Dispatched(BufferOf(w, c))).value;
      Wire(Made(w.proto, MessagesOf(c, cmds, table, words)), Buffers(w, step))
    case Inner(inner) =>
      R.StepKeepsInv(w.proto, inner, exec, pooled);
      Wire(R.Apply(w.proto, inner, exec, pooled).s, Buffers(w, step))
  }

  predicate Legal<P>(w: Wire<P>, run: seq<WireStep>, exec: Player<P>, pooled: bool, table: Table)
    requires R.Inv(w.proto)
    decreases |run|
  {
    run == [] ||
    (Possible(w, run[0], exec, pooled) && Legal(Apply(w, run[0], exec, pooled, table), run[1..], exec, pooled, table))
  }

  function After<P>(w: Wire<P>, run: seq<WireStep>, exec: Player<P>, pooled: bool, table: Table): (w': Wire<P>)
    requires R.Inv(w.proto) && Legal(w, run, exec, pooled, table)
    ensures R.Inv(w'.proto)
    decreases |run|
  {
    if run == [] then w else After(Apply(w, run[0], exec, pooled, table), run[1..], exec, pooled, table)
  }

  // ---------- What is made for a client ----------

  /** The lines one step dispatches for `c`. */
  function LinesNow<P>(w: Wire<P>, step: WireStep, c: ClientId): seq<string> {
    if step.Pass? && step.c == c then I.Dispatched(BufferOf(w, c)) else []
  }

  /** The lines dispatched for `c` along a run. */
  function LinesOf<P>(
      w: Wire<P>, run: seq<WireStep>, c: ClientId, exec: Player<P>, pooled: bool, table: Table): seq<string>
    requires R.Inv(w.proto) && Legal(w, run, exec, pooled, table)
    decreases |run|
  {
    if run == [] then []
    else
      var w' := Apply(w, run[0], exec, pooled, table);
      LinesNow(w, run[0], c) + LinesOf(w', run[1..], c, exec, pooled, table)
  }

  lemma OtherStepsMakeNothing<P>(s: Proto<P>, step: R.Step, exec: Player<P>, pooled: bool)
    requires R.Inv(s) && R.Enabled(s, step) && !step.Generate? && R.Apply(s, step, exec, pooled).Returned?
    ensures R.Apply(s, step, exec, pooled).s.produced == s.produced
  {
    if step.HandleNext? {
      R.HandleServes(s, s.recvQueue[0], exec, pooled);
    } else if step.Drain? {
      R.DrainKeepsInv(s, s.sendQueue);
    }
  }

  lemma GenerateMakes<P>(
      s: Proto<P>, d: ClientId, c: ClientId, cmds: seq<L.Command>, table: Table, words: seq<set<nat>>)
    ensures Meanings(R.Of(c, s.produced + MessagesOf(d, cmds, table, words))) ==
      Meanings(R.Of(c, s.produced)) + if d == c then Meant(cmds, table) else []
  {
    var msgs := MessagesOf(d, cmds, table, words);
    MessagesMean(d, c, cmds, table, words);
    R.OfConcat(c, s.produced, msgs);
    MeaningsConcat(R.Of(c, s.produced), R.Of(c, msgs));
  }

  lemma PassProduces<P>(w: Wire<P>, d: ClientId, words: seq<set<nat>>, exec: Player<P>, pooled: bool, table: Table)
    requires R.Inv(w.proto) && Possible(w, Pass(d, words), exec, pooled)
    ensures Apply(w, Pass(d, words), exec, pooled, table).proto.produced ==
      w.proto.produced + MessagesOf(d, L.ParseLines(I.Dispatched(BufferOf(w, d))).value, table, words)
  {
  }

  lemma NothingMade<P>(w: Wire<P>, step: WireStep, exec: Player<P>, pooled: bool, table: Table)
    requires R.Inv(w.proto) && Possible(w, step, exec, pooled) && !step.Pass?
    ensures Apply(w, step, exec, pooled, table).proto.produced == w.proto.produced
  {
    if step.Inner? {
      OtherStepsMakeNothing(w.proto, step.step, exec, pooled);
    }
  }

  lemma NothingMeant(before: seq<Meaning>, table: Table)
    ensures L.ParseLines([]) == Some([]) && before + Meant([], table) == before && before + [] == before
  {
  }

  /** One step makes for `c` exactly what the lines it dispatches for `c` mean. */
  lemma StepMakes<P>(w: Wire<P>, step: WireStep, c: ClientId, exec: Player<P>, pooled: bool, table: Table)
    requires R.Inv(w.proto) && Possible(w, step, exec, pooled)
    ensures L.ParseLines(LinesNow(w, step, c)).Some?
    ensures Meanings(R.Of(c, Apply(w, step, exec, pooled, table).proto.produced))
      == Meanings(R.Of(c, w.proto.produced)) + Meant(L.ParseLines(LinesNow(w, step, c)).value, table)
  {
    NothingMeant(Meanings(R.Of(c, w.proto.produced)), table);
    if step.Pass? {
      var cmds := L.ParseLines(I.Dispatched(BufferOf(w, step.c))).value;
      PassProduces(w, step.c, step.words, exec, pooled, table);
      GenerateMakes(w.proto, step.c, c, cmds, table, step.words);
    } else {
      NothingMade(w, step, exec, pooled, table);
    }
  }

  /** Over every run: what has been made for a client says exactly what its dispatched lines mean, in
      order. */
  lemma {:induction false} RunMakes<P>(
      w: Wire<P>, run: seq<WireStep>, c: ClientId, exec: Player<P>, pooled: bool, table: Table)
    requires R.Inv(w.proto) && Legal(w, run, exec, pooled, table)
    ensures var cmds := L.ParseLines(LinesOf(w, run, c, exec, pooled, table));
      && cmds.Some?
      && Meanings(R.Of(c, After(w, run, exec, pooled, table).proto.produced))
         == Meanings(R.Of(c, w.proto.produced)) + Meant(cmds.value, table)
    decreases |run|
  {
    if run == [] {
      assert Meanings(R.Of(c, w.proto.produced)) + [] == Meanings(R.Of(c, w.proto.produced));
    } else {
      var w' := Apply(w, run[0], exec, pooled, table);
      StepMakes(w, run[0], c, exec, pooled, table);
      RunMakes(w', run[1..], c, exec, pooled, table);
      var more := LinesOf(w', run[1..], c, exec, pooled, table);
      Accumulate(LinesNow(w, run[0], c), more, Meanings(R.Of(c, w.proto.produced)), table);
    }
  }

  lemma Accumulate(lines: seq<string>, more: seq<string>, before: seq<Meaning>, table: Table)
    requires L.ParseLines(lines).Some? && L.ParseLines(more).Some?
    ensures L.ParseLines(lines + more).Some?
    ensures (before + Meant(L.ParseLines(lines).value, table)) + Meant(L.ParseLines(more).value, table)
         == before + Meant(L.ParseLines(lines + more).value, table)
  {
    var first, second := L.ParseLines(lines).value, L.ParseLines(more).value;
    ParseLinesConcat(lines, more);
    assert L.ParseLines(lines + more).value == first + second;
    MeantConcat(first, second, table);
    Regroup(before, Meant(first, table), Meant(second, table));
  }

  lemma Regroup<T>(a: seq<T>, b: seq<T>, c: seq<T>)
    ensures (a + b) + c == a + (b + c)
  {
  }

  // ---------- While a client stays connected ----------

  /** What a step does to the buffer of `c`, unless it disconnects it. */
  function BufferStep(step: WireStep, c: ClientId): seq<I.BufferStep> {
    match step
    case Bytes(d, chunk) => if d == c then [I.Read(chunk)] else []
    case Pass(d, _) => if d == c then [I.Generate] else []
    case Inner(_) => []
  }

  function BufferSteps(run: seq<WireStep>, c: ClientId): seq<I.BufferStep> {
    if run == [] then [] else BufferStep(run[0], c) + BufferSteps(run[1..], c)
  }

  predicate Stays(run: seq<WireStep>, c: ClientId) {
    forall i :: 0 <= i < |run| ==> run[i] != Inner(R.Disconnect(c))
  }

  lemma InnerKeepsClient<P>(s: Proto<P>, step: R.Step, c: ClientId, exec: Player<P>, pooled: bool)
    requires R.Inv(s) && R.Enabled(s, step) && R.Apply(s, step, exec, pooled).Returned?
    requires c in s.clients && step != R.Disconnect(c)
    ensures c in R.Apply(s, step, exec, pooled).s.clients
    ensures step.Accept? ==> Candidate(s.counter, step.k) != c
  {
    H.ConnectedAfter(s, step, exec, pooled);
  }

  /** A connection starts with an empty buffer, whoever had its identifier before. */
  lemma BufferStartsEmpty<P>(w: Wire<P>, k: nat, exec: Player<P>, pooled: bool, table: Table)
    requires R.Inv(w.proto) && Possible(w, Inner(R.Accept(k)), exec, pooled)
    ensures BufferOf(Apply(w, Inner(R.Accept(k)), exec, pooled, table), Candidate(w.proto.counter, k)) == ""
  {
  }

  lemma InnerOnBuffer<P>(w: Wire<P>, inner: R.Step, c: ClientId, exec: Player<P>, pooled: bool, table: Table)
    requires R.Inv(w.proto) && Possible(w, Inner(inner), exec, pooled)
    requires c in w.proto.clients && inner != R.Disconnect(c)
    ensures var w' := Apply(w, Inner(inner), exec, pooled, table);
      c in w'.proto.clients && BufferOf(w', c) == BufferOf(w, c)
  {
    InnerKeepsClient(w.proto, inner, c, exec, pooled);
  }

  lemma StepOnBuffer<P>(w: Wire<P>, step: WireStep, c: ClientId, exec: Player<P>, pooled: bool, table: Table)
    requires R.Inv(w.proto) && Possible(w, step, exec, pooled)
    requires c in w.proto.clients && step != Inner(R.Disconnect(c))
    ensures var w' := Apply(w, step, exec, pooled, table);
      && c in w'.proto.clients
      && BufferOf(w', c) ==
         if step.Bytes? && step.c == c then BufferOf(w, c) + step.chunk
         else if step.Pass? && step.c == c then I.Kept(BufferOf(w, c))
         else BufferOf(w, c)
  {
    if step.Inner? {
      InnerOnBuffer(w, step.step, c, exec, pooled, table);
    }
  }

  lemma OnBufferThen(buffer: string, first: I.BufferStep, more: seq<I.BufferStep>)
    ensures I.Yielded(buffer, [first] + more) ==
      if first.Read? then I.Yielded(buffer + first.chunk, more)
      else I.Dispatched(buffer) + I.Yielded(I.Kept(buffer), more)
    ensures I.Remaining(buffer, [first] + more) ==
      I.Remaining(if first.Read? then buffer + first.chunk else I.Kept(buffer), more)
  {
    assert ([first] + more)[1..] == more;
  }

  lemma StepYields<P>(w: Wire<P>, step: WireStep, c: ClientId, more: seq<string>, after: string, b: seq<I.BufferStep>)
    requires after ==
      if step.Bytes? && step.c == c then BufferOf(w, c) + step.chunk
      else if step.Pass? && step.c == c then I.Kept(BufferOf(w, c))
      else BufferOf(w, c)
    requires more == I.Yielded(after, b)
    ensures LinesNow(w, step, c) + more == I.Yielded(BufferOf(w, c), BufferStep(step, c) + b)
    ensures I.Remaining(after, b) == I.Remaining(BufferOf(w, c), BufferStep(step, c) + b)
  {
    if step.Bytes? && step.c == c {
      OnBufferThen(BufferOf(w, c), I.Read(step.chunk), b);
      assert [] + more == more;
    } else if step.Pass? && step.c == c {
      OnBufferThen(BufferOf(w, c), I.Generate, b);
    } else {
      assert [] + b == b && [] + more == more;
    }
  }

  /** While a client stays connected, the lines dispatched for it and the rest in its buffer are those of its
      own bytes and passes, whatever else happens in between. */
  lemma {:induction false} LinesAreYielded<P>(
      w: Wire<P>, run: seq<WireStep>, c: ClientId, exec: Player<P>, pooled: bool, table: Table)
    requires R.Inv(w.proto) && Legal(w, run, exec, pooled, table) && c in w.proto.clients && Stays(run, c)
    ensures LinesOf(w, run, c, exec, pooled, table) == I.Yielded(BufferOf(w, c), BufferSteps(run, c))
    ensures BufferOf(After(w, run, exec, pooled, table), c) == I.Remaining(BufferOf(w, c), BufferSteps(run, c))
    decreases |run|
  {
    if run != [] {
      var step, rest := run[0], run[1..];
      var w' := Apply(w, step, exec, pooled, table);
      StepOnBuffer(w, step, c, exec, pooled, table);
      assert forall i :: 0 <= i < |rest| ==> rest[i] == run[i + 1];
      LinesAreYielded(w', rest, c, exec, pooled, table);
      StepYields(w, step, c, LinesOf(w', rest, c, exec, pooled, table), BufferOf(w', c), BufferSteps(rest, c));
    }
  }

  // ---------- Main results ----------

  /** Over every run: what has been handled for a client, what is in the receive queue and what is in the
      socket thread's batch is, in this order, what was there before followed by what its dispatched lines
      mean. While the client stays connected, those lines are the ones its own bytes and passes yield. */
  lemma CommandsFollowLines<P>(
      w: Wire<P>, run: seq<WireStep>, c: ClientId, exec: Player<P>, pooled: bool, table: Table)
    requires R.Inv(w.proto) && Legal(w, run, exec, pooled, table)
    ensures var s := After(w, run, exec, pooled, table).proto;
      var cmds := L.ParseLines(LinesOf(w, run, c, exec, pooled, table));
      && cmds.Some?
      && Meanings(R.Of(c, s.handled)) + (Meanings(R.Of(c, s.recvQueue)) + Meanings(R.Of(c, s.batch)))
         == Meanings(R.Of(c, w.proto.produced)) + Meant(cmds.value, table)
    ensures c in w.proto.clients && Stays(run, c) ==>
      LinesOf(w, run, c, exec, pooled, table) == I.Yielded(BufferOf(w, c), BufferSteps(run, c))
  {
    RunMakes(w, run, c, exec, pooled, table);
    HandedOff(After(w, run, exec, pooled, table).proto, c);
    if c in w.proto.clients && Stays(run, c) {
      LinesAreYielded(w, run, c, exec, pooled, table);
    }
  }

  lemma HandedOff<P>(s: Proto<P>, c: ClientId)
    requires R.Inv(s)
    ensures Meanings(R.Of(c, s.produced))
         == Meanings(R.Of(c, s.handled)) + (Meanings(R.Of(c, s.recvQueue)) + Meanings(R.Of(c, s.batch)))
  {
    R.OfConcat(c, s.handled, s.recvQueue + s.batch);
    R.OfConcat(c, s.recvQueue, s.batch);
    MeaningsConcat(R.Of(c, s.handled), R.Of(c, s.recvQueue) + R.Of(c, s.batch));
    MeaningsConcat(R.Of(c, s.recvQueue), R.Of(c, s.batch));
  }

  function CommandMeanings(sent: seq<L.Sent>, table: Table): seq<Meaning> { Meant(L.CommandsOf(sent), table) }

  lemma CleanYieldsLines(steps: seq<I.BufferStep>, run: seq<I.BufferStep>)
    requires steps == run + [I.Generate] && I.CleanRun("", steps)
    ensures I.Yielded("", steps) == I.Lines(I.Stream(steps))
  {
    I.FramingExactlyWhen(run);
  }

  lemma WrittenLines(sent: seq<L.Sent>)
    requires forall x :: x in sent ==> L.Sendable(x) && L.SpaceFree(x.args)
    ensures L.ParseLines(I.Lines(L.Written(sent))) == Some(L.CommandsOf(sent))
  {
    L.StreamComesBackExactlyWhen(sent);
    L.SplitOfWritten(sent);
    assert L.RawLines(sent) + [""] == I.Lines(L.Written(sent)) + [I.Tail(L.Written(sent))];
    LinesOfRaw(L.RawLines(sent), L.Written(sent));
  }

  lemma LinesOfRaw(raw: seq<string>, text: string)
    requires raw + [""] == I.Lines(text) + [I.Tail(text)]
    ensures I.Lines(text) == raw
  {
    assert (raw + [""])[..|raw|] == raw;
    assert (I.Lines(text) + [I.Tail(text)])[..|raw|] == I.Lines(text);
  }

  /** End to end: a client with nothing made for it and nothing in its buffer sends commands with bare arguments
      and arguments in quotes without spaces, in pieces however cut, each pass finding whole lines only. Whatever
      other clients, the main thread and the events do in between, what is handled, received and batched for it
      is exactly the commands it sent, in order. */
  lemma SentIsHandled<P>(
      w: Wire<P>, run: seq<WireStep>, passes: seq<I.BufferStep>, c: ClientId, sent: seq<L.Sent>,
      exec: Player<P>, pooled: bool, table: Table)
    requires R.Inv(w.proto) && Legal(w, run, exec, pooled, table) && c in w.proto.clients && Stays(run, c)
    requires BufferOf(w, c) == "" && R.Of(c, w.proto.produced) == []
    requires var steps := BufferSteps(run, c);
      steps == passes + [I.Generate] && I.CleanRun("", steps) && I.Stream(steps) == L.Written(sent)
    requires forall x :: x in sent ==> L.Sendable(x) && L.SpaceFree(x.args)
    ensures var s := After(w, run, exec, pooled, table).proto;
      Meanings(R.Of(c, s.handled)) + (Meanings(R.Of(c, s.recvQueue)) + Meanings(R.Of(c, s.batch)))
        == CommandMeanings(sent, table)
  {
    CommandsFollowLines(w, run, c, exec, pooled, table);
    CleanYieldsLines(BufferSteps(run, c), passes);
    WrittenLines(sent);
    assert [] + CommandMeanings(sent, table) == CommandMeanings(sent, table);
  }
}

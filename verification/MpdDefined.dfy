/**
 Which runs of MpdPipeline are legal. Nothing but two things stops a run whose
 steps the outside world can make: a pass over a bad line, and a handler that
 lets an exception of the player out. Both can be read off the state before
 the step.
 */
module MpdDefined {
  import opened Common
  import opened MpdState
  import opened MpdHandler
  import opened MpdPipeline
  import opened MpdBadLines
  import I = MpdIntake
  import L = MpdParse
  import R = MpdRun
  import C = MpdCommandLists

  // ---------- When a handler crashes ----------

  /** What running a message does to the player alone: it goes on, raises an error, or lets an exception out. */
  datatype Effect<P> = GoesOn(player: P) | Stops | Escapes

  function EffectOf<P>(p: P, msg: Message, exec: Player<P>): Effect<P> {
    if msg.command.None? || !ArgsFit(msg.command.value, msg.args) then Stops
    else if RunsOnPlayer(msg.command.value) then
      var e := exec(p, msg.command.value, msg.args);
      match e.ending
      case Fine => GoesOn(e.player)
      case Fails(_, _) => Stops
      case Throws => Escapes
    else if msg.command.value.Other? then Stops
    else if msg.command.value.Idle? && exists a :: a in msg.args && IdleArgument(a).None? then Stops
    else GoesOn(p)
  }

  /** Running the messages one after the other on the player reaches one that throws before one that stops. */
  predicate ListThrows<P>(p: P, msgs: seq<Message>, exec: Player<P>)
    decreases |msgs|
  {
    msgs != [] &&
    match EffectOf(p, msgs[0], exec)
    case GoesOn(p') => ListThrows(p', msgs[1..], exec)
    case Stops => false
    case Escapes => true
  }

  /** The message runs, and the player throws: in its own command, or in one of the list it ends. */
  predicate MessageThrows<P>(s: Proto<P>, msg: Message, exec: Player<P>, pooled: bool) {
    var cl := ClientOf(s, msg.client);
    && msg.command.Some?
    && !Queues(cl, msg.command.value, pooled)
    && ArgsFit(msg.command.value, msg.args)
    && if msg.command.value.CommandListEnd? then ListThrows(s.player, cl.list, exec)
       else EffectOf(s.player, msg, exec).Escapes?
  }

  ghost predicate HasEffect<P>(r: Ran<P>, e: Effect<P>) {
    match e
    case GoesOn(p) => r.Ran? && r.s.player == p
    case Stops => r.Raised?
    case Escapes => r.Foreign?
  }

  lemma PlainEffect<P>(s: Proto<P>, msg: Message, cmd: CommandId, exec: Player<P>)
    requires msg.command == Some(cmd) && !cmd.CommandListEnd? && ArgsFit(cmd, msg.args)
    ensures HasEffect(RunPlain(s, msg, cmd, exec), EffectOf(s.player, msg, exec))
  {
    if cmd.Idle? {
      C.MaskKnownExactlyWhen(msg.args, msg.garbage);
    }
  }

  lemma ListedEffect<P>(s: Proto<P>, msg: Message, exec: Player<P>)
    requires ClientOf(s, msg.client).list == []
    ensures HasEffect(HandleListed(s, msg, exec), EffectOf(s.player, msg, exec))
  {
    var s0 := With(s, msg.client, ClientOf(s, msg.client));
    if msg.command.Some? && !msg.command.value.CommandListEnd? && ArgsFit(msg.command.value, msg.args) {
      PlainEffect(s0, msg, msg.command.value, exec);
    }
  }

  /** A list lets an exception out exactly when the player throws before a command raises an error. */
  lemma {:induction false} ListCrashesExactlyWhen<P>(
      s: Proto<P>, c: ClientId, msgs: seq<Message>, i: nat, exec: Player<P>)
    requires OwnList(msgs, c) && ClientOf(s, c).list == []
    ensures RunAll(s, c, msgs, i, exec).Foreign? <==> ListThrows(s.player, msgs, exec)
    decreases |msgs|
  {
    if msgs != [] {
      assert msgs[0] in msgs;
      ListedEffect(s, msgs[0], exec);
      ListedKeepsListEmpty(s, msgs[0], exec);
      var r := HandleListed(s, msgs[0], exec);
      if r.Ran? {
        ListCrashesExactlyWhen(r.s, c, msgs[1..], i + 1, exec);
      }
    }
  }

  /** Handling a message crashes exactly when it runs and the player throws. */
  lemma HandleCrashesExactlyWhen<P>(s: Proto<P>, msg: Message, exec: Player<P>, pooled: bool)
    requires OwnList(ClientOf(s, msg.client).list, msg.client)
    ensures Handle(s, msg, exec, pooled).Crashed? <==> MessageThrows(s, msg, exec, pooled)
  {
    if msg.command.Some? && ArgsFit(msg.command.value, msg.args) {
      var cl := ClientOf(s, msg.client);
      var s0 := With(s, msg.client, cl);
      if msg.command.value.CommandListEnd? {
        var s1 := With(s0, msg.client, cl.(inList := false, list := []));
        ListCrashesExactlyWhen(s1, msg.client, cl.list, 0, exec);
      } else {
        PlainEffect(s0, msg, msg.command.value, exec);
      }
    }
  }

  // ---------- Steps ----------

  /** The outside world and the threads can make the step: nothing about lines or handlers. */
  predicate Offered<P>(w: Wire<P>, step: WireStep) {
    match step
    case Bytes(c, _) => w.proto.running && c in w.proto.clients
    case Pass(c, _) => w.proto.running && c in w.proto.clients
    case Inner(inner) => !inner.Generate? && R.Enabled(w.proto, inner)
  }

  /** A bad line is dispatched, or the handler of the front message crashes. */
  predicate Spoilt<P>(w: Wire<P>, step: WireStep, exec: Player<P>, pooled: bool) {
    match step
    case Bytes(_, _) => false
    case Pass(c, _) => SomeBad(I.Dispatched(BufferOf(w, c)))
    case Inner(inner) =>
      inner.HandleNext? && w.proto.recvQueue != [] && MessageThrows(w.proto, w.proto.recvQueue[0], exec, pooled)
  }

  lemma InnerCrashesExactlyWhen<P>(s: Proto<P>, step: R.Step, exec: Player<P>, pooled: bool)
    requires R.Inv(s) && R.Enabled(s, step)
    ensures R.Apply(s, step, exec, pooled).Crashed? <==>
      step.HandleNext? && MessageThrows(s, s.recvQueue[0], exec, pooled)
  {
    if step.HandleNext? {
      R.HandleServes(s, s.recvQueue[0], exec, pooled);
      HandleCrashesExactlyWhen(s, s.recvQueue[0], exec, pooled);
    } else {
      R.OtherStepKeepsInv(s, step, exec, pooled);
    }
  }

  /** Every step the world can make has a defined outcome, except exactly those that are spoilt. */
  lemma PossibleExactlyWhen<P>(w: Wire<P>, step: WireStep, exec: Player<P>, pooled: bool)
    requires R.Inv(w.proto)
    ensures Possible(w, step, exec, pooled) <==> Offered(w, step) && !Spoilt(w, step, exec, pooled)
  {
    if step.Pass? {
      LinesUndefinedExactlyWhen(I.Dispatched(BufferOf(w, step.c)));
    } else if step.Inner? && Offered(w, step) {
      InnerCrashesExactlyWhen(w.proto, step.step, exec, pooled);
    }
  }

  // ---------- Runs ----------

  /** The world can make every step of the run where it comes, and none is spoilt there. */
  predicate Unspoilt<P>(w: Wire<P>, run: seq<WireStep>, exec: Player<P>, pooled: bool, table: Table)
    requires R.Inv(w.proto)
    decreases |run|
  {
    run == [] ||
    (Offered(w, run[0]) && !Spoilt(w, run[0], exec, pooled) &&
     (PossibleExactlyWhen(w, run[0], exec, pooled);
      Unspoilt(Apply(w, run[0], exec, pooled, table), run[1..], exec, pooled, table)))
  }

  /** Over every run: it is legal exactly when the world can make its steps, no pass of it meets a bad line
      and no handler of it meets a player that throws. */
  lemma {:induction false} RunLegalExactlyWhen<P>(
      w: Wire<P>, run: seq<WireStep>, exec: Player<P>, pooled: bool, table: Table)
    requires R.Inv(w.proto)
    ensures Legal(w, run, exec, pooled, table) <==> Unspoilt(w, run, exec, pooled, table)
    decreases |run|
  {
    if run != [] {
      PossibleExactlyWhen(w, run[0], exec, pooled);
      if Possible(w, run[0], exec, pooled) {
        RunLegalExactlyWhen(Apply(w, run[0], exec, pooled, table), run[1..], exec, pooled, table);
      }
    }
  }

  lemma FirstThenRest<P>(
      w: Wire<P>, step: WireStep, rest: seq<WireStep>, exec: Player<P>, pooled: bool, table: Table)
    requires R.Inv(w.proto) && Possible(w, step, exec, pooled)
    ensures var w' := Apply(w, step, exec, pooled, table);
      && (Legal(w, [step] + rest, exec, pooled, table) <==> Legal(w', rest, exec, pooled, table))
      && (Legal(w', rest, exec, pooled, table) ==>
            After(w, [step] + rest, exec, pooled, table) == After(w', rest, exec, pooled, table))
  {
    assert ([step] + rest)[1..] == rest;
  }

  /** Where a run stops: `k` steps of it are legal, and then it is over, or the world cannot make the next step,
      or that step is spoilt. */
  ghost predicate StopsAt<P>(
      w: Wire<P>, run: seq<WireStep>, k: nat, exec: Player<P>, pooled: bool, table: Table)
    requires R.Inv(w.proto)
  {
    && k <= |run| && Legal(w, run[..k], exec, pooled, table)
    && (k < |run| ==>
          var w' := After(w, run[..k], exec, pooled, table);
          !Offered(w', run[k]) || Spoilt(w', run[k], exec, pooled))
  }

  /** Every run goes on legally up to its first step that is not offered or is spoilt, so every theorem about
      legal runs holds up to there. */
  lemma {:induction false} EveryRunStops<P>(
      w: Wire<P>, run: seq<WireStep>, exec: Player<P>, pooled: bool, table: Table) returns (k: nat)
    requires R.Inv(w.proto)
    ensures StopsAt(w, run, k, exec, pooled, table)
    decreases |run|
  {
    k := 0;
    assert run[..0] == [];
    if run != [] {
      PossibleExactlyWhen(w, run[0], exec, pooled);
      if Possible(w, run[0], exec, pooled) {
        var later := EveryRunStops(Apply(w, run[0], exec, pooled, table), run[1..], exec, pooled, table);
        assert run == [run[0]] + run[1..];
        StopsLater(w, run[0], run[1..], later, exec, pooled, table);
        k := later + 1;
      }
    }
  }

  lemma StopsLater<P>(
      w: Wire<P>, step: WireStep, rest: seq<WireStep>, later: nat, exec: Player<P>, pooled: bool, table: Table)
    requires R.Inv(w.proto) && Possible(w, step, exec, pooled)
    requires StopsAt(Apply(w, step, exec, pooled, table), rest, later, exec, pooled, table)
    ensures StopsAt(w, [step] + rest, later + 1, exec, pooled, table)
  {
    var run := [step] + rest;
    assert run[..later + 1] == [step] + rest[..later];
    FirstThenRest(w, step, rest[..later], exec, pooled, table);
    if later < |rest| {
      assert run[later + 1] == rest[later];
    }
  }

  // ---------- A command in two pieces ----------

  lemma TwoSteps<P>(w: Wire<P>, a: WireStep, b: WireStep, exec: Player<P>, pooled: bool, table: Table)
    requires R.Inv(w.proto) && Possible(w, a, exec, pooled)
    ensures Legal(w, [a, b], exec, pooled, table) <==> Possible(Apply(w, a, exec, pooled, table), b, exec, pooled)
  {
    var w' := Apply(w, a, exec, pooled, table);
    var last := [b];
    assert [a, b][1..] == last && last[1..] == [];
    if Possible(w', b, exec, pooled) {
      assert Legal(Apply(w', b, exec, pooled, table), last[1..], exec, pooled, table);
    }
  }

  lemma BytesThenPass<P>(
      w: Wire<P>, c: ClientId, line: string, words: seq<set<nat>>, exec: Player<P>, pooled: bool, table: Table)
    requires R.Inv(w.proto) && w.proto.running && c in w.proto.clients && BufferOf(w, c) == ""
    ensures Legal(w, [Bytes(c, line), Pass(c, words)], exec, pooled, table) <==> !SomeBad(I.Dispatched(line))
  {
    TwoSteps(w, Bytes(c, line), Pass(c, words), exec, pooled, table);
    var w' := Apply(w, Bytes(c, line), exec, pooled, table);
    assert BufferOf(w', c) == line;
    PossibleExactlyWhen(w', Pass(c, words), exec, pooled);
  }

  /** A client sends a command in two pieces, cut inside its first quoted argument, and a pass comes in
      between: the run is legal exactly when at least 33 characters of the argument had come through. */
  lemma CutPassExactlyWhen<P>(
      w: Wire<P>, c: ClientId, name: string, part: string, words: seq<set<nat>>,
      exec: Player<P>, pooled: bool, table: Table)
    requires R.Inv(w.proto) && w.proto.running && c in w.proto.clients && BufferOf(w, c) == ""
    requires L.IsName(name) && part != "" && I.SPACE !in part && I.NL !in part
    requires part[|part| - 1] != I.QUOTE && part[|part| - 1] != I.CR
    ensures Legal(w, [Bytes(c, CutLine(name, part)), Pass(c, words)], exec, pooled, table)
      <==> |part| >= L.QUOTE_CODE - 1
  {
    CutBufferExactlyWhen(name, part);
    BytesThenPass(w, c, CutLine(name, part), words, exec, pooled, table);
  }
}

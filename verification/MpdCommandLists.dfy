/**
 What clients can rely on: one closing reply per message, and a command list
 that does what sending its commands one by one would do (sections "Responses"
 and "Command lists" of the Music Player Daemon protocol).
 */
module MpdCommandLists {
  import opened Common
  import opened MpdState
  import opened MpdHandler

  // ---------- One closing reply per message ----------

  /** The commands that answer nothing themselves: opening a list, and `idle` with known arguments. */
  predicate AnswersNothing(cmd: CommandId, args: seq<string>) {
    cmd.CommandListBegin? || cmd.CommandListOkBegin? || (cmd.Idle? && forall a :: a in args ==> IdleArgument(a).Some?)
  }

  predicate Silent(cl: Client, msg: Message, pooled: bool) {
    && msg.command.Some?
    && (Queues(cl, msg.command.value, pooled) ||
        (ArgsFit(msg.command.value, msg.args) && AnswersNothing(msg.command.value, msg.args)))
  }

  lemma {:induction false} MaskKnownExactlyWhen(args: seq<string>, flags: set<nat>)
    ensures MaskOf(args, flags).Asked? <==> forall a :: a in args ==> IdleArgument(a).Some?
  {
    if args != [] {
      assert args[0] in args;
      if IdleArgument(args[0]).Some? {
        MaskKnownExactlyWhen(args[1..], flags + {IdleArgument(args[0]).value});
        assert forall a :: a in args <==> a == args[0] || a in args[1..];
      }
    }
  }

  lemma {:induction false} RunAllIsNotSilent<P>(s: Proto<P>, c: ClientId, msgs: seq<Message>, i: nat, exec: Player<P>)
    requires OwnList(msgs, c) && ClientOf(s, c).list == []
    ensures RunAll(s, c, msgs, i, exec).Ran? ==> !RunAll(s, c, msgs, i, exec).silent
    decreases |msgs|
  {
    if msgs != [] {
      assert msgs[0] in msgs;
      ListedKeepsListEmpty(s, msgs[0], exec);
      var r := HandleListed(s, msgs[0], exec);
      if r.Ran? {
        RunAllIsNotSilent(r.s, c, msgs[1..], i + 1, exec);
      }
    }
  }

  lemma SilentPlain<P>(s: Proto<P>, msg: Message, cmd: CommandId, exec: Player<P>)
    requires !cmd.CommandListEnd?
    ensures var r := RunPlain(s, msg, cmd, exec);
      if AnswersNothing(cmd, msg.args) then r.Ran? && r.silent else r.Ran? ==> !r.silent
  {
    if cmd.Idle? {
      MaskKnownExactlyWhen(msg.args, msg.garbage);
    }
  }

  lemma SilentCommands<P>(s: Proto<P>, msg: Message, cmd: CommandId, exec: Player<P>)
    requires msg.client in s.clients && OwnList(s.clients[msg.client].list, msg.client)
    ensures var r := RunCommand(s, msg, cmd, exec);
      if AnswersNothing(cmd, msg.args) then r.Ran? && r.silent else r.Ran? ==> !r.silent
  {
    var cl := s.clients[msg.client];
    if cmd.CommandListEnd? {
      RunAllIsNotSilent(With(s, msg.client, cl.(inList := false, list := [])), msg.client, cl.list, 0, exec);
    } else {
      SilentPlain(s, msg, cmd, exec);
    }
  }

  /** From `before` to `after` exactly one closing reply was written, and it came last. */
  ghost predicate ClosedOnce(before: seq<Note>, after: seq<Note>) {
    && before < after
    && Closings(after) == Closings(before) + 1
    && after[|after| - 1].Wrote? && Closes(after[|after| - 1].reply)
  }

  ghost predicate NotClosed(before: seq<Note>, after: seq<Note>) {
    before <= after && Closings(after) == Closings(before)
  }

  lemma ClosingWrite<P>(s: Proto<P>, s': Proto<P>, c: ClientId, r: Reply)
    requires Local(s, s', c) && Closes(r)
    ensures ClosedOnce(ClientOf(s, c).history, Write(s', c, r).clients[c].history)
    ensures Write(s', c, r).clients == s.clients[c := Write(s', c, r).clients[c]]
  {
    NotedHistory(s'.clients[c].history, Wrote(r));
  }

  lemma CommandReplies<P>(s: Proto<P>, msg: Message, cmd: CommandId, exec: Player<P>)
    requires msg.client in s.clients && OwnList(s.clients[msg.client].list, msg.client)
    requires Answer(RunCommand(s, msg, cmd, exec), msg.client).Returned?
    ensures var c := msg.client;
      var s' := Answer(RunCommand(s, msg, cmd, exec), c).s;
      && c in s'.clients && s'.clients == s.clients[c := s'.clients[c]]
      && if AnswersNothing(cmd, msg.args) then NotClosed(s.clients[c].history, s'.clients[c].history)
         else ClosedOnce(s.clients[c].history, s'.clients[c].history)
  {
    CommandIsLocal(s, msg, cmd, exec);
    SilentCommands(s, msg, cmd, exec);
    var r := RunCommand(s, msg, cmd, exec);
    if r.Ran? && !r.silent {
      ClosingWrite(s, r.s, msg.client, Ok);
    } else if r.Raised? {
      ClosingWrite(s, r.s, msg.client, Ack(r.error.code, 0, r.error.command, r.error.text));
    }
  }

  lemma RefusalReplies<P>(s: Proto<P>, c: ClientId, code: int, name: string, text: string)
    ensures var s' := Write(With(s, c, ClientOf(s, c)), c, Ack(code, 0, name, text));
      && c in s'.clients && s'.clients == s.clients[c := s'.clients[c]]
      && ClosedOnce(ClientOf(s, c).history, s'.clients[c].history)
  {
    InsertIsLocal(s, c);
    ClosingWrite(s, With(s, c, ClientOf(s, c)), c, Ack(code, 0, name, text));
  }

  /** The reply to one message that was not interrupted: nothing closing when the message is queued
      or silent, otherwise exactly one OK or ACK, and it comes last. No other client is written to. */
  lemma RepliesAlign<P>(s: Proto<P>, msg: Message, exec: Player<P>, pooled: bool)
    requires OwnList(ClientOf(s, msg.client).list, msg.client)
    requires Handle(s, msg, exec, pooled).Returned?
    ensures var c := msg.client;
      var s' := Handle(s, msg, exec, pooled).s;
      && c in s'.clients && s'.clients == s.clients[c := s'.clients[c]]
      && if Silent(ClientOf(s, c), msg, pooled) then NotClosed(ClientOf(s, c).history, s'.clients[c].history)
         else ClosedOnce(ClientOf(s, c).history, s'.clients[c].history)
  {
    var c := msg.client;
    var cl := ClientOf(s, c);
    var s0 := With(s, c, cl);
    InsertIsLocal(s, c);
    if msg.command.Some? && !Queues(cl, msg.command.value, pooled) {
      if ArgsFit(msg.command.value, msg.args) {
        CommandReplies(s0, msg, msg.command.value, exec);
      } else {
        RefusalReplies(s, c, ACK_ERROR_ARG, NameOf(msg.command.value),
                       "wrong number of arguments for \"" + NameOf(msg.command.value) + "\"");
      }
    } else if msg.command.None? {
      RefusalReplies(s, c, ACK_ERROR_UNKNOWN, "", "unknown command \"" + msg.line + "\"");
    }
  }

  // ---------- The list never survives its end ----------

  /** Whatever the list held, `command_list_end` leaves it empty, provided the pointer comparison
      recognises the name. */
  lemma EndEmptiesList<P>(s: Proto<P>, msg: Message, exec: Player<P>, pooled: bool)
    requires OwnList(ClientOf(s, msg.client).list, msg.client)
    requires msg.command == Some(CommandListEnd) && msg.args == []
    requires ClientOf(s, msg.client).inList
    ensures ClientOf(Handle(s, msg, exec, pooled).s, msg.client).list == [] <==> pooled
    ensures !pooled ==> ClientOf(Handle(s, msg, exec, pooled).s, msg.client).inList
  {
    var c := msg.client;
    var s0 := With(s, c, ClientOf(s, c));
    if pooled {
      CommandIsLocal(s0, msg, CommandListEnd, exec);
    }
  }

  // ---------- A command list refines single commands ----------

  /** Known commands other than the three that open and close lists. */
  predicate Listable(m: Message, c: ClientId) {
    && m.client == c && m.command.Some?
    && !m.command.value.CommandListBegin? && !m.command.value.CommandListOkBegin? && !m.command.value.CommandListEnd?
  }

  lemma HandleKeepsOwnList<P>(s: Proto<P>, msg: Message, exec: Player<P>, pooled: bool)
    requires OwnList(ClientOf(s, msg.client).list, msg.client)
    ensures var s' := Handle(s, msg, exec, pooled).s;
      msg.client in s'.clients && OwnList(s'.clients[msg.client].list, msg.client)
  {
    if msg.command.Some? {
      CommandKeepsOwnList(With(s, msg.client, ClientOf(s, msg.client)), msg, msg.command.value, exec);
    }
  }

  lemma CommandKeepsOwnList<P>(s: Proto<P>, msg: Message, cmd: CommandId, exec: Player<P>)
    requires msg.client in s.clients && OwnList(s.clients[msg.client].list, msg.client)
    ensures var s' := Answer(RunCommand(s, msg, cmd, exec), msg.client).s;
      msg.client in s'.clients && OwnList(s'.clients[msg.client].list, msg.client)
  {
    CommandIsLocal(s, msg, cmd, exec);
  }

  /** Sending messages of one client, one after the other. */
  function HandleAll<P>(s: Proto<P>, c: ClientId, msgs: seq<Message>, exec: Player<P>, pooled: bool): Top<P>
    requires OwnList(msgs, c) && OwnList(ClientOf(s, c).list, c)
    decreases |msgs|
  {
    if msgs == [] then Returned(s)
    else
      HandleKeepsOwnList(s, msgs[0], exec, pooled);
      match Handle(s, msgs[0], exec, pooled)
      case Crashed(s') => Crashed(s')
      case Returned(s') => HandleAll(s', c, msgs[1..], exec, pooled)
  }

  /** The reply to the last message was an ACK. */
  predicate Refused(before: Client, after: Client) {
    |after.history| > |before.history| &&
    var n := after.history[|after.history| - 1]; n.Wrote? && n.reply.Ack?
  }

  /** Sending messages one by one and stopping at the first ACK; the flag says whether there was one. */
  function UntilRefused<P>(s: Proto<P>, c: ClientId, msgs: seq<Message>, exec: Player<P>, pooled: bool): (Top<P>, bool)
    requires OwnList(msgs, c) && OwnList(ClientOf(s, c).list, c)
    decreases |msgs|
  {
    if msgs == [] then (Returned(s), false)
    else
      HandleKeepsOwnList(s, msgs[0], exec, pooled);
      match Handle(s, msgs[0], exec, pooled)
      case Crashed(s') => (Crashed(s'), false)
      case Returned(s') =>
        if Refused(ClientOf(s, c), s'.clients[c]) then (Returned(s'), true)
        else UntilRefused(s', c, msgs[1..], exec, pooled)
  }

  /** The same note, except that a list says `list_OK` where a single command says `OK`, and that the
      text of an ACK may be worded differently. */
  predicate SameNote(a: Note, b: Note) {
    || a == b
    || (a == Wrote(ListOk) && b == Wrote(Ok))
    || (a.Wrote? && b.Wrote? && a.reply.Ack? && b.reply.Ack? &&
        a.reply.code == b.reply.code && a.reply.command == b.reply.command && a.reply.index == b.reply.index)
  }

  ghost predicate SameHistory(a: seq<Note>, b: seq<Note>) {
    |a| == |b| && forall i :: 0 <= i < |a| ==> SameNote(a[i], b[i])
  }

  /** `s` runs a list, `t` runs single commands: everything agrees but the client's verbose flag and
      the wording of its replies. */
  ghost predicate Alike<P>(s: Proto<P>, t: Proto<P>, c: ClientId) {
    && c in s.clients && c in t.clients
    && s == With(t, c, s.clients[c])
    && var a, b := s.clients[c], t.clients[c];
       && a == b.(verbose := a.verbose, history := a.history)
       && !a.inList && a.list == []
       && SameHistory(a.history, b.history)
  }

  lemma AlikeClients<P>(s: Proto<P>, t: Proto<P>, c: ClientId, a: Client, b: Client)
    requires Alike(s, t, c)
    requires a == b.(verbose := a.verbose, history := a.history) && !a.inList && a.list == []
    requires SameHistory(a.history, b.history)
    ensures Alike(With(s, c, a), With(t, c, b), c)
  {
    assert With(s, c, a).clients == With(t, c, b).clients[c := a];
  }

  lemma {:induction false} AlikeWriteAll(a: Client, b: Client, out: seq<string>)
    requires a == b.(verbose := a.verbose, history := a.history) && SameHistory(a.history, b.history)
    ensures var x, y := WriteAll(a, out), WriteAll(b, out);
      x == a.(history := x.history) && y == b.(history := y.history) && SameHistory(x.history, y.history)
    decreases |out|
  {
    if out != [] {
      var n := Wrote(Data(out[0]));
      AlikeWriteAll(Noted(a, n), Noted(b, n), out[1..]);
    }
  }

  /** The same kind of ending, with alike states and the same error. */
  ghost predicate AlikeRan<P>(r: Ran<P>, q: Ran<P>, c: ClientId) {
    && Alike(r.s, q.s, c)
    && (r.Ran? <==> q.Ran?) && (r.Raised? <==> q.Raised?)
    && (r.Ran? ==> r.silent == q.silent)
    && (r.Raised? ==> r.error == q.error)
  }

  lemma AlikePlayed<P>(s: Proto<P>, t: Proto<P>, c: ClientId, player: P, events: seq<Event>)
    requires Alike(s, t, c)
    ensures Alike(PushAll(s.(player := player), events), PushAll(t.(player := player), events), c)
  {
  }

  lemma AlikeOnPlayer<P>(s: Proto<P>, t: Proto<P>, msg: Message, cmd: CommandId, exec: Player<P>)
    requires Alike(s, t, msg.client)
    ensures AlikeRan(RunOnPlayer(s, msg, cmd, exec), RunOnPlayer(t, msg, cmd, exec), msg.client)
  {
    var c := msg.client;
    var e := exec(s.player, cmd, msg.args);
    var a, b := WriteAll(s.clients[c], e.out), WriteAll(t.clients[c], e.out);
    AlikeWriteAll(s.clients[c], t.clients[c], e.out);
    AlikeClients(s, t, c, a, b);
    AlikePlayed(With(s, c, a), With(t, c, b), c, e.player, e.events);
  }

  lemma AlikePlain<P>(s: Proto<P>, t: Proto<P>, msg: Message, cmd: CommandId, exec: Player<P>)
    requires Alike(s, t, msg.client) && Listable(msg, msg.client) && msg.command == Some(cmd)
    ensures AlikeRan(RunPlain(s, msg, cmd, exec), RunPlain(t, msg, cmd, exec), msg.client)
  {
    var c := msg.client;
    var a, b := s.clients[c], t.clients[c];
    if cmd.Noidle? {
      AlikeClients(s, t, c, a.(waiting := {}), b.(waiting := {}));
    } else if cmd.Idle? {
      var mask := IdleMask(msg.args, msg.garbage);
      if mask.Asked? {
        AlikeClients(s, t, c, DoIdle(a, mask.flags), DoIdle(b, mask.flags));
      }
    } else if !cmd.Other? {
      AlikeOnPlayer(s, t, msg, cmd, exec);
    }
  }

  lemma AlikeWrite<P>(s: Proto<P>, t: Proto<P>, c: ClientId, x: Reply, y: Reply)
    requires Alike(s, t, c) && SameNote(Wrote(x), Wrote(y))
    ensures Alike(Write(s, c, x), Write(t, c, y), c)
  {
    AlikeClients(s, t, c, Noted(s.clients[c], Wrote(x)), Noted(t.clients[c], Wrote(y)));
  }

  lemma AlikeWithArgs<P>(s: Proto<P>, t: Proto<P>, msg: Message, exec: Player<P>, pooled: bool)
    requires Alike(s, t, msg.client) && Listable(msg, msg.client) && ArgsFit(msg.command.value, msg.args)
    ensures var c := msg.client;
      var r, q := HandleListed(s, msg, exec), Handle(t, msg, exec, pooled);
      && (r.Ran? ==> q.Returned? && !Refused(t.clients[c], q.s.clients[c]) && Alike(r.s, q.s, c))
      && (r.Raised? ==>
            q.Returned? && Refused(t.clients[c], q.s.clients[c])
            && Alike(Write(r.s, c, Ack(r.error.code, 0, r.error.command, r.error.text)), q.s, c))
      && (r.Foreign? ==> q.Crashed? && Alike(r.s, q.s, c))
  {
    var c := msg.client;
    var cmd := msg.command.value;
    assert With(s, c, s.clients[c]) == s && With(t, c, t.clients[c]) == t;
    AlikePlain(s, t, msg, cmd, exec);
    var r, q := RunPlain(s, msg, cmd, exec), RunPlain(t, msg, cmd, exec);
    PlainIsLocal(t, msg, cmd, exec);
    if r.Ran? && !r.silent {
      AlikeWrite(r.s, q.s, c, ListOk, Ok);
    } else if r.Ran? {
      QuietIsNotRefused(t, q.s, c);
    } else if r.Raised? {
      var ack := Ack(r.error.code, 0, r.error.command, r.error.text);
      AlikeWrite(r.s, q.s, c, ack, ack);
    }
  }

  /** One command inside a list and the same command sent alone. */
  lemma AlikeStep<P>(s: Proto<P>, t: Proto<P>, msg: Message, exec: Player<P>, pooled: bool)
    requires Alike(s, t, msg.client) && Listable(msg, msg.client)
    ensures var c := msg.client;
      var r, q := HandleListed(s, msg, exec), Handle(t, msg, exec, pooled);
      && (r.Ran? ==> q.Returned? && !Refused(t.clients[c], q.s.clients[c]) && Alike(r.s, q.s, c))
      && (r.Raised? ==>
            q.Returned? && Refused(t.clients[c], q.s.clients[c])
            && Alike(Write(r.s, c, Ack(r.error.code, 0, r.error.command, r.error.text)), q.s, c))
      && (r.Foreign? ==> q.Crashed? && Alike(r.s, q.s, c))
  {
    var c := msg.client;
    var cmd := msg.command.value;
    if ArgsFit(cmd, msg.args) {
      AlikeWithArgs(s, t, msg, exec, pooled);
    } else {
      assert With(s, c, s.clients[c]) == s && With(t, c, t.clients[c]) == t;
      AlikeWrite(s, t, c, Ack(ACK_ERROR_ARG, 0, NameOf(cmd), "wrong number of arguments"),
                 Ack(ACK_ERROR_ARG, 0, NameOf(cmd), "wrong number of arguments for \"" + NameOf(cmd) + "\""));
    }
  }

  /** A command that closes nothing has not been refused. */
  lemma QuietIsNotRefused<P>(s: Proto<P>, s': Proto<P>, c: ClientId)
    requires c in s.clients && Local(s, s', c)
    ensures !Refused(s.clients[c], s'.clients[c])
  {
    var a, b := s.clients[c].history, s'.clients[c].history;
    if Refused(s.clients[c], s'.clients[c]) {
      ClosingsGrow(a, b[..|b| - 1]);
    }
  }

  lemma {:induction false} ClosingsGrow(a: seq<Note>, b: seq<Note>)
    requires a <= b
    ensures Closings(a) <= Closings(b)
    decreases |b|
  {
    if a != b {
      ClosingsGrow(a, b[..|b| - 1]);
    }
  }

  /** The list loop against sending the same commands singly up to the first ACK. */
  lemma {:induction false} RunAllRefines<P>(
      s: Proto<P>, t: Proto<P>, c: ClientId, msgs: seq<Message>, i: nat, exec: Player<P>, pooled: bool)
    requires Alike(s, t, c) && OwnList(msgs, c) && forall m :: m in msgs ==> Listable(m, c)
    ensures var r := RunAll(s, c, msgs, i, exec);
      var (q, refused) := UntilRefused(t, c, msgs, exec, pooled);
      && (r.Ran? ==> q.Returned? && !refused && Alike(r.s, q.s, c))
      && (r.Raised? ==>
            q.Returned? && refused && Alike(Write(r.s, c, Ack(r.error.code, 0, r.error.command, r.error.text)), q.s, c))
      && (r.Foreign? ==> q.Crashed? && Alike(r.s, q.s, c))
    decreases |msgs|
  {
    if msgs != [] {
      assert msgs[0] in msgs;
      AlikeStep(s, t, msgs[0], exec, pooled);
      ListedKeepsListEmpty(s, msgs[0], exec);
      var r := HandleListed(s, msgs[0], exec);
      if r.Ran? {
        RunAllRefines(r.s, Handle(t, msgs[0], exec, pooled).s, c, msgs[1..], i + 1, exec, pooled);
      }
    }
  }

  /** The outcome of command `k` when the commands before it all ran to the end, one after the other. */
  function OutcomeAt<P>(s: Proto<P>, c: ClientId, msgs: seq<Message>, k: nat, exec: Player<P>): Option<Ran<P>>
    requires OwnList(msgs, c) && ClientOf(s, c).list == []
    decreases k
  {
    if k >= |msgs| then None
    else
      ListedKeepsListEmpty(s, msgs[0], exec);
      var first := HandleListed(s, msgs[0], exec);
      if k == 0 then Some(first)
      else if first.Ran? then OutcomeAt(first.s, c, msgs[1..], k - 1, exec)
      else None
  }

  lemma OutcomeNext<P>(s: Proto<P>, c: ClientId, msgs: seq<Message>, k: nat, exec: Player<P>)
    requires msgs != [] && OwnList(msgs, c) && ClientOf(s, c).list == [] && HandleListed(s, msgs[0], exec).Ran?
    ensures ClientOf(HandleListed(s, msgs[0], exec).s, c).list == []
    ensures OutcomeAt(s, c, msgs, k + 1, exec) == OutcomeAt(HandleListed(s, msgs[0], exec).s, c, msgs[1..], k, exec)
  {
    assert msgs[0] in msgs;
    ListedKeepsListEmpty(s, msgs[0], exec);
  }

  /** What stopped a list is what its command raised, with a position filled in. */
  ghost predicate Stopped<P>(at: Option<Ran<P>>, r: Ran<P>) {
    r.Raised? && at.Some? && at.value.Raised? && r == Raised(at.value.s, at.value.error.(index := r.error.index))
  }

  lemma LaterPosition<P>(
      s: Proto<P>, c: ClientId, msgs: seq<Message>, first: Ran<P>, i: nat, exec: Player<P>, r: Ran<P>, later: nat)
    returns (k: nat)
    requires msgs != [] && OwnList(msgs, c) && ClientOf(s, c).list == [] && first == HandleListed(s, msgs[0], exec)
    requires first.Ran? && OwnList(msgs[1..], c) && ClientOf(first.s, c).list == []
    requires r.Raised? && r.error.index == i + 1 + later && Stopped(OutcomeAt(first.s, c, msgs[1..], later, exec), r)
    ensures r.error.index == i + k && Stopped(OutcomeAt(s, c, msgs, k, exec), r)
  {
    OutcomeNext(s, c, msgs, later, exec);
    k := later + 1;
  }

  lemma FirstPosition<P>(s: Proto<P>, c: ClientId, msgs: seq<Message>, i: nat, exec: Player<P>)
    requires msgs != [] && OwnList(msgs, c) && ClientOf(s, c).list == [] && HandleListed(s, msgs[0], exec).Raised?
    ensures RunAll(s, c, msgs, i, exec).Raised? && RunAll(s, c, msgs, i, exec).error.index == i
    ensures Stopped(OutcomeAt(s, c, msgs, 0, exec), RunAll(s, c, msgs, i, exec))
  {
    assert msgs[0] in msgs;
  }

  lemma RunAllThen<P>(s: Proto<P>, c: ClientId, msgs: seq<Message>, i: nat, exec: Player<P>, first: Ran<P>)
    requires msgs != [] && OwnList(msgs, c) && ClientOf(s, c).list == [] && first == HandleListed(s, msgs[0], exec)
    ensures first.Ran? ==>
      OwnList(msgs[1..], c) && ClientOf(first.s, c).list == []
      && RunAll(s, c, msgs, i, exec) == RunAll(first.s, c, msgs[1..], i + 1, exec)
    ensures RunAll(s, c, msgs, i, exec).Raised? && !first.Ran? ==> first.Raised?
  {
    assert msgs[0] in msgs;
    ListedKeepsListEmpty(s, msgs[0], exec);
  }

  lemma {:induction false} PositionOf<P>(
      s: Proto<P>, c: ClientId, msgs: seq<Message>, i: nat, exec: Player<P>, r: Ran<P>) returns (k: nat)
    requires OwnList(msgs, c) && ClientOf(s, c).list == [] && r == RunAll(s, c, msgs, i, exec) && r.Raised?
    ensures r.error.index == i + k && Stopped(OutcomeAt(s, c, msgs, k, exec), r)
    decreases |msgs|
  {
    assert msgs[0].client == c;
    var first := HandleListed(s, msgs[0], exec);
    RunAllThen(s, c, msgs, i, exec, first);
    if first.Ran? {
      var later := PositionOf(first.s, c, msgs[1..], i + 1, exec, r);
      k := LaterPosition(s, c, msgs, first, i, exec, r, later);
    } else {
      FirstPosition(s, c, msgs, i, exec);
      k := 0;
    }
  }

  /** The error that stops a list carries the position of the command that raised it: the commands
      before it ran to the end, none after it was started, and it is that command's own error. */
  lemma FailingPosition<P>(s: Proto<P>, c: ClientId, msgs: seq<Message>, i: nat, exec: Player<P>)
    requires OwnList(msgs, c) && ClientOf(s, c).list == [] && RunAll(s, c, msgs, i, exec).Raised?
    ensures var r := RunAll(s, c, msgs, i, exec);
      r.error.index >= i && Stopped(OutcomeAt(s, c, msgs, r.error.index - i, exec), r)
  {
    var r := RunAll(s, c, msgs, i, exec);
    var k := PositionOf(s, c, msgs, i, exec, r);
    assert r.error.index - i == k;
  }

  lemma OneIsQueued<P>(s: Proto<P>, c: ClientId, msg: Message, exec: Player<P>, pooled: bool)
    requires c in s.clients && s.clients[c].inList && Listable(msg, c) && OwnList(s.clients[c].list, c)
    ensures Handle(s, msg, exec, pooled) == Returned(With(s, c, s.clients[c].(list := s.clients[c].list + [msg])))
  {
    var cl := s.clients[c];
    WithWith(s, c, cl, cl.(list := cl.list + [msg]));
  }

  /** While the list is open, its commands are only remembered, in order. */
  lemma {:induction false} ListedAreQueued<P>(
      s: Proto<P>, c: ClientId, msgs: seq<Message>, exec: Player<P>, pooled: bool)
    requires c in s.clients && s.clients[c].inList && OwnList(s.clients[c].list, c)
    requires OwnList(msgs, c) && forall m :: m in msgs ==> Listable(m, c)
    ensures HandleAll(s, c, msgs, exec, pooled)
         == Returned(With(s, c, s.clients[c].(list := s.clients[c].list + msgs)))
    decreases |msgs|
  {
    var cl := s.clients[c];
    if msgs == [] {
      assert cl.list + [] == cl.list && With(s, c, cl) == s;
    } else {
      assert msgs[0] in msgs;
      OneIsQueued(s, c, msgs[0], exec, pooled);
      var one := cl.(list := cl.list + [msgs[0]]);
      assert OwnList(one.list, c);
      ListedAreQueued(With(s, c, one), c, msgs[1..], exec, pooled);
      WithWith(s, c, one, cl.(list := cl.list + msgs));
      assert one.list + msgs[1..] == cl.list + msgs;
    }
  }

  lemma {:induction false} HandleAllConcat<P>(
      s: Proto<P>, c: ClientId, a: seq<Message>, b: seq<Message>, exec: Player<P>, pooled: bool)
    requires OwnList(a, c) && OwnList(b, c) && OwnList(ClientOf(s, c).list, c)
    ensures var first := HandleAll(s, c, a, exec, pooled);
      && OwnList(ClientOf(first.s, c).list, c)
      && HandleAll(s, c, a + b, exec, pooled) ==
         if first.Crashed? then first else HandleAll(first.s, c, b, exec, pooled)
    decreases |a|
  {
    if a == [] {
      assert a + b == b;
    } else {
      assert a[0] in a && (a + b)[1..] == a[1..] + b;
      HandleKeepsOwnList(s, a[0], exec, pooled);
      var t := Handle(s, a[0], exec, pooled);
      if t.Returned? {
        HandleAllConcat(t.s, c, a[1..], b, exec, pooled);
      }
    }
  }

  predicate Opens(m: Message, c: ClientId) {
    m.client == c && m.args == [] && (m.command == Some(CommandListBegin) || m.command == Some(CommandListOkBegin))
  }

  predicate Ends(m: Message, c: ClientId) {
    m.client == c && m.args == [] && m.command == Some(CommandListEnd)
  }

  lemma OpeningStep<P>(s: Proto<P>, c: ClientId, open: Message, exec: Player<P>, pooled: bool)
    requires c in s.clients && !s.clients[c].inList && s.clients[c].list == [] && Opens(open, c)
    ensures Handle(s, open, exec, pooled)
         == Returned(With(s, c, s.clients[c].(inList := true, verbose := open.command.value.CommandListOkBegin?)))
  {
    assert With(s, c, s.clients[c]) == s;
  }

  lemma OpeningThenQueueing<P>(
      s: Proto<P>, c: ClientId, open: Message, msgs: seq<Message>, exec: Player<P>, pooled: bool)
    requires c in s.clients && !s.clients[c].inList && s.clients[c].list == []
    requires Opens(open, c) && OwnList(msgs, c) && forall m :: m in msgs ==> Listable(m, c)
    ensures var cl := s.clients[c].(inList := true, verbose := open.command.value.CommandListOkBegin?, list := msgs);
      HandleAll(s, c, [open] + msgs, exec, pooled) == Returned(With(s, c, cl))
  {
    var cl := s.clients[c].(inList := true, verbose := open.command.value.CommandListOkBegin?);
    OpeningStep(s, c, open, exec, pooled);
    ListedAreQueued(With(s, c, cl), c, msgs, exec, pooled);
    assert cl.list + msgs == msgs;
    assert ([open] + msgs)[1..] == msgs;
    WithWith(s, c, cl, cl.(list := msgs));
  }

  lemma EndRunsTheLoop<P>(s: Proto<P>, c: ClientId, msgs: seq<Message>, end: Message, exec: Player<P>)
    requires c in s.clients && !s.clients[c].inList && s.clients[c].list == []
    requires Ends(end, c) && OwnList(msgs, c)
    ensures HandleAll(With(s, c, s.clients[c].(inList := true, list := msgs)), c, [end], exec, true)
         == Answer(RunAll(s, c, msgs, 0, exec), c)
  {
    var s1 := With(s, c, s.clients[c].(inList := true, list := msgs));
    assert With(s1, c, s1.clients[c]) == s1;
    assert With(s1, c, s.clients[c].(inList := false, list := [])) == s;
    HandleKeepsOwnList(s1, end, exec, true);
    assert Handle(s1, end, exec, true) == Answer(RunAll(s, c, msgs, 0, exec), c);
    assert [end][1..] == [];
  }

  /** What a whole list does, in terms of its loop. */
  lemma ListIsItsLoop<P>(
      s: Proto<P>, c: ClientId, open: Message, msgs: seq<Message>, end: Message, exec: Player<P>)
    requires c in s.clients && !s.clients[c].inList && s.clients[c].list == []
    requires Opens(open, c) && Ends(end, c) && OwnList(msgs, c) && forall m :: m in msgs ==> Listable(m, c)
    ensures OwnList([open] + msgs + [end], c)
    ensures var s' := With(s, c, s.clients[c].(verbose := open.command.value.CommandListOkBegin?));
      HandleAll(s, c, [open] + msgs + [end], exec, true) == Answer(RunAll(s', c, msgs, 0, exec), c)
  {
    var cl := s.clients[c].(verbose := open.command.value.CommandListOkBegin?);
    var queued := With(s, c, cl.(inList := true, list := msgs));
    assert HandleAll(s, c, [open] + msgs, exec, true) == Returned(queued) by {
      OpeningThenQueueing(s, c, open, msgs, exec, true);
    }
    assert HandleAll(queued, c, [end], exec, true) == Answer(RunAll(With(s, c, cl), c, msgs, 0, exec), c) by {
      WithWith(s, c, cl, cl.(inList := true, list := msgs));
      EndRunsTheLoop(With(s, c, cl), c, msgs, end, exec);
    }
    HandleAllConcat(s, c, [open] + msgs, [end], exec, true);
  }

  /** A command list refines its commands. Sent between begin and end, known non-list commands leave
      the same player, the same pushed events and the same client (idle flags, empty list, list mode
      off) as sending them one by one until the first ACK; the replies are the same up to wording,
      `list_OK` standing for `OK`, and one more `OK` closes a list in which nothing failed. */
  lemma CommandListRefines<P>(
      s: Proto<P>, c: ClientId, open: Message, msgs: seq<Message>, end: Message, exec: Player<P>)
    requires c in s.clients && !s.clients[c].inList && s.clients[c].list == []
    requires Opens(open, c) && Ends(end, c) && OwnList(msgs, c) && forall m :: m in msgs ==> Listable(m, c)
    ensures OwnList([open] + msgs + [end], c)
    ensures var whole := HandleAll(s, c, [open] + msgs + [end], exec, true);
      var (singly, refused) := UntilRefused(s, c, msgs, exec, true);
      && (whole.Crashed? <==> singly.Crashed?)
      && (whole.Crashed? || refused ==> Alike(whole.s, singly.s, c))
      && (whole.Returned? && !refused ==>
            exists quiet: Proto<P> :: Alike(quiet, singly.s, c) && whole.s == Write(quiet, c, Ok))
  {
    ListIsItsLoop(s, c, open, msgs, end, exec);
    var s1 := With(s, c, s.clients[c].(verbose := open.command.value.CommandListOkBegin?));
    assert s1 == With(s, c, s1.clients[c]);
    RunAllRefines(s1, s, c, msgs, 0, exec, true);
    RunAllIsNotSilent(s1, c, msgs, 0, exec);
  }
}

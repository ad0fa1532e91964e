/**
 What a client reads in answer to one command, from the first byte to the
 closing line (section "Responses" of the Music Player Daemon protocol): the
 handlers of src/Protocols/MPD.cpp and src/Protocols/MPD/Commands.cpp seen from
 the client's side.
 */
module MpdAnswers {
  import opened Common
  import opened MpdState
  import opened MpdHandler
  import opened MpdCommandLists

  // ---------- Data ----------

  /** One `Data` note for each line. */
  function Lines(out: seq<string>): (notes: seq<Note>)
    ensures |notes| == |out|
  {
    seq(|out|, i requires 0 <= i < |out| => Wrote(Data(out[i])))
  }

  /** The lines a handler writes reach the client all, in order and behind what was written before. */
  lemma {:induction false} AllLinesAreWritten(cl: Client, out: seq<string>)
    ensures WriteAll(cl, out) == cl.(history := cl.history + Lines(out))
    decreases |out|
  {
    if out == [] {
      assert cl.history + Lines([]) == cl.history;
    } else {
      AllLinesAreWritten(Noted(cl, Wrote(Data(out[0]))), out[1..]);
      assert Lines(out) == [Wrote(Data(out[0]))] + Lines(out[1..]);
      assert cl.history + [Wrote(Data(out[0]))] + Lines(out[1..]) == cl.history + Lines(out);
    }
  }

  // ---------- Outside a list ----------

  /** The message makes the client's record `cl` and leaves player, events and every other client alone. */
  ghost predicate OnlyWrites<P>(s: Proto<P>, top: Top<P>, c: ClientId, cl: Client) {
    top == Returned(s.(clients := s.clients[c := cl]))
  }

  function Behind(cl: Client, more: seq<Note>): Client { cl.(history := cl.history + more) }

  /** A name nobody knows gets error 5, in an open list as well. */
  lemma UnknownIsRefused<P>(s: Proto<P>, msg: Message, exec: Player<P>, pooled: bool)
    requires OwnList(ClientOf(s, msg.client).list, msg.client) && msg.command.None?
    ensures OnlyWrites(s, Handle(s, msg, exec, pooled), msg.client,
                       Behind(ClientOf(s, msg.client),
                              [Wrote(Ack(5, 0, "", "unknown command \"" + msg.line + "\""))]))
  {
    WithWith(s, msg.client, ClientOf(s, msg.client), ClientOf(s, msg.client));
  }

  /** A known command outside a list with a wrong number of arguments gets error 2. */
  lemma WrongCountIsRefused<P>(s: Proto<P>, msg: Message, exec: Player<P>, pooled: bool)
    requires OwnList(ClientOf(s, msg.client).list, msg.client) && !ClientOf(s, msg.client).inList
    requires msg.command.Some? && !ArgsFit(msg.command.value, msg.args)
    ensures var name := NameOf(msg.command.value);
      OnlyWrites(s, Handle(s, msg, exec, pooled), msg.client,
                 Behind(ClientOf(s, msg.client),
                        [Wrote(Ack(2, 0, name, "wrong number of arguments for \"" + name + "\""))]))
  {
  }

  /** What the player makes of a command, as the client sees it: its lines, then OK, or its error. */
  lemma PlayerAnswers<P>(s: Proto<P>, msg: Message, exec: Player<P>, pooled: bool)
    requires OwnList(ClientOf(s, msg.client).list, msg.client) && !ClientOf(s, msg.client).inList
    requires msg.command.Some? && RunsOnPlayer(msg.command.value) && ArgsFit(msg.command.value, msg.args)
    ensures var e := exec(s.player, msg.command.value, msg.args);
      var closing := match e.ending
        case Fine => [Wrote(Ok)]
        case Fails(code, text) => [Wrote(Ack(code, 0, NameOf(msg.command.value), text))]
        case Throws => [];
      var top := Handle(s, msg, exec, pooled);
      && (top.Crashed? <==> e.ending.Throws?)
      && top.s == s.(player := e.player, eventQueue := s.eventQueue + e.events, pushed := s.pushed + e.events,
                     clients := s.clients[msg.client := Behind(ClientOf(s, msg.client), Lines(e.out) + closing)])
  {
    var c, cl := msg.client, ClientOf(s, msg.client);
    var e := exec(s.player, msg.command.value, msg.args);
    var s0 := With(s, c, cl);
    AllLinesAreWritten(cl, e.out);
    WithWith(s, c, cl, Behind(cl, Lines(e.out)));
    assert RunCommand(s0, msg, msg.command.value, exec) == RunOnPlayer(s0, msg, msg.command.value, exec);
    PlayerThenCloses(With(s, c, Behind(cl, Lines(e.out))), c, cl, Lines(e.out), e);
  }

  lemma PlayerThenCloses<P>(s: Proto<P>, c: ClientId, cl: Client, lines: seq<Note>, e: Exec<P>)
    requires c in s.clients && s.clients[c] == Behind(cl, lines)
    ensures lines + [] == lines
    ensures forall r: Reply ::
      Write(PushAll(s.(player := e.player), e.events), c, r) ==
      PushAll(s.(player := e.player), e.events).(clients := s.clients[c := Behind(cl, lines + [Wrote(r)])])
  {
    forall r: Reply ensures Write(PushAll(s.(player := e.player), e.events), c, r) ==
      PushAll(s.(player := e.player), e.events).(clients := s.clients[c := Behind(cl, lines + [Wrote(r)])])
    {
      assert cl.history + lines + [Wrote(r)] == cl.history + (lines + [Wrote(r)]);
    }
  }

  /** A command of the table that nothing serves gets error 5. */
  lemma UnservedIsRefused<P>(s: Proto<P>, msg: Message, exec: Player<P>, pooled: bool)
    requires OwnList(ClientOf(s, msg.client).list, msg.client) && !ClientOf(s, msg.client).inList
    requires msg.command.Some? && msg.command.value.Other? && ArgsFit(msg.command.value, msg.args)
    ensures OnlyWrites(s, Handle(s, msg, exec, pooled), msg.client,
                       Behind(ClientOf(s, msg.client),
                              [Wrote(Ack(5, 0, msg.command.value.name, "unimplemented command"))]))
  {
  }

  /** `noidle` stops the waiting and is closed by OK; what is pending stays pending. */
  lemma NoidleStopsWaiting<P>(s: Proto<P>, msg: Message, exec: Player<P>, pooled: bool)
    requires OwnList(ClientOf(s, msg.client).list, msg.client) && !ClientOf(s, msg.client).inList
    requires msg.command == Some(Noidle) && msg.args == []
    ensures OnlyWrites(s, Handle(s, msg, exec, pooled), msg.client,
                       Behind(ClientOf(s, msg.client), [Wrote(Ok)]).(waiting := {}))
  {
    var c, cl := msg.client, ClientOf(s, msg.client);
    WithWith(s, c, cl, cl.(waiting := {}));
    WithWith(s, c, cl.(waiting := {}), Behind(cl, [Wrote(Ok)]).(waiting := {}));
  }

  /** Opening a list writes nothing and changes nothing but the client's own list flags. */
  lemma OpeningIsSilent<P>(s: Proto<P>, msg: Message, exec: Player<P>, pooled: bool)
    requires OwnList(ClientOf(s, msg.client).list, msg.client) && !ClientOf(s, msg.client).inList && msg.args == []
    requires msg.command == Some(CommandListBegin) || msg.command == Some(CommandListOkBegin)
    ensures OnlyWrites(s, Handle(s, msg, exec, pooled), msg.client,
                       ClientOf(s, msg.client).(inList := true, verbose := msg.command == Some(CommandListOkBegin)))
  {
    var c, cl := msg.client, ClientOf(s, msg.client);
    WithWith(s, c, cl, cl.(inList := true, verbose := msg.command == Some(CommandListOkBegin)));
  }

  // ---------- Inside a list ----------

  /** A listed command that cannot run raises the same error codes as outside, in other words; the list goes on
      behind a command that ran, with `list_OK` in place of OK. */
  lemma ListedAnswers<P>(s: Proto<P>, msg: Message, exec: Player<P>)
    requires msg.client in s.clients && s.clients[msg.client].list == []
    ensures msg.command.None? ==>
      HandleListed(s, msg, exec) == Raised(s, Error(5, "", "unknown command\"" + msg.line + "\"", 0))
    ensures msg.command.Some? && !ArgsFit(msg.command.value, msg.args) ==>
      HandleListed(s, msg, exec) == Raised(s, Error(2, NameOf(msg.command.value), "wrong number of arguments", 0))
    ensures msg.command.Some? && RunsOnPlayer(msg.command.value) && ArgsFit(msg.command.value, msg.args) ==>
      var e, r := exec(s.player, msg.command.value, msg.args), HandleListed(s, msg, exec);
      && r.s == s.(player := e.player, eventQueue := s.eventQueue + e.events, pushed := s.pushed + e.events,
                   clients := s.clients[msg.client := Behind(s.clients[msg.client],
                                Lines(e.out) + if e.ending.Fine? then [Wrote(ListOk)] else [])])
      && match e.ending
         case Fine => r.Ran?
         case Fails(code, text) => r.Raised? && r.error == Error(code, NameOf(msg.command.value), text, 0)
         case Throws => r.Foreign?
  {
    var c, cl := msg.client, s.clients[msg.client];
    assert With(s, c, cl) == s;
    if msg.command.Some? && RunsOnPlayer(msg.command.value) && ArgsFit(msg.command.value, msg.args) {
      var e := exec(s.player, msg.command.value, msg.args);
      AllLinesAreWritten(cl, e.out);
      PlayerThenCloses(With(s, c, Behind(cl, Lines(e.out))), c, cl, Lines(e.out), e);
    }
  }

  // ---------- idle with a word nobody knows ----------

  /** The first word in the arguments that names no subsystem. */
  predicate FirstUnknown(args: seq<string>, i: int) {
    0 <= i < |args| && IdleArgument(args[i]).None? && forall j :: 0 <= j < i ==> IdleArgument(args[j]).Some?
  }

  lemma {:induction false} UnknownIsFirst(args: seq<string>, flags: set<nat>)
    requires MaskOf(args, flags).Unknown?
    ensures exists i :: FirstUnknown(args, i) && args[i] == MaskOf(args, flags).arg
  {
    if IdleArgument(args[0]).Some? {
      var rest, more := args[1..], flags + {IdleArgument(args[0]).value};
      UnknownIsFirst(rest, more);
      var i :| FirstUnknown(rest, i) && rest[i] == MaskOf(rest, more).arg;
      assert forall j :: 0 < j < i + 1 ==> args[j] == rest[j - 1];
      assert FirstUnknown(args, i + 1);
    } else {
      assert FirstUnknown(args, 0);
    }
  }

  /** An `idle` with an unknown word gets error 2 for the first such word, and waits for nothing new. */
  lemma UnknownWordIsRefused<P>(s: Proto<P>, msg: Message, exec: Player<P>, pooled: bool)
    requires OwnList(ClientOf(s, msg.client).list, msg.client) && !ClientOf(s, msg.client).inList
    requires msg.command == Some(Idle) && exists a :: a in msg.args && IdleArgument(a).None?
    ensures exists i :: (
      FirstUnknown(msg.args, i) &&
      OnlyWrites(s, Handle(s, msg, exec, pooled), msg.client,
                 Behind(ClientOf(s, msg.client),
                        [Wrote(Ack(2, 0, "idle", "unknown idle \"" + msg.args[i] + "\""))])))
  {
    MaskKnownExactlyWhen(msg.args, msg.garbage);
    UnknownIsFirst(msg.args, msg.garbage);
    UnknownWordRaises(s, msg, MaskOf(msg.args, msg.garbage).arg, exec, pooled);
  }

  lemma UnknownWordRaises<P>(s: Proto<P>, msg: Message, word: string, exec: Player<P>, pooled: bool)
    requires OwnList(ClientOf(s, msg.client).list, msg.client) && !ClientOf(s, msg.client).inList
    requires msg.command == Some(Idle) && IdleMask(msg.args, msg.garbage) == Unknown(word)
    ensures OnlyWrites(s, Handle(s, msg, exec, pooled), msg.client,
                       Behind(ClientOf(s, msg.client), [Wrote(Ack(2, 0, "idle", "unknown idle \"" + word + "\""))]))
  {
    var s0 := With(s, msg.client, ClientOf(s, msg.client));
    assert RunPlain(s0, msg, Idle, exec) == Raised(s0, Error(2, "idle", "unknown idle \"" + word + "\"", 0));
  }
}

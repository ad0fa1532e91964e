/**
 The protocol object of src/Protocols/MPD.cpp: its fields, and its methods
 updating them in place, each against the functions of the other modules.
 Exceptions are returned as a `Signal`.
 */
module MpdProto {
  import opened Common
  import opened MpdState
  import opened MpdHandler
  import opened MpdRun
  import opened MpdClientIds

  datatype Signal = Normal(silent: bool) | Thrown(error: Error) | Escaped

  function RanOf<P>(s: Proto<P>, sig: Signal): Ran<P> {
    match sig
    case Normal(silent) => Ran(s, silent)
    case Thrown(e) => Raised(s, e)
    case Escaped => Foreign(s)
  }

  /** The last four fields are history, as in `Proto`. */
  class MPDProto<!P> {
    var player: P
    var clientMap: map<ClientId, Client>
    var clientCounter: nat
    var eventQueue: seq<Event>
    var sendQueue: seq<Event>
    var messages: seq<Message>
    var recvQueue: seq<Message>
    var running: bool
    var pushed: seq<Event>
    var drained: seq<Event>
    var produced: seq<Message>
    var handled: seq<Message>

    const exec: Player<P>
    const pooled: bool

    function View(): Proto<P>
      reads this
    {
      Proto(player, clientMap, clientCounter, eventQueue, sendQueue, messages, recvQueue, running,
            pushed, drained, produced, handled)
    }

    constructor (player: P, exec: Player<P>, pooled: bool)
      ensures View() == Start(player) && this.exec == exec && this.pooled == pooled
    {
      this.player, this.exec, this.pooled := player, exec, pooled;
      clientMap, clientCounter := map[], CLIENT_NONE;
      eventQueue, sendQueue, messages, recvQueue := [], [], [], [];
      running := true;
      pushed, drained, produced, handled := [], [], [], [];
    }

    // ---------- Connections ----------

    /** The do-while search for an identifier. With an identifier free it stops within one round more
        than there are live clients, at the first free one, and never leaves the 32-bit range. */
    method NextClientId() returns (client: ClientId, ghost round: nat)
      requires clientCounter <= IDS && |clientMap.Keys| < IDS
      modifies `clientCounter
      ensures FirstFree(old(clientCounter), clientMap.Keys, client, round)
      ensures CLIENT_NONE < client < CLIENT_ALL && clientCounter == client && round <= |clientMap.Keys|
    {
      ghost var start := clientCounter;
      round := 0;
      FirstCandidate(start);
      clientCounter := NextCounter(clientCounter);
      client := clientCounter;
      while client in clientMap
        invariant clientCounter == client == Candidate(start, round)
        invariant round <= |clientMap.Keys|
        invariant forall j: nat :: j < round ==> Candidate(start, j) in clientMap.Keys
        decreases |clientMap.Keys| - round
      {
        TriedAllLive(start, round + 1, clientMap.Keys);
        NextCandidate(start, round);
        clientCounter := NextCounter(clientCounter);
        client := clientCounter;
        round := round + 1;
      }
    }

    /** One accepted connection: an identifier, a fresh client, the greeting. */
    method AcceptConnection() returns (client: ClientId, ghost round: nat)
      requires clientCounter <= IDS && |clientMap.Keys| < IDS && running && WellFormed(View())
      modifies this
      ensures Enabled(old(View()), Accept(round))
      ensures Apply(old(View()), Accept(round), exec, pooled) == Returned(View())
    {
      client, round := NextClientId();
      clientMap := clientMap[client := Client({}, {}, false, false, [], |drained|, [Wrote(Greeting)])];
    }

    // ---------- Events ----------

    /** `post`: only broadcast events are queued. */
    method PostEvent(ev: Event, client: ClientId)
      modifies this
      ensures View() == Post(old(View()), ev, client)
    {
      if client == CLIENT_NONE || client != CLIENT_ALL {
        return;
      }
      sendQueue := sendQueue + [ev];
    }

    /** The fan-out of one event over the client map, in whatever order the map yields its clients. */
    method NotifyClients(f: nat)
      modifies `clientMap
      ensures clientMap == map c | c in old(clientMap) :: Notify(old(clientMap)[c], f)
    {
      var todo := clientMap.Keys;
      while todo != {}
        invariant clientMap.Keys == old(clientMap).Keys && todo <= clientMap.Keys
        invariant forall c :: c in todo ==> clientMap[c] == old(clientMap)[c]
        invariant forall c :: c in clientMap && c !in todo ==> clientMap[c] == Notify(old(clientMap)[c], f)
        decreases |todo|
      {
        var c :| c in todo;
        var cl := clientMap[c];
        if f in cl.waiting {
          clientMap := clientMap[c := Noted(Noted(cl, Heard(f)), Wrote(Changed({f})))];
        } else {
          clientMap := clientMap[c := Noted(cl, Heard(f)).(pending := cl.pending + {f})];
        }
        todo := todo - {c};
      }
    }

    method FanOutEvent(ev: Event, f: nat)
      modifies this
      ensures View() == FanOut(old(View()), ev, f)
    {
      NotifyClients(f);
      drained := drained + [ev];
    }

    /** The send half of `runThread`. */
    method DrainSendQueue()
      requires running
      modifies this
      ensures View() == DrainEvents(old(View()), old(sendQueue))
    {
      ghost var goal := DrainEvents(View(), sendQueue);
      ghost var rest := sendQueue;
      var i := 0;
      while i < |sendQueue|
        invariant 0 <= i <= |sendQueue| && rest == sendQueue[i..]
        invariant DrainEvents(View(), rest) == goal
      {
        var ev := sendQueue[i];
        var flag := FlagOf(ev);
        if flag.None? {
          running := false;
          return;
        }
        FanOutEvent(ev, flag.value);
        rest := rest[1..];
        i := i + 1;
      }
      sendQueue := [];
    }

    // ---------- Messages ----------

    /** The end of a pass of `runThread`: the batch moves to the receive queue. */
    method HandOffMessages()
      requires running && WellFormed(View())
      modifies this
      ensures Apply(old(View()), HandOff, exec, pooled) == Returned(View())
    {
      while messages != []
        invariant recvQueue + messages == old(recvQueue + messages)
        invariant View() == old(View()).(recvQueue := recvQueue, batch := messages)
        decreases |messages|
      {
        recvQueue := recvQueue + [messages[0]];
        messages := messages[1..];
      }
    }

    /** `writeData`. */
    method WriteData(c: ClientId, r: Reply)
      requires c in clientMap
      modifies `clientMap
      ensures View() == Write(old(View()), c, r)
    {
      clientMap := clientMap[c := Noted(clientMap[c], Wrote(r))];
    }

    /** `handleMessage(msg, cmdList)`. Its recursion through `command_list_end` ends because the list is
        emptied before it is run and a message run from a list is never queued. */
    method HandleMessage(msg: Message, cmdList: bool) returns (sig: Signal)
      requires OwnList(ClientOf(View(), msg.client).list, msg.client)
      requires cmdList ==> ClientOf(View(), msg.client).list == []
      modifies this
      ensures cmdList ==> HandleListed(old(View()), msg, exec) == RanOf(View(), sig)
      ensures !cmdList ==> !sig.Thrown?
      ensures !cmdList ==>
        Handle(old(View()), msg, exec, pooled) == if sig.Escaped? then Crashed(View()) else Returned(View())
      decreases |ClientOf(View(), msg.client).list|, 4
    {
      var c := msg.client;
      clientMap := clientMap[c := ClientOf(View(), c)];
      var cl := clientMap[c];
      if msg.command.None? {
        if cmdList {
          return Thrown(Error(ACK_ERROR_UNKNOWN, "", "unknown command\"" + msg.line + "\"", 0));
        }
        WriteData(c, Ack(ACK_ERROR_UNKNOWN, 0, "", "unknown command \"" + msg.line + "\""));
        return Normal(false);
      }
      var cmd := msg.command.value;
      if !cmdList && cl.inList && !(cmd.CommandListEnd? && pooled) {
        clientMap := clientMap[c := cl.(list := cl.list + [msg])];
        return Normal(true);
      }
      if !ArgsFit(cmd, msg.args) {
        if cmdList {
          return Thrown(Error(ACK_ERROR_ARG, NameOf(cmd), "wrong number of arguments", 0));
        }
        WriteData(c, Ack(ACK_ERROR_ARG, 0, NameOf(cmd), "wrong number of arguments for \"" + NameOf(cmd) + "\""));
        return Normal(false);
      }
      ghost var s0 := View();
      sig := RunCommandOf(msg, cmd);
      RunKeepsClient(s0, msg, cmd, exec);
      match sig {
        case Normal(silent) =>
          if !silent {
            WriteData(c, if cmdList then ListOk else Ok);
          }
        case Thrown(e) =>
          if !cmdList {
            WriteData(c, Ack(e.code, 0, e.command, e.text));
            sig := Normal(false);
          }
        case Escaped =>
      }
    }

    /** `runCommand`. */
    method RunCommandOf(msg: Message, cmd: CommandId) returns (sig: Signal)
      requires msg.client in clientMap && OwnList(clientMap[msg.client].list, msg.client)
      modifies this
      ensures RunCommand(old(View()), msg, cmd, exec) == RanOf(View(), sig)
      decreases |ClientOf(View(), msg.client).list|, 3
    {
      var c := msg.client;
      if cmd.CommandListBegin? || cmd.CommandListOkBegin? || cmd.CommandListEnd? {
        sig := DoCommandList(c, cmd);
      } else if cmd.Noidle? {
        sig := DoNoidle(c);
      } else if cmd.Idle? {
        var mask := IdleMask(msg.args, msg.garbage);
        if mask.Unknown? {
          return Thrown(Error(ACK_ERROR_ARG, NameOf(cmd), "unknown idle \"" + mask.arg + "\"", 0));
        }
        sig := DoIdleFor(c, mask.flags);
      } else if cmd.Other? {
        sig := Thrown(Error(ACK_ERROR_UNKNOWN, cmd.name, "unimplemented command", 0));
      } else {
        sig := CallPlayer(msg, cmd);
      }
    }

    /** A command whose work is the player's. */
    method CallPlayer(msg: Message, cmd: CommandId) returns (sig: Signal)
      requires msg.client in clientMap
      modifies this
      ensures RunOnPlayer(old(View()), msg, cmd, exec) == RanOf(View(), sig)
    {
      var e := exec(player, cmd, msg.args);
      WriteOut(msg.client, e.out);
      player := e.player;
      PushEvents(e.events);
      sig := match e.ending
        case Fine => Normal(false)
        case Fails(code, text) => Thrown(Error(code, NameOf(cmd), text, 0))
        case Throws => Escaped;
    }

    /** The data a handler writes, line by line. */
    method WriteOut(c: ClientId, out: seq<string>)
      requires c in clientMap
      modifies `clientMap
      ensures View() == With(old(View()), c, WriteAll(ClientOf(old(View()), c), out))
    {
      var i := 0;
      ghost var rest := out;
      while i < |out|
        invariant 0 <= i <= |out| && rest == out[i..]
        invariant c in clientMap && clientMap == old(clientMap)[c := clientMap[c]]
        invariant WriteAll(clientMap[c], rest) == WriteAll(old(clientMap)[c], out)
      {
        WriteData(c, Data(out[i]));
        rest := rest[1..];
        i := i + 1;
      }
    }

    /** `Server::pushEvent`, for each event the player pushes. */
    method PushEvents(events: seq<Event>)
      modifies `eventQueue, `pushed
      ensures View() == PushAll(old(View()), events)
    {
      var i := 0;
      while i < |events|
        invariant 0 <= i <= |events|
        invariant eventQueue == old(eventQueue) + events[..i] && pushed == old(pushed) + events[..i]
      {
        eventQueue := eventQueue + [events[i]];
        pushed := pushed + [events[i]];
        i := i + 1;
      }
    }

    /** `doIdle`. */
    method DoIdleFor(c: ClientId, flags: set<nat>) returns (sig: Signal)
      requires c in clientMap
      modifies `clientMap
      ensures sig == Normal(true) && clientMap == old(clientMap)[c := DoIdle(old(clientMap)[c], flags)]
    {
      var triggered := clientMap[c].pending * flags;
      if triggered != {} {
        WriteData(c, Changed(triggered));
        clientMap := clientMap[c := clientMap[c].(waiting := {})];
        clientMap := clientMap[c := clientMap[c].(pending := clientMap[c].pending - flags)];
        return Normal(true);
      }
      clientMap := clientMap[c := clientMap[c].(waiting := flags)];
      sig := Normal(true);
    }

    /** `doNoidle`. */
    method DoNoidle(c: ClientId) returns (sig: Signal)
      requires c in clientMap
      modifies `clientMap
      ensures sig == Normal(false) && clientMap == old(clientMap)[c := old(clientMap)[c].(waiting := {})]
    {
      clientMap := clientMap[c := clientMap[c].(waiting := {})];
      sig := Normal(false);
    }

    /** `doCommandList`. */
    method DoCommandList(c: ClientId, cmd: CommandId) returns (sig: Signal)
      requires c in clientMap && OwnList(clientMap[c].list, c)
      requires cmd.CommandListBegin? || cmd.CommandListOkBegin? || cmd.CommandListEnd?
      modifies this
      ensures cmd.CommandListEnd? ==> RunList(old(View()), c, exec) == RanOf(View(), sig)
      ensures !cmd.CommandListEnd? ==> sig == Normal(true)
      ensures !cmd.CommandListEnd? ==>
        View() == With(old(View()), c, old(clientMap)[c].(inList := true, verbose := cmd.CommandListOkBegin?))
      decreases |ClientOf(View(), c).list|, 2
    {
      if cmd.CommandListEnd? {
        ghost var s := View();
        ghost var cl := clientMap[c];
        clientMap := clientMap[c := clientMap[c].(inList := false)];
        WithWith(s, c, cl.(inList := false), cl.(inList := false, list := []));
        sig := RunCommandList(c);
        return;
      }
      clientMap := clientMap[c := clientMap[c].(inList := true)];
      clientMap := clientMap[c := clientMap[c].(verbose := cmd.CommandListOkBegin?)];
      sig := Normal(true);
    }

    /** `runCommandList`: the list is taken out and cleared, then run up to the first error. */
    method RunCommandList(c: ClientId) returns (sig: Signal)
      requires c in clientMap && OwnList(clientMap[c].list, c)
      modifies this
      ensures RunAll(With(old(View()), c, old(clientMap)[c].(list := [])), c, old(clientMap)[c].list, 0, exec)
           == RanOf(View(), sig)
      decreases |ClientOf(View(), c).list|, 1
    {
      var commands := clientMap[c].list;
      clientMap := clientMap[c := clientMap[c].(list := [])];
      sig := RunEach(c, commands);
    }

    /** One turn of the loop of `runCommandList`; an exception gets the place in the list. */
    method RunOne(c: ClientId, i: nat, ghost rest: seq<Message>, msg: Message) returns (sig: Signal)
      requires rest != [] && rest[0] == msg && OwnList(rest, c) && ClientOf(View(), c).list == []
      modifies this
      ensures OwnList(rest[1..], c)
      ensures if sig.Normal? then
          ClientOf(View(), c).list == []
          && RunAll(View(), c, rest[1..], i + 1, exec) == RunAll(old(View()), c, rest, i, exec)
        else RunAll(old(View()), c, rest, i, exec) == RanOf(View(), sig)
      decreases 0, 5
    {
      LoopTurn(View(), c, rest, i, exec);
      sig := HandleMessage(msg, true);
      if sig.Thrown? {
        sig := Thrown(sig.error.(index := i));
      }
    }

    /** The loop of `runCommandList`. */
    method RunEach(c: ClientId, commands: seq<Message>) returns (sig: Signal)
      requires OwnList(commands, c) && ClientOf(View(), c).list == []
      modifies this
      ensures RunAll(old(View()), c, commands, 0, exec) == RanOf(View(), sig)
      decreases 0, if commands == [] then 0 else 6
    {
      ghost var goal := RunAll(View(), c, commands, 0, exec);
      ghost var rest := commands;
      var i := 0;
      while i < |commands|
        invariant 0 <= i <= |commands| && rest == commands[i..]
        invariant OwnList(rest, c) && ClientOf(View(), c).list == []
        invariant RunAll(View(), c, rest, i, exec) == goal
      {
        sig := RunOne(c, i, rest, commands[i]);
        if !sig.Normal? {
          return;
        }
        rest := rest[1..];
        i := i + 1;
      }
      sig := Normal(false);
    }

    /** One turn of `update`'s loop. */
    method HandleOne(msg: Message, ghost rest: seq<Message>) returns (sig: Signal)
      requires WellFormed(View()) && rest != [] && rest[0] == msg
      modifies this
      ensures recvQueue == old(recvQueue)
      ensures if sig.Escaped? then Update(old(View()), rest, exec, pooled) == Crashed(View())
        else WellFormed(View()) && Update(View(), rest[1..], exec, pooled) == Update(old(View()), rest, exec, pooled)
    {
      HandleServes(View(), msg, exec, pooled);
      sig := HandleMessage(msg, false);
      if sig.Normal? {
        handled := handled + [msg];
      }
    }

    /** The loop of `update`, `i` messages in. */
    method HandleAt(i: nat) returns (sig: Signal)
      requires WellFormed(View()) && i < |recvQueue|
      modifies this
      ensures recvQueue == old(recvQueue)
      ensures var before := Update(old(View()), recvQueue[i..], exec, pooled);
        if sig.Escaped? then before == Crashed(View())
        else WellFormed(View()) && Update(View(), recvQueue[i + 1..], exec, pooled) == before
    {
      assert recvQueue[i..][1..] == recvQueue[i + 1..];
      sig := HandleOne(recvQueue[i], recvQueue[i..]);
    }

    /** `update`: handle everything received. An exception no handler caught leaves the loop. */
    method HandleReceived() returns (sig: Signal)
      requires WellFormed(View())
      modifies this
      ensures Update(old(View()), old(recvQueue), exec, pooled)
           == if sig.Escaped? then Crashed(View()) else Returned(View())
    {
      ghost var goal := Update(View(), recvQueue, exec, pooled);
      var i := 0;
      assert recvQueue[0..] == recvQueue;
      while i < |recvQueue|
        invariant recvQueue == old(recvQueue) && i <= |recvQueue|
        invariant WellFormed(View()) && Update(View(), recvQueue[i..], exec, pooled) == goal
      {
        sig := HandleAt(i);
        if sig.Escaped? {
          return;
        }
        i := i + 1;
      }
      recvQueue := [];
      sig := Normal(true);
    }

    /** `Server::on_tick`: update the protocol, then post every event and clear the event queue. */
    method OnTick() returns (sig: Signal)
      requires WellFormed(View())
      modifies this
      ensures Tick(old(View()), exec, pooled)
           == if sig.Escaped? then Crashed(View()) else Returned(View())
    {
      sig := HandleReceived();
      if sig.Escaped? {
        return;
      }
      PostEvents();
    }

    /** The posting half of `on_tick`. */
    method PostEvents()
      modifies this
      ensures View() == PostAll(old(View()), old(eventQueue))
    {
      ghost var goal := PostAll(View(), eventQueue);
      ghost var rest := eventQueue;
      var i := 0;
      while i < |eventQueue|
        invariant 0 <= i <= |eventQueue| && rest == eventQueue[i..]
        invariant PostAll(View(), rest) == goal
      {
        PostEvent(eventQueue[i], CLIENT_ALL);
        rest := rest[1..];
        i := i + 1;
      }
      eventQueue := [];
    }
  }

  lemma LoopTurn<P>(s: Proto<P>, c: ClientId, msgs: seq<Message>, i: nat, exec: Player<P>)
    requires msgs != [] && OwnList(msgs, c) && ClientOf(s, c).list == []
    ensures msgs[0].client == c && OwnList(msgs[1..], c)
    ensures var r := HandleListed(s, msgs[0], exec);
      && ClientOf(r.s, c).list == []
      && RunAll(s, c, msgs, i, exec) == match r
         case Ran(s', _) => RunAll(s', c, msgs[1..], i + 1, exec)
         case Raised(s', e) => Raised(s', e.(index := i))
         case Foreign(s') => Foreign(s')
  {
    assert msgs[0] in msgs;
    ListedKeepsListEmpty(s, msgs[0], exec);
  }

  lemma RunKeepsClient<P>(s: Proto<P>, msg: Message, cmd: CommandId, exec: Player<P>)
    requires msg.client in s.clients && OwnList(s.clients[msg.client].list, msg.client)
    ensures msg.client in RunCommand(s, msg, cmd, exec).s.clients
    ensures cmd.CommandListEnd? && s.clients[msg.client].list == [] ==>
      RunCommand(s, msg, cmd, exec) == Ran(With(s, msg.client, s.clients[msg.client].(inList := false)), false)
  {
    CommandIsLocal(s, msg, cmd, exec);
    if cmd.CommandListEnd? && s.clients[msg.client].list == [] {
      assert s.clients[msg.client].(inList := false, list := []) == s.clients[msg.client].(inList := false);
    }
  }
}

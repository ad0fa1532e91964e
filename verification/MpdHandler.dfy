/**
 The handling half of the protocol: `handleMessage`, `runCommandList` of
 src/Protocols/MPD.cpp, `runCommand`, `doCommandList`, `doIdle` and `doNoidle`
 of src/Protocols/MPD/Commands.cpp, as functions of the protocol state.

 `exec` is the player's side of every command that reaches the player.
 `pooled` says whether the compiler gives the two equal literals
 "command_list_end" one address, which is what the comparison by pointer in
 `handleMessage` depends on.
 */
module MpdHandler {
  import opened Common
  import opened MpdState

  type Player<!P> = (P, CommandId, seq<string>) -> Exec<P>

  /** How a handler ends: it returns (silently or with OK), raises an `MPDError`, or lets a foreign
      exception through. */
  datatype Ran<P> = Ran(s: Proto<P>, silent: bool) | Raised(s: Proto<P>, error: Error) | Foreign(s: Proto<P>)

  // ---------- idle ----------

  /** The flag word `idle` asks for, or the first argument it does not know. */
  datatype Mask = Asked(flags: set<nat>) | Unknown(arg: string)

  function MaskOf(args: seq<string>, flags: set<nat>): Mask {
    if args == [] then Asked(flags)
    else match IdleArgument(args[0])
      case None => Unknown(args[0])
      case Some(bit) => MaskOf(args[1..], flags + {bit})
  }

  /** Without arguments everything; with arguments the bits are or-ed into an uninitialised word. */
  function IdleMask(args: seq<string>, garbage: set<nat>): Mask {
    if args == [] then Asked(IDLE_ALL) else MaskOf(args, garbage)
  }

  function DoIdle(cl: Client, flags: set<nat>): Client {
    var triggered := cl.pending * flags;
    if triggered != {} then
      Noted(cl, Wrote(Changed(triggered))).(waiting := {}, pending := cl.pending - flags)
    else cl.(waiting := flags)
  }

  // ---------- One command ----------

  function PushAll<P>(s: Proto<P>, events: seq<Event>): Proto<P> {
    s.(eventQueue := s.eventQueue + events, pushed := s.pushed + events)
  }

  /** A command whose work is the player's. */
  function RunOnPlayer<P>(s: Proto<P>, msg: Message, cmd: CommandId, exec: Player<P>): Ran<P> {
    var e := exec(s.player, cmd, msg.args);
    var s' := PushAll(With(s, msg.client, WriteAll(ClientOf(s, msg.client), e.out)).(player := e.player), e.events);
    match e.ending
    case Fine => Ran(s', false)
    case Fails(code, text) => Raised(s', Error(code, NameOf(cmd), text, 0))
    case Throws => Foreign(s')
  }

  predicate RunsOnPlayer(cmd: CommandId) {
    !(cmd.CommandListBegin? || cmd.CommandListOkBegin? || cmd.CommandListEnd? || cmd.Noidle? || cmd.Idle? || cmd.Other?)
  }

  /** `runCommand` for every command except `command_list_end`. */
  function RunPlain<P>(s: Proto<P>, msg: Message, cmd: CommandId, exec: Player<P>): Ran<P>
    requires !cmd.CommandListEnd?
  {
    var c := msg.client;
    var cl := ClientOf(s, c);
    if RunsOnPlayer(cmd) then RunOnPlayer(s, msg, cmd, exec)
    else if cmd.CommandListBegin? || cmd.CommandListOkBegin? then
      Ran(With(s, c, cl.(inList := true, verbose := cmd.CommandListOkBegin?)), true)
    else if cmd.Noidle? then Ran(With(s, c, cl.(waiting := {})), false)
    else if cmd.Idle? then
      match IdleMask(msg.args, msg.garbage)
      case Unknown(arg) => Raised(s, Error(ACK_ERROR_ARG, NameOf(cmd), "unknown idle \"" + arg + "\"", 0))
      case Asked(flags) => Ran(With(s, c, DoIdle(cl, flags)), true)
    else Raised(s, Error(ACK_ERROR_UNKNOWN, cmd.name, "unimplemented command", 0))
  }

  // ---------- Command lists ----------

  /** `handleMessage(msg, true)`, called only after the client's list has been emptied, so that a
      listed `command_list_end` finds nothing to run. */
  function HandleListed<P>(s: Proto<P>, msg: Message, exec: Player<P>): Ran<P>
    requires ClientOf(s, msg.client).list == []
  {
    var s0 := With(s, msg.client, ClientOf(s, msg.client));
    match msg.command
    case None => Raised(s0, Error(ACK_ERROR_UNKNOWN, "", "unknown command\"" + msg.line + "\"", 0))
    case Some(cmd) =>
      if !ArgsFit(cmd, msg.args) then Raised(s0, Error(ACK_ERROR_ARG, NameOf(cmd), "wrong number of arguments", 0))
      else
        var r := if cmd.CommandListEnd? then
                   Ran(With(s0, msg.client, ClientOf(s0, msg.client).(inList := false)), false)
                 else RunPlain(s0, msg, cmd, exec);
        if r.Ran? && !r.silent then Ran(Write(r.s, msg.client, ListOk), false) else r
  }

  predicate OwnList(msgs: seq<Message>, c: ClientId) {
    forall m :: m in msgs ==> m.client == c
  }

  lemma WriteAllKeeps(cl: Client, out: seq<string>)
    ensures WriteAll(cl, out) == cl.(history := WriteAll(cl, out).history)
    decreases |out|
  {
    if out != [] {
      WriteAllKeeps(Noted(cl, Wrote(Data(out[0]))), out[1..]);
    }
  }

  lemma PlainKeepsList<P>(s: Proto<P>, msg: Message, cmd: CommandId, exec: Player<P>)
    requires !cmd.CommandListEnd? && msg.client in s.clients
    ensures var r := RunPlain(s, msg, cmd, exec);
      msg.client in r.s.clients && ClientOf(r.s, msg.client).list == ClientOf(s, msg.client).list
  {
    if RunsOnPlayer(cmd) {
      PlayerKeepsList(s, msg, cmd, exec);
    }
  }

  lemma PlayerKeepsList<P>(s: Proto<P>, msg: Message, cmd: CommandId, exec: Player<P>)
    ensures var r := RunOnPlayer(s, msg, cmd, exec);
      msg.client in r.s.clients && ClientOf(r.s, msg.client).list == ClientOf(s, msg.client).list
  {
    WriteAllKeeps(ClientOf(s, msg.client), exec(s.player, cmd, msg.args).out);
  }

  lemma ListedKeepsListEmpty<P>(s: Proto<P>, msg: Message, exec: Player<P>)
    requires ClientOf(s, msg.client).list == []
    ensures var r := HandleListed(s, msg, exec); ClientOf(r.s, msg.client).list == [] && msg.client in r.s.clients
  {
    var s0 := With(s, msg.client, ClientOf(s, msg.client));
    if msg.command.Some? && !msg.command.value.CommandListEnd? {
      PlainKeepsList(s0, msg, msg.command.value, exec);
    }
  }

  /** The loop of `runCommandList`, `i` commands in. */
  function RunAll<P>(s: Proto<P>, c: ClientId, msgs: seq<Message>, i: nat, exec: Player<P>): Ran<P>
    requires OwnList(msgs, c) && ClientOf(s, c).list == []
    decreases |msgs|
  {
    if msgs == [] then Ran(s, false)
    else
      ListedKeepsListEmpty(s, msgs[0], exec);
      match HandleListed(s, msgs[0], exec)
      case Ran(s', _) => RunAll(s', c, msgs[1..], i + 1, exec)
      case Raised(s', e) => Raised(s', e.(index := i))
      case Foreign(s') => Foreign(s')
  }

  /** `doCommandList` for `command_list_end`. */
  function RunList<P>(s: Proto<P>, c: ClientId, exec: Player<P>): Ran<P>
    requires OwnList(ClientOf(s, c).list, c)
  {
    var cl := ClientOf(s, c);
    RunAll(With(s, c, cl.(inList := false, list := [])), c, cl.list, 0, exec)
  }

  // ---------- handleMessage(msg, false) ----------

  predicate Queues(cl: Client, cmd: CommandId, pooled: bool) {
    cl.inList && !(cmd.CommandListEnd? && pooled)
  }

  /** Every message in a client's list came from that client. */
  ghost predicate WellFormed<P>(s: Proto<P>) {
    forall c :: c in s.clients ==> OwnList(s.clients[c].list, c)
  }

  datatype Top<P> = Returned(s: Proto<P>) | Crashed(s: Proto<P>)

  function Answer<P>(r: Ran<P>, c: ClientId): Top<P> {
    match r
    case Ran(s, silent) => Returned(if silent then s else Write(s, c, Ok))
    case Raised(s, e) => Returned(Write(s, c, Ack(e.code, 0, e.command, e.text)))
    case Foreign(s) => Crashed(s)
  }

  function RunCommand<P>(s: Proto<P>, msg: Message, cmd: CommandId, exec: Player<P>): Ran<P>
    requires OwnList(ClientOf(s, msg.client).list, msg.client)
  {
    if cmd.CommandListEnd? then RunList(s, msg.client, exec) else RunPlain(s, msg, cmd, exec)
  }

  function Handle<P>(s: Proto<P>, msg: Message, exec: Player<P>, pooled: bool): Top<P>
    requires OwnList(ClientOf(s, msg.client).list, msg.client)
  {
    var c := msg.client;
    var cl := ClientOf(s, c);
    var s0 := With(s, c, cl);
    match msg.command
    case None => Returned(Write(s0, c, Ack(ACK_ERROR_UNKNOWN, 0, "", "unknown command \"" + msg.line + "\"")))
    case Some(cmd) =>
      if Queues(cl, cmd, pooled) then Returned(With(s0, c, cl.(list := cl.list + [msg])))
      else if !ArgsFit(cmd, msg.args) then
        Returned(Write(s0, c, Ack(ACK_ERROR_ARG, 0, NameOf(cmd),
                                  "wrong number of arguments for \"" + NameOf(cmd) + "\"")))
      else Answer(RunCommand(s0, msg, cmd, exec), c)
  }

  // ---------- A client's history ----------

  /** An event of kind `f` reached the client and no "changed:" write for `f` has followed. */
  ghost predicate Owed(h: seq<Note>, f: nat) {
    exists i :: 0 <= i < |h| && h[i] == Heard(f) && !ToldAfter(h, i, f)
  }

  ghost predicate ToldAfter(h: seq<Note>, i: nat, f: nat) {
    exists j :: i < j < |h| && Tells(h[j], f)
  }

  predicate Tells(n: Note, f: nat) {
    n.Wrote? && n.reply.Changed? && f in n.reply.flags
  }

  /** The flags a client waits for and those pending are disjoint, and pending are exactly the events
      it has not been told about. */
  ghost predicate IdleOk(cl: Client) {
    cl.waiting !! cl.pending && forall f :: f in cl.pending <==> Owed(cl.history, f)
  }

  /** The events that reached the client, in order. */
  function HeardIn(h: seq<Note>): seq<nat> {
    if h == [] then []
    else HeardIn(h[..|h| - 1]) + if h[|h| - 1].Heard? then [h[|h| - 1].flag] else []
  }

  predicate Closes(r: Reply) { r.Ok? || r.Ack? }

  /** How many closing replies were written to the client. */
  function Closings(h: seq<Note>): nat {
    if h == [] then 0
    else Closings(h[..|h| - 1]) + if h[|h| - 1].Wrote? && Closes(h[|h| - 1].reply) then 1 else 0
  }

  lemma OwedAfter(h: seq<Note>, n: Note, f: nat)
    ensures Owed(h + [n], f) <==> n == Heard(f) || (Owed(h, f) && !Tells(n, f))
  {
    var g := h + [n];
    if n == Heard(f) {
      assert g[|h|] == Heard(f) && !ToldAfter(g, |h|, f);
    }
    if Owed(h, f) && !Tells(n, f) {
      var i :| 0 <= i < |h| && h[i] == Heard(f) && !ToldAfter(h, i, f);
      assert g[i] == Heard(f);
    }
    if Owed(g, f) && n != Heard(f) {
      var i :| 0 <= i < |g| && g[i] == Heard(f) && !ToldAfter(g, i, f);
      assert h[i] == Heard(f) && !Tells(g[|h|], f);
      assert forall j :: i < j < |h| ==> g[j] == h[j];
    }
  }

  lemma NotedHistory(h: seq<Note>, n: Note)
    ensures HeardIn(h + [n]) == HeardIn(h) + (if n.Heard? then [n.flag] else [])
    ensures Closings(h + [n]) == Closings(h) + (if n.Wrote? && Closes(n.reply) then 1 else 0)
  {
    assert (h + [n])[..|h|] == h;
  }

  /** What running a command may do to the client's record: write, but neither close the reply nor
      lose an event. */
  ghost predicate Quiet(a: Client, b: Client) {
    && a.since == b.since
    && a.history <= b.history
    && HeardIn(b.history) == HeardIn(a.history)
    && Closings(b.history) == Closings(a.history)
    && (IdleOk(a) ==> IdleOk(b))
  }

  /** Flags and history unchanged. */
  lemma QuietSame(a: Client, b: Client)
    requires a.waiting == b.waiting && a.pending == b.pending && a.since == b.since && a.history == b.history
    ensures Quiet(a, b)
  {
  }

  lemma QuietWrite(a: Client, r: Reply)
    requires !r.Changed?
    ensures IdleOk(a) ==> IdleOk(Noted(a, Wrote(r)))
    ensures !Closes(r) ==> Quiet(a, Noted(a, Wrote(r)))
  {
    NotedHistory(a.history, Wrote(r));
    forall f ensures Owed(Noted(a, Wrote(r)).history, f) <==> Owed(a.history, f) {
      OwedAfter(a.history, Wrote(r), f);
    }
  }

  lemma {:induction false} QuietWriteAll(a: Client, out: seq<string>)
    ensures Quiet(a, WriteAll(a, out)) && WriteAll(a, out).list == a.list
    decreases |out|
  {
    if out == [] {
      QuietSame(a, a);
    } else {
      var b := Noted(a, Wrote(Data(out[0])));
      QuietWrite(a, Data(out[0]));
      QuietWriteAll(b, out[1..]);
    }
  }

  /** A bit is cleared only by an idle that asks for it, and that idle writes it. */
  lemma QuietIdle(a: Client, flags: set<nat>)
    ensures Quiet(a, DoIdle(a, flags))
    ensures var b := DoIdle(a, flags);
      forall f :: f in a.pending && f !in b.pending ==>
        f in flags && b.history != [] && Tells(b.history[|b.history| - 1], f)
  {
    var triggered := a.pending * flags;
    if triggered != {} {
      var n := Wrote(Changed(triggered));
      NotedHistory(a.history, n);
      forall f ensures Owed(a.history + [n], f) <==> Owed(a.history, f) && f !in triggered {
        OwedAfter(a.history, n, f);
      }
    } else {
      assert forall f :: f in a.pending && f in flags ==> f in triggered;
    }
  }

  // ---------- What a message can touch ----------

  /** Running a command changes the client's own record (quietly), the player and the event queue, to
      which the player's events are added in order; nothing else. */
  ghost predicate Local<P>(s: Proto<P>, s': Proto<P>, c: ClientId) {
    && c in s'.clients
    && s'.clients == s.clients[c := s'.clients[c]]
    && s' == s.(player := s'.player, clients := s'.clients, eventQueue := s'.eventQueue, pushed := s'.pushed)
    && Quiet(ClientOf(s, c), s'.clients[c])
    && exists events: seq<Event> :: s'.eventQueue == s.eventQueue + events && s'.pushed == s.pushed + events
  }

  lemma LocalWith<P>(s: Proto<P>, c: ClientId, cl: Client)
    requires Quiet(ClientOf(s, c), cl)
    ensures Local(s, With(s, c, cl), c)
  {
    assert s.eventQueue + [] == s.eventQueue && s.pushed + [] == s.pushed;
  }

  lemma LocalTrans<P>(a: Proto<P>, b: Proto<P>, d: Proto<P>, c: ClientId)
    requires Local(a, b, c) && Local(b, d, c)
    ensures Local(a, d, c)
  {
    var e1: seq<Event> :| b.eventQueue == a.eventQueue + e1 && b.pushed == a.pushed + e1;
    var e2: seq<Event> :| d.eventQueue == b.eventQueue + e2 && d.pushed == b.pushed + e2;
    assert d.eventQueue == a.eventQueue + (e1 + e2) && d.pushed == a.pushed + (e1 + e2);
  }

  lemma LocalRefl<P>(s: Proto<P>, c: ClientId)
    requires c in s.clients
    ensures Local(s, s, c)
  {
    QuietSame(s.clients[c], s.clients[c]);
    LocalWith(s, c, s.clients[c]);
    assert With(s, c, s.clients[c]) == s;
  }

  lemma OnPlayerIsLocal<P>(s: Proto<P>, msg: Message, cmd: CommandId, exec: Player<P>)
    ensures Local(s, RunOnPlayer(s, msg, cmd, exec).s, msg.client)
  {
    var e := exec(s.player, cmd, msg.args);
    QuietWriteAll(ClientOf(s, msg.client), e.out);
  }

  lemma PlainIsLocal<P>(s: Proto<P>, msg: Message, cmd: CommandId, exec: Player<P>)
    requires !cmd.CommandListEnd? && msg.client in s.clients
    ensures Local(s, RunPlain(s, msg, cmd, exec).s, msg.client)
  {
    var c := msg.client;
    var cl := ClientOf(s, c);
    LocalRefl(s, c);
    if cmd.CommandListBegin? || cmd.CommandListOkBegin? {
      LocalWith(s, c, cl.(inList := true, verbose := cmd.CommandListOkBegin?));
    } else if cmd.Noidle? {
      LocalWith(s, c, cl.(waiting := {}));
    } else if cmd.Idle? {
      var mask := IdleMask(msg.args, msg.garbage);
      if mask.Asked? {
        QuietIdle(cl, mask.flags);
        LocalWith(s, c, DoIdle(cl, mask.flags));
      }
    } else if !cmd.Other? {
      OnPlayerIsLocal(s, msg, cmd, exec);
    }
  }

  lemma InsertIsLocal<P>(s: Proto<P>, c: ClientId)
    ensures Local(s, With(s, c, ClientOf(s, c)), c)
  {
    QuietSame(ClientOf(s, c), ClientOf(s, c));
    LocalWith(s, c, ClientOf(s, c));
  }

  lemma ListOkIsLocal<P>(s: Proto<P>, c: ClientId)
    ensures Local(s, Write(s, c, ListOk), c)
  {
    QuietWrite(ClientOf(s, c), ListOk);
    LocalWith(s, c, Noted(ClientOf(s, c), Wrote(ListOk)));
  }

  lemma ListedIsLocal<P>(s: Proto<P>, msg: Message, exec: Player<P>)
    requires ClientOf(s, msg.client).list == []
    ensures Local(s, HandleListed(s, msg, exec).s, msg.client)
  {
    var c := msg.client;
    var s0 := With(s, c, ClientOf(s, c));
    InsertIsLocal(s, c);
    if msg.command.Some? && ArgsFit(msg.command.value, msg.args) {
      var cmd := msg.command.value;
      if cmd.CommandListEnd? {
        var s1 := With(s0, c, ClientOf(s0, c).(inList := false));
        LocalWith(s0, c, ClientOf(s0, c).(inList := false));
        LocalTrans(s, s0, s1, c);
        ListOkIsLocal(s1, c);
        LocalTrans(s, s1, Write(s1, c, ListOk), c);
      } else {
        var s1 := RunPlain(s0, msg, cmd, exec).s;
        PlainIsLocal(s0, msg, cmd, exec);
        LocalTrans(s, s0, s1, c);
        ListOkIsLocal(s1, c);
        LocalTrans(s, s1, Write(s1, c, ListOk), c);
      }
    }
  }

  lemma {:induction false} RunAllIsLocal<P>(s: Proto<P>, c: ClientId, msgs: seq<Message>, i: nat, exec: Player<P>)
    requires OwnList(msgs, c) && ClientOf(s, c).list == [] && c in s.clients
    ensures Local(s, RunAll(s, c, msgs, i, exec).s, c)
    ensures ClientOf(RunAll(s, c, msgs, i, exec).s, c).list == []
    decreases |msgs|
  {
    if msgs == [] {
      LocalRefl(s, c);
    } else {
      assert msgs[0] in msgs;
      ListedKeepsListEmpty(s, msgs[0], exec);
      ListedIsLocal(s, msgs[0], exec);
      var r := HandleListed(s, msgs[0], exec);
      if r.Ran? {
        RunAllIsLocal(r.s, c, msgs[1..], i + 1, exec);
        LocalTrans(s, r.s, RunAll(s, c, msgs, i, exec).s, c);
      }
    }
  }

  /** A whole command, `command_list_end` with its list included. */
  lemma CommandIsLocal<P>(s: Proto<P>, msg: Message, cmd: CommandId, exec: Player<P>)
    requires msg.client in s.clients && OwnList(s.clients[msg.client].list, msg.client)
    ensures var s' := RunCommand(s, msg, cmd, exec).s;
      && Local(s, s', msg.client)
      && s'.clients[msg.client].list == if cmd.CommandListEnd? then [] else s.clients[msg.client].list
  {
    var c := msg.client;
    var cl := s.clients[c];
    if cmd.CommandListEnd? {
      var s1 := With(s, c, cl.(inList := false, list := []));
      QuietSame(cl, s1.clients[c]);
      LocalWith(s, c, s1.clients[c]);
      RunAllIsLocal(s1, c, cl.list, 0, exec);
      LocalTrans(s, s1, RunAll(s1, c, cl.list, 0, exec).s, c);
    } else {
      PlainIsLocal(s, msg, cmd, exec);
      PlainKeepsList(s, msg, cmd, exec);
    }
  }
}

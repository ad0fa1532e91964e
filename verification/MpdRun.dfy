/**
 Whole runs of the protocol: the socket thread, the main thread's tick and the
 clients, in any order. A tick is cut into its handled messages and its posts,
 so that every other step may come in between; the receive queue's mutex lets
 fewer orders happen than that.
 */
module MpdRun {
  import opened Common
  import opened MpdState
  import opened MpdHandler
  import opened MpdClientIds

  datatype Step =
    | Push(ev: Event)               // Server::pushEvent
    | HandleNext                    // update: the message at the front of the receive queue
    | PostNext                      // Server::on_tick: the event at the front of the event queue
    | Drain                         // runThread: the send queue
    | Accept(k: nat)                // runThread: a connection, identifier found in round k
    | Disconnect(c: ClientId)       // runThread: EPOLLRDHUP
    | Generate(msgs: seq<Message>)  // runThread: messages made from the buffers
    | HandOff                       // runThread: the batch goes to the receive queue

  // ---------- The socket thread ----------

  /** An event reaches a client: it is told when it waits for it, otherwise the bit is kept. */
  function Notify(cl: Client, f: nat): Client {
    if f in cl.waiting then Noted(Noted(cl, Heard(f)), Wrote(Changed({f})))
    else Noted(cl, Heard(f)).(pending := cl.pending + {f})
  }

  function FanOut<P>(s: Proto<P>, ev: Event, f: nat): Proto<P> {
    s.(clients := map c | c in s.clients :: Notify(s.clients[c], f), drained := s.drained + [ev])
  }

  /** The loop over the send queue; an event without a flag makes the whole thread return, before
      the queue is cleared. */
  function DrainEvents<P>(s: Proto<P>, events: seq<Event>): Proto<P>
    decreases |events|
  {
    if events == [] then s.(sendQueue := [])
    else match FlagOf(events[0])
      case None => s.(running := false)
      case Some(f) => DrainEvents(FanOut(s, events[0], f), events[1..])
  }

  function NewClient<P>(s: Proto<P>): Client {
    Client({}, {}, false, false, [], |s.drained|, [Wrote(Greeting)])
  }

  // ---------- The main thread ----------

  /** `post` takes broadcast events only. */
  function Post<P>(s: Proto<P>, ev: Event, client: ClientId): Proto<P> {
    if client == CLIENT_NONE || client != CLIENT_ALL then s
    else s.(sendQueue := s.sendQueue + [ev])
  }

  function PostAll<P>(s: Proto<P>, events: seq<Event>): Proto<P>
    decreases |events|
  {
    if events == [] then s.(eventQueue := []) else PostAll(Post(s, events[0], CLIENT_ALL), events[1..])
  }

  /** `update`: every message of the receive queue, then the queue is cleared. */
  function Update<P>(s: Proto<P>, msgs: seq<Message>, exec: Player<P>, pooled: bool): Top<P>
    requires WellFormed(s)
    decreases |msgs|
  {
    if msgs == [] then Returned(s.(recvQueue := []))
    else
      HandleServes(s, msgs[0], exec, pooled);
      match Handle(s, msgs[0], exec, pooled)
      case Crashed(s') => Crashed(s')
      case Returned(s') => Update(s'.(handled := s'.handled + [msgs[0]]), msgs[1..], exec, pooled)
  }

  /** `Server::on_tick`: the whole update, then every post. */
  function Tick<P>(s: Proto<P>, exec: Player<P>, pooled: bool): Top<P>
    requires WellFormed(s)
  {
    match Update(s, s.recvQueue, exec, pooled)
    case Crashed(s') => Crashed(s')
    case Returned(s') => Returned(PostAll(s', s'.eventQueue))
  }

  // ---------- Steps and runs ----------

  function HandleFront<P>(s: Proto<P>, exec: Player<P>, pooled: bool): Top<P>
    requires WellFormed(s) && s.recvQueue != []
  {
    var msg := s.recvQueue[0];
    match Handle(s, msg, exec, pooled)
    case Crashed(s') => Crashed(s')
    case Returned(s') => Returned(s'.(handled := s'.handled + [msg], recvQueue := s.recvQueue[1..]))
  }

  function PostFront<P>(s: Proto<P>): Proto<P>
    requires s.eventQueue != []
  {
    Post(s, s.eventQueue[0], CLIENT_ALL).(eventQueue := s.eventQueue[1..])
  }

  predicate Enabled<P>(s: Proto<P>, step: Step) {
    match step
    case Push(_) => true
    case HandleNext => s.recvQueue != []
    case PostNext => s.eventQueue != []
    case Accept(k) => s.running && FirstFree(s.counter, s.clients.Keys, Candidate(s.counter, k), k)
    case _ => s.running
  }

  function Apply<P>(s: Proto<P>, step: Step, exec: Player<P>, pooled: bool): Top<P>
    requires WellFormed(s) && Enabled(s, step)
  {
    match step
    case Push(ev) => Returned(PushAll(s, [ev]))
    case HandleNext => HandleFront(s, exec, pooled)
    case PostNext => Returned(PostFront(s))
    case Drain => Returned(DrainEvents(s, s.sendQueue))
    case Accept(k) =>
      var id := Candidate(s.counter, k);
      Returned(With(s, id, NewClient(s)).(counter := id))
    case Disconnect(c) => Returned(s.(clients := map d | d in s.clients && d != c :: s.clients[d]))
    case Generate(msgs) => Returned(s.(batch := s.batch + msgs, produced := s.produced + msgs))
    case HandOff => Returned(s.(recvQueue := s.recvQueue + s.batch, batch := []))
  }

  // ---------- What every step keeps ----------

  /** The flags of the events, in order. */
  function FlagsOf(events: seq<Event>): seq<nat> {
    if events == [] then []
    else
      var last := FlagOf(events[|events| - 1]);
      FlagsOf(events[..|events| - 1]) + (if last.Some? then [last.value] else [])
  }

  /** Every event drained since the client connected has reached it, in order; the client has been
      told about each, or the event is pending; and what it waits for is not pending. */
  ghost predicate ClientOk(cl: Client, drained: seq<Event>) {
    && IdleOk(cl)
    && cl.since <= |drained|
    && HeardIn(cl.history) == FlagsOf(drained[cl.since..])
  }

  ghost predicate ClientsOk<P>(s: Proto<P>) {
    forall c :: c in s.clients ==> ClientOk(s.clients[c], s.drained)
  }

  /** While the socket thread lives, every event pushed is drained, waiting to be drained, or waiting
      to be posted, and none is overtaken. */
  ghost predicate EventsConserved<P>(s: Proto<P>) {
    s.running ==> s.pushed == s.drained + (s.sendQueue + s.eventQueue)
  }

  /** Every message made is handled, in the receive queue, or in the socket thread's batch, and none is
      overtaken. */
  ghost predicate MessagesConserved<P>(s: Proto<P>) {
    s.produced == s.handled + (s.recvQueue + s.batch)
  }

  ghost predicate Inv<P>(s: Proto<P>) {
    && CoreInv(s)
    && MessagesConserved(s)
    && s.counter <= IDS
  }

  // ---------- Handling one message ----------

  /** What handling a message does to the rest of the protocol. */
  ghost predicate Serves<P>(s: Proto<P>, s': Proto<P>, c: ClientId) {
    && c in s'.clients
    && s'.clients == s.clients[c := s'.clients[c]]
    && s' == s.(player := s'.player, clients := s'.clients, eventQueue := s'.eventQueue, pushed := s'.pushed)
    && (exists events: seq<Event> :: s'.eventQueue == s.eventQueue + events && s'.pushed == s.pushed + events)
    && var a, b := ClientOf(s, c), s'.clients[c];
       && b.since == a.since && HeardIn(b.history) == HeardIn(a.history) && (IdleOk(a) ==> IdleOk(b))
       && OwnList(b.list, c)
  }

  lemma LocalServes<P>(s: Proto<P>, s': Proto<P>, c: ClientId)
    requires Local(s, s', c) && OwnList(s'.clients[c].list, c)
    ensures Serves(s, s', c)
  {
  }

  lemma ServesThenWrites<P>(s: Proto<P>, s': Proto<P>, c: ClientId, r: Reply)
    requires Local(s, s', c) && OwnList(s'.clients[c].list, c) && !r.Changed?
    ensures Serves(s, Write(s', c, r), c)
  {
    QuietWrite(s'.clients[c], r);
    NotedHistory(s'.clients[c].history, Wrote(r));
  }

  lemma HandleServes<P>(s: Proto<P>, msg: Message, exec: Player<P>, pooled: bool)
    requires WellFormed(s)
    ensures OwnList(ClientOf(s, msg.client).list, msg.client)
    ensures Serves(s, Handle(s, msg, exec, pooled).s, msg.client)
    ensures WellFormed(Handle(s, msg, exec, pooled).s)
  {
    var c := msg.client;
    var cl := ClientOf(s, c);
    var s0 := With(s, c, cl);
    InsertIsLocal(s, c);
    if msg.command.None? {
      RefusalServes(s, c, Ack(ACK_ERROR_UNKNOWN, 0, "", "unknown command \"" + msg.line + "\""));
    } else if Queues(cl, msg.command.value, pooled) {
      QueueingServes(s, c, msg);
    } else if !ArgsFit(msg.command.value, msg.args) {
      var name := NameOf(msg.command.value);
      RefusalServes(s, c, Ack(ACK_ERROR_ARG, 0, name, "wrong number of arguments for \"" + name + "\""));
    } else {
      CommandServes(s, msg, msg.command.value, exec);
    }
  }

  lemma RefusalServes<P>(s: Proto<P>, c: ClientId, r: Reply)
    requires OwnList(ClientOf(s, c).list, c) && !r.Changed?
    ensures Serves(s, Write(With(s, c, ClientOf(s, c)), c, r), c)
  {
    InsertIsLocal(s, c);
    ServesThenWrites(s, With(s, c, ClientOf(s, c)), c, r);
  }

  lemma QueueingServes<P>(s: Proto<P>, c: ClientId, msg: Message)
    requires OwnList(ClientOf(s, c).list, c) && msg.client == c
    ensures var cl := ClientOf(s, c); Serves(s, With(With(s, c, cl), c, cl.(list := cl.list + [msg])), c)
  {
    var cl := ClientOf(s, c);
    var s0, longer := With(s, c, cl), cl.(list := cl.list + [msg]);
    InsertIsLocal(s, c);
    LocalWith(s0, c, longer);
    LocalTrans(s, s0, With(s0, c, longer), c);
  }

  lemma CommandServes<P>(s: Proto<P>, msg: Message, cmd: CommandId, exec: Player<P>)
    requires OwnList(ClientOf(s, msg.client).list, msg.client)
    ensures var c := msg.client;
      Serves(s, Answer(RunCommand(With(s, c, ClientOf(s, c)), msg, cmd, exec), c).s, c)
  {
    var c := msg.client;
    var s0 := With(s, c, ClientOf(s, c));
    InsertIsLocal(s, c);
    CommandIsLocal(s0, msg, cmd, exec);
    var r := RunCommand(s0, msg, cmd, exec);
    LocalTrans(s, s0, r.s, c);
    match r
    case Ran(_, silent) => if silent { LocalServes(s, r.s, c); } else { ServesThenWrites(s, r.s, c, Ok); }
    case Raised(_, e) => ServesThenWrites(s, r.s, c, Ack(e.code, 0, e.command, e.text));
    case Foreign(_) => LocalServes(s, r.s, c);
  }

  /** The part of the invariant that handling one message keeps by itself. */
  ghost predicate CoreInv<P>(s: Proto<P>) {
    WellFormed(s) && ClientsOk(s) && EventsConserved(s)
  }

  lemma PushedBehind(drained: seq<Event>, sent: seq<Event>, queued: seq<Event>, more: seq<Event>)
    ensures drained + (sent + queued) + more == drained + (sent + (queued + more))
  {
  }

  lemma ServesKeepsCore<P>(s: Proto<P>, s': Proto<P>, c: ClientId)
    requires CoreInv(s) && Serves(s, s', c)
    ensures CoreInv(s')
  {
    if c !in s.clients {
      NewClientOk(ClientOf(s, c), s.drained);
    }
    var events: seq<Event> :| s'.eventQueue == s.eventQueue + events && s'.pushed == s.pushed + events;
    PushedBehind(s.drained, s.sendQueue, s.eventQueue, events);
  }

  /** A client that has just sprung into being owes nothing. */
  lemma NewClientOk(cl: Client, drained: seq<Event>)
    requires cl.waiting == {} && cl.pending == {} && cl.since == |drained|
    ensures cl.history == [] ==> ClientOk(cl, drained)
    ensures cl.history == [Wrote(Greeting)] ==> ClientOk(cl, drained)
  {
    assert drained[cl.since..] == [];
    if cl.history == [Wrote(Greeting)] {
      assert cl.history[..0] == [];
    }
  }

  lemma HandleFrontKeepsInv<P>(s: Proto<P>, exec: Player<P>, pooled: bool)
    requires Inv(s) && s.recvQueue != [] && HandleFront(s, exec, pooled).Returned?
    ensures Inv(HandleFront(s, exec, pooled).s)
  {
    var msg := s.recvQueue[0];
    HandleServes(s, msg, exec, pooled);
    ServesKeepsCore(s, Handle(s, msg, exec, pooled).s, msg.client);
    OneMoreHandled(s.handled, s.recvQueue, s.batch);
  }

  lemma OneMoreHandled(done: seq<Message>, queued: seq<Message>, batch: seq<Message>)
    requires queued != []
    ensures (done + [queued[0]]) + (queued[1..] + batch) == done + (queued + batch)
  {
  }

  lemma {:induction false} PostAllPosts<P>(s: Proto<P>, events: seq<Event>)
    ensures PostAll(s, events) == s.(sendQueue := s.sendQueue + events, eventQueue := [])
    decreases |events|
  {
    if events == [] {
      assert s.sendQueue + [] == s.sendQueue;
    } else {
      PostAllPosts(Post(s, events[0], CLIENT_ALL), events[1..]);
      assert s.sendQueue + [events[0]] + events[1..] == s.sendQueue + events;
    }
  }

  lemma HeardThen(h: seq<Note>, f: nat)
    ensures forall g :: Owed(h + [Heard(f)], g) <==> g == f || Owed(h, g)
    ensures HeardIn(h + [Heard(f)]) == HeardIn(h) + [f]
  {
    NotedHistory(h, Heard(f));
    forall g ensures Owed(h + [Heard(f)], g) <==> g == f || Owed(h, g) { OwedAfter(h, Heard(f), g); }
  }

  lemma HeardThenTold(h: seq<Note>, f: nat)
    ensures var h' := h + [Heard(f)] + [Wrote(Changed({f}))];
      && (forall g :: Owed(h', g) <==> g != f && Owed(h, g))
      && HeardIn(h') == HeardIn(h) + [f]
  {
    var mid := h + [Heard(f)];
    HeardThen(h, f);
    NotedHistory(mid, Wrote(Changed({f})));
    forall g ensures Owed(mid + [Wrote(Changed({f}))], g) <==> g != f && Owed(h, g) {
      OwedAfter(mid, Wrote(Changed({f})), g);
    }
  }

  lemma NotifyKeepsIdle(cl: Client, f: nat)
    requires IdleOk(cl)
    ensures IdleOk(Notify(cl, f))
  {
    HeardThen(cl.history, f);
    HeardThenTold(cl.history, f);
  }

  lemma FlagsOfAppend(events: seq<Event>, ev: Event, f: nat)
    requires FlagOf(ev) == Some(f)
    ensures FlagsOf(events + [ev]) == FlagsOf(events) + [f]
  {
    assert (events + [ev])[..|events|] == events;
  }

  lemma NotifyIsHeard(cl: Client, f: nat)
    ensures HeardIn(Notify(cl, f).history) == HeardIn(cl.history) + [f] && Notify(cl, f).since == cl.since
  {
    HeardThen(cl.history, f);
    HeardThenTold(cl.history, f);
  }

  lemma DrainedSince(drained: seq<Event>, since: nat, ev: Event, f: nat)
    requires since <= |drained| && FlagOf(ev) == Some(f)
    ensures FlagsOf((drained + [ev])[since..]) == FlagsOf(drained[since..]) + [f]
  {
    assert (drained + [ev])[since..] == drained[since..] + [ev];
    FlagsOfAppend(drained[since..], ev, f);
  }

  lemma NotifyKeepsOk(cl: Client, f: nat, drained: seq<Event>, ev: Event)
    requires ClientOk(cl, drained) && FlagOf(ev) == Some(f)
    ensures ClientOk(Notify(cl, f), drained + [ev])
  {
    NotifyKeepsIdle(cl, f);
    NotifyIsHeard(cl, f);
    DrainedSince(drained, cl.since, ev, f);
  }

  lemma FanOutKeeps<P>(s: Proto<P>, ev: Event, f: nat)
    requires WellFormed(s) && ClientsOk(s) && FlagOf(ev) == Some(f)
    ensures WellFormed(FanOut(s, ev, f)) && ClientsOk(FanOut(s, ev, f))
  {
    var s' := FanOut(s, ev, f);
    forall c | c in s'.clients ensures ClientOk(s'.clients[c], s'.drained) && OwnList(s'.clients[c].list, c) {
      NotifyKeepsOk(s.clients[c], f, s.drained, ev);
    }
  }

  lemma {:induction false} DrainKeepsInv<P>(s: Proto<P>, events: seq<Event>)
    requires WellFormed(s) && ClientsOk(s)
    requires s.running ==> s.pushed == s.drained + (events + s.eventQueue)
    ensures var s' := DrainEvents(s, events);
      && WellFormed(s') && ClientsOk(s') && EventsConserved(s')
      && s' == s.(clients := s'.clients, drained := s'.drained, sendQueue := s'.sendQueue, running := s'.running)
    decreases |events|
  {
    if events == [] {
      assert s.drained + ([] + s.eventQueue) == s.drained + (events + s.eventQueue);
    } else if FlagOf(events[0]).Some? {
      var f := FlagOf(events[0]).value;
      FanOutKeeps(s, events[0], f);
      assert s.drained + (events + s.eventQueue) == (s.drained + [events[0]]) + (events[1..] + s.eventQueue);
      DrainKeepsInv(FanOut(s, events[0], f), events[1..]);
    }
  }

  lemma PostFrontKeepsInv<P>(s: Proto<P>)
    requires Inv(s) && s.eventQueue != []
    ensures Inv(PostFront(s))
  {
    assert s.sendQueue + s.eventQueue == (s.sendQueue + [s.eventQueue[0]]) + s.eventQueue[1..];
  }

  lemma OtherStepKeepsInv<P>(s: Proto<P>, step: Step, exec: Player<P>, pooled: bool)
    requires Inv(s) && Enabled(s, step) && !step.HandleNext?
    ensures Apply(s, step, exec, pooled).Returned? && Inv(Apply(s, step, exec, pooled).s)
  {
    match step
    case Push(ev) =>
      PushedBehind(s.drained, s.sendQueue, s.eventQueue, [ev]);
    case PostNext => PostFrontKeepsInv(s);
    case Drain => DrainKeepsInv(s, s.sendQueue);
    case Accept(k) => NewClientOk(NewClient(s), s.drained);
    case Disconnect(c) =>
    case Generate(msgs) =>
      assert s.handled + (s.recvQueue + s.batch) + msgs == s.handled + (s.recvQueue + (s.batch + msgs));
    case HandOff =>
      assert s.recvQueue + s.batch == (s.recvQueue + s.batch) + [];
  }

  // ---------- Runs ----------

  /** A legal interleaving that no handler crashes. */
  predicate Legal<P>(s: Proto<P>, run: seq<Step>, exec: Player<P>, pooled: bool)
    requires Inv(s)
    decreases |run|
  {
    run == [] ||
    (Enabled(s, run[0]) && Apply(s, run[0], exec, pooled).Returned? &&
     (StepKeepsInv(s, run[0], exec, pooled); Legal(Apply(s, run[0], exec, pooled).s, run[1..], exec, pooled)))
  }

  function After<P>(s: Proto<P>, run: seq<Step>, exec: Player<P>, pooled: bool): Proto<P>
    requires Inv(s) && Legal(s, run, exec, pooled)
    decreases |run|
  {
    if run == [] then s
    else
      StepKeepsInv(s, run[0], exec, pooled);
      After(Apply(s, run[0], exec, pooled).s, run[1..], exec, pooled)
  }

  lemma StepKeepsInv<P>(s: Proto<P>, step: Step, exec: Player<P>, pooled: bool)
    requires Inv(s) && Enabled(s, step) && Apply(s, step, exec, pooled).Returned?
    ensures Inv(Apply(s, step, exec, pooled).s)
  {
    if step.HandleNext? {
      HandleFrontKeepsInv(s, exec, pooled);
    } else {
      OtherStepKeepsInv(s, step, exec, pooled);
    }
  }

  function Start<P>(player: P): (s: Proto<P>)
    ensures Inv(s)
  {
    Proto(player, map[], CLIENT_NONE, [], [], [], [], true, [], [], [], [])
  }

  /** Over every run from the start, whatever the player does. While the socket thread lives, drained,
      queued and unposted events are together the events pushed, in order. Every client has been
      reached by every event drained since it connected; an event it has not been told about is
      pending, a pending bit is such an event, and nothing it waits for is pending. Handled, received
      and batched messages are together the messages made, in order. */
  lemma {:induction false} NothingIsLost<P>(s: Proto<P>, run: seq<Step>, exec: Player<P>, pooled: bool)
    requires Inv(s) && Legal(s, run, exec, pooled)
    ensures Inv(After(s, run, exec, pooled))
    decreases |run|
  {
    if run != [] {
      StepKeepsInv(s, run[0], exec, pooled);
      NothingIsLost(Apply(s, run[0], exec, pooled).s, run[1..], exec, pooled);
    }
  }

  /** A client that waits for a kind of event has been told of every such event that reached it. */
  lemma IdleClientIsToldEverything<P>(
      player: P, run: seq<Step>, exec: Player<P>, pooled: bool, c: ClientId, f: nat, i: nat)
    requires Legal(Start(player), run, exec, pooled)
    requires var s := After(Start(player), run, exec, pooled);
      c in s.clients && f in s.clients[c].waiting && i < |s.clients[c].history| && s.clients[c].history[i] == Heard(f)
    ensures ToldAfter(After(Start(player), run, exec, pooled).clients[c].history, i, f)
  {
    NothingIsLost(Start(player), run, exec, pooled);
    var cl := After(Start(player), run, exec, pooled).clients[c];
    assert f !in cl.pending && !Owed(cl.history, f);
  }

  // ---------- A tick is a run of its steps ----------

  lemma {:induction false} RunThen<P>(s: Proto<P>, a: seq<Step>, b: seq<Step>, exec: Player<P>, pooled: bool)
    requires Inv(s)
    ensures Legal(s, a + b, exec, pooled) <==>
      Legal(s, a, exec, pooled) &&
      (NothingIsLost(s, a, exec, pooled); Legal(After(s, a, exec, pooled), b, exec, pooled))
    ensures Legal(s, a + b, exec, pooled) ==>
      After(s, a + b, exec, pooled) ==
      (NothingIsLost(s, a, exec, pooled); After(After(s, a, exec, pooled), b, exec, pooled))
    decreases |a|
  {
    if a == [] {
      assert a + b == b;
    } else {
      assert (a + b)[0] == a[0] && (a + b)[1..] == a[1..] + b;
      if Enabled(s, a[0]) && Apply(s, a[0], exec, pooled).Returned? {
        StepKeepsInv(s, a[0], exec, pooled);
        RunThen(Apply(s, a[0], exec, pooled).s, a[1..], b, exec, pooled);
      }
    }
  }

  function Requeued<P>(s: Proto<P>, q: seq<Message>): Proto<P> { s.(recvQueue := q) }

  lemma QueueWith<P>(s: Proto<P>, c: ClientId, cl: Client, q: seq<Message>)
    ensures With(Requeued(s, q), c, cl) == Requeued(With(s, c, cl), q)
  {
  }

  lemma QueueOnPlayer<P>(s: Proto<P>, msg: Message, cmd: CommandId, exec: Player<P>, q: seq<Message>)
    ensures var r := RunOnPlayer(s, msg, cmd, exec);
      RunOnPlayer(Requeued(s, q), msg, cmd, exec) == r.(s := Requeued(r.s, q))
  {
    QueueWith(s, msg.client, WriteAll(ClientOf(s, msg.client), exec(s.player, cmd, msg.args).out), q);
  }

  lemma QueuePlain<P>(s: Proto<P>, msg: Message, cmd: CommandId, exec: Player<P>, q: seq<Message>)
    requires !cmd.CommandListEnd?
    ensures var r := RunPlain(s, msg, cmd, exec);
      RunPlain(Requeued(s, q), msg, cmd, exec) == r.(s := Requeued(r.s, q))
  {
    if RunsOnPlayer(cmd) {
      QueueOnPlayer(s, msg, cmd, exec, q);
    }
  }

  lemma QueueListed<P>(s: Proto<P>, msg: Message, exec: Player<P>, q: seq<Message>)
    requires ClientOf(s, msg.client).list == []
    ensures var r := HandleListed(s, msg, exec);
      HandleListed(Requeued(s, q), msg, exec) == r.(s := Requeued(r.s, q))
  {
    var s0 := With(s, msg.client, ClientOf(s, msg.client));
    assert With(Requeued(s, q), msg.client, ClientOf(s, msg.client)) == Requeued(s0, q);
    if msg.command.Some? && !msg.command.value.CommandListEnd? {
      QueuePlain(s0, msg, msg.command.value, exec, q);
    }
  }

  lemma {:induction false} QueueAll<P>(
      s: Proto<P>, c: ClientId, msgs: seq<Message>, i: nat, exec: Player<P>, q: seq<Message>)
    requires OwnList(msgs, c) && ClientOf(s, c).list == []
    ensures var r := RunAll(s, c, msgs, i, exec);
      RunAll(Requeued(s, q), c, msgs, i, exec) == r.(s := Requeued(r.s, q))
    decreases |msgs|
  {
    if msgs != [] {
      assert msgs[0] in msgs;
      QueueListed(s, msgs[0], exec, q);
      ListedKeepsListEmpty(s, msgs[0], exec);
      var r := HandleListed(s, msgs[0], exec);
      if r.Ran? {
        QueueAll(r.s, c, msgs[1..], i + 1, exec, q);
      }
    }
  }

  lemma QueueCommand<P>(s: Proto<P>, msg: Message, cmd: CommandId, exec: Player<P>, q: seq<Message>)
    requires OwnList(ClientOf(s, msg.client).list, msg.client)
    ensures var r := RunCommand(s, msg, cmd, exec);
      RunCommand(Requeued(s, q), msg, cmd, exec) == r.(s := Requeued(r.s, q))
  {
    if cmd.CommandListEnd? {
      var cl := ClientOf(s, msg.client);
      QueueAll(With(s, msg.client, cl.(inList := false, list := [])), msg.client, cl.list, 0, exec, q);
    } else {
      QueuePlain(s, msg, cmd, exec, q);
    }
  }

  /** No handler looks at the receive queue. */
  lemma QueueHandle<P>(s: Proto<P>, msg: Message, exec: Player<P>, pooled: bool, q: seq<Message>)
    requires OwnList(ClientOf(s, msg.client).list, msg.client)
    ensures var r := Handle(s, msg, exec, pooled);
      Handle(Requeued(s, q), msg, exec, pooled) == r.(s := Requeued(r.s, q))
  {
    if msg.command.Some? {
      QueueCommand(With(s, msg.client, ClientOf(s, msg.client)), msg, msg.command.value, exec, q);
    }
  }

  function Times(step: Step, n: nat): seq<Step> {
    if n == 0 then [] else [step] + Times(step, n - 1)
  }

  lemma FirstStep<P>(s: Proto<P>, step: Step, rest: seq<Step>, exec: Player<P>, pooled: bool)
    requires Inv(s)
    ensures !Enabled(s, step) || Apply(s, step, exec, pooled).Crashed? ==> !Legal(s, [step] + rest, exec, pooled)
    ensures Enabled(s, step) && Apply(s, step, exec, pooled).Returned? ==>
      var s' := Apply(s, step, exec, pooled).s;
      && Inv(s')
      && (Legal(s, [step] + rest, exec, pooled) <==> Legal(s', rest, exec, pooled))
      && (Legal(s', rest, exec, pooled) ==> After(s, [step] + rest, exec, pooled) == After(s', rest, exec, pooled))
  {
    var run := [step] + rest;
    assert run[0] == step && run[1..] == rest;
    if Enabled(s, step) && Apply(s, step, exec, pooled).Returned? {
      StepKeepsInv(s, step, exec, pooled);
    }
  }

  lemma FrontOfQueue<P>(s: Proto<P>, msgs: seq<Message>, exec: Player<P>, pooled: bool)
    requires WellFormed(s) && msgs != []
    ensures WellFormed(Requeued(s, msgs)) && OwnList(ClientOf(s, msgs[0].client).list, msgs[0].client)
    ensures Apply(Requeued(s, msgs), HandleNext, exec, pooled) == match Handle(s, msgs[0], exec, pooled)
      case Crashed(t) => Crashed(Requeued(t, msgs))
      case Returned(t) => Returned(Requeued(t.(handled := t.handled + [msgs[0]]), msgs[1..]))
  {
    QueueHandle(s, msgs[0], exec, pooled, msgs);
  }

  lemma UpdateTurn<P>(s: Proto<P>, msgs: seq<Message>, exec: Player<P>, pooled: bool)
    requires WellFormed(s) && msgs != []
    ensures OwnList(ClientOf(s, msgs[0].client).list, msgs[0].client)
    ensures match Handle(s, msgs[0], exec, pooled)
      case Crashed(_) => Update(s, msgs, exec, pooled).Crashed?
      case Returned(t) =>
        var t' := t.(handled := t.handled + [msgs[0]]);
        WellFormed(t') && Update(s, msgs, exec, pooled) == Update(t', msgs[1..], exec, pooled)
  {
    HandleServes(s, msgs[0], exec, pooled);
  }

  /** The run `run` from `s` is what `top` says: legal if it returned, and then it ends where `top` does. */
  ghost predicate RunsTo<P>(s: Proto<P>, run: seq<Step>, top: Top<P>, exec: Player<P>, pooled: bool)
    requires Inv(s)
  {
    && (top.Returned? <==> Legal(s, run, exec, pooled))
    && (Legal(s, run, exec, pooled) ==> After(s, run, exec, pooled) == top.s)
  }

  /** The update is one handled message after the other. */
  lemma {:induction false} UpdateIsSteps<P>(s: Proto<P>, msgs: seq<Message>, exec: Player<P>, pooled: bool)
    requires WellFormed(s) && Inv(Requeued(s, msgs))
    ensures RunsTo(Requeued(s, msgs), Times(HandleNext, |msgs|), Update(s, msgs, exec, pooled), exec, pooled)
    decreases |msgs|
  {
    if msgs != [] {
      var rest := Times(HandleNext, |msgs[1..]|);
      UpdateTurn(s, msgs, exec, pooled);
      FrontOfQueue(s, msgs, exec, pooled);
      FirstStep(Requeued(s, msgs), HandleNext, rest, exec, pooled);
      assert Times(HandleNext, |msgs|) == [HandleNext] + rest;
      var r := Handle(s, msgs[0], exec, pooled);
      if r.Returned? {
        UpdateIsSteps(r.s.(handled := r.s.handled + [msgs[0]]), msgs[1..], exec, pooled);
      }
    }
  }

  lemma {:induction false} PostingIsSteps<P>(s: Proto<P>, exec: Player<P>, pooled: bool)
    requires Inv(s)
    ensures var run := Times(PostNext, |s.eventQueue|);
      Legal(s, run, exec, pooled) && After(s, run, exec, pooled) == PostAll(s, s.eventQueue)
    decreases |s.eventQueue|
  {
    PostAllPosts(s, s.eventQueue);
    if s.eventQueue == [] {
      assert s.sendQueue + [] == s.sendQueue;
    } else {
      var t := PostFront(s);
      PostFrontKeepsInv(s);
      PostingIsSteps(t, exec, pooled);
      PostAllPosts(t, t.eventQueue);
      assert Times(PostNext, |s.eventQueue|)[1..] == Times(PostNext, |t.eventQueue|);
      assert t.sendQueue + t.eventQueue == s.sendQueue + s.eventQueue;
    }
  }

  /** A whole tick is the run that handles every received message and then posts every event; it crashes
      exactly when that run does. So whatever holds over every run holds with whole ticks in it. */
  lemma TickIsItsSteps<P>(s: Proto<P>, exec: Player<P>, pooled: bool)
    requires Inv(s)
    ensures Tick(s, exec, pooled).Returned? <==> Legal(s, Times(HandleNext, |s.recvQueue|), exec, pooled)
    ensures Tick(s, exec, pooled).Returned? ==>
      var run := Times(HandleNext, |s.recvQueue|) +
                 Times(PostNext, |Update(s, s.recvQueue, exec, pooled).s.eventQueue|);
      Legal(s, run, exec, pooled) && After(s, run, exec, pooled) == Tick(s, exec, pooled).s
  {
    assert Requeued(s, s.recvQueue) == s;
    UpdateIsSteps(s, s.recvQueue, exec, pooled);
    if Tick(s, exec, pooled).Returned? {
      var handling := Times(HandleNext, |s.recvQueue|);
      var u := After(s, handling, exec, pooled);
      NothingIsLost(s, handling, exec, pooled);
      PostingIsSteps(u, exec, pooled);
      RunThen(s, handling, Times(PostNext, |u.eventQueue|), exec, pooled);
    }
  }

  // ---------- One client's commands ----------

  function Of(c: ClientId, msgs: seq<Message>): seq<Message> {
    if msgs == [] then []
    else if msgs[0].client == c then [msgs[0]] + Of(c, msgs[1..])
    else Of(c, msgs[1..])
  }

  lemma {:induction false} OfConcat(c: ClientId, a: seq<Message>, b: seq<Message>)
    ensures Of(c, a + b) == Of(c, a) + Of(c, b)
  {
    if a == [] {
      assert a + b == b;
    } else {
      assert (a + b)[1..] == a[1..] + b;
      OfConcat(c, a[1..], b);
      assert [a[0]] + (Of(c, a[1..]) + Of(c, b)) == ([a[0]] + Of(c, a[1..])) + Of(c, b);
    }
  }

  /** Each client's commands are handled once and in the order they were made. */
  lemma EachClientInOrder<P>(player: P, run: seq<Step>, exec: Player<P>, pooled: bool, c: ClientId)
    requires Legal(Start(player), run, exec, pooled)
    ensures var s := After(Start(player), run, exec, pooled);
      Of(c, s.produced) == Of(c, s.handled) + (Of(c, s.recvQueue) + Of(c, s.batch))
  {
    NothingIsLost(Start(player), run, exec, pooled);
    var s := After(Start(player), run, exec, pooled);
    OfConcat(c, s.handled, s.recvQueue + s.batch);
    OfConcat(c, s.recvQueue, s.batch);
  }

  // ---------- When the socket thread dies ----------

  /** Draining ends the socket thread exactly when some event in the send queue has no idle flag. */
  lemma {:induction false} DrainSurvivesExactlyWhen<P>(s: Proto<P>, events: seq<Event>)
    requires s.running
    ensures DrainEvents(s, events).running <==> forall ev :: ev in events ==> FlagOf(ev).Some?
    decreases |events|
  {
    if events != [] && FlagOf(events[0]).Some? {
      DrainSurvivesExactlyWhen(FanOut(s, events[0], FlagOf(events[0]).value), events[1..]);
      assert forall ev :: ev in events <==> ev == events[0] || ev in events[1..];
    } else if events != [] {
      assert events[0] in events;
    }
  }

  /** Every event has an idle flag. */
  predicate AllFlagged(events: seq<Event>) { forall ev :: ev in events ==> FlagOf(ev).Some? }

  lemma StepOnlyPushes<P>(s: Proto<P>, step: Step, exec: Player<P>, pooled: bool)
    requires Inv(s) && Enabled(s, step) && Apply(s, step, exec, pooled).Returned?
    requires AllFlagged(Apply(s, step, exec, pooled).s.pushed)
    ensures AllFlagged(s.pushed)
  {
    if step.HandleNext? {
      HandleServes(s, s.recvQueue[0], exec, pooled);
      var events: seq<Event> :| Handle(s, s.recvQueue[0], exec, pooled).s.pushed == s.pushed + events;
    } else if step.Drain? {
      DrainKeepsInv(s, s.sendQueue);
    }
  }

  lemma StepLives<P>(s: Proto<P>, step: Step, exec: Player<P>, pooled: bool)
    requires Inv(s) && s.running && Enabled(s, step) && Apply(s, step, exec, pooled).Returned?
    requires AllFlagged(s.pushed)
    ensures Apply(s, step, exec, pooled).s.running
  {
    if step.HandleNext? {
      HandleServes(s, s.recvQueue[0], exec, pooled);
    } else if step.Drain? {
      DrainSurvivesExactlyWhen(s, s.sendQueue);
      assert forall ev :: ev in s.sendQueue ==> ev in s.pushed;
    }
  }

  lemma {:induction false} RunLives<P>(s: Proto<P>, run: seq<Step>, exec: Player<P>, pooled: bool)
    requires Inv(s) && Legal(s, run, exec, pooled) && AllFlagged(After(s, run, exec, pooled).pushed)
    ensures AllFlagged(s.pushed) && (s.running ==> After(s, run, exec, pooled).running)
    decreases |run|
  {
    if run != [] {
      StepKeepsInv(s, run[0], exec, pooled);
      RunLives(Apply(s, run[0], exec, pooled).s, run[1..], exec, pooled);
      StepOnlyPushes(s, run[0], exec, pooled);
      if s.running {
        StepLives(s, run[0], exec, pooled);
      }
    }
  }

  /** Over every run from the start: if the socket thread has returned, some event without an idle flag
      has been pushed. */
  lemma ThreadDiesOnlyOfAnEvent<P>(player: P, run: seq<Step>, exec: Player<P>, pooled: bool)
    requires Legal(Start(player), run, exec, pooled)
    ensures var s := After(Start(player), run, exec, pooled);
      !s.running ==> exists ev :: ev in s.pushed && FlagOf(ev).None?
  {
    if AllFlagged(After(Start(player), run, exec, pooled).pushed) {
      RunLives(Start(player), run, exec, pooled);
    }
  }
}

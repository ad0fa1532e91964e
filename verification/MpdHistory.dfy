/**
 What every client can rely on from one step to the next in
 src/Protocols/MPD.cpp: who is connected, what it was written first, and that
 nothing written is taken back.
 */
module MpdHistory {
  import opened Common
  import opened MpdState
  import opened MpdHandler
  import opened MpdClientIds
  import opened MpdRun
  import C = MpdCommandLists

  // ---------- Who is connected ----------

  lemma {:induction false} DrainKeepsKeys<P>(s: Proto<P>, events: seq<Event>)
    ensures DrainEvents(s, events).clients.Keys == s.clients.Keys
    decreases |events|
  {
    if events != [] && FlagOf(events[0]).Some? {
      var t := FanOut(s, events[0], FlagOf(events[0]).value);
      assert t.clients.Keys == s.clients.Keys;
      DrainKeepsKeys(t, events[1..]);
    }
  }

  /** Accepting adds the new identifier, disconnecting takes that client out, a message brings its own client
      into being if it was gone, and no other step connects or disconnects anybody. */
  lemma ConnectedAfter<P>(s: Proto<P>, step: Step, exec: Player<P>, pooled: bool)
    requires Inv(s) && Enabled(s, step) && Apply(s, step, exec, pooled).Returned?
    ensures Apply(s, step, exec, pooled).s.clients.Keys ==
      match step
      case Accept(k) => s.clients.Keys + {Candidate(s.counter, k)}
      case Disconnect(c) => s.clients.Keys - {c}
      case HandleNext => s.clients.Keys + {s.recvQueue[0].client}
      case _ => s.clients.Keys
  {
    if step.HandleNext? {
      HandleServes(s, s.recvQueue[0], exec, pooled);
    } else if step.Drain? {
      DrainKeepsKeys(s, s.sendQueue);
    }
  }

  /** The counter is the identifier given out last, and only accepting moves it. */
  lemma CounterAfter<P>(s: Proto<P>, step: Step, exec: Player<P>, pooled: bool)
    requires Inv(s) && Enabled(s, step) && Apply(s, step, exec, pooled).Returned?
    ensures Apply(s, step, exec, pooled).s.counter == match step
      case Accept(k) => Candidate(s.counter, k)
      case _ => s.counter
  {
    if step.HandleNext? {
      HandleServes(s, s.recvQueue[0], exec, pooled);
    } else if step.Drain? {
      DrainKeepsInv(s, s.sendQueue);
    }
  }

  /** At the start nobody is connected, nothing waits anywhere, and the first connection gets identifier 1. */
  lemma StartIsEmpty<P>(player: P)
    ensures var s := Start(player);
      && s.player == player && s.running && s.clients == map[]
      && s.eventQueue == [] && s.sendQueue == [] && s.batch == [] && s.recvQueue == []
      && Enabled(s, Accept(0)) && Candidate(s.counter, 0) == 1
  {
  }

  /** Posting queues what goes to everybody, and drops everything else. */
  lemma OnlyBroadcastsArePosted<P>(s: Proto<P>, ev: Event, client: ClientId)
    ensures Post(s, ev, client) == if client == 0xFFFF_FFFF then s.(sendQueue := s.sendQueue + [ev]) else s
  {
  }

  lemma {:induction false} FirstFreeExists(counter: nat, live: set<nat>, k: nat, found: nat)
    requires k <= found && Candidate(counter, found) !in live
    requires forall j: nat :: j < k ==> Candidate(counter, j) in live
    ensures exists n: nat :: FirstFree(counter, live, Candidate(counter, n), n)
    decreases found - k
  {
    if Candidate(counter, k) !in live {
      assert FirstFree(counter, live, Candidate(counter, k), k);
    } else {
      FirstFreeExists(counter, live, k + 1, found);
    }
  }

  /** A connection can be accepted exactly while the thread runs and some identifier is free. */
  lemma AcceptPossibleExactlyWhen<P>(s: Proto<P>)
    ensures (exists k: nat :: Enabled(s, Accept(k))) <==>
      s.running && exists id :: 1 <= id <= IDS && id !in s.clients.Keys
  {
    SearchEndsExactlyWhen(s.counter, s.clients.Keys);
    if k: nat :| Enabled(s, Accept(k)) {
      assert Candidate(s.counter, k) !in s.clients.Keys;
    }
    if s.running && exists k: nat :: Candidate(s.counter, k) !in s.clients.Keys {
      var found: nat :| Candidate(s.counter, found) !in s.clients.Keys;
      FirstFreeExists(s.counter, s.clients.Keys, 0, found);
      var k: nat :| FirstFree(s.counter, s.clients.Keys, Candidate(s.counter, k), k);
      assert Enabled(s, Accept(k));
    }
  }

  /** A message of a client that has gone is handled as if a client without any past had sent it. */
  lemma GoneClientStartsAnew<P>(s: Proto<P>, msg: Message, exec: Player<P>, pooled: bool)
    requires msg.client !in s.clients
    ensures var t := s.(clients := s.clients[msg.client := Client({}, {}, false, false, [], |s.drained|, [])]);
      && OwnList(ClientOf(s, msg.client).list, msg.client) && OwnList(ClientOf(t, msg.client).list, msg.client)
      && Handle(s, msg, exec, pooled) == Handle(t, msg, exec, pooled)
  {
    var c := msg.client;
    var cl := Client({}, {}, false, false, [], |s.drained|, []);
    var t := s.(clients := s.clients[c := cl]);
    assert With(t, c, cl) == With(s, c, cl);
  }

  /** The identifier a connection gets is the next free one above the counter, or, if there is none up to the
      last, the lowest free one. */
  lemma FreshIsNextFree(counter: nat, live: set<nat>, id: nat, k: nat)
    requires counter <= IDS && FirstFree(counter, live, id, k)
    ensures id > counter ==> forall x :: counter < x < id ==> x in live
    ensures id <= counter ==>
      (forall x :: counter < x <= IDS ==> x in live) && (forall x :: 1 <= x < id ==> x in live)
  {
    FirstFreeIsEarly(counter, live, id, k);
    forall x | counter < x <= IDS && (id > counter ==> x < id) ensures x in live {
      AboveCounter(counter, id, k, x);
      assert Candidate(counter, x - counter - 1) == x;
    }
    if id <= counter {
      forall x | 1 <= x < id ensures x in live {
        BelowCounter(counter, id, k, x);
        assert Candidate(counter, IDS - counter + x - 1) == x;
      }
    }
  }

  lemma RoundAgain(counter: nat, k: nat)
    requires k >= IDS
    ensures Candidate(counter, k - IDS) == Candidate(counter, k)
  {
  }

  lemma FirstFreeIsEarly(counter: nat, live: set<nat>, id: nat, k: nat)
    requires FirstFree(counter, live, id, k)
    ensures k < IDS
  {
    if k >= IDS {
      RoundAgain(counter, k);
    }
  }

  lemma AboveCounter(counter: nat, id: nat, k: nat, x: nat)
    requires counter <= IDS && k < IDS && id == Candidate(counter, k)
    requires counter < x <= IDS && (id > counter ==> x < id)
    ensures x - counter - 1 < k && Candidate(counter, x - counter - 1) == x
  {
    OnTheCircle(counter, k);
    OnTheCircle(counter, x - counter - 1);
  }

  /** The candidates of one turn, from a counter below the last identifier. */
  lemma OnTheCircle(counter: nat, k: nat)
    requires counter < IDS && k < IDS
    ensures Candidate(counter, k) == if counter + k < IDS then counter + k + 1 else counter + k - IDS + 1
  {
  }

  lemma BelowCounter(counter: nat, id: nat, k: nat, x: nat)
    requires counter <= IDS && k < IDS && id == Candidate(counter, k) && 1 <= x < id <= counter
    ensures IDS - counter + x - 1 < k && Candidate(counter, IDS - counter + x - 1) == x
  {
    if counter == IDS {
      assert Candidate(counter, k) == Candidate(0, k) && Candidate(counter, x - 1) == Candidate(0, x - 1);
      OnTheCircle(0, k);
      OnTheCircle(0, x - 1);
    } else {
      OnTheCircle(counter, k);
      OnTheCircle(counter, IDS - counter + x - 1);
    }
  }

  // ---------- What is written stays ----------

  lemma {:induction false} DrainOnlyAdds<P>(s: Proto<P>, events: seq<Event>, c: ClientId)
    requires c in s.clients
    ensures c in DrainEvents(s, events).clients
    ensures s.clients[c].history <= DrainEvents(s, events).clients[c].history
    decreases |events|
  {
    if events != [] && FlagOf(events[0]).Some? {
      DrainOnlyAdds(FanOut(s, events[0], FlagOf(events[0]).value), events[1..], c);
    }
  }

  lemma StepOnlyAdds<P>(s: Proto<P>, step: Step, c: ClientId, exec: Player<P>, pooled: bool)
    requires Inv(s) && Enabled(s, step) && Apply(s, step, exec, pooled).Returned?
    requires c in s.clients && step != Disconnect(c)
    ensures c in Apply(s, step, exec, pooled).s.clients
    ensures s.clients[c].history <= Apply(s, step, exec, pooled).s.clients[c].history
  {
    if step.HandleNext? {
      HandleServes(s, s.recvQueue[0], exec, pooled);
      C.RepliesAlign(s, s.recvQueue[0], exec, pooled);
    } else if step.Drain? {
      DrainOnlyAdds(s, s.sendQueue, c);
    }
  }

  /** Over every run in which a client stays connected, what was written to it and what reached it is only
      added to. */
  lemma {:induction false} NothingIsTakenBack<P>(
      s: Proto<P>, run: seq<Step>, c: ClientId, exec: Player<P>, pooled: bool)
    requires Inv(s) && Legal(s, run, exec, pooled) && c in s.clients
    requires forall i :: 0 <= i < |run| ==> run[i] != Disconnect(c)
    ensures c in After(s, run, exec, pooled).clients
    ensures s.clients[c].history <= After(s, run, exec, pooled).clients[c].history
    decreases |run|
  {
    if run != [] {
      StepKeepsInv(s, run[0], exec, pooled);
      StepOnlyAdds(s, run[0], c, exec, pooled);
      NothingIsTakenBack(Apply(s, run[0], exec, pooled).s, run[1..], c, exec, pooled);
    }
  }

  /** A connection starts with nothing but the greeting, and whatever follows, the greeting stays the first
      thing the client reads. */
  lemma GreetedFirst<P>(s: Proto<P>, k: nat, run: seq<Step>, exec: Player<P>, pooled: bool)
    requires Inv(s) && Enabled(s, Accept(k)) && Legal(s, [Accept(k)] + run, exec, pooled)
    requires forall i :: 0 <= i < |run| ==> run[i] != Disconnect(Candidate(s.counter, k))
    ensures var c := Candidate(s.counter, k);
      var t := Apply(s, Accept(k), exec, pooled).s;
      && t.clients[c] == Client({}, {}, false, false, [], |s.drained|, [Wrote(Greeting)])
      && var e := After(s, [Accept(k)] + run, exec, pooled);
         c in e.clients && e.clients[c].history != [] && e.clients[c].history[0] == Wrote(Greeting)
  {
    FirstStep(s, Accept(k), run, exec, pooled);
    NothingIsTakenBack(Apply(s, Accept(k), exec, pooled).s, run, Candidate(s.counter, k), exec, pooled);
  }
}

/**
 A command list that never ends. `handleMessage` of src/Protocols/MPD.cpp
 compares a command's name with "command_list_end" by address; where equal
 literals have different addresses, a client that opens a list can never close
 it.
 */
module MpdOpenList {
  import opened Common
  import opened MpdState
  import opened MpdHandler
  import opened MpdRun
  import opened MpdClientIds

  /** The messages with a known command. */
  function Known(msgs: seq<Message>): seq<Message> {
    if msgs == [] then []
    else (if msgs[0].command.Some? then [msgs[0]] else []) + Known(msgs[1..])
  }

  lemma {:induction false} KnownConcat(a: seq<Message>, b: seq<Message>)
    ensures Known(a + b) == Known(a) + Known(b)
  {
    if a == [] {
      assert a + b == b;
    } else {
      KnownConcat(a[1..], b);
      KnownCons(a[0], a[1..]);
      KnownCons(a[0], a[1..] + b);
      assert [a[0]] + a[1..] == a;
      assert [a[0]] + (a[1..] + b) == a + b;
      Regroup(if a[0].command.Some? then [a[0]] else [], Known(a[1..]), Known(b));
    }
  }

  lemma KnownCons(first: Message, rest: seq<Message>)
    ensures Known([first] + rest) == (if first.command.Some? then [first] else []) + Known(rest)
  {
    assert ([first] + rest)[1..] == rest;
  }

  lemma Regroup(a: seq<Message>, b: seq<Message>, c: seq<Message>)
    ensures (a + b) + c == a + (b + c)
  {
  }

  /** A message of a client whose list is open: a known command is queued whatever it is, and neither the
      player nor the events are touched. */
  lemma OpenListQueues<P>(s: Proto<P>, msg: Message, exec: Player<P>)
    requires msg.client in s.clients && s.clients[msg.client].inList
    requires OwnList(s.clients[msg.client].list, msg.client)
    ensures var c, r := msg.client, Handle(s, msg, exec, false);
      && r.Returned? && r.s.player == s.player && r.s.eventQueue == s.eventQueue
      && c in r.s.clients && r.s.clients[c].inList
      && r.s.clients[c].list == s.clients[c].list + Known([msg])
  {
    assert [msg][1..] == [] && s.clients[msg.client].list + [] == s.clients[msg.client].list;
  }

  ghost predicate SameList(a: Client, b: Client) { b.inList == a.inList && b.list == a.list }

  lemma {:induction false} DrainKeepsLists<P>(s: Proto<P>, events: seq<Event>, c: ClientId)
    requires c in s.clients
    ensures c in DrainEvents(s, events).clients && SameList(s.clients[c], DrainEvents(s, events).clients[c])
    decreases |events|
  {
    if events != [] && FlagOf(events[0]).Some? {
      DrainKeepsLists(FanOut(s, events[0], FlagOf(events[0]).value), events[1..], c);
    }
  }

  /** What a step handles for `c`. */
  function HandledNow<P>(s: Proto<P>, step: Step, c: ClientId): seq<Message>
    requires Enabled(s, step)
  {
    if step.HandleNext? then Of(c, [s.recvQueue[0]]) else []
  }

  /** The client's list is open, and has got all known commands of `more` behind what `s` had. */
  ghost predicate StillOpen<P>(s: Proto<P>, s': Proto<P>, c: ClientId, more: seq<Message>)
    requires c in s.clients
  {
    c in s'.clients && s'.clients[c].inList && s'.clients[c].list == s.clients[c].list + Known(more)
  }

  lemma HandlingKeepsOpen<P>(s: Proto<P>, c: ClientId, exec: Player<P>)
    requires Inv(s) && s.recvQueue != [] && c in s.clients && s.clients[c].inList
    requires HandleFront(s, exec, false).Returned?
    ensures StillOpen(s, HandleFront(s, exec, false).s, c, Of(c, [s.recvQueue[0]]))
  {
    var msg := s.recvQueue[0];
    if msg.client == c {
      OpenListQueues(s, msg, exec);
    } else {
      OthersKeepOpen(s, msg, c, exec);
      assert s.clients[c].list + [] == s.clients[c].list;
    }
  }

  lemma OthersKeepOpen<P>(s: Proto<P>, msg: Message, c: ClientId, exec: Player<P>)
    requires WellFormed(s) && c in s.clients && msg.client != c
    ensures OwnList(ClientOf(s, msg.client).list, msg.client)
    ensures var t := Handle(s, msg, exec, false).s; c in t.clients && t.clients[c] == s.clients[c]
  {
    HandleServes(s, msg, exec, false);
  }

  lemma StepKeepsOpen<P>(s: Proto<P>, step: Step, c: ClientId, exec: Player<P>)
    requires Inv(s) && Enabled(s, step) && Apply(s, step, exec, false).Returned?
    requires c in s.clients && s.clients[c].inList && step != Disconnect(c)
    ensures StillOpen(s, Apply(s, step, exec, false).s, c, HandledNow(s, step, c))
  {
    assert s.clients[c].list + [] == s.clients[c].list;
    if step.HandleNext? {
      HandlingKeepsOpen(s, c, exec);
    } else if step.Drain? {
      DrainKeepsLists(s, s.sendQueue, c);
    }
  }

  /** What a run handles for `c`. */
  function HandledFor<P>(s: Proto<P>, run: seq<Step>, c: ClientId, exec: Player<P>): seq<Message>
    requires Inv(s) && Legal(s, run, exec, false)
    decreases |run|
  {
    if run == [] then []
    else
      StepKeepsInv(s, run[0], exec, false);
      HandledNow(s, run[0], c) + HandledFor(Apply(s, run[0], exec, false).s, run[1..], c, exec)
  }

  /** Where the literals differ, over every run in which the client stays connected: an open list stays open,
      every known command handled for the client is queued in order, `command_list_end` too, and none is run. */
  lemma {:induction false} OpenListNeverEnds<P>(s: Proto<P>, run: seq<Step>, c: ClientId, exec: Player<P>)
    requires Inv(s) && Legal(s, run, exec, false) && c in s.clients && s.clients[c].inList
    requires forall i :: 0 <= i < |run| ==> run[i] != Disconnect(c)
    ensures StillOpen(s, After(s, run, exec, false), c, HandledFor(s, run, c, exec))
    decreases |run|
  {
    if run == [] {
      assert s.clients[c].list + [] == s.clients[c].list;
    } else {
      var s' := Apply(s, run[0], exec, false).s;
      StepKeepsInv(s, run[0], exec, false);
      StepKeepsOpen(s, run[0], c, exec);
      OpenListNeverEnds(s', run[1..], c, exec);
      var now, later := HandledNow(s, run[0], c), HandledFor(s', run[1..], c, exec);
      OpenThenOpen(s, s', After(s, run, exec, false), c, now, later);
    }
  }

  lemma OpenThenOpen<P>(s: Proto<P>, t: Proto<P>, u: Proto<P>, c: ClientId, now: seq<Message>, later: seq<Message>)
    requires c in s.clients && StillOpen(s, t, c, now) && StillOpen(t, u, c, later)
    ensures StillOpen(s, u, c, now + later)
  {
    KnownConcat(now, later);
    assert (s.clients[c].list + Known(now)) + Known(later) == s.clients[c].list + (Known(now) + Known(later));
  }
}

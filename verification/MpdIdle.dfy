/**
 What an idle client reads: which subsystems a "changed:" write names, over
 whole runs of the protocol, and what an `idle` with arguments waits for.
 */
module MpdIdle {
  import opened Common
  import opened MpdState
  import opened MpdHandler
  import opened MpdRun

  // ---------- The name in a report ----------

  /** The flags events trigger. */
  const KINDS: set<nat> := {IDLE_PLAYER, IDLE_MIXER, IDLE_PLAYLIST, IDLE_OPTIONS}

  lemma NamedFlags(flags: set<nat>)
    ensures IdleName(flags) != "TODO" <==> exists f :: f in KINDS && flags == {f}
  {
    assert "player" != "TODO" && "mixer" != "TODO" && "playlist" != "TODO" && "options" != "TODO";
    if IdleName(flags) != "TODO" {
      var f := if flags == {IDLE_PLAYER} then IDLE_PLAYER
               else if flags == {IDLE_MIXER} then IDLE_MIXER
               else if flags == {IDLE_PLAYLIST} then IDLE_PLAYLIST
               else IDLE_OPTIONS;
      assert f in KINDS && flags == {f};
    }
  }

  lemma {:induction false} FlagsAreKinds(events: seq<Event>)
    ensures forall f :: f in FlagsOf(events) ==> f in KINDS
    decreases |events|
  {
    if events != [] {
      FlagsAreKinds(events[..|events| - 1]);
    }
  }

  lemma {:induction false} HeardIsHeard(h: seq<Note>, i: nat)
    requires i < |h| && h[i].Heard?
    ensures h[i].flag in HeardIn(h)
    decreases |h|
  {
    if i < |h| - 1 {
      HeardIsHeard(h[..|h| - 1], i);
      assert h[..|h| - 1][i] == h[i];
    }
  }

  /** Whatever is pending for a client is one of the four kinds. */
  lemma PendingAreKinds(cl: Client, drained: seq<Event>)
    requires ClientOk(cl, drained)
    ensures cl.pending <= KINDS
  {
    FlagsAreKinds(drained[cl.since..]);
    forall f | f in cl.pending ensures f in KINDS {
      assert Owed(cl.history, f);
      var i :| 0 <= i < |cl.history| && cl.history[i] == Heard(f) && !ToldAfter(cl.history, i, f);
      HeardIsHeard(cl.history, i);
    }
  }

  lemma OneElement(t: set<nat>)
    ensures |t| == 1 <==> exists f :: t == {f}
  {
    if |t| == 1 {
      var f :| f in t;
      assert |t - {f}| == 0;
      assert t == {f};
    }
  }

  /** An `idle` that finds some of what it asks for pending clears all of that at once and reports it in one
      write. */
  predicate Reports(before: Client, after: Client, flags: set<nat>) {
    && after.pending == before.pending - flags
    && after.history == before.history + [Wrote(Changed(before.pending * flags))]
  }

  lemma ReportNamedOfKinds(cl: Client, flags: set<nat>)
    requires cl.pending <= KINDS && cl.pending * flags != {}
    ensures Reports(cl, DoIdle(cl, flags), flags)
    ensures IdleName(cl.pending * flags) != "TODO" <==> |cl.pending * flags| == 1
  {
    var t := cl.pending * flags;
    NamedFlags(t);
    OneElement(t);
    if |t| == 1 {
      var f :| t == {f};
      assert f in t;
    }
  }

  /** Over every run from the start: the report of an `idle` names what it clears exactly when it clears one
      kind. For two or more it clears them all and says "TODO", which names none. */
  lemma ReportNamedExactlyWhen<P>(
      player: P, run: seq<Step>, exec: Player<P>, pooled: bool, c: ClientId, flags: set<nat>)
    requires Legal(Start(player), run, exec, pooled)
    requires c in After(Start(player), run, exec, pooled).clients
    requires After(Start(player), run, exec, pooled).clients[c].pending * flags != {}
    ensures var cl := After(Start(player), run, exec, pooled).clients[c];
      && Reports(cl, DoIdle(cl, flags), flags)
      && (IdleName(cl.pending * flags) != "TODO" <==> |cl.pending * flags| == 1)
  {
    NothingIsLost(Start(player), run, exec, pooled);
    var s := After(Start(player), run, exec, pooled);
    PendingAreKinds(s.clients[c], s.drained);
    ReportNamedOfKinds(s.clients[c], flags);
  }

  /** A report that is not "TODO" tells the client which bits were cleared: no other set has that name. The
      report of an event to a client that waits for it is always such a report. */
  lemma NamesAreTelling(t: set<nat>, u: set<nat>, ev: Event)
    ensures IdleName(t) != "TODO" && IdleName(u) == IdleName(t) ==> u == t
    ensures FlagOf(ev).Some? ==> IdleName({FlagOf(ev).value}) != "TODO"
  {
    assert "player"[0] == 'p' && "mixer"[0] == 'm' && "playlist"[0] == 'p' && "options"[0] == 'o' && "TODO"[0] == 'T';
    assert |"player"| == 6 && |"playlist"| == 8;
    if FlagOf(ev).Some? {
      var f := FlagOf(ev).value;
      NamedFlags({f});
      assert f in KINDS;
    }
  }

  /** Any two kinds pending at once: an `idle` for both clears both, and the write names neither. */
  lemma TwoPendingAreNamedTodo(cl: Client, flags: set<nat>, f: nat, g: nat)
    requires f != g && f in cl.pending * flags && g in cl.pending * flags
    ensures Reports(cl, DoIdle(cl, flags), flags) && f !in DoIdle(cl, flags).pending && g !in DoIdle(cl, flags).pending
    ensures IdleName(cl.pending * flags) == "TODO"
  {
    NamedFlags(cl.pending * flags);
  }

  // ---------- An answered idle is not closed ----------

  lemma IdleWrites(cl: Client, flags: set<nat>)
    ensures var t := cl.pending * flags;
      && DoIdle(cl, flags).history == cl.history + (if t == {} then [] else [Wrote(Changed(t))])
      && DoIdle(cl, flags).waiting == (if t == {} then flags else {})
      && Closings(DoIdle(cl, flags).history) == Closings(cl.history)
  {
    NotedHistory(cl.history, Wrote(Changed(cl.pending * flags)));
  }

  /** An `idle` writes the report of what is pending and nothing else; finding nothing, it writes nothing and
      the client waits. Either way no closing reply is written, so a report is never followed by its OK. */
  lemma IdleIsNeverClosed<P>(s: Proto<P>, msg: Message, exec: Player<P>, pooled: bool)
    requires OwnList(ClientOf(s, msg.client).list, msg.client) && !ClientOf(s, msg.client).inList
    requires msg.command == Some(Idle) && IdleMask(msg.args, msg.garbage).Asked?
    ensures var cl, r := ClientOf(s, msg.client), Handle(s, msg, exec, pooled);
      var t := cl.pending * IdleMask(msg.args, msg.garbage).flags;
      && r.Returned? && msg.client in r.s.clients
      && var cl' := r.s.clients[msg.client];
         && cl'.history == cl.history + (if t == {} then [] else [Wrote(Changed(t))])
         && cl'.waiting == (if t == {} then IdleMask(msg.args, msg.garbage).flags else {})
         && Closings(cl'.history) == Closings(cl.history)
  {
    IdleWrites(ClientOf(s, msg.client), IdleMask(msg.args, msg.garbage).flags);
    IdleAlone(s, msg, exec, pooled);
  }

  lemma IdleAlone<P>(s: Proto<P>, msg: Message, exec: Player<P>, pooled: bool)
    requires OwnList(ClientOf(s, msg.client).list, msg.client) && !ClientOf(s, msg.client).inList
    requires msg.command == Some(Idle) && IdleMask(msg.args, msg.garbage).Asked?
    ensures var cl := DoIdle(ClientOf(s, msg.client), IdleMask(msg.args, msg.garbage).flags);
      Handle(s, msg, exec, pooled) == Returned(With(s, msg.client, cl))
  {
    var c, cl := msg.client, ClientOf(s, msg.client);
    var s0, idle := With(s, c, cl), DoIdle(cl, IdleMask(msg.args, msg.garbage).flags);
    assert RunPlain(s0, msg, Idle, exec) == Ran(With(s0, c, idle), true);
    WithWith(s, c, cl, idle);
  }

  /** An event a client waits for is reported to it, and the client goes on waiting: nothing is closed, and the
      next such event is reported as well. */
  lemma ReportLeavesWaiting(cl: Client, f: nat)
    requires f in cl.waiting
    ensures var cl' := Notify(cl, f);
      && cl'.waiting == cl.waiting && cl'.pending == cl.pending
      && cl'.history == cl.history + [Heard(f), Wrote(Changed({f}))]
      && Closings(cl'.history) == Closings(cl.history)
  {
    var mid := cl.history + [Heard(f)];
    NotedHistory(cl.history, Heard(f));
    NotedHistory(mid, Wrote(Changed({f})));
    assert mid + [Wrote(Changed({f}))] == cl.history + [Heard(f), Wrote(Changed({f}))];
  }

  // ---------- What an idle waits for ----------

  function BitsOf(args: seq<string>): set<nat> {
    if args == [] then {}
    else (if IdleArgument(args[0]).Some? then {IdleArgument(args[0]).value} else {}) + BitsOf(args[1..])
  }

  lemma {:induction false} MaskAddsBits(args: seq<string>, flags: set<nat>)
    requires MaskOf(args, flags).Asked?
    ensures MaskOf(args, flags).flags == flags + BitsOf(args)
  {
    if args != [] {
      MaskAddsBits(args[1..], flags + {IdleArgument(args[0]).value});
    }
  }

  /** `idle` with arguments waits for exactly what it names if and only if the uninitialised word it
      starts from happens to hold no other bit. */
  lemma IdleWaitsForItsArgumentsExactlyWhen(args: seq<string>, garbage: set<nat>)
    requires args != [] && IdleMask(args, garbage).Asked?
    ensures IdleMask(args, garbage).flags == BitsOf(args) <==> garbage <= BitsOf(args)
  {
    MaskAddsBits(args, garbage);
  }
}

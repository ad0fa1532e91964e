/**
 The socket thread of src/Protocols/MPD.cpp returns for good when it meets an
 event without an idle flag. It survives every run in which no such event is
 pushed, and the player of ActivePlaylist pushes none.
 */
module MpdSurvival {
  import opened Common
  import opened MpdState
  import opened MpdHandler
  import opened MpdRun
  import A = ActivePlaylist
  import C = PlayCycles

  /** Whatever state it is in and whatever it is asked to do, the player pushes events with an idle flag only. */
  ghost predicate FlaggedPlayer<P(!new)>(exec: Player<P>) {
    forall p: P, cmd: CommandId, args: seq<string> :: AllFlagged(exec(p, cmd, args).events)
  }

  // ---------- One message ----------

  lemma PlainFlagged<P(!new)>(s: Proto<P>, msg: Message, cmd: CommandId, exec: Player<P>)
    requires FlaggedPlayer(exec) && AllFlagged(s.pushed) && !cmd.CommandListEnd?
    ensures AllFlagged(RunPlain(s, msg, cmd, exec).s.pushed)
  {
    if RunsOnPlayer(cmd) {
      var events := exec(s.player, cmd, msg.args).events;
      assert AllFlagged(events) && RunOnPlayer(s, msg, cmd, exec).s.pushed == s.pushed + events;
    }
  }

  lemma ListedFlagged<P(!new)>(s: Proto<P>, msg: Message, exec: Player<P>)
    requires FlaggedPlayer(exec) && AllFlagged(s.pushed) && ClientOf(s, msg.client).list == []
    ensures AllFlagged(HandleListed(s, msg, exec).s.pushed)
  {
    if msg.command.Some? && !msg.command.value.CommandListEnd? {
      PlainFlagged(With(s, msg.client, ClientOf(s, msg.client)), msg, msg.command.value, exec);
    }
  }

  lemma {:induction false} ListFlagged<P(!new)>(s: Proto<P>, c: ClientId, msgs: seq<Message>, i: nat, exec: Player<P>)
    requires FlaggedPlayer(exec) && AllFlagged(s.pushed) && OwnList(msgs, c) && ClientOf(s, c).list == []
    ensures AllFlagged(RunAll(s, c, msgs, i, exec).s.pushed)
    decreases |msgs|
  {
    if msgs != [] {
      assert msgs[0] in msgs;
      ListedFlagged(s, msgs[0], exec);
      ListedKeepsListEmpty(s, msgs[0], exec);
      var r := HandleListed(s, msgs[0], exec);
      if r.Ran? {
        ListFlagged(r.s, c, msgs[1..], i + 1, exec);
      }
    }
  }

  lemma HandleFlagged<P(!new)>(s: Proto<P>, msg: Message, exec: Player<P>, pooled: bool)
    requires FlaggedPlayer(exec) && AllFlagged(s.pushed) && OwnList(ClientOf(s, msg.client).list, msg.client)
    ensures AllFlagged(Handle(s, msg, exec, pooled).s.pushed)
  {
    var cl := ClientOf(s, msg.client);
    var s0 := With(s, msg.client, cl);
    if msg.command.Some? && msg.command.value.CommandListEnd? {
      ListFlagged(With(s0, msg.client, cl.(inList := false, list := [])), msg.client, cl.list, 0, exec);
    } else if msg.command.Some? {
      PlainFlagged(s0, msg, msg.command.value, exec);
    }
  }

  // ---------- Runs ----------

  lemma StepFlagged<P(!new)>(s: Proto<P>, step: Step, exec: Player<P>, pooled: bool)
    requires FlaggedPlayer(exec) && AllFlagged(s.pushed)
    requires Inv(s) && Enabled(s, step) && Apply(s, step, exec, pooled).Returned?
    requires step.Push? ==> FlagOf(step.ev).Some?
    ensures AllFlagged(Apply(s, step, exec, pooled).s.pushed)
  {
    if step.HandleNext? {
      HandleServes(s, s.recvQueue[0], exec, pooled);
      HandleFlagged(s, s.recvQueue[0], exec, pooled);
    } else if step.Drain? {
      DrainKeepsInv(s, s.sendQueue);
    }
  }

  lemma {:induction false} RunFlagged<P(!new)>(s: Proto<P>, run: seq<Step>, exec: Player<P>, pooled: bool)
    requires FlaggedPlayer(exec) && AllFlagged(s.pushed) && Inv(s) && Legal(s, run, exec, pooled)
    requires forall i :: 0 <= i < |run| && run[i].Push? ==> FlagOf(run[i].ev).Some?
    ensures AllFlagged(After(s, run, exec, pooled).pushed)
    decreases |run|
  {
    if run != [] {
      StepKeepsInv(s, run[0], exec, pooled);
      StepFlagged(s, run[0], exec, pooled);
      RunFlagged(Apply(s, run[0], exec, pooled).s, run[1..], exec, pooled);
    }
  }

  /** Over every run whose pushes have idle flags, with a player that pushes nothing else: the socket thread
      is alive at the end. */
  lemma ThreadSurvives<P(!new)>(player: P, run: seq<Step>, exec: Player<P>, pooled: bool)
    requires FlaggedPlayer(exec) && Legal(Start(player), run, exec, pooled)
    requires forall i :: 0 <= i < |run| && run[i].Push? ==> FlagOf(run[i].ev).Some?
    ensures After(Start(player), run, exec, pooled).running
  {
    RunFlagged(Start(player), run, exec, pooled);
    RunLives(Start(player), run, exec, pooled);
  }

  // ---------- With the player of ActivePlaylist ----------

  /** What a command does to the player, given as steps of it, with what it writes and how it ends. A step
      without a defined outcome ends in an exception. */
  type Plan = (A.Player, CommandId, seq<string>) -> seq<A.Step>
  type Ends = (A.Player, CommandId, seq<string>) -> (seq<string>, Ending)

  function Told(p: A.Player, p': A.Player): seq<Event> {
    if |p.events| <= |p'.events| then p'.events[|p.events|..] else []
  }

  function Playing(plan: Plan, ends: Ends): Player<A.Player> {
    (p: A.Player, cmd: CommandId, args: seq<string>) =>
      var steps := plan(p, cmd, args);
      if A.Legal(p, steps) then
        var (out, ending) := ends(p, cmd, args);
        Exec(A.After(p, steps), out, Told(p, A.After(p, steps)), ending)
      else Exec(p, [], [], Throws)
  }

  lemma StepsTellFlagged(p: A.Player, steps: seq<A.Step>)
    requires A.Legal(p, steps)
    ensures A.After(p, steps).events == p.events + Told(p, A.After(p, steps))
    ensures AllFlagged(Told(p, A.After(p, steps)))
  {
    C.RunPushesKnownEvents(p, steps);
    KnownAreTold(p, A.After(p, steps));
  }

  lemma KnownAreTold(p: A.Player, p': A.Player)
    requires C.Pushed(p, p')
    ensures p'.events == p.events + Told(p, p') && AllFlagged(Told(p, p'))
  {
    assert p'.events == p'.events[..|p.events|] + p'.events[|p.events|..];
    forall ev | ev in Told(p, p') ensures FlagOf(ev).Some? {
      var i :| |p.events| <= i < |p'.events| && p'.events[i] == ev;
    }
  }

  lemma PlayingIsFlagged(plan: Plan, ends: Ends)
    ensures FlaggedPlayer(Playing(plan, ends))
  {
    forall p: A.Player, cmd: CommandId, args: seq<string>
      ensures AllFlagged(Playing(plan, ends)(p, cmd, args).events)
    {
      if A.Legal(p, plan(p, cmd, args)) {
        StepsTellFlagged(p, plan(p, cmd, args));
      }
    }
  }

  /** The event comes from the player: some defined steps of it push it. */
  ghost predicate FromPlayer(ev: Event) {
    exists p: A.Player, steps: seq<A.Step> :: A.Legal(p, steps) && ev in Told(p, A.After(p, steps))
  }

  /** Whatever steps of the player the commands stand for, and whatever it pushes by itself in between: the
      socket thread is alive after every run. */
  lemma PlayerSparesTheThread(
      player: A.Player, run: seq<Step>, plan: Plan, ends: Ends, pooled: bool)
    requires Legal(Start(player), run, Playing(plan, ends), pooled)
    requires forall i :: 0 <= i < |run| && run[i].Push? ==> FromPlayer(run[i].ev)
    ensures After(Start(player), run, Playing(plan, ends), pooled).running
  {
    PlayingIsFlagged(plan, ends);
    forall i | 0 <= i < |run| && run[i].Push? ensures FlagOf(run[i].ev).Some? {
      var p: A.Player, steps: seq<A.Step> :| A.Legal(p, steps) && run[i].ev in Told(p, A.After(p, steps));
      StepsTellFlagged(p, steps);
    }
    ThreadSurvives(player, run, Playing(plan, ends), pooled);
  }
}

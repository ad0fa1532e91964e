/**
 Whole runs of the player of src/ActivePlaylist.cpp, all properties together:
 every step defined, the queue fitting the list, and the current song listed.
 */
module PlayWhole {
  import opened Common
  import opened ActivePlaylist
  import opened PlayCurrent
  import opened PlayMeaning
  import opened PlayOrder
  import opened PlayRemoval
  import opened PlayRuns
  import P = Playlist

  // ---------- Defined ----------

  /** No step of the run is undefined. */
  predicate NeverFails(p: Player, run: seq<Step>)
    decreases |run|
  {
    FirstFailsExactlyWhen(p, run);
    run == [] || (!Fails(p, run[0]) && NeverFails(Apply(p, run[0]).value, run[1..]))
  }

  lemma FirstFailsExactlyWhen(p: Player, run: seq<Step>)
    ensures run != [] ==> (Apply(p, run[0]).None? <==> Fails(p, run[0]))
  {
    if run != [] {
      StepFailsExactlyWhen(p, run[0]);
    }
  }

  /** A run is defined throughout exactly when no step of it fails, from any state. */
  lemma {:induction false} RunDefinedExactlyWhen(p: Player, run: seq<Step>)
    ensures Legal(p, run) <==> NeverFails(p, run)
    decreases |run|
  {
    if run != [] {
      StepFailsExactlyWhen(p, run[0]);
      if !Fails(p, run[0]) {
        RunDefinedExactlyWhen(Apply(p, run[0]).value, run[1..]);
      }
    }
  }

  // ---------- Sane ----------

  /** The queue has what it owes and the current song is none or in the list. */
  ghost predicate Sane(p: Player, mark: nat) { Owes(p, mark) && CurrentListed(p) }

  /** A sane player has three ways to fail: a position that is not there, the song in front of the only
      entry, and a removal that goes on from the current song after erasing its only entry, with consume
      on and repeat off. */
  lemma SaneFailsExactlyWhen(p: Player, step: Step, mark: nat)
    requires Sane(p, mark)
    ensures Apply(p, step).None? <==>
      match step
      case Add(_, position, _) => position > |p.list.songs| || (position == 0 && p.list.songs == [])
      case Remove(s, stale, _) =>
        !InRange(p, s) ||
        (MovesOn(p, s, stale) && p.consume && !p.repeat && p.current.Some?
         && Entry(p, s) == p.current && multiset(p.queue)[p.current.value] == 1)
      case Previous(_) => NothingInFront(p)
      case _ => false
  {
    StepFailsExactlyWhen(p, step);
    if p.current.Some? {
      ListedIsQueued(p, mark, p.current.value);
      assert p.current.value in multiset(p.queue);
    }
  }

  predicate Harmless(p: Player, step: Step) { !Fails(p, step) && !Breaks(p, step) && !Strands(p, step) }

  lemma SaneStepExactlyWhen(p: Player, step: Step, mark: nat)
    requires Sane(p, mark)
    ensures Apply(p, step).Some? && Sane(Apply(p, step).value, Mark(p, step, mark)) <==> Harmless(p, step)
  {
    StepFailsExactlyWhen(p, step);
    if !Fails(p, step) {
      StepOwesExactlyWhen(p, step, mark);
      StepStrandsExactlyWhen(p, step);
    }
  }

  /** Every step of the run is defined and leaves the player sane. */
  ghost predicate SaneThroughout(p: Player, run: seq<Step>, mark: nat)
    decreases |run|
  {
    Sane(p, mark) &&
    (run == [] ||
     (Apply(p, run[0]).Some? && SaneThroughout(Apply(p, run[0]).value, run[1..], Mark(p, run[0], mark))))
  }

  predicate HarmlessRun(p: Player, run: seq<Step>)
    decreases |run|
  {
    FirstFailsExactlyWhen(p, run);
    run == [] || (Harmless(p, run[0]) && HarmlessRun(Apply(p, run[0]).value, run[1..]))
  }

  /** Over every run of a sane player: every step is defined, the queue has what it owes and the current
      song is listed throughout, exactly when every step is harmless where it happens. */
  lemma {:induction false} RunSaneExactlyWhen(p: Player, run: seq<Step>, mark: nat)
    requires Sane(p, mark)
    ensures SaneThroughout(p, run, mark) <==> HarmlessRun(p, run)
    ensures HarmlessRun(p, run) ==> Legal(p, run)
    decreases |run|
  {
    if run != [] {
      SaneStepExactlyWhen(p, run[0], mark);
      if Harmless(p, run[0]) {
        RunSaneExactlyWhen(Apply(p, run[0]).value, run[1..], Mark(p, run[0], mark));
      }
    }
  }

  lemma FreshIsSane()
    ensures Sane(FRESH, 0)
  {
    assert forall x: nat :: Excess(FRESH, x) == 0;
  }

  /** Over every run of a new player: all of it is defined, the queue has what it owes and the current song is
      listed throughout, exactly when every step is harmless where it happens. */
  lemma NewPlayerSaneExactlyWhen(run: seq<Step>)
    ensures SaneThroughout(FRESH, run, 0) <==> HarmlessRun(FRESH, run)
  {
    FreshIsSane();
    RunSaneExactlyWhen(FRESH, run, 0);
  }

  // ---------- Tidy ----------

  /** The queue is a permutation of the songs and the current song is one of them. */
  ghost predicate Tidy(p: Player) { Sane(p, p.list.counter) }

  ghost predicate TidyThroughout(p: Player, run: seq<Step>)
    requires Legal(p, run)
    decreases |run|
  {
    Tidy(p) && (run == [] || TidyThroughout(Apply(p, run[0]).value, run[1..]))
  }

  /** No step adds a song, breaks the ledger or strands the current song. */
  predicate Careful(p: Player, run: seq<Step>)
    requires Legal(p, run)
    decreases |run|
  {
    run == [] ||
    (!run[0].Add? && !Breaks(p, run[0]) && !Strands(p, run[0]) && Careful(Apply(p, run[0]).value, run[1..]))
  }

  lemma TidyExactlyWhen(p: Player, step: Step)
    requires Tidy(p) && Apply(p, step).Some?
    ensures Tidy(Apply(p, step).value) <==> !step.Add? && !Breaks(p, step) && !Strands(p, step)
  {
    var p', n := Apply(p, step).value, p.list.counter;
    StepOwesExactlyWhen(p, step, n);
    StepStrandsExactlyWhen(p, step);
    CounterMovesOnlyOnAdd(p, step);
    assert Mark(p, step, n) == n;
    if step.Add? && Owes(p', n) {
      assert Excess(p', n) == 1;
    }
  }

  /** Over every defined run of a tidy player, it stays tidy throughout exactly when the run is careful. */
  lemma {:induction false} RunTidyExactlyWhen(p: Player, run: seq<Step>)
    requires Tidy(p) && Legal(p, run)
    ensures TidyThroughout(p, run) <==> Careful(p, run)
    decreases |run|
  {
    if run != [] {
      TidyExactlyWhen(p, run[0]);
      if Tidy(Apply(p, run[0]).value) {
        RunTidyExactlyWhen(Apply(p, run[0]).value, run[1..]);
      }
    }
  }

  // ---------- A run that goes wrong without breaking the ledger ----------

  lemma {:induction false} Extended(p: Player, run: seq<Step>, step: Step)
    requires Legal(p, run) && Apply(After(p, run), step).Some?
    ensures Legal(p, run + [step]) && After(p, run + [step]) == Apply(After(p, run), step).value
    ensures Sound(p, run + [step]) <==> Sound(p, run) && !Breaks(After(p, run), step)
    decreases |run|
  {
    if run == [] {
      assert [] + [step] == [step] && [step][1..] == [];
    } else {
      assert (run + [step])[1..] == run[1..] + [step];
      Extended(Apply(p, run[0]).value, run[1..], step);
    }
  }

  function TwoSongs(a: string, b: string): P.Songs { P.Songs([P.NewSong(a, 0), P.NewSong(b, 1)], 2) }

  /** The first song of a new player. */
  lemma OneAdded(p: Player, a: string)
    requires p == FRESH.(consume := true, events := p.events)
    ensures Apply(p, Add(a, -1, 0)).Some?
    ensures var p' := Apply(p, Add(a, -1, 0)).value;
      && p' == p.(list := p'.list, queue := [0, 0], events := p'.events)
      && p'.list == P.Songs([P.NewSong(a, 0)], 1) && IdsOf(p') == [0]
  {
  }

  lemma OnePlayed(p: Player, c: Chance)
    requires IdsOf(p) == [0] && p.consume && !p.repeat && !p.random && p.current.None? && p.bin != Playing
    ensures Apply(p, Play(c)).Some? && !Breaks(p, Play(c))
    ensures var p' := Apply(p, Play(c)).value;
      && p'.list == p.list && p'.queue == [0] && p'.current == Some(0)
      && p'.consume && !p'.repeat && !p'.random
  {
  }

  /** Consume on, one song added and played, and a second one added. */
  lemma TwoAdded(a: string, b: string, c: Chance)
    ensures var p1 := Apply(FRESH, SetConsume(true)).value;
      var p2 := Apply(p1, Add(a, -1, 0)).value;
      Apply(p2, Play(c)).Some? &&
      var p3 := Apply(p2, Play(c)).value;
      var p4 := Apply(p3, Add(b, -1, 0)).value;
      && !Breaks(p2, Play(c))
      && p4.list == TwoSongs(a, b) && p4.queue == [0, 1, 1] && p4.current == Some(0)
      && p4.consume && !p4.repeat
  {
    var p1 := Apply(FRESH, SetConsume(true)).value;
    OneAdded(p1, a);
    OnePlayed(Apply(p1, Add(a, -1, 0)).value, c);
  }

  /** `next` with consume on and repeat off, from the head of the queue. */
  lemma NextFromHead(p: Player, c: Chance)
    requires p.consume && !p.repeat && |p.queue| >= 2 && p.current == Some(p.queue[0]) && Listed(p, p.queue[0])
    ensures MoveOn(p, p.bin, c).Some?
    ensures var p' := MoveOn(p, p.bin, c).value;
      && p'.list == P.RemoveId(p.list, p.queue[0]) && p'.queue == p.queue[1..] && p'.current == Some(p.queue[1])
      && p'.consume && !p'.repeat
  {
    assert Find(p.queue, p.queue[0]) == 0;
    assert P.Erase(p.queue, 0) == p.queue[1..];
    assert p.queue[1..][0] == p.queue[1];
  }

  lemma WithoutFirst(a: string, b: string)
    ensures P.RemoveId(TwoSongs(a, b), 0) == P.Songs([P.NewSong(b, 1)], 2)
    ensures P.RemoveId(P.Songs([P.NewSong(b, 1)], 2), 1).songs == []
  {
  }

  /** The second song stands in the queue twice, so the second `next` goes from it to itself. */
  lemma TwoNexts(p: Player, a: string, b: string, c: Chance)
    requires p.list == TwoSongs(a, b) && p.queue == [0, 1, 1] && p.current == Some(0) && p.consume && !p.repeat
    ensures MoveOn(p, p.bin, c).Some?
    ensures var q := MoveOn(p, p.bin, c).value;
      MoveOn(q, q.bin, c).Some? &&
      var r := MoveOn(q, q.bin, c).value;
      r.list.songs == [] && r.current == Some(1) && r.consume && !r.repeat
    ensures !MoveOn(p, p.bin, c).value.repeat
  {
    NextFromHead(p, c);
    WithoutFirst(a, b);
    var q := MoveOn(p, p.bin, c).value;
    assert q.queue == [1, 1];
    NextFromHead(q, c);
  }

  function FirstFour(a: string, b: string, c: Chance): seq<Step> {
    [SetConsume(true)] + [Add(a, -1, 0)] + [Play(c)] + [Add(b, -1, 0)]
  }

  lemma AfterFour(a: string, b: string, c: Chance)
    ensures Legal(FRESH, FirstFour(a, b, c)) && Sound(FRESH, FirstFour(a, b, c))
    ensures var p := After(FRESH, FirstFour(a, b, c));
      p.list == TwoSongs(a, b) && p.queue == [0, 1, 1] && p.current == Some(0) && p.consume && !p.repeat
  {
    var r0: seq<Step> := [];
    var r1 := [SetConsume(true)];
    assert r0 + r1 == r1;
    Extended(FRESH, r0, SetConsume(true));
    Extended(FRESH, r1, Add(a, -1, 0));
    TwoAdded(a, b, c);
    var r2 := r1 + [Add(a, -1, 0)];
    Extended(FRESH, r2, Play(c));
    Extended(FRESH, r2 + [Play(c)], Add(b, -1, 0));
  }

  lemma NextAppended(run: seq<Step>, c: Chance)
    requires Legal(FRESH, run) && Sound(FRESH, run)
    requires var p := After(FRESH, run); !p.repeat && MoveOn(p, p.bin, c).Some?
    ensures var p := After(FRESH, run);
      && Legal(FRESH, run + [Next(c)]) && Sound(FRESH, run + [Next(c)])
      && After(FRESH, run + [Next(c)]) == MoveOn(p, p.bin, c).value
  {
    Extended(FRESH, run, Next(c));
  }

  /** Songs `a` and `b` added to a new player with consume on, the first played, then `next` twice: the second
      song is consumed and stays current, no step having broken the ledger, and from there `next` is
      undefined. */
  lemma TwoEntriesStrand(a: string, b: string, c: Chance)
    ensures var run := FirstFour(a, b, c) + [Next(c)] + [Next(c)];
      && Legal(FRESH, run) && Sound(FRESH, run)
      && var p := After(FRESH, run);
         p.list.songs == [] && p.current == Some(1) && Fails(p, Next(c))
  {
    var run := FirstFour(a, b, c);
    AfterFour(a, b, c);
    TwoNexts(After(FRESH, run), a, b, c);
    NextAppended(run, c);
    NextAppended(run + [Next(c)], c);
  }
}

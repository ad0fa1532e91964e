/**
 Whole runs of the player of src/ActivePlaylist.cpp: after which steps, and so
 after which runs, the queue fits the song list.
 */
module PlayRuns {
  import opened Common
  import opened ActivePlaylist
  import opened PlayMeaning
  import opened PlayOrder
  import opened PlayRemoval
  import P = Playlist

  /** Where the mark is after a step that rebuilds the queue, or leaves it alone. */
  predicate Rebuilds(p: Player, step: Step) {
    match step
    case Clear => true
    case Shuffle(_, _) => true
    case SetRandom(on, _) => !on && p.random
    case Play(_) => Starts(p)
    case Resume(_) => p.current.None? && Starts(p)
    case Next(_) => Looks(p) && p.repeat
    case Previous(_) => Looks(p) && p.repeat
    case Status(_) => p.current.Some? && Looks(p) && p.repeat
    case AboutToFinish(_) => FinishRebuilds(p)
    case Remove(s, stale, _) => RemovalRebuilds(p, s, stale)
    case _ => false
  }

  function Mark(p: Player, step: Step, mark: nat): nat {
    if Rebuilds(p, step) then p.list.counter else mark
  }

  /** Changing to the current song puts it into the queue again: consumed, it stood there once; otherwise it
      did not stand there. */
  predicate Again(p: Player) {
    p.current.Some? && if p.consume then multiset(p.queue)[p.current.value] == 1 else p.current.value !in p.queue
  }

  /** The song `previous` goes to is the current one, which it consumes and which stood in the queue once. */
  predicate PreviousAgain(p: Player, c: Chance) {
    && PreviousSong(p, c) == At(p.current) && p.current.Some? && p.consume
    && (p.repeat || multiset(p.queue)[p.current.value] == 1)
  }

  /** The first song of a rebuilt queue is the current one, which is consumed. */
  predicate FrontAgain(p: Player, c: Chance) {
    RebuiltSize(p, c);
    p.list.songs != [] && p.consume && p.current == Some(Rebuilt(p, c)[0])
  }

  /** The steps after which the queue no longer fits, read off the state before them: those that put the
      current song into the queue again, and the removals that go wrong. */
  predicate Breaks(p: Player, step: Step) {
    match step
    case Remove(s, stale, _) => RemovalBreaks(p, s, stale)
    case Play(c) => if p.bin == Playing then Again(p) else FrontAgain(p, c)
    case PlayAt(i, _) => i < |p.list.songs| && p.current == Some(p.list.songs[i].id) && Again(p)
    case PlayId(id, _) => Listed(p, id) && p.current == Some(id) && Again(p)
    case Next(_) => p.repeat && OnlySong(p)
    case Previous(c) => PreviousAgain(p, c)
    case AboutToFinish(_) => FinishBreaks(p)
    case _ => false
  }

  predicate FinishBreaks(p: Player) {
    !p.tempChange && p.repeat && if p.single == Off then OnlySong(p) else Again(p)
  }

  lemma AgainExactlyWhenReinserted(p: Player, mark: nat, target: Option<nat>)
    requires Owes(p, mark) && Consumed(p).Some?
    requires target.Some? ==> Listed(p, target.value) || target.value in p.queue || p.current == target
    ensures Reinserts(p, target) <==> target.Some? && target == p.current && Again(p)
  {
    if target.Some? {
      ReinsertsExactlyWhen(p, mark, target.value);
    }
  }

  // ---------- Every step, every run ----------

  lemma OptionStepOwes(p: Player, step: Step, mark: nat)
    requires Owes(p, mark) && Apply(p, step).Some?
    requires step.SetConsume? || step.SetRandom? || step.SetRepeat? || step.SetSingle? || step.SetVolume?
    ensures Owes(Apply(p, step).value, Mark(p, step, mark))
  {
    var p' := Apply(p, step).value;
    if step.SetRandom? && !step.on && p.random {
      assert forall x: nat :: Excess(p', x) == 0;
    } else {
      SameLedger(p, p', mark);
    }
  }

  lemma PlainStepOwes(p: Player, step: Step, mark: nat)
    requires Owes(p, mark) && Apply(p, step).Some?
    requires step.Stop? || step.Pause? || step.Status? || step.Bus? || (step.Resume? && p.current.Some?)
    ensures Owes(Apply(p, step).value, Mark(p, step, mark))
  {
    if step.Status? && p.current.Some? {
      LookingOwes(p, step.c, mark);
    } else {
      SameLedger(p, Apply(p, step).value, mark);
    }
  }

  /** Clearing and shuffling the list put the queue right, whatever it was. */
  lemma RebuildHeals(p: Player, step: Step)
    requires P.Valid(p.list) && (step.Clear? || step.Shuffle?)
    ensures Owes(Apply(p, step).value, p.list.counter)
  {
    if step.Clear? {
      assert forall x: nat :: Excess(DoClear(p), x) == 0;
    } else {
      var order := Shuffled(p.list.songs, step.songOrder);
      P.ReorderKeeps(p.list, order);
      var p' := p.(list := p.list.(songs := order));
      RebuiltOwes(p', step.c);
      SameLedger(p'.(queue := Rebuilt(p', step.c)), DoShuffle(p, step.songOrder, step.c), p.list.counter);
    }
  }

  lemma StartOwes(p: Player, c: Chance, mark: nat)
    requires Owes(p, mark) && Starts(p) && DoPlay(p, c).Some?
    ensures Owes(DoPlay(p, c).value, p.list.counter) <==> !FrontAgain(p, c)
  {
    RebuiltSize(p, c);
    RebuiltOwes(p, c);
    var q := p.(queue := Rebuilt(p, c));
    PlayOwes(p, c, mark);
    AgainExactlyWhenReinserted(q, p.list.counter, Some(q.queue[0]));
    PermutationExactlyWhen(q, p.list.counter);
    DistinctIsOnce(q.queue, q.queue[0]);
  }

  lemma PlayStepOwes(p: Player, c: Chance, mark: nat)
    requires Owes(p, mark) && DoPlay(p, c).Some?
    ensures Owes(DoPlay(p, c).value, Mark(p, Play(c), mark)) <==> !Breaks(p, Play(c))
  {
    if Starts(p) {
      StartOwes(p, c, mark);
    } else if p.bin == Playing {
      PlayOwes(p, c, mark);
      AgainExactlyWhenReinserted(p, mark, p.current);
    }
  }

  lemma PlaySongOwes(p: Player, id: nat, spot: nat, mark: nat)
    requires Owes(p, mark) && Listed(p, id) && ChangeSong(p, Some(id), Playing, spot).Some?
    ensures Owes(ChangeSong(p, Some(id), Playing, spot).value, mark) <==> !(p.current == Some(id) && Again(p))
  {
    ChangeOwes(p, Some(id), Playing, spot, mark);
    AgainExactlyWhenReinserted(p, mark, Some(id));
  }

  lemma PlaySongStepOwes(p: Player, step: Step, mark: nat)
    requires Owes(p, mark) && Apply(p, step).Some? && (step.PlayAt? || step.PlayId?)
    ensures Owes(Apply(p, step).value, mark) <==> !Breaks(p, step)
  {
    if step.PlayAt? && step.i < |p.list.songs| {
      P.IndexOfSongAt(p.list, step.i);
      PlaySongOwes(p, p.list.songs[step.i].id, step.spot, mark);
    } else if step.PlayId? && Listed(p, step.id) {
      PlaySongOwes(p, step.id, step.spot, mark);
    }
  }

  lemma NextStepOwes(p: Player, bin: Bin, c: Chance, mark: nat)
    requires Owes(p, mark) && MoveOn(p, bin, c).Some?
    ensures Owes(MoveOn(p, bin, c).value, if Looks(p) && p.repeat then p.list.counter else mark) <==>
      !(p.repeat && OnlySong(p))
  {
    MoveOnOwes(p, bin, c, mark);
    if p.list.songs != [] && p.repeat {
      RebuiltReinsertsExactlyWhen(p, c);
    } else {
      NextIsQueued(p, c);
    }
  }

  lemma PreviousIsQueued(p: Player, c: Chance)
    ensures var s := PreviousSong(p, c); s.At? && s.song.Some? ==> s.song.value in BeforeLooking(p, c).queue
  {
    RebuiltSize(p, c);
  }

  lemma PreviousStepOwes(p: Player, c: Chance, mark: nat)
    requires Owes(p, mark) && DoPrevious(p, c).Some?
    ensures Owes(DoPrevious(p, c).value, if Looks(p) && p.repeat then p.list.counter else mark)
      <==> !PreviousAgain(p, c)
  {
    var q, m := BeforeLooking(p, c), if Looks(p) && p.repeat then p.list.counter else mark;
    var song := PreviousSong(p, c).song;
    PreviousOwes(p, c, mark);
    LookingOwes(p, c, mark);
    PreviousIsQueued(p, c);
    AgainExactlyWhenReinserted(q, m, song);
    if Looks(p) && p.repeat && song.Some? {
      PermutationExactlyWhen(q, m);
      DistinctIsOnce(q.queue, song.value);
    }
  }

  lemma FinishStepOwes(p: Player, c: Chance, mark: nat)
    requires Owes(p, mark) && DoAboutToFinish(p, c).Some?
    ensures Owes(DoAboutToFinish(p, c).value, if FinishRebuilds(p) then p.list.counter else mark) <==> !FinishBreaks(p)
  {
    if !p.tempChange && p.single == Off {
      NextStepOwes(p, Playing, c, mark);
    } else {
      SameSongFinishOwes(p, c, mark);
    }
  }

  /** The end of a song that stays, with `single` on or a temporary change. */
  lemma SameSongFinishOwes(p: Player, c: Chance, mark: nat)
    requires Owes(p, mark) && DoAboutToFinish(p, c).Some? && (p.tempChange || p.single != Off)
    ensures Owes(DoAboutToFinish(p, c).value, mark) <==> !(!p.tempChange && p.repeat && Again(p))
  {
    FinishOwes(p, c, mark);
    if !p.tempChange && p.repeat {
      AgainExactlyWhenReinserted(p, mark, p.current);
    }
  }

  /** Every defined step keeps the ledger, unless it is one of those that break it, and those do. */
  lemma StepOwesExactlyWhen(p: Player, step: Step, mark: nat)
    requires Owes(p, mark) && Apply(p, step).Some?
    ensures Owes(Apply(p, step).value, Mark(p, step, mark)) <==> !Breaks(p, step)
  {
    if step.Add? {
      AddOwes(p, step.url, step.position, step.spot, mark);
    } else if step.Remove? {
      RemoveOwes(p, step.search, step.stale, step.c, mark);
    } else if step.Clear? || step.Shuffle? {
      RebuildHeals(p, step);
    } else if step.Next? {
      NextStepOwes(p, p.bin, step.c, mark);
    } else if step.Previous? {
      PreviousStepOwes(p, step.c, mark);
    } else if step.AboutToFinish? {
      FinishStepOwes(p, step.c, mark);
    } else if step.Play? || (step.Resume? && p.current.None?) {
      PlayStepOwes(p, step.c, mark);
    } else if step.PlayAt? || step.PlayId? {
      PlaySongStepOwes(p, step, mark);
    } else if step.Stop? || step.Pause? || step.Status? || step.Bus? || step.Resume? {
      PlainStepOwes(p, step, mark);
    } else {
      OptionStepOwes(p, step, mark);
    }
  }

  /** No step of the run breaks the ledger. */
  predicate Sound(p: Player, run: seq<Step>)
    requires Legal(p, run)
    decreases |run|
  {
    run == [] || (!Breaks(p, run[0]) && Sound(Apply(p, run[0]).value, run[1..]))
  }

  function MarkAfter(p: Player, run: seq<Step>, mark: nat): nat
    requires Legal(p, run)
    decreases |run|
  {
    if run == [] then mark else MarkAfter(Apply(p, run[0]).value, run[1..], Mark(p, run[0], mark))
  }

  /** The ledger holds before the run and after each of its steps. */
  ghost predicate OwesThroughout(p: Player, run: seq<Step>, mark: nat)
    requires Legal(p, run)
    decreases |run|
  {
    Owes(p, mark) && (run == [] || OwesThroughout(Apply(p, run[0]).value, run[1..], Mark(p, run[0], mark)))
  }

  /** Over every run the queue fits the list throughout, exactly when no step of the run breaks it. */
  lemma {:induction false} RunOwesExactlyWhen(p: Player, run: seq<Step>, mark: nat)
    requires Legal(p, run) && Owes(p, mark)
    ensures OwesThroughout(p, run, mark) <==> Sound(p, run)
    ensures Sound(p, run) ==> Owes(After(p, run), MarkAfter(p, run, mark))
    decreases |run|
  {
    if run != [] {
      StepOwesExactlyWhen(p, run[0], mark);
      if !Breaks(p, run[0]) {
        RunOwesExactlyWhen(Apply(p, run[0]).value, run[1..], Mark(p, run[0], mark));
      }
    }
  }

  // ---------- A new player ----------

  /** Over every run of a new player in which no step breaks the ledger, the queue is a duplicate-free
      permutation of the songs exactly when no song has been added since the last rebuild. */
  lemma RunPermutationExactlyWhen(run: seq<Step>)
    requires Legal(FRESH, run) && Sound(FRESH, run)
    ensures var p := After(FRESH, run);
      && (IsPermutation(p) <==> MarkAfter(FRESH, run, 0) == p.list.counter)
      && (IsPermutation(p) ==> P.Distinct(p.queue))
  {
    assert Owes(FRESH, 0) by {
      assert forall x: nat :: Excess(FRESH, x) == 0;
    }
    RunOwesExactlyWhen(FRESH, run, 0);
    PermutationExactlyWhen(After(FRESH, run), MarkAfter(FRESH, run, 0));
  }

  /** One song added to a new player stands in the queue twice. */
  lemma AddedTwice(url: string, spot: nat)
    ensures Apply(FRESH, Add(url, -1, spot)).Some?
    ensures var p := Apply(FRESH, Add(url, -1, spot)).value; p.queue == [0, 0] && IdsOf(p) == [0]
  {
  }

  // ---------- Identifiers ----------

  lemma ChangeCounter(p: Player, target: Option<nat>, bin: Bin, spot: nat)
    requires ChangeSong(p, target, bin, spot).Some?
    ensures ChangeSong(p, target, bin, spot).value.list.counter == p.list.counter
  {
  }

  lemma MoveOnCounter(p: Player, bin: Bin, c: Chance)
    requires MoveOn(p, bin, c).Some?
    ensures MoveOn(p, bin, c).value.list.counter == p.list.counter
  {
    ChangeCounter(BeforeLooking(p, c), NextSong(p, c), bin, c.spot);
  }

  lemma RemoveCounter(p: Player, s: Search, stale: bool, c: Chance)
    requires DoRemove(p, s, stale, c).Some?
    ensures DoRemove(p, s, stale, c).value.list.counter == p.list.counter
  {
    if MovesOn(p, s, stale) {
      MoveOnCounter(Unqueued(p, s), p.bin, c);
    }
  }

  lemma PlayCounter(p: Player, c: Chance)
    requires DoPlay(p, c).Some?
    ensures DoPlay(p, c).value.list.counter == p.list.counter
  {
    RebuiltSize(p, c);
    if Starts(p) {
      ChangeCounter(p.(queue := Rebuilt(p, c)), Some(Rebuilt(p, c)[0]), Playing, c.spot);
    } else if p.bin == Playing {
      ChangeCounter(p, p.current, Playing, c.spot);
    }
  }

  lemma FinishCounter(p: Player, c: Chance)
    requires DoAboutToFinish(p, c).Some?
    ensures DoAboutToFinish(p, c).value.list.counter == p.list.counter
  {
    if !p.tempChange && p.single == Off {
      MoveOnCounter(p, Playing, c);
    }
  }

  lemma PreviousCounter(p: Player, c: Chance)
    requires DoPrevious(p, c).Some?
    ensures DoPrevious(p, c).value.list.counter == p.list.counter
  {
    ChangeCounter(BeforeLooking(p, c), PreviousSong(p, c).song, p.bin, c.spot);
  }

  lemma PlainCounter(p: Player, step: Step)
    requires Apply(p, step).Some? && !step.Remove? && !step.Next? && !step.Previous? && !step.Play?
    requires !step.AboutToFinish? && (step.Resume? ==> p.current.Some?)
    ensures Apply(p, step).value.list.counter == p.list.counter + if step.Add? then 1 else 0
  {
    if step.PlayAt? && step.i < |p.list.songs| {
      ChangeCounter(p, Some(p.list.songs[step.i].id), Playing, step.spot);
    } else if step.PlayId? && Listed(p, step.id) {
      ChangeCounter(p, Some(step.id), Playing, step.spot);
    }
  }

  lemma MoveCounter(p: Player, step: Step)
    requires Apply(p, step).Some? && (step.Next? || step.Previous? || step.AboutToFinish?)
    ensures Apply(p, step).value.list.counter == p.list.counter
  {
    if step.Next? {
      MoveOnCounter(p, p.bin, step.c);
    } else if step.Previous? {
      PreviousCounter(p, step.c);
    } else {
      FinishCounter(p, step.c);
    }
  }

  /** Only adding gives out identifiers. */
  lemma CounterMovesOnlyOnAdd(p: Player, step: Step)
    requires Apply(p, step).Some?
    ensures Apply(p, step).value.list.counter == p.list.counter + if step.Add? then 1 else 0
  {
    if step.Remove? {
      RemoveCounter(p, step.search, step.stale, step.c);
    } else if step.Next? || step.Previous? || step.AboutToFinish? {
      MoveCounter(p, step);
    } else if step.Play? || (step.Resume? && p.current.None?) {
      PlayCounter(p, step.c);
    } else {
      PlainCounter(p, step);
    }
  }
}

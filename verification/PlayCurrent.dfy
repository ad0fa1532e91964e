/**
 When a step of the player of src/ActivePlaylist.cpp is defined at all, when it
 leaves a current song that is not in the list, and what runs avoid both.
 Every condition is read off the state before the step.
 */
module PlayCurrent {
  import opened Common
  import opened ActivePlaylist
  import opened PlayMeaning
  import opened PlayOrder
  import opened PlayRemoval
  import opened PlayRuns
  import P = Playlist

  // ---------- When a step is undefined ----------

  /** With consume on, the current song cannot be erased from both queue and list. */
  predicate Stuck(p: Player, rebuilt: bool) {
    p.consume && p.current.Some? && !(Listed(p, p.current.value) && (rebuilt || p.current.value in p.queue))
  }

  /** With the entry gone, the current song has none left to erase, or is not listed. */
  predicate RemovalStuck(p: Player, s: Search, stale: bool) {
    !InRange(p, s) ||
    (MovesOn(p, s, stale) && p.consume && p.current.Some? &&
     var x := p.current.value;
     !(Listed(p, x) && (p.repeat || multiset(p.queue)[x] > if Entry(p, s) == Some(x) then 1 else 0)))
  }

  /** `previousSong` steps in front of the only entry. */
  predicate NothingInFront(p: Player) {
    Looks(p) && p.current.Some? && (if p.repeat then IdsOf(p) else p.queue) == [p.current.value]
  }

  predicate Fails(p: Player, step: Step) {
    match step
    case Add(_, position, _) => position > |p.list.songs| || (position == 0 && p.list.songs == [])
    case Remove(s, stale, _) => RemovalStuck(p, s, stale)
    case Play(_) => if p.bin == Playing then Stuck(p, false) else p.list.songs != [] && Stuck(p, true)
    case PlayAt(i, _) => i < |p.list.songs| && Stuck(p, false)
    case PlayId(id, _) => Listed(p, id) && Stuck(p, false)
    case Next(_) => Stuck(p, Looks(p) && p.repeat)
    case Previous(_) => NothingInFront(p) || Stuck(p, Looks(p) && p.repeat)
    case AboutToFinish(_) =>
      !p.tempChange && if p.single == Off then Stuck(p, Looks(p) && p.repeat) else p.repeat && Stuck(p, false)
    case _ => false
  }

  lemma ChangeFailsExactlyWhen(p: Player, target: Option<nat>, bin: Bin, spot: nat)
    ensures ChangeSong(p, target, bin, spot).None? <==> Stuck(p, false)
  {
  }

  lemma RebuiltHolds(p: Player, c: Chance, x: nat)
    ensures x in Rebuilt(p, c) <==> Listed(p, x)
  {
    RebuiltSize(p, c);
    ListedExactlyWhen(p.list.songs, x);
    assert x in Rebuilt(p, c) <==> x in multiset(Rebuilt(p, c));
    assert x in IdsOf(p) <==> x in multiset(IdsOf(p));
  }

  lemma SearchFailsExactlyWhen(p: Player, target: Option<nat>, bin: Bin, c: Chance)
    ensures ChangeSong(BeforeLooking(p, c), target, bin, c.spot).None? <==> Stuck(p, Looks(p) && p.repeat)
  {
    ChangeFailsExactlyWhen(BeforeLooking(p, c), target, bin, c.spot);
    if p.current.Some? {
      RebuiltHolds(p, c, p.current.value);
    }
  }

  lemma PlayFailsExactlyWhen(p: Player, c: Chance)
    ensures DoPlay(p, c).None? <==> Fails(p, Play(c))
  {
    RebuiltSize(p, c);
    if Starts(p) {
      ChangeFailsExactlyWhen(p.(queue := Rebuilt(p, c)), Some(Rebuilt(p, c)[0]), Playing, c.spot);
      if p.current.Some? {
        RebuiltHolds(p, c, p.current.value);
      }
    } else if p.bin == Playing {
      ChangeFailsExactlyWhen(p, p.current, Playing, c.spot);
    }
  }

  lemma OneEntry(q: seq<nat>, x: nat)
    ensures |q| == 1 && Find(q, x) == 0 <==> q == [x]
  {
  }

  lemma PreviousFailsExactlyWhen(p: Player, c: Chance)
    ensures DoPrevious(p, c).None? <==> NothingInFront(p) || Stuck(p, Looks(p) && p.repeat)
  {
    RebuiltSize(p, c);
    var q := BeforeLooking(p, c).queue;
    if PreviousSong(p, c).At? {
      SearchFailsExactlyWhen(p, PreviousSong(p, c).song, p.bin, c);
    }
    if Looks(p) && p.current.Some? {
      var x := p.current.value;
      OneEntry(q, x);
      OneEntry(IdsOf(p), x);
      RebuiltHolds(p, c, x);
      ListedExactlyWhen(p.list.songs, x);
    }
  }

  lemma LeftInQueue(p: Player, s: Search, x: nat)
    requires InRange(p, s)
    ensures x in Unqueued(p, s).queue <==> multiset(p.queue)[x] > if Entry(p, s) == Some(x) then 1 else 0
  {
    var i := EntryOf(p, s);
    if i < |p.queue| {
      CountErased(p.queue, i, x);
    }
    assert x in Unqueued(p, s).queue <==> x in multiset(Unqueued(p, s).queue);
  }

  lemma MovedOnFails(p: Player, s: Search, stale: bool, c: Chance)
    requires InRange(p, s) && MovesOn(p, s, stale)
    ensures BeforeRemoving(p, s, stale, c).None? <==> RemovalStuck(p, s, stale)
  {
    var p' := Unqueued(p, s);
    SearchFailsExactlyWhen(p', NextSong(p', c), p'.bin, c);
    if p.current.Some? {
      LeftInQueue(p, s, p.current.value);
    }
  }

  lemma RemoveFailsExactlyWhen(p: Player, s: Search, stale: bool, c: Chance)
    ensures DoRemove(p, s, stale, c).None? <==> RemovalStuck(p, s, stale)
  {
    if InRange(p, s) && MovesOn(p, s, stale) {
      MovedOnFails(p, s, stale, c);
    }
  }

  lemma FinishFailsExactlyWhen(p: Player, c: Chance)
    ensures DoAboutToFinish(p, c).None? <==> Fails(p, AboutToFinish(c))
  {
    if !p.tempChange && p.single == Off {
      SearchFailsExactlyWhen(p, NextSong(p, c), Playing, c);
    } else if !p.tempChange && p.repeat {
      var p' := if p.single == Oneshot then DoSetSingle(p, Off) else p;
      ChangeFailsExactlyWhen(p', p.current, Playing, c.spot);
    }
  }

  lemma MoveFailsExactlyWhen(p: Player, step: Step)
    requires step.Next? || step.Previous? || step.AboutToFinish?
    ensures Apply(p, step).None? <==> Fails(p, step)
  {
    if step.Next? {
      assert Apply(p, step) == MoveOn(p, p.bin, step.c);
      SearchFailsExactlyWhen(p, NextSong(p, step.c), p.bin, step.c);
    } else if step.Previous? {
      assert Apply(p, step) == DoPrevious(p, step.c);
      PreviousFailsExactlyWhen(p, step.c);
    } else {
      assert Apply(p, step) == DoAboutToFinish(p, step.c);
      FinishFailsExactlyWhen(p, step.c);
    }
  }

  /** Every step, in every state: it is undefined exactly when it erases the current song where it no longer
      stands, steps in front of the only entry, or is given a position that is not there. */
  lemma StepFailsExactlyWhen(p: Player, step: Step)
    ensures Apply(p, step).None? <==> Fails(p, step)
  {
    if step.Remove? {
      RemoveFailsExactlyWhen(p, step.search, step.stale, step.c);
    } else if step.Next? || step.Previous? || step.AboutToFinish? {
      MoveFailsExactlyWhen(p, step);
    } else if step.Play? || step.Resume? {
      PlayFailsExactlyWhen(p, step.c);
    } else if step.PlayAt? && step.i < |p.list.songs| {
      ChangeFailsExactlyWhen(p, Some(p.list.songs[step.i].id), Playing, step.spot);
    } else if step.PlayId? {
      ChangeFailsExactlyWhen(p, Some(step.id), Playing, step.spot);
    }
  }

  /** While the ledger holds, `next` is undefined exactly when it would consume a song that is not listed. */
  lemma NextFailsExactlyWhen(p: Player, bin: Bin, c: Chance, mark: nat)
    requires Owes(p, mark)
    ensures MoveOn(p, bin, c).None? <==> p.consume && p.current.Some? && !Listed(p, p.current.value)
  {
    SearchFailsExactlyWhen(p, NextSong(p, c), bin, c);
    if p.current.Some? && Listed(p, p.current.value) {
      ListedIsQueued(p, mark, p.current.value);
    }
  }

  /** While the ledger holds and the current song is listed, removing a listed song is undefined exactly when
      the `next` in between would consume the very song whose only entry has just been erased. */
  lemma RemovalFailsExactlyWhen(p: Player, id: nat, stale: bool, c: Chance, mark: nat)
    requires Owes(p, mark) && CurrentListed(p) && Listed(p, id)
    ensures DoRemove(p, ById(id), stale, c).None? <==>
      MovesOn(p, ById(id), stale) && p.consume && !p.repeat && p.current == Some(id) && multiset(p.queue)[id] == 1
  {
    RemoveFailsExactlyWhen(p, ById(id), stale, c);
    ListedIsQueued(p, mark, id);
    assert id in multiset(p.queue);
    if p.current.Some? {
      ListedIsQueued(p, mark, p.current.value);
      assert p.current.value in multiset(p.queue);
    }
  }

  // ---------- When the current song is not in the list ----------

  predicate CurrentListed(p: Player) { p.current.Some? ==> Listed(p, p.current.value) }

  /** A song to change to that is not listed, or that is consumed on the way. */
  predicate Strays(p: Player, target: Option<nat>) {
    target.Some? && (!Listed(p, target.value) || (p.consume && p.current == target))
  }

  /** The steps that leave a current song which is not in the list. */
  predicate Strands(p: Player, step: Step) {
    match step
    case Clear => p.current.Some?
    case Remove(s, stale, c) => RemovalStrands(p, s, stale, c)
    case Play(c) => if p.bin == Playing then Strays(p, p.current) else FrontAgain(p, c)
    case PlayAt(i, _) => i < |p.list.songs| && p.consume && p.current == Some(p.list.songs[i].id)
    case PlayId(id, _) => Listed(p, id) && p.consume && p.current == Some(id)
    case Next(c) => Strays(p, NextSong(p, c))
    case Previous(c) => PreviousSong(p, c).At? && Strays(p, PreviousSong(p, c).song)
    case AboutToFinish(c) =>
      !p.tempChange && if p.single == Off then Strays(p, NextSong(p, c)) else p.repeat && Strays(p, p.current)
    case _ => false
  }

  /** The song that is current after the removal: the one the `next` in between goes to, or still the same.
      It strays on the way, or it is the song that leaves. */
  predicate RemovalStrands(p: Player, s: Search, stale: bool, c: Chance) {
    InRange(p, s) &&
    var goesOn := MovesOn(p, s, stale);
    var x := if goesOn then NextSong(Unqueued(p, s), c) else p.current;
    x.Some? && (x == Leaves(p, s, stale) || (goesOn && Strays(p, x)))
  }

  lemma ChangeListed(p: Player, target: Option<nat>, bin: Bin, spot: nat)
    requires P.Valid(p.list) && ChangeSong(p, target, bin, spot).Some?
    ensures var p' := ChangeSong(p, target, bin, spot).value;
      p'.current == target && P.Valid(p'.list) && (CurrentListed(p') <==> !Strays(p, target))
  {
    ConsumedValid(p);
    if target.Some? {
      ConsumedListed(p, target.value);
    }
  }

  /** `next`, from any state with a valid list: the new current song is listed exactly when it was listed
      before and is not the one consumed. */
  lemma MoveOnListed(p: Player, bin: Bin, c: Chance)
    requires P.Valid(p.list) && MoveOn(p, bin, c).Some?
    ensures var p' := MoveOn(p, bin, c).value;
      p'.current == NextSong(p, c) && P.Valid(p'.list) && (CurrentListed(p') <==> !Strays(p, NextSong(p, c)))
  {
    ChangeListed(BeforeLooking(p, c), NextSong(p, c), bin, c.spot);
  }

  lemma PreviousListed(p: Player, c: Chance)
    requires P.Valid(p.list) && DoPrevious(p, c).Some?
    ensures var p' := DoPrevious(p, c).value;
      P.Valid(p'.list) && (CurrentListed(p') <==> !Strays(p, PreviousSong(p, c).song))
  {
    ChangeListed(BeforeLooking(p, c), PreviousSong(p, c).song, p.bin, c.spot);
  }

  lemma PlayListed(p: Player, c: Chance)
    requires P.Valid(p.list) && CurrentListed(p) && DoPlay(p, c).Some?
    ensures var p' := DoPlay(p, c).value;
      P.Valid(p'.list) && (CurrentListed(p') <==> !Strands(p, Play(c)))
  {
    RebuiltSize(p, c);
    if Starts(p) {
      var q := p.(queue := Rebuilt(p, c));
      RebuiltHolds(p, c, q.queue[0]);
      ChangeListed(q, Some(q.queue[0]), Playing, c.spot);
    } else if p.bin == Playing {
      ChangeListed(p, p.current, Playing, c.spot);
    }
  }

  lemma FinishListed(p: Player, c: Chance)
    requires P.Valid(p.list) && CurrentListed(p) && DoAboutToFinish(p, c).Some?
    ensures var p' := DoAboutToFinish(p, c).value;
      P.Valid(p'.list) && (CurrentListed(p') <==> !Strands(p, AboutToFinish(c)))
  {
    if !p.tempChange && p.single == Off {
      MoveOnListed(p, Playing, c);
    } else if !p.tempChange && p.repeat {
      var p' := if p.single == Oneshot then DoSetSingle(p, Off) else p;
      ChangeListed(p', p.current, Playing, c.spot);
    }
  }

  lemma PlaySongListed(p: Player, step: Step)
    requires P.Valid(p.list) && CurrentListed(p) && Apply(p, step).Some? && (step.PlayAt? || step.PlayId?)
    ensures var p' := Apply(p, step).value; P.Valid(p'.list) && (CurrentListed(p') <==> !Strands(p, step))
  {
    if step.PlayAt? && step.i < |p.list.songs| {
      P.IndexOfSongAt(p.list, step.i);
      ChangeListed(p, Some(p.list.songs[step.i].id), Playing, step.spot);
    } else if step.PlayId? && Listed(p, step.id) {
      ChangeListed(p, Some(step.id), Playing, step.spot);
    }
  }

  lemma DroppedListed(m: Player, j: nat)
    requires P.Valid(m.list)
    ensures CurrentListed(m.(list := P.RemoveAt(m.list, j))) <==>
      CurrentListed(m) && !(m.current.Some? && SongAt(m.list, j) == m.current)
  {
    if m.current.Some? && j < |m.list.songs| {
      ErasedListed(m.list, j, m.current.value);
      P.IndexOfSongAt(m.list, j);
    }
  }

  lemma GoneOnListed(p: Player, s: Search, c: Chance, m: Player)
    requires P.Valid(p.list) && InRange(p, s) && MoveOn(Unqueued(p, s), p.bin, c) == Some(m)
    ensures P.Valid(m.list) && m.current == NextSong(Unqueued(p, s), c) && (CurrentListed(m) <==> !Strays(p, m.current))
  {
    MoveOnListed(Unqueued(p, s), p.bin, c);
  }

  lemma BeforeRemovingListed(p: Player, s: Search, stale: bool, c: Chance, m: Player)
    requires P.Valid(p.list) && CurrentListed(p) && InRange(p, s) && BeforeRemoving(p, s, stale, c) == Some(m)
    ensures P.Valid(m.list)
    ensures m.current == if MovesOn(p, s, stale) then NextSong(Unqueued(p, s), c) else p.current
    ensures CurrentListed(m) <==> !(MovesOn(p, s, stale) && Strays(p, m.current))
  {
    if MovesOn(p, s, stale) {
      GoneOnListed(p, s, c, m);
    }
  }

  lemma RemoveListed(p: Player, s: Search, stale: bool, c: Chance)
    requires P.Valid(p.list) && CurrentListed(p) && DoRemove(p, s, stale, c).Some?
    ensures var p' := DoRemove(p, s, stale, c).value;
      P.Valid(p'.list) && (CurrentListed(p') <==> !RemovalStrands(p, s, stale, c))
  {
    var m := BeforeRemoving(p, s, stale, c).value;
    BeforeRemovingListed(p, s, stale, c, m);
    SearchedBefore(p, s, stale, c);
    DroppedListed(m, SongOf(m.list, s));
    RemovedIsValid(p, s, stale, c);
  }

  lemma NewIsListed(p: Player, url: string, position: int, spot: nat)
    requires CurrentListed(p) && DoAdd(p, url, position, spot).Some?
    ensures CurrentListed(DoAdd(p, url, position, spot).value)
  {
    if p.current.Some? {
      var x, p' := p.current.value, DoAdd(p, url, position, spot).value;
      var i := P.InsertionPoint(|p.list.songs|, position).value;
      ListedExactlyWhen(p.list.songs, x);
      ListedExactlyWhen(p'.list.songs, x);
      IdsInserted(p.list.songs, i, P.NewSong(url, p.list.counter), x);
      assert x in multiset(IdsOf(p)) && x in multiset(IdsOf(p'));
    }
  }

  lemma ReorderedIsListed(p: Player, order: seq<P.Song>, c: Chance)
    requires CurrentListed(p)
    ensures CurrentListed(DoShuffle(p, order, c))
  {
    if p.current.Some? {
      var songs := Shuffled(p.list.songs, order);
      var song := p.list.songs[P.FindId(p.list.songs, p.current.value)];
      assert song in multiset(p.list.songs) && song in multiset(songs);
      var i :| 0 <= i < |songs| && songs[i] == song;
      assert P.FindId(songs, p.current.value) <= i;
    }
  }

  lemma ListStepListed(p: Player, step: Step)
    requires P.Valid(p.list) && CurrentListed(p) && Apply(p, step).Some?
    requires step.Add? || step.Clear? || step.Shuffle?
    ensures var p' := Apply(p, step).value; P.Valid(p'.list) && (CurrentListed(p') <==> !Strands(p, step))
  {
    if step.Add? {
      NewIsListed(p, step.url, step.position, step.spot);
      P.InsertKeeps(p.list, P.InsertionPoint(|p.list.songs|, step.position).value, P.NewSong(step.url, p.list.counter));
    } else if step.Shuffle? {
      ReorderedIsListed(p, step.songOrder, step.c);
      P.ReorderKeeps(p.list, Shuffled(p.list.songs, step.songOrder));
    }
  }

  lemma SameSongs(p: Player, step: Step)
    requires Apply(p, step).Some?
    requires !step.Add? && !step.Clear? && !step.Shuffle? && !step.Remove? && !step.PlayAt? && !step.PlayId?
    requires !step.Next? && !step.Previous? && !step.Play? && !step.AboutToFinish?
    requires step.Resume? ==> p.current.Some?
    ensures Apply(p, step).value.list == p.list && Apply(p, step).value.current == p.current && !Strands(p, step)
  {
  }

  /** The steps that go to a song of the queue. */
  predicate Moves(p: Player, step: Step) {
    step.Next? || step.Previous? || step.Play? || (step.Resume? && p.current.None?) || step.AboutToFinish?
  }

  lemma MoveStepListed(p: Player, step: Step)
    requires P.Valid(p.list) && CurrentListed(p) && Apply(p, step).Some? && Moves(p, step)
    ensures var p' := Apply(p, step).value; P.Valid(p'.list) && (CurrentListed(p') <==> !Strands(p, step))
  {
    if step.Next? {
      assert Apply(p, step) == MoveOn(p, p.bin, step.c);
      MoveOnListed(p, p.bin, step.c);
    } else if step.Previous? {
      assert Apply(p, step) == DoPrevious(p, step.c);
      PreviousListed(p, step.c);
    } else if step.AboutToFinish? {
      assert Apply(p, step) == DoAboutToFinish(p, step.c);
      FinishListed(p, step.c);
    } else {
      assert Apply(p, step) == DoPlay(p, step.c);
      StartListed(p, step);
    }
  }

  lemma StartListed(p: Player, step: Step)
    requires P.Valid(p.list) && CurrentListed(p) && (step.Play? || (step.Resume? && p.current.None?))
    requires DoPlay(p, step.c).Some?
    ensures var p' := DoPlay(p, step.c).value; P.Valid(p'.list) && (CurrentListed(p') <==> !Strands(p, step))
  {
    PlayListed(p, step.c);
    if step.Resume? {
      ResumeListed(p, step.c);
    }
  }

  lemma ResumeListed(p: Player, c: Chance)
    requires P.Valid(p.list) && p.current.None? && DoPlay(p, c).Some?
    ensures P.Valid(DoPlay(p, c).value.list) && CurrentListed(DoPlay(p, c).value)
  {
    PlayListed(p, c);
    assert !FrontAgain(p, c) && !Strays(p, p.current);
  }

  /** Every defined step, from any state with a listed current song: the current song after it is listed,
      unless the step is one of those that strand it, and those do. */
  lemma StepStrandsExactlyWhen(p: Player, step: Step)
    requires P.Valid(p.list) && CurrentListed(p) && Apply(p, step).Some?
    ensures var p' := Apply(p, step).value; P.Valid(p'.list) && (CurrentListed(p') <==> !Strands(p, step))
  {
    if step.Add? || step.Clear? || step.Shuffle? {
      ListStepListed(p, step);
    } else if step.Remove? {
      RemoveListed(p, step.search, step.stale, step.c);
    } else if step.PlayAt? || step.PlayId? {
      PlaySongListed(p, step);
    } else if Moves(p, step) {
      MoveStepListed(p, step);
    } else {
      SameSongs(p, step);
    }
  }

  ghost predicate ListedThroughout(p: Player, run: seq<Step>)
    requires Legal(p, run)
    decreases |run|
  {
    CurrentListed(p) && (run == [] || ListedThroughout(Apply(p, run[0]).value, run[1..]))
  }

  /** No step of the run strands the current song. */
  predicate KeepsCurrent(p: Player, run: seq<Step>)
    requires Legal(p, run)
    decreases |run|
  {
    run == [] || (!Strands(p, run[0]) && KeepsCurrent(Apply(p, run[0]).value, run[1..]))
  }

  /** Over every defined run, songs added or not: the current song is none or in the list throughout exactly
      when no step strands it. */
  lemma {:induction false} RunListedExactlyWhen(p: Player, run: seq<Step>)
    requires P.Valid(p.list) && CurrentListed(p) && Legal(p, run)
    ensures ListedThroughout(p, run) <==> KeepsCurrent(p, run)
    decreases |run|
  {
    if run != [] {
      StepStrandsExactlyWhen(p, run[0]);
      if !Strands(p, run[0]) {
        RunListedExactlyWhen(Apply(p, run[0]).value, run[1..]);
      }
    }
  }

  /** When `next` strays while the ledger holds: with repeat on, exactly when it consumes the only song there
      is; with repeat off, exactly when it goes to a song added since the queue was last rebuilt that has left
      the list or is just being consumed. */
  lemma NextStraysExactlyWhen(p: Player, c: Chance, mark: nat)
    requires Owes(p, mark) && CurrentListed(p)
    ensures p.repeat ==> (Strays(p, NextSong(p, c)) <==> OnlySong(p))
    ensures !p.repeat ==>
      (Strays(p, NextSong(p, c)) <==>
         var next := NextSong(p, c);
         next.Some? && mark <= next.value < p.list.counter
         && (!Listed(p, next.value) || (p.consume && p.current == next)))
  {
    if p.repeat {
      RepeatStraysExactlyWhen(p, c);
    } else if Strays(p, NextSong(p, c)) {
      var x := NextSong(p, c).value;
      NextCount(p, c);
      ListedExactlyWhen(p.list.songs, x);
      DistinctIsOnce(IdsOf(p), x);
      assert Excess(p, x) >= 1;
    }
  }

  lemma RepeatStraysExactlyWhen(p: Player, c: Chance)
    requires P.Valid(p.list) && CurrentListed(p) && p.repeat
    ensures Strays(p, NextSong(p, c)) <==> OnlySong(p)
  {
    if Strays(p, NextSong(p, c)) {
      RebuiltStrays(p, c);
    }
    if OnlySong(p) {
      OnlySongStrays(p, c);
    }
  }

  lemma OnlySongStrays(p: Player, c: Chance)
    requires P.Valid(p.list) && CurrentListed(p) && p.repeat && OnlySong(p)
    ensures Strays(p, NextSong(p, c))
  {
    var q := BeforeLooking(p, c);
    RebuiltOwes(p, c);
    RebuiltSize(p, c);
    PermutationExactlyWhen(q, p.list.counter);
    FollowingDiffers(q.queue, p.current, true);
    assert |p.list.songs| == 1 && |q.queue| == 1;
    QueuedIsListed(q, NextSong(p, c).value);
    ListedExactlyWhen(p.list.songs, NextSong(p, c).value);
    assert IdsOf(p)[0] == p.current.value;
  }

  lemma RebuiltStrays(p: Player, c: Chance)
    requires P.Valid(p.list) && CurrentListed(p) && p.repeat && Strays(p, NextSong(p, c))
    ensures OnlySong(p)
  {
    var q := BeforeLooking(p, c);
    RebuiltOwes(p, c);
    RebuiltSize(p, c);
    PermutationExactlyWhen(q, p.list.counter);
    FollowingDiffers(q.queue, p.current, true);
    QueuedIsListed(q, NextSong(p, c).value);
    ListedExactlyWhen(p.list.songs, p.current.value);
    assert |q.queue| == 1;
    assert IdsOf(p) == [IdsOf(p)[0]];
  }

  lemma NextCount(p: Player, c: Chance)
    requires !p.repeat && NextSong(p, c).Some?
    ensures var x := NextSong(p, c).value; multiset(p.queue)[x] >= if p.current == Some(x) then 2 else 1
  {
    var x := NextSong(p, c).value;
    if p.current == Some(x) {
      var i := Find(p.queue, x);
      assert p.queue == p.queue[..i + 1] + p.queue[i + 1..];
      assert x in p.queue[..i + 1] && x in p.queue[i + 1..];
    } else {
      assert x in p.queue;
    }
  }
}

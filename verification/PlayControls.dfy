/**
 The controls of the player of src/ActivePlaylist.cpp: the state of the
 playbin, the mark of a changed song, the current song and the four options.
 What each step makes of them is read off the state before it, and so is what
 they are after a whole run.
 */
module PlayControls {
  import opened Common
  import opened ActivePlaylist
  import P = Playlist

  // ---------- Changing songs ----------

  /** A song that is changed to is started in the state asked for, and marked if one was playing; without a song
      the playbin does not play. */
  lemma ChangeSets(p: Player, target: Option<nat>, bin: Bin, spot: nat)
    requires ChangeSong(p, target, bin, spot).Some?
    ensures var p' := ChangeSong(p, target, bin, spot).value;
      && p'.current == target
      && (target.Some? ==> p'.bin == bin && p'.tempChange == (p.tempChange || p.bin == Playing))
      && (target.None? ==> p'.bin == (if bin == Playing then Ready else bin) && p'.tempChange == p.tempChange)
      && SameOptions(p, p')
  {
  }

  predicate SameOptions(p: Player, q: Player) {
    q.consume == p.consume && q.random == p.random && q.repeat == p.repeat && q.single == p.single
  }

  /** `play` while nothing plays starts a song of the list, the first one without random; while something plays
      it starts the current song again; on an empty list it does nothing. */
  lemma PlayStarts(p: Player, c: Chance)
    requires DoPlay(p, c).Some?
    ensures var p' := DoPlay(p, c).value;
      if p.bin == Playing then
        && p'.current == p.current
        && p'.bin == (if p.current.Some? then Playing else Ready)
        && p'.tempChange == (p.tempChange || p.current.Some?)
      else if p.list.songs == [] then p' == p
      else
        && p'.bin == Playing && p'.tempChange == p.tempChange
        && p'.current.Some? && p'.current.value in IdsOf(p)
        && (!p.random ==> p'.current == Some(p.list.songs[0].id))
  {
    RebuiltSize(p, c);
    if p.bin == Playing {
      ChangeSets(p, p.current, Playing, c.spot);
    } else if p.list.songs != [] {
      ChangeSets(p.(queue := Rebuilt(p, c)), Some(Rebuilt(p, c)[0]), Playing, c.spot);
      assert Rebuilt(p, c)[0] in multiset(Rebuilt(p, c));
    }
  }

  /** Asking for a song by position or identifier starts that song, if it is there. */
  lemma ChosenSongStarts(p: Player, i: nat, spot: nat)
    requires DoPlayAt(p, i, spot).Some?
    ensures if i >= |p.list.songs| then DoPlayAt(p, i, spot).value == p else
      var p' := DoPlayAt(p, i, spot).value;
      && p'.current == Some(p.list.songs[i].id) && p'.bin == Playing
      && p'.tempChange == (p.tempChange || p.bin == Playing)
    ensures i < |p.list.songs| ==> DoPlayId(p, p.list.songs[i].id, spot) == DoPlayAt(p, i, spot)
  {
    if i < |p.list.songs| {
      ChangeSets(p, Some(p.list.songs[i].id), Playing, spot);
    }
  }

  lemma UnknownSongDoesNotStart(p: Player, id: nat, spot: nat)
    requires forall i :: 0 <= i < |p.list.songs| ==> p.list.songs[i].id != id
    ensures DoPlayId(p, id, spot) == Some(p)
  {
  }

  // ---------- What each step sets ----------

  /** The state after moving on in state `bin` to a song or to none. */
  function AfterMove(target: Option<nat>, bin: Bin): Bin {
    if target.Some? || bin != Playing then bin else Ready
  }

  function PlaySetsBin(p: Player): Option<Bin> {
    if p.bin == Playing then Some(if p.current.Some? then Playing else Ready)
    else if p.list.songs == [] then None
    else Some(Playing)
  }

  /** The song `previous` goes to, where that is defined. */
  function PreviousTarget(p: Player, c: Chance): Option<nat> {
    if PreviousSong(p, c).At? then PreviousSong(p, c).song else None
  }

  predicate RemovalMoves(p: Player, s: Search, stale: bool) { InRange(p, s) && MovesOn(p, s, stale) }

  /** The song a removal moves on to. */
  function RemovalTarget(p: Player, s: Search, c: Chance): Option<nat>
    requires InRange(p, s)
  {
    NextSong(Unqueued(p, s), c)
  }

  predicate Listed(p: Player, id: nat) { exists i :: 0 <= i < |p.list.songs| && p.list.songs[i].id == id }

  /** The state a step puts the playbin in, if it touches it. */
  function SetsBin(p: Player, step: Step): Option<Bin> {
    match step
    case Remove(s, stale, c) =>
      if RemovalMoves(p, s, stale) then Some(AfterMove(RemovalTarget(p, s, c), p.bin))
      else if stale then Some(Null)
      else None
    case Clear => Some(Null)
    case Play(_) => PlaySetsBin(p)
    case PlayAt(i, _) => if i < |p.list.songs| then Some(Playing) else None
    case PlayId(id, _) => if Listed(p, id) then Some(Playing) else None
    case Stop => Some(Null)
    case Pause => Some(Paused)
    case Resume(_) => if p.current.None? then PlaySetsBin(p) else if p.bin == Paused then Some(Playing) else None
    case Next(c) => Some(AfterMove(NextSong(p, c), p.bin))
    case Previous(c) => Some(AfterMove(PreviousTarget(p, c), p.bin))
    case AboutToFinish(c) =>
      if p.tempChange then None
      else if p.single == Off then Some(if NextSong(p, c).Some? then Playing else Ready)
      else if p.repeat then Some(if p.current.Some? then Playing else Ready)
      else Some(Null)
    case Bus(bin, _) => Some(bin)
    case _ => None
  }

  /** A song is marked as changed exactly when one is started while one is playing; the mark is taken off when the
      old one is about to finish. */
  function SetsMark(p: Player, step: Step): Option<bool> {
    var started :=
      match step
      case Remove(s, stale, c) => RemovalMoves(p, s, stale) && RemovalTarget(p, s, c).Some?
      case Play(_) => p.current.Some?
      case PlayAt(i, _) => i < |p.list.songs|
      case PlayId(id, _) => Listed(p, id)
      case Next(c) => NextSong(p, c).Some?
      case Previous(c) => PreviousTarget(p, c).Some?
      case AboutToFinish(c) =>
        !p.tempChange && if p.single == Off then NextSong(p, c).Some? else p.repeat && p.current.Some?
      case _ => false;
    if step.AboutToFinish? && p.tempChange then Some(false)
    else if started && p.bin == Playing then Some(true)
    else None
  }

  /** The current song a step chooses, if it chooses. */
  function SetsCurrent(p: Player, step: Step): Option<Option<nat>> {
    match step
    case Remove(s, stale, c) => if RemovalMoves(p, s, stale) then Some(RemovalTarget(p, s, c)) else None
    case Play(c) => StartsAt(p, c)
    case PlayAt(i, _) => if i < |p.list.songs| then Some(Some(p.list.songs[i].id)) else None
    case PlayId(id, _) => if Listed(p, id) then Some(Some(id)) else None
    case Resume(c) => if p.current.None? then StartsAt(p, c) else None
    case Next(c) => Some(NextSong(p, c))
    case Previous(c) => Some(PreviousTarget(p, c))
    case AboutToFinish(c) => if !p.tempChange && p.single == Off then Some(NextSong(p, c)) else None
    case _ => None
  }

  function StartsAt(p: Player, c: Chance): Option<Option<nat>> {
    RebuiltSize(p, c);
    if p.bin == Playing || p.list.songs == [] then None else Some(Some(Rebuilt(p, c)[0]))
  }

  function SetsConsume(step: Step): Option<bool> { if step.SetConsume? then Some(step.on) else None }

  function SetsRandom(step: Step): Option<bool> { if step.SetRandom? then Some(step.on) else None }

  function SetsRepeat(step: Step): Option<bool> { if step.SetRepeat? then Some(step.on) else None }

  /** Oneshot is taken back when a song ends. */
  function SetsSingle(p: Player, step: Step): Option<Single> {
    if step.SetSingle? then Some(step.single)
    else if step.AboutToFinish? && !p.tempChange && p.single == Oneshot then Some(Off)
    else None
  }

  function Or<T>(made: Option<T>, before: T): T { if made.Some? then made.value else before }

  /** All controls of `q` are those of `p` but for what the step sets. */
  ghost predicate Turned(p: Player, step: Step, q: Player) {
    && q.bin == Or(SetsBin(p, step), p.bin)
    && q.tempChange == Or(SetsMark(p, step), p.tempChange)
    && q.current == Or(SetsCurrent(p, step), p.current)
    && q.consume == Or(SetsConsume(step), p.consume)
    && q.random == Or(SetsRandom(step), p.random)
    && q.repeat == Or(SetsRepeat(step), p.repeat)
    && q.single == Or(SetsSingle(p, step), p.single)
  }

  lemma DroppingTurns(p: Player, s: Search, stale: bool, c: Chance)
    requires InRange(p, s) && BeforeRemoving(p, s, stale, c).Some?
    ensures var q := BeforeRemoving(p, s, stale, c).value;
      && SameOptions(p, q)
      && (!MovesOn(p, s, stale) ==>
            q.bin == (if stale then Null else p.bin) && q.tempChange == p.tempChange && q.current == p.current)
      && (MovesOn(p, s, stale) ==>
            var next := NextSong(Unqueued(p, s), c);
            && q.bin == AfterMove(next, p.bin) && q.current == next
            && q.tempChange == (p.tempChange || (next.Some? && p.bin == Playing)))
  {
    if MovesOn(p, s, stale) {
      var q := Unqueued(p, s);
      ChangeSets(BeforeLooking(q, c), NextSong(q, c), q.bin, c.spot);
    }
  }

  lemma RemoveTurns(p: Player, s: Search, stale: bool, c: Chance)
    requires DoRemove(p, s, stale, c).Some?
    ensures Turned(p, Remove(s, stale, c), DoRemove(p, s, stale, c).value)
  {
    DroppingTurns(p, s, stale, c);
  }

  lemma PlayTurns(p: Player, c: Chance)
    requires DoPlay(p, c).Some?
    ensures Turned(p, Play(c), DoPlay(p, c).value)
    ensures p.current.None? ==> Turned(p, Resume(c), DoPlay(p, c).value)
  {
    RebuiltSize(p, c);
    if p.bin == Playing {
      ChangeSets(p, p.current, Playing, c.spot);
    } else if p.list.songs != [] {
      ChangeSets(p.(queue := Rebuilt(p, c)), Some(Rebuilt(p, c)[0]), Playing, c.spot);
    }
  }

  lemma NextTurns(p: Player, c: Chance)
    requires MoveOn(p, p.bin, c).Some?
    ensures Turned(p, Next(c), MoveOn(p, p.bin, c).value)
  {
    ChangeSets(BeforeLooking(p, c), NextSong(p, c), p.bin, c.spot);
  }

  lemma PreviousTurns(p: Player, c: Chance)
    requires DoPrevious(p, c).Some?
    ensures Turned(p, Previous(c), DoPrevious(p, c).value)
  {
    ChangeSets(BeforeLooking(p, c), PreviousSong(p, c).song, p.bin, c.spot);
  }

  /** The end of a song leaves the playbin alone while a change is marked; otherwise it ends in Playing when there
      is a song to go on with, in Ready when there is none, and in Null when single stops it. */
  lemma FinishTurns(p: Player, c: Chance)
    requires DoAboutToFinish(p, c).Some?
    ensures Turned(p, AboutToFinish(c), DoAboutToFinish(p, c).value)
  {
    if !p.tempChange && p.single == Off {
      ChangeSets(BeforeLooking(p, c), NextSong(p, c), Playing, c.spot);
    } else if !p.tempChange && p.repeat {
      var q := if p.single == Oneshot then DoSetSingle(p, Off) else p;
      ChangeSets(q, p.current, Playing, c.spot);
    }
  }

  lemma GoTurns(p: Player, step: Step)
    requires step.PlayAt? || step.PlayId?
    requires Apply(p, step).Some?
    ensures Turned(p, step, Apply(p, step).value)
  {
    if step.PlayAt? && step.i < |p.list.songs| {
      ChangeSets(p, Some(p.list.songs[step.i].id), Playing, step.spot);
    } else if step.PlayId? && P.FindId(p.list.songs, step.id) < |p.list.songs| {
      ChangeSets(p, Some(step.id), Playing, step.spot);
    }
  }

  lemma OptionTurns(p: Player, step: Step)
    requires step.SetConsume? || step.SetRandom? || step.SetRepeat? || step.SetSingle? || step.SetVolume?
    ensures Turned(p, step, Apply(p, step).value)
  {
  }

  lemma ListTurns(p: Player, step: Step)
    requires step.Add? || step.Clear? || step.Shuffle? || step.Status?
    requires Apply(p, step).Some?
    ensures Turned(p, step, Apply(p, step).value)
  {
  }

  lemma BinTurns(p: Player, step: Step)
    requires step.Stop? || step.Pause? || (step.Resume? && p.current.Some?) || step.Bus?
    ensures Apply(p, step).Some? && Turned(p, step, Apply(p, step).value)
  {
  }

  /** Every defined step, whatever it does to the songs. */
  lemma StepTurns(p: Player, step: Step)
    requires Apply(p, step).Some?
    ensures Turned(p, step, Apply(p, step).value)
  {
    if step.Remove? {
      RemoveTurns(p, step.search, step.stale, step.c);
    } else if step.Play? || (step.Resume? && p.current.None?) {
      PlayTurns(p, step.c);
    } else if step.Next? {
      NextTurns(p, step.c);
    } else if step.Previous? {
      PreviousTurns(p, step.c);
    } else if step.AboutToFinish? {
      FinishTurns(p, step.c);
    } else if step.PlayAt? || step.PlayId? {
      GoTurns(p, step);
    } else if step.Add? || step.Clear? || step.Shuffle? || step.Status? {
      ListTurns(p, step);
    } else if step.Stop? || step.Pause? || step.Resume? || step.Bus? {
      BinTurns(p, step);
    } else {
      OptionTurns(p, step);
    }
  }

  // ---------- Over a run ----------

  /** What the last step of the run to set something set it to. */
  function Latest<T>(p: Player, run: seq<Step>, sets: (Player, Step) -> Option<T>): Option<T>
    requires Legal(p, run)
    decreases |run|
  {
    if run == [] then None
    else
      var later := Latest(Apply(p, run[0]).value, run[1..], sets);
      if later.Some? then later else sets(p, run[0])
  }

  lemma {:induction false} LatestHolds<T(!new)>(
      p: Player, run: seq<Step>, sets: (Player, Step) -> Option<T>, control: Player -> T)
    requires Legal(p, run)
    requires forall q: Player, step: Step :: Apply(q, step).Some? ==>
      control(Apply(q, step).value) == Or(sets(q, step), control(q))
    ensures control(After(p, run)) == Or(Latest(p, run, sets), control(p))
    decreases |run|
  {
    if run != [] {
      LatestHolds(Apply(p, run[0]).value, run[1..], sets, control);
    }
  }

  /** Over every run the playbin is in the state the last step to touch it put it in, the mark and the current song
      are what the last step to set them made them, and every option is what it was last set to, but for a
      oneshot that was used up. */
  lemma RunTurns(p: Player, run: seq<Step>)
    requires Legal(p, run)
    ensures After(p, run).bin == Or(Latest(p, run, SetsBin), p.bin)
    ensures After(p, run).tempChange == Or(Latest(p, run, SetsMark), p.tempChange)
    ensures After(p, run).current == Or(Latest(p, run, SetsCurrent), p.current)
    ensures After(p, run).consume == Or(Latest(p, run, (q, step) => SetsConsume(step)), p.consume)
    ensures After(p, run).random == Or(Latest(p, run, (q, step) => SetsRandom(step)), p.random)
    ensures After(p, run).repeat == Or(Latest(p, run, (q, step) => SetsRepeat(step)), p.repeat)
    ensures After(p, run).single == Or(Latest(p, run, SetsSingle), p.single)
  {
    forall q: Player, step: Step | Apply(q, step).Some? ensures Turned(q, step, Apply(q, step).value) {
      StepTurns(q, step);
    }
    LatestHolds(p, run, SetsBin, (q: Player) => q.bin);
    LatestHolds(p, run, SetsMark, (q: Player) => q.tempChange);
    LatestHolds(p, run, SetsCurrent, (q: Player) => q.current);
    LatestHolds(p, run, (q, step) => SetsConsume(step), (q: Player) => q.consume);
    LatestHolds(p, run, (q, step) => SetsRandom(step), (q: Player) => q.random);
    LatestHolds(p, run, (q, step) => SetsRepeat(step), (q: Player) => q.repeat);
    LatestHolds(p, run, SetsSingle, (q: Player) => q.single);
  }

  /** While the playbin does not change its state by itself, it plays only when there is a current song. */
  lemma {:induction false} PlayingMeansCurrent(p: Player, run: seq<Step>)
    requires Legal(p, run) && forall i :: 0 <= i < |run| ==> !run[i].Bus?
    requires p.bin == Playing ==> p.current.Some?
    ensures After(p, run).bin == Playing ==> After(p, run).current.Some?
    decreases |run|
  {
    if run != [] {
      StepTurns(p, run[0]);
      var q := Apply(p, run[0]).value;
      assert !run[0].Bus?;
      PlayingMeansCurrent(q, run[1..]);
    }
  }

  // ---------- Single ----------

  predicate OnlyFinishes(run: seq<Step>) { forall i :: 0 <= i < |run| ==> run[i].AboutToFinish? }

  /** Always stays on and stays with its song, however many songs end. */
  lemma {:induction false} AlwaysStays(p: Player, run: seq<Step>)
    requires Legal(p, run) && OnlyFinishes(run) && p.single == Always
    ensures After(p, run).single == Always && After(p, run).current == p.current
    decreases |run|
  {
    if run != [] {
      StepTurns(p, run[0]);
      AlwaysStays(Apply(p, run[0]).value, run[1..]);
    }
  }

  /** Oneshot is good for one song: at its end single is off, the song is played once more under repeat, and
      after that the next one follows. Without repeat the playbin stops. */
  lemma OneshotLastsOneSong(p: Player, x: nat, first: Chance, second: Chance, third: Chance)
    requires p.single == Oneshot && !p.tempChange && p.bin == Playing && p.current == Some(x)
    requires Legal(p, [AboutToFinish(first)])
    ensures var p1 := Apply(p, AboutToFinish(first)).value;
      && p1.single == Off && p1.current == Some(x)
      && if !p.repeat then p1.bin == Null && !p1.tempChange
         else
           && p1.bin == Playing && p1.tempChange
           && var p2 := Apply(p1, AboutToFinish(second)).value;
              && p2 == p1.(tempChange := false)
              && (Apply(p2, AboutToFinish(third)).Some? ==>
                    Apply(p2, AboutToFinish(third)).value.current == NextSong(p2, third))
  {
    StepTurns(p, AboutToFinish(first));
    var p1 := Apply(p, AboutToFinish(first)).value;
    if p.repeat {
      var p2 := Apply(p1, AboutToFinish(second)).value;
      if Apply(p2, AboutToFinish(third)).Some? {
        StepTurns(p2, AboutToFinish(third));
      }
    }
  }

  // ---------- What chance can do ----------

  /** A new entry of the queue can come to stand anywhere under random, and only at the end without. */
  lemma PlacesReached(p: Player, x: nat, queue: seq<nat>)
    ensures (exists spot: nat :: Inserted(p, x, spot) == queue) <==>
      exists i: nat :: i <= |p.queue| && (p.random || i == |p.queue|) && p.queue[..i] + [x] + p.queue[i..] == queue
  {
    var n := |p.queue|;
    assert p.queue[..n] + [x] + p.queue[n..] == p.queue + [x];
    if spot: nat :| Inserted(p, x, spot) == queue {
      var i := if p.random && spot < n then spot else n;
      assert p.queue[..i] + [x] + p.queue[i..] == queue;
    }
    if i: nat :| i <= n && (p.random || i == n) && p.queue[..i] + [x] + p.queue[i..] == queue {
      assert Inserted(p, x, i) == queue;
    }
  }

  /** An added song is queued where a new entry can stand, and once more behind everything. */
  lemma AddQueuesTwice(p: Player, url: string, position: int, queue: seq<nat>)
    requires P.Add(p.list, url, position).Some?
    ensures (exists spot: nat :: DoAdd(p, url, position, spot).value.queue == queue) <==>
      exists i: nat :: i <= |p.queue| && (p.random || i == |p.queue|)
        && p.queue[..i] + [p.list.counter] + p.queue[i..] + [p.list.counter] == queue
  {
    var x := p.list.counter;
    if spot: nat :| DoAdd(p, url, position, spot).value.queue == queue {
      PlacesReached(p, x, Inserted(p, x, spot));
      assert queue == Inserted(p, x, spot) + [x];
    }
    if i: nat :| i <= |p.queue| && (p.random || i == |p.queue|) && p.queue[..i] + [x] + p.queue[i..] + [x] == queue {
      PlacesReached(p, x, p.queue[..i] + [x] + p.queue[i..]);
      var spot: nat :| Inserted(p, x, spot) == p.queue[..i] + [x] + p.queue[i..];
      assert DoAdd(p, url, position, spot).value.queue == queue;
    }
  }

  /** Shuffling can bring the songs into any order and no other songs into the list; the queue follows the list, in
      any order of its own under random. */
  lemma OrdersReached(p: Player, songs: seq<P.Song>, queue: seq<nat>)
    ensures (exists order, c :: DoShuffle(p, order, c).list.songs == songs && DoShuffle(p, order, c).queue == queue)
      <==> multiset(songs) == multiset(p.list.songs)
           && if p.random then multiset(queue) == multiset(P.Ids(songs)) else queue == P.Ids(songs)
  {
    if order, c :| DoShuffle(p, order, c).list.songs == songs && DoShuffle(p, order, c).queue == queue {
      RebuiltSize(p.(list := p.list.(songs := songs)), c);
    }
    if multiset(songs) == multiset(p.list.songs)
       && if p.random then multiset(queue) == multiset(P.Ids(songs)) else queue == P.Ids(songs) {
      var q := DoShuffle(p, songs, Chance(queue, 0));
      assert q.list.songs == songs && q.queue == queue;
    }
  }

  /** Switching random on can bring the queue into any order; switching it off puts it in the order of the list;
      switching it to what it is changes nothing. */
  lemma RandomReorders(p: Player, queue: seq<nat>)
    ensures !p.random ==>
      ((exists c :: DoSetRandom(p, true, c).queue == queue) <==> multiset(queue) == multiset(p.queue))
    ensures forall c :: DoSetRandom(p, p.random, c).queue == p.queue
    ensures p.random ==> forall c :: DoSetRandom(p, false, c).queue == IdsOf(p)
  {
    if multiset(queue) == multiset(p.queue) && !p.random {
      assert DoSetRandom(p, true, Chance(queue, 0)).queue == queue;
    }
  }
}

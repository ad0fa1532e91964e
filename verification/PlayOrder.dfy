/**
 What the queue of src/ActivePlaylist.cpp owes the song list: which entries it
 has too many, and what each operation adds to or takes from them.
 */
module PlayOrder {
  import opened Common
  import opened ActivePlaylist
  import P = Playlist
  import M = MpdState

  // ---------- Counting ----------

  /** How many entries for `x` the queue has too many. */
  function Excess(p: Player, x: nat): int {
    multiset(p.queue)[x] as int - multiset(IdsOf(p))[x] as int
  }

  lemma CountErased(q: seq<nat>, i: nat, x: nat)
    requires i < |q|
    ensures multiset(P.Erase(q, i))[x] as int == multiset(q)[x] as int - if x == q[i] then 1 else 0
  {
    assert q == q[..i] + [q[i]] + q[i + 1..];
  }

  lemma CountInserted(p: Player, y: nat, spot: nat, x: nat)
    ensures multiset(Inserted(p, y, spot))[x] == multiset(p.queue)[x] + if x == y then 1 else 0
  {
    if spot < |p.queue| {
      assert p.queue == p.queue[..spot] + p.queue[spot..];
    }
  }

  lemma IdsErased(s: seq<P.Song>, j: nat)
    requires j < |s|
    ensures P.Ids(P.Erase(s, j)) == P.Erase(P.Ids(s), j)
  {
  }

  lemma ListedExactlyWhen(s: seq<P.Song>, x: nat)
    ensures x in P.Ids(s) <==> P.FindId(s, x) < |s|
  {
    if P.FindId(s, x) < |s| {
      assert P.Ids(s)[P.FindId(s, x)] == x;
    }
    if x in P.Ids(s) {
      var i :| 0 <= i < |s| && P.Ids(s)[i] == x;
      assert s[i].id == x;
    }
  }

  /** The excess at `x` after the song at `j` has left the list. */
  lemma ExcessRemoved(p: Player, j: nat, x: nat)
    ensures Excess(p.(list := P.RemoveAt(p.list, j)), x) ==
      Excess(p, x) + if j < |p.list.songs| && p.list.songs[j].id == x then 1 else 0
  {
    if j < |p.list.songs| {
      IdsErased(p.list.songs, j);
      CountErased(IdsOf(p), j, x);
    }
  }

  lemma ExcessUnqueued(p: Player, i: nat, x: nat)
    requires i < |p.queue|
    ensures Excess(p.(queue := P.Erase(p.queue, i)), x) == Excess(p, x) - if p.queue[i] == x then 1 else 0
  {
    CountErased(p.queue, i, x);
  }

  /** Consuming takes the same song out of both. */
  lemma ExcessConsumed(p: Player, x: nat)
    requires Consumed(p).Some?
    ensures Excess(Consumed(p).value, x) == Excess(p, x)
  {
    if p.consume && p.current.Some? {
      var i := Find(p.queue, p.current.value);
      var j := P.FindId(p.list.songs, p.current.value);
      ExcessUnqueued(p, i, x);
      ExcessRemoved(p.(queue := P.Erase(p.queue, i)), j, x);
    }
  }

  lemma ExcessStarted(p: Player, target: Option<nat>, bin: Bin, spot: nat, x: nat)
    ensures Excess(Started(p, target, bin, spot), x) ==
      Excess(p, x) + if target == Some(x) && x !in p.queue then 1 else 0
  {
    if target.Some? {
      CountInserted(p, target.value, spot, x);
    }
  }

  /** Changing songs adds to the excess exactly what the insertion branch adds. */
  lemma ExcessChanged(p: Player, target: Option<nat>, bin: Bin, spot: nat, x: nat)
    requires ChangeSong(p, target, bin, spot).Some?
    ensures Excess(ChangeSong(p, target, bin, spot).value, x) ==
      Excess(p, x) + if Reinserts(p, target) && target == Some(x) then 1 else 0
  {
    ExcessConsumed(p, x);
    ExcessStarted(Consumed(p).value, target, bin, spot, x);
  }

  // ---------- The invariant ----------

  /** The queue has one entry for every listed song, and one more for every song added since the counter
      stood at `mark`. */
  ghost predicate Owes(p: Player, mark: nat) {
    && P.Valid(p.list) && mark <= p.list.counter
    && forall x: nat :: Excess(p, x) == if mark <= x < p.list.counter then 1 else 0
  }

  predicate FinishRebuilds(p: Player) { !p.tempChange && p.single == Off && Looks(p) && p.repeat }

  predicate FinishReinserts(p: Player, c: Chance) {
    !p.tempChange &&
    if p.single == Off then Reinserts(BeforeLooking(p, c), NextSong(p, c)) else p.repeat && Reinserts(p, p.current)
  }

  predicate PlayReinserts(p: Player, c: Chance) {
    RebuiltSize(p, c);
    if Starts(p) then Reinserts(p.(queue := Rebuilt(p, c)), Some(Rebuilt(p, c)[0]))
    else p.bin == Playing && Reinserts(p, p.current)
  }

  lemma RebuiltOwes(p: Player, c: Chance)
    requires P.Valid(p.list)
    ensures Owes(p.(queue := Rebuilt(p, c)), p.list.counter)
  {
    RebuiltSize(p, c);
  }

  lemma LookingOwes(p: Player, c: Chance, mark: nat)
    requires Owes(p, mark)
    ensures Owes(BeforeLooking(p, c), if Looks(p) && p.repeat then p.list.counter else mark)
  {
    RebuiltOwes(p, c);
  }

  lemma ConsumedValid(p: Player)
    requires P.Valid(p.list) && Consumed(p).Some?
    ensures P.Valid(Consumed(p).value.list) && Consumed(p).value.list.counter == p.list.counter
  {
    if p.consume && p.current.Some? {
      P.EraseKeeps(p.list, P.FindId(p.list.songs, p.current.value));
    }
  }

  lemma ChangeOwes(p: Player, target: Option<nat>, bin: Bin, spot: nat, mark: nat)
    requires Owes(p, mark) && ChangeSong(p, target, bin, spot).Some?
    ensures var p' := ChangeSong(p, target, bin, spot).value;
      && P.Valid(p'.list) && p'.list.counter == p.list.counter
      && (Owes(p', mark) <==> !Reinserts(p, target))
  {
    var p' := ChangeSong(p, target, bin, spot).value;
    ConsumedValid(p);
    forall x: nat ensures Excess(p', x) == Excess(p, x) + if Reinserts(p, target) && target == Some(x) then 1 else 0 {
      ExcessChanged(p, target, bin, spot, x);
    }
    if Reinserts(p, target) {
      var x := target.value;
      assert Excess(p, x) + 1 == Excess(p', x);
    }
  }

  lemma MoveOnOwes(p: Player, bin: Bin, c: Chance, mark: nat)
    requires Owes(p, mark) && MoveOn(p, bin, c).Some?
    ensures var p' := MoveOn(p, bin, c).value;
      Owes(p', if Looks(p) && p.repeat then p.list.counter else mark) <==>
        !Reinserts(BeforeLooking(p, c), NextSong(p, c))
  {
    LookingOwes(p, c, mark);
    ChangeOwes(BeforeLooking(p, c), NextSong(p, c), bin, c.spot, if Looks(p) && p.repeat then p.list.counter else mark);
  }

  lemma PlayOwes(p: Player, c: Chance, mark: nat)
    requires Owes(p, mark) && DoPlay(p, c).Some?
    ensures Owes(DoPlay(p, c).value, if Starts(p) then p.list.counter else mark) <==> !PlayReinserts(p, c)
  {
    RebuiltSize(p, c);
    if Starts(p) {
      RebuiltOwes(p, c);
      ChangeOwes(p.(queue := Rebuilt(p, c)), Some(Rebuilt(p, c)[0]), Playing, c.spot, p.list.counter);
    } else if p.bin == Playing {
      ChangeOwes(p, p.current, Playing, c.spot, mark);
    }
  }

  lemma PreviousOwes(p: Player, c: Chance, mark: nat)
    requires Owes(p, mark) && DoPrevious(p, c).Some?
    ensures Owes(DoPrevious(p, c).value, if Looks(p) && p.repeat then p.list.counter else mark) <==>
      !Reinserts(BeforeLooking(p, c), PreviousSong(p, c).song)
  {
    var m := if Looks(p) && p.repeat then p.list.counter else mark;
    LookingOwes(p, c, mark);
    ChangeOwes(BeforeLooking(p, c), PreviousSong(p, c).song, p.bin, c.spot, m);
  }

  lemma SameLedger(p: Player, p': Player, mark: nat)
    requires p.list == p'.list && multiset(p.queue) == multiset(p'.queue)
    ensures Owes(p, mark) <==> Owes(p', mark)
  {
    assert forall x: nat :: Excess(p, x) == Excess(p', x);
  }

  lemma SingleOwes(p: Player, c: Chance, mark: nat)
    requires Owes(p, mark) && !p.tempChange && p.single != Off && DoAboutToFinish(p, c).Some?
    ensures Owes(DoAboutToFinish(p, c).value, mark) <==> !(p.repeat && Reinserts(p, p.current))
  {
    var p' := if p.single == Oneshot then DoSetSingle(p, Off) else p;
    SameLedger(p, p', mark);
    if p.repeat {
      ChangeOwes(p', p.current, Playing, c.spot, mark);
      assert Reinserts(p', p.current) == Reinserts(p, p.current);
    } else {
      SameLedger(p, p'.(bin := Null), mark);
    }
  }

  lemma FinishOwes(p: Player, c: Chance, mark: nat)
    requires Owes(p, mark) && DoAboutToFinish(p, c).Some?
    ensures Owes(DoAboutToFinish(p, c).value, if FinishRebuilds(p) then p.list.counter else mark)
      <==> !FinishReinserts(p, c)
  {
    if p.tempChange {
      SameLedger(p, p.(tempChange := false), mark);
    } else if p.single == Off {
      MoveOnOwes(p, Playing, c, mark);
    } else {
      SingleOwes(p, c, mark);
    }
  }

  lemma AddOwes(p: Player, url: string, position: int, spot: nat, mark: nat)
    requires Owes(p, mark) && DoAdd(p, url, position, spot).Some?
    ensures Owes(DoAdd(p, url, position, spot).value, mark)
  {
    var p' := DoAdd(p, url, position, spot).value;
    var i := P.InsertionPoint(|p.list.songs|, position).value;
    var song := P.NewSong(url, p.list.counter);
    P.InsertKeeps(p.list, i, song);
    forall x: nat ensures Excess(p', x) == Excess(p, x) + if x == p.list.counter then 1 else 0 {
      CountInserted(p, song.id, spot, x);
      IdsInserted(p.list.songs, i, song, x);
    }
  }

  lemma IdsInserted(s: seq<P.Song>, i: nat, song: P.Song, x: nat)
    requires i <= |s|
    ensures multiset(P.Ids(P.InsertAt(s, i, song)))[x] == multiset(P.Ids(s))[x] + if x == song.id then 1 else 0
  {
    var ids := P.Ids(s);
    assert P.Ids(P.InsertAt(s, i, song)) == ids[..i] + [song.id] + ids[i..];
    assert ids == ids[..i] + ids[i..];
  }

  /** Without a rebuild the next song is still in the queue once the current one has been consumed. */
  lemma NextIsQueued(p: Player, c: Chance)
    requires !(Looks(p) && p.repeat) && Consumed(p).Some?
    ensures !Reinserts(p, NextSong(p, c))
  {
    if Looks(p) && p.consume && p.current.Some? {
      var i := Find(p.queue, p.current.value);
      if i + 1 < |p.queue| {
        assert P.Erase(p.queue, i)[i] == p.queue[i + 1];
      }
    }
  }
}

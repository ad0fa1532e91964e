/**
 What the ledger of PlayOrder means: when the queue is a permutation of the
 songs, and when `changeSong` takes the branch that breaks it.
 */
module PlayMeaning {
  import opened Common
  import opened ActivePlaylist
  import opened PlayOrder
  import P = Playlist

  ghost predicate IsPermutation(p: Player) { multiset(p.queue) == multiset(IdsOf(p)) }

  lemma {:induction false} AllOnceIsDistinct(q: seq<nat>)
    requires forall x: nat :: multiset(q)[x] <= 1
    ensures P.Distinct(q)
  {
    forall i, j | 0 <= i < j < |q| ensures q[i] != q[j] {
      assert q == q[..j] + [q[j]] + q[j + 1..];
      assert q[i] in q[..j];
      assert multiset(q)[q[j]] <= 1;
    }
  }

  lemma DistinctIsOnce(q: seq<nat>, x: nat)
    requires P.Distinct(q)
    ensures multiset(q)[x] == if x in q then 1 else 0
  {
    var i := Find(q, x);
    if i < |q| {
      assert q == q[..i] + [q[i]] + q[i + 1..];
      assert x !in q[i + 1..];
    }
  }

  /** Under the ledger the queue is a permutation of the songs exactly when nothing was added since it was
      last rebuilt, and then it has no duplicates. */
  lemma PermutationExactlyWhen(p: Player, mark: nat)
    requires Owes(p, mark)
    ensures IsPermutation(p) <==> mark == p.list.counter
    ensures IsPermutation(p) ==> P.Distinct(p.queue)
  {
    if mark < p.list.counter {
      assert Excess(p, mark) == 1;
    } else {
      forall x: nat ensures multiset(p.queue)[x] == multiset(IdsOf(p))[x] { assert Excess(p, x) == 0; }
      SameCounts(p.queue, IdsOf(p));
    }
    if IsPermutation(p) {
      forall x: nat ensures multiset(p.queue)[x] <= 1 { DistinctIsOnce(IdsOf(p), x); }
      AllOnceIsDistinct(p.queue);
    }
  }

  lemma SameCounts(a: seq<nat>, b: seq<nat>)
    requires forall x: nat :: multiset(a)[x] == multiset(b)[x]
    ensures multiset(a) == multiset(b)
  {
  }

  // ---------- The insertion branch of changeSong ----------

  predicate Listed(p: Player, x: nat) { P.FindId(p.list.songs, x) < |p.list.songs| }

  lemma ListedIsQueued(p: Player, mark: nat, x: nat)
    requires Owes(p, mark) && Listed(p, x)
    ensures x in p.queue
  {
    ListedExactlyWhen(p.list.songs, x);
    assert x in multiset(IdsOf(p));
    assert Excess(p, x) >= 0;
    assert x in multiset(p.queue);
  }

  /** `changeSong` inserts the new song into the queue exactly when it is the current song again: the one
      just consumed, if it stood in the queue once, or one that had left the queue before. */
  lemma ReinsertsExactlyWhen(p: Player, mark: nat, x: nat)
    requires Owes(p, mark) && Consumed(p).Some? && (Listed(p, x) || x in p.queue || p.current == Some(x))
    ensures Reinserts(p, Some(x)) <==>
      p.current == Some(x) && if p.consume then multiset(p.queue)[x] == 1 else x !in p.queue
  {
    if Listed(p, x) {
      ListedIsQueued(p, mark, x);
    }
    if p.consume && p.current.Some? {
      CountErased(p.queue, Find(p.queue, p.current.value), x);
      assert x in Consumed(p).value.queue <==> x in multiset(Consumed(p).value.queue);
      assert x in p.queue <==> x in multiset(p.queue);
    }
  }

  lemma FollowingDiffers(q: seq<nat>, current: Option<nat>, repeat: bool)
    requires q != [] && P.Distinct(q)
    ensures Following(q, current, repeat).Some? ==> Following(q, current, repeat).value in q
    ensures |q| >= 2 && current.Some? ==> Following(q, current, repeat) != current
    ensures |q| == 1 ==> Following(q, current, repeat) == if repeat then Some(q[0]) else None
  {
  }

  /** Consume is on and the current song is all there is. */
  predicate OnlySong(p: Player) { p.consume && p.current.Some? && IdsOf(p) == [p.current.value] }

  lemma RebuiltReinsertsExactlyWhen(p: Player, c: Chance)
    requires P.Valid(p.list) && p.list.songs != [] && p.repeat && Consumed(BeforeLooking(p, c)).Some?
    ensures Reinserts(BeforeLooking(p, c), NextSong(p, c)) <==> OnlySong(p)
  {
    var p' := BeforeLooking(p, c);
    RebuiltOwes(p, c);
    RebuiltSize(p, c);
    PermutationExactlyWhen(p', p.list.counter);
    FollowingDiffers(p'.queue, p.current, true);
    var x := NextSong(p, c).value;
    ReinsertsExactlyWhen(p', p.list.counter, x);
    DistinctIsOnce(p'.queue, x);
    if |p.list.songs| == 1 {
      assert IdsOf(p) == [IdsOf(p)[0]] && p'.queue == [p'.queue[0]];
      assert p'.queue[0] in multiset(IdsOf(p));
    }
  }

  /** `next` takes the insertion branch exactly when repeat and consume are on and the current song is the
      only one there is. */
  lemma NextReinsertsExactlyWhen(p: Player, c: Chance, mark: nat)
    requires Owes(p, mark) && MoveOn(p, p.bin, c).Some?
    ensures Reinserts(BeforeLooking(p, c), NextSong(p, c)) <==> p.repeat && OnlySong(p)
  {
    if p.list.songs != [] && p.repeat {
      RebuiltReinsertsExactlyWhen(p, c);
    } else {
      NextIsQueued(p, c);
    }
  }

  // ---------- The list without the current song ----------

  lemma ErasedListed(l: P.Songs, j: nat, x: nat)
    requires P.Valid(l) && j < |l.songs|
    ensures P.FindId(P.RemoveAt(l, j).songs, x) < |P.RemoveAt(l, j).songs|
      <==> P.FindId(l.songs, x) < |l.songs| && l.songs[j].id != x
  {
    ListedExactlyWhen(l.songs, x);
    ListedExactlyWhen(P.RemoveAt(l, j).songs, x);
    IdsErased(l.songs, j);
    CountErased(P.Ids(l.songs), j, x);
    DistinctIsOnce(P.Ids(l.songs), x);
    assert x in P.Ids(P.RemoveAt(l, j).songs) <==> x in multiset(P.Ids(P.RemoveAt(l, j).songs));
    assert P.Ids(l.songs)[j] == l.songs[j].id;
  }

  lemma ConsumedListed(p: Player, x: nat)
    requires P.Valid(p.list) && Consumed(p).Some?
    ensures Listed(Consumed(p).value, x) <==> Listed(p, x) && !(p.consume && p.current == Some(x))
  {
    if p.consume && p.current.Some? {
      ErasedListed(p.list, P.FindId(p.list.songs, p.current.value), x);
    }
  }

  function ListAfterConsuming(p: Player): P.Songs {
    if p.consume && p.current.Some? then P.RemoveAt(p.list, P.FindId(p.list.songs, p.current.value)) else p.list
  }

  lemma ChangedList(p: Player, target: Option<nat>, bin: Bin, spot: nat)
    requires ChangeSong(p, target, bin, spot).Some?
    ensures ChangeSong(p, target, bin, spot).value.list == ListAfterConsuming(p)
    ensures p.consume && p.current.Some? ==> Listed(p, p.current.value)
  {
  }

  lemma MovedList(p: Player, bin: Bin, c: Chance)
    requires MoveOn(p, bin, c).Some?
    ensures MoveOn(p, bin, c).value.list == ListAfterConsuming(p)
    ensures p.consume && p.current.Some? ==> Listed(p, p.current.value)
  {
    ChangedList(BeforeLooking(p, c), NextSong(p, c), bin, c.spot);
  }

  lemma QueuedIsListed(p: Player, x: nat)
    requires Owes(p, p.list.counter) && x in p.queue
    ensures Listed(p, x)
  {
    assert x in multiset(p.queue) && Excess(p, x) == 0;
    assert x in multiset(IdsOf(p));
    ListedExactlyWhen(p.list.songs, x);
  }
}

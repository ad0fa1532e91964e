/**
 Where `play`, `next` and `previous` of src/ActivePlaylist.cpp go: consuming
 drains the list, repeating goes round it, and what the events they push are.
 */
module PlayCycles {
  import opened Common
  import opened ActivePlaylist
  import opened PlayOrder
  import opened PlayMeaning
  import P = Playlist
  import M = MpdState

  function OneNext(p: Player, c: Chance): Option<Player> { MoveOn(p, p.bin, c) }

  function Iterate<S, C>(s: S, cs: seq<C>, step: (S, C) -> Option<S>): Option<S>
    decreases |cs|
  {
    if cs == [] then Some(s)
    else match step(s, cs[0])
      case None => None
      case Some(s') => Iterate(s', cs[1..], step)
  }

  /** What every step carries from count `k` to count `k + 1`, the iteration carries all the way. */
  lemma {:induction false} IterateCarries<S(!new), C(!new)>(
      s: S, cs: seq<C>, step: (S, C) -> Option<S>, inv: (S, nat) -> bool, k: nat)
    requires inv(s, k)
    requires forall s: S, c: C, k: nat {:trigger inv(s, k), step(s, c)} ::
      inv(s, k) ==> step(s, c).Some? && inv(step(s, c).value, k + 1)
    ensures Iterate(s, cs, step).Some? && inv(Iterate(s, cs, step).value, k + |cs|)
    decreases |cs|
  {
    if cs != [] {
      assert step(s, cs[0]).Some?;
      IterateCarries(step(s, cs[0]).value, cs[1..], step, inv, k + 1);
    }
  }

  /** Any number of `next`s. */
  function AfterNexts(p: Player, cs: seq<Chance>): Option<Player> { Iterate(p, cs, OneNext) }

  // ---------- Consuming ----------

  /** Consume on, repeat off, a permutation for a queue, and its first song playing. */
  ghost predicate Draining(p: Player) {
    Owes(p, p.list.counter) && p.consume && !p.repeat && p.queue != [] && p.current == Some(p.queue[0])
  }

  /** All played. */
  predicate Drained(p: Player) { p.list.songs == [] && p.queue == [] && p.current.None? && p.consume && !p.repeat }

  lemma EmptyTogether(p: Player)
    requires IsPermutation(p)
    ensures p.queue == [] <==> p.list.songs == []
  {
    assert |multiset(p.queue)| == |multiset(IdsOf(p))|;
  }

  lemma DrainStep(p: Player, c: Chance)
    requires Draining(p)
    ensures MoveOn(p, p.bin, c).Some?
    ensures var p' := MoveOn(p, p.bin, c).value;
      p'.queue == p.queue[1..] && if |p.queue| > 1 then Draining(p') else Drained(p')
  {
    PermutationExactlyWhen(p, p.list.counter);
    EmptyTogether(p);
    QueuedIsListed(p, p.queue[0]);
    assert Find(p.queue, p.queue[0]) == 0;
    NextIsQueued(p, c);
    ChangeOwes(p, NextSong(p, c), p.bin, c.spot, p.list.counter);
    var p' := MoveOn(p, p.bin, c).value;
    assert P.Erase(p.queue, 0) == p.queue[1..];
    PermutationExactlyWhen(p', p'.list.counter);
    EmptyTogether(p');
  }

  /** `next` on a drained player changes neither the list, the queue nor the current song. */
  lemma DrainedStays(p: Player, c: Chance)
    requires Drained(p)
    ensures MoveOn(p, p.bin, c).Some? && Drained(MoveOn(p, p.bin, c).value)
  {
  }

  /** The order fixed by `play`, played up to place `k`. */
  ghost predicate Played(p: Player, order: seq<nat>, k: nat) {
    if k < |order| then Draining(p) && p.queue == order[k..] else Drained(p)
  }

  lemma PlayedStep(p: Player, order: seq<nat>, k: nat, c: Chance)
    requires Played(p, order, k)
    ensures MoveOn(p, p.bin, c).Some? && Played(MoveOn(p, p.bin, c).value, order, k + 1)
  {
    if k < |order| {
      DrainStep(p, c);
      assert order[k..][1..] == order[k + 1..];
    } else {
      DrainedStays(p, c);
    }
  }

  lemma PlayedRun(p: Player, order: seq<nat>, cs: seq<Chance>)
    requires Played(p, order, 0)
    ensures AfterNexts(p, cs).Some? && Played(AfterNexts(p, cs).value, order, |cs|)
  {
    forall q, c, k: nat | Played(q, order, k) ensures OneNext(q, c).Some? && Played(OneNext(q, c).value, order, k + 1) {
      PlayedStep(q, order, k, c);
    }
    IterateCarries(p, cs, OneNext, (q, k) => Played(q, order, k), 0);
  }

  /** With consume on, repeat off and nothing current, `play` fixes an order of the songs. After any number
      of `next`s less than the number of songs the current song is the next one of that order and the
      queue is what is left of it; from then on list, queue and current song are empty. */
  lemma ConsumeDrainsCompletely(p: Player, c: Chance, cs: seq<Chance>)
    requires P.Valid(p.list) && p.consume && !p.repeat && p.current.None? && p.bin != Playing && p.list.songs != []
    ensures multiset(Rebuilt(p, c)) == multiset(IdsOf(p)) && P.Distinct(Rebuilt(p, c))
    ensures DoPlay(p, c).Some? && AfterNexts(DoPlay(p, c).value, cs).Some?
    ensures var order, k, p' := Rebuilt(p, c), |cs|, AfterNexts(DoPlay(p, c).value, cs).value;
      if k < |order| then
        && p'.current == Some(order[k]) && p'.queue == order[k..]
        && multiset(IdsOf(p')) == multiset(order[k..])
      else Drained(p')
  {
    var q := p.(queue := Rebuilt(p, c));
    RebuiltOwes(p, c);
    RebuiltSize(p, c);
    PermutationExactlyWhen(q, p.list.counter);
    ChangeOwes(q, Some(q.queue[0]), Playing, c.spot, p.list.counter);
    var p' := DoPlay(p, c).value;
    assert Draining(p') && q.queue[0..] == q.queue;
    PlayedRun(p', q.queue, cs);
    if |cs| < |q.queue| {
      PermutationExactlyWhen(AfterNexts(p', cs).value, AfterNexts(p', cs).value.list.counter);
    }
  }

  // ---------- Repeating ----------

  predicate Cycling(p: Player, i: nat) {
    p.repeat && !p.random && !p.consume && i < |p.list.songs| && p.current == Some(p.list.songs[i].id)
  }

  function Wrap(i: nat, n: nat): nat { if i + 1 < n then i + 1 else 0 }

  function Turned(i: nat, k: nat, n: nat): (r: nat)
    requires n > 0
    ensures r < n
  {
    (i + k) % n
  }

  lemma TurnedNext(i: nat, k: nat, n: nat)
    requires n > 0
    ensures Turned(i, k + 1, n) == Wrap(Turned(i, k, n), n)
  {
    var x := i + k;
    var q, r := x / n, x % n;
    assert x == n * q + r;
    if r + 1 < n {
      ModUnique(x + 1, q, r + 1, n);
    } else {
      assert n * (q + 1) == n * q + n;
      ModUnique(x + 1, q + 1, 0, n);
    }
  }

  lemma CycleTarget(p: Player, i: nat, c: Chance)
    requires P.Valid(p.list) && Cycling(p, i)
    ensures NextSong(p, c) == Some(p.list.songs[Wrap(i, |p.list.songs|)].id)
    ensures NextSong(p, c).value in IdsOf(p)
  {
    var ids := IdsOf(p);
    var j := Find(ids, p.current.value);
    assert ids[i] == p.current.value && ids[j] == ids[i];
    assert i == j;
  }

  lemma CycleStep(p: Player, i: nat, c: Chance)
    requires P.Valid(p.list) && Cycling(p, i)
    ensures MoveOn(p, p.bin, c).Some?
    ensures var p' := MoveOn(p, p.bin, c).value; p'.list == p.list && Cycling(p', Wrap(i, |p.list.songs|))
  {
    CycleTarget(p, i, c);
  }

  predicate Cycled(p: Player, list: P.Songs, i: nat, k: nat) {
    p.list == list && list.songs != [] && Cycling(p, Turned(i, k, |list.songs|))
  }

  lemma CycledStep(p: Player, list: P.Songs, i: nat, k: nat, c: Chance)
    requires P.Valid(list) && Cycled(p, list, i, k)
    ensures OneNext(p, c).Some? && Cycled(OneNext(p, c).value, list, i, k + 1)
  {
    CycleStep(p, Turned(i, k, |list.songs|), c);
    TurnedNext(i, k, |list.songs|);
  }

  /** With repeat on and random and consume off, the k-th `next` from the i-th song plays song (i + k) modulo
      the number of songs, and the list stays as it is. */
  lemma RepeatGoesRound(p: Player, i: nat, cs: seq<Chance>)
    requires P.Valid(p.list) && p.repeat && !p.random && !p.consume
    requires i < |p.list.songs| && p.current == Some(p.list.songs[i].id)
    ensures AfterNexts(p, cs).Some? && AfterNexts(p, cs).value.list == p.list
    ensures AfterNexts(p, cs).value.current == Some(p.list.songs[Turned(i, |cs|, |p.list.songs|)].id)
  {
    var list := p.list;
    ModUnique(i, 0, i, |list.songs|);
    forall q, c, k: nat | Cycled(q, list, i, k)
      ensures OneNext(q, c).Some? && Cycled(OneNext(q, c).value, list, i, k + 1)
    {
      CycledStep(q, list, i, k, c);
    }
    IterateCarries(p, cs, OneNext, (q, k) => Cycled(q, list, i, k), 0);
  }

  lemma ModUnique(x: nat, q: nat, r: nat, n: nat)
    requires r < n && x == n * q + r
    ensures x % n == r
  {
    var q' := x / n;
    assert n * (q - q') == x % n - r && n * (q' - q) == r - x % n;
    if q > q' {
      Product(n, q - q');
    } else if q < q' {
      Product(n, q' - q);
    }
  }

  lemma Product(n: nat, m: nat)
    requires m >= 1
    ensures n * m >= n
  {
  }

  /** So every song is visited exactly once in any n `next`s, and the n-th is the one it started from. */
  lemma EachOnceInARound(i: nat, j: nat, n: nat, k: nat)
    requires i < n && j < n && 1 <= k <= n
    ensures Turned(i, k, n) == j <==> k == if j > i then j - i else n + j - i
  {
    if i + k < n {
      ModUnique(i + k, 0, i + k, n);
    } else if i + k < 2 * n {
      ModUnique(i + k, 1, i + k - n, n);
    }
  }

  // ---------- Nowhere to go ----------

  /** With no songs in the list, or with nothing queued and repeat off, there is no song to go to, and looking for one
      changes nothing. Otherwise there is one to look at, and under repeat always one to go to. */
  lemma NowhereToGo(p: Player, c: Chance)
    ensures p.list.songs == [] || (p.queue == [] && !p.repeat) ==>
      NextSong(p, c) == None && PreviousSong(p, c) == At(None) && BeforeLooking(p, c) == p
    ensures p.list.songs != [] && p.repeat ==> NextSong(p, c).Some?
  {
    RebuiltSize(p, c);
  }

  // ---------- Straight through ----------

  /** All flags off, the queue in the order of the list, and the i-th song current; past the last one none is. */
  predicate Straight(p: Player, list: P.Songs, i: nat) {
    && p.list == list && p.queue == IdsOf(p) && !p.repeat && !p.random && !p.consume
    && i <= |list.songs| && p.current == (if i < |list.songs| then Some(list.songs[i].id) else None)
  }

  lemma StraightTarget(p: Player, list: P.Songs, i: nat, c: Chance)
    requires P.Valid(list) && Straight(p, list, i) && i < |list.songs|
    ensures NextSong(p, c) == if i + 1 < |list.songs| then Some(list.songs[i + 1].id) else None
  {
    var ids := IdsOf(p);
    var j := Find(ids, p.current.value);
    assert ids[i] == p.current.value && ids[j] == ids[i];
    assert i == j;
  }

  lemma StraightStep(p: Player, list: P.Songs, i: nat, c: Chance)
    requires P.Valid(list) && Straight(p, list, i) && i < |list.songs|
    ensures OneNext(p, c).Some? && Straight(OneNext(p, c).value, list, i + 1)
    ensures OneNext(p, c).value.bin == if i + 1 == |list.songs| && p.bin == Playing then Ready else p.bin
  {
    StraightTarget(p, list, i, c);
    if i + 1 < |list.songs| {
      assert IdsOf(p)[i + 1] == list.songs[i + 1].id;
    }
  }

  /** With every flag off and the queue in order, the k-th `next` from the i-th song plays song i + k as long as
      there is one, in the state it found; behind the last song nothing is current and nothing plays. */
  lemma {:induction false} StraightThrough(p: Player, list: P.Songs, i: nat, cs: seq<Chance>)
    requires P.Valid(list) && Straight(p, list, i) && i + |cs| <= |list.songs|
    ensures AfterNexts(p, cs).Some? && Straight(AfterNexts(p, cs).value, list, i + |cs|)
    ensures cs != [] ==>
      AfterNexts(p, cs).value.bin == if i + |cs| == |list.songs| && p.bin == Playing then Ready else p.bin
    decreases |cs|
  {
    if cs != [] {
      StraightStep(p, list, i, cs[0]);
      StraightThrough(OneNext(p, cs[0]).value, list, i + 1, cs[1..]);
    }
  }

  /** Another `next` behind the end goes to the second song, because a current song that is not in the queue counts
      as the first. */
  lemma BehindTheEnd(p: Player, c: Chance)
    requires Straight(p, p.list, |p.list.songs|)
    ensures NextSong(p, c) == if |p.list.songs| >= 2 then Some(p.list.songs[1].id) else None
  {
  }

  // ---------- Random and repeat ----------

  lemma TakenOut(q: seq<nat>, x: nat)
    requires x in q
    ensures multiset(q) == multiset{x} + multiset(P.Erase(q, Find(q, x)))
  {
    var i := Find(q, x);
    Rejoined(q, i);
    OutOfTheMiddle(q[..i], x, q[i + 1..]);
  }

  lemma Rejoined(q: seq<nat>, i: nat)
    requires i < |q|
    ensures q == q[..i] + [q[i]] + q[i + 1..]
  {
  }

  lemma OutOfTheMiddle(a: seq<nat>, x: nat, b: seq<nat>)
    ensures multiset(a + [x] + b) == multiset{x} + multiset(a + b)
  {
  }

  lemma OtherFirst(ids: seq<nat>, x: nat, y: nat)
    requires x in ids && y in ids && x != y
    ensures y in P.Erase(ids, Find(ids, x))
    ensures var rest := P.Erase(ids, Find(ids, x)); var order := [x, y] + P.Erase(rest, Find(rest, y));
      multiset(order) == multiset(ids)
  {
    TakenOut(ids, x);
    var rest := P.Erase(ids, Find(ids, x));
    assert y in multiset(ids) && y in multiset(rest);
    TakenOut(rest, y);
    var last := P.Erase(rest, Find(rest, y));
    assert multiset([x, y] + last) == multiset{x} + (multiset{y} + multiset(last));
  }

  /** Under repeat `next` always finds a listed song, and another one when there are two. */
  lemma NextUnderRepeat(p: Player, c: Chance)
    requires P.Valid(p.list) && p.repeat && p.list.songs != []
    ensures NextSong(p, c).Some? && Listed(p, NextSong(p, c).value)
    ensures p.current.Some? && |p.list.songs| >= 2 ==> NextSong(p, c) != p.current
    ensures p.current.Some? && Listed(p, p.current.value) && |p.list.songs| == 1 ==> NextSong(p, c) == p.current
  {
    var q := BeforeLooking(p, c);
    RebuiltOwes(p, c);
    RebuiltSize(p, c);
    PermutationExactlyWhen(q, p.list.counter);
    FollowingDiffers(q.queue, p.current, true);
    QueuedIsListed(q, NextSong(p, c).value);
    if p.current.Some? && Listed(p, p.current.value) && |p.list.songs| == 1 {
      ListedIsQueued(q, p.list.counter, p.current.value);
    }
  }

  lemma ListedIsId(p: Player, x: nat)
    ensures Listed(p, x) <==> x in IdsOf(p)
  {
    ListedExactlyWhen(p.list.songs, x);
  }

  lemma AheadIsNext(p: Player, x: nat, y: nat, rest: seq<nat>)
    requires p.repeat && p.random && p.current == Some(x) && p.list.songs != []
    requires multiset([x, y] + rest) == multiset(IdsOf(p))
    ensures NextSong(p, Chance([x, y] + rest, 0)) == Some(y)
  {
    var order := [x, y] + rest;
    assert order[0] == x && order[1] == y;
    assert Rebuilt(p, Chance(order, 0)) == order;
  }

  lemma SomeOrderReaches(p: Player, x: nat, y: nat)
    requires p.repeat && p.random && p.current == Some(x) && Listed(p, x) && Listed(p, y) && y != x
    ensures exists c :: NextSong(p, c) == Some(y)
  {
    ListedIsId(p, x);
    ListedIsId(p, y);
    OtherFirst(IdsOf(p), x, y);
    var rest := P.Erase(IdsOf(p), Find(IdsOf(p), x));
    var last := P.Erase(rest, Find(rest, y));
    AheadIsNext(p, x, y, last);
    assert NextSong(p, Chance([x, y] + last, 0)) == Some(y);
  }

  /** With repeat and random on, what `next` can go to from a listed song is exactly every other listed song,
      or the song itself when it is the only one. */
  lemma RandomNextReachesExactly(p: Player, x: nat, y: nat)
    requires P.Valid(p.list) && p.repeat && p.random && p.current == Some(x) && Listed(p, x)
    ensures (exists c :: NextSong(p, c) == Some(y)) <==> Listed(p, y) && (y != x || |p.list.songs| == 1)
  {
    if c :| NextSong(p, c) == Some(y) {
      NextUnderRepeat(p, c);
    }
    if Listed(p, y) && y != x {
      SomeOrderReaches(p, x, y);
    } else if y == x && |p.list.songs| == 1 {
      NextUnderRepeat(p, Chance([], 0));
      assert NextSong(p, Chance([], 0)) == Some(x);
    }
  }

  // ---------- Status ----------

  /** Asking for the status may change the queue, and nothing else. The song it names is where `next` goes
      right after it, unless repeat and random are both on. */
  lemma StatusForetellsNext(p: Player, c: Chance, d: Chance)
    ensures p.current.None? ==> Apply(p, Status(c)) == Some(p)
    ensures Apply(p, Status(c)).Some?
    ensures p.current.Some? ==>
      var p' := Apply(p, Status(c)).value;
      && p' == p.(queue := p'.queue)
      && (!(p.repeat && Looks(p)) ==> p' == p)
      && (!(p.repeat && p.random) ==> NextSong(p', d) == NextSong(p, c))
  {
    RebuiltSize(p, c);
  }

  // ---------- The previous song ----------

  /** The song in front of place `i`, or the last one in front of the first under repeat. */
  function InFront(q: seq<nat>, i: nat, repeat: bool): Option<nat>
    requires i < |q|
  {
    if i > 0 then Some(q[i - 1]) else if repeat then Some(q[|q| - 1]) else None
  }

  /** `previousSong` finds the song in front of the current one exactly from the third place on, and from the
      first of two; with one song it steps out of the queue. */
  lemma PreviousRightExactlyWhen(q: seq<nat>, i: nat, repeat: bool)
    requires P.Distinct(q) && i < |q|
    ensures Preceding(q, Some(q[i]), repeat) == At(InFront(q, i, repeat)) <==> i >= 2 || (i == 0 && |q| == 2)
    ensures Preceding(q, Some(q[i]), repeat) == OutOfRange <==> |q| == 1
  {
    assert Find(q, q[i]) == i;
  }

  /** Where `previous` goes from each place: two songs or more behind the first, to the song in front; from the
      first, to the last but one; from the second, and from the first of two, to the last under repeat and to none
      otherwise; and when the current song is not in the queue, to the last one. */
  lemma PreviousGoesTo(q: seq<nat>, i: nat, repeat: bool)
    requires P.Distinct(q) && i < |q|
    ensures i >= 2 ==> Preceding(q, Some(q[i]), repeat) == At(Some(q[i - 1]))
    ensures i == 0 && |q| >= 3 ==> Preceding(q, Some(q[0]), repeat) == At(Some(q[|q| - 2]))
    ensures i == 1 || (i == 0 && |q| == 2) ==>
      Preceding(q, Some(q[i]), repeat) == At(if repeat then Some(q[|q| - 1]) else None)
  {
    assert Find(q, q[i]) == i;
  }

  lemma PreviousOfGone(q: seq<nat>, current: Option<nat>, repeat: bool)
    requires q != [] && (current.Some? ==> current.value !in q)
    ensures Preceding(q, current, repeat) ==
      At(if |q| >= 2 then Some(q[|q| - 1]) else if repeat then Some(q[0]) else None)
  {
  }

  // ---------- Events ----------

  /** `p'` has pushed more events than `p`, all of which an idle client can wait for. */
  ghost predicate Pushed(p: Player, p': Player) {
    && |p.events| <= |p'.events| && p'.events[..|p.events|] == p.events
    && forall i :: |p.events| <= i < |p'.events| ==> M.FlagOf(p'.events[i]).Some?
  }

  lemma PushedTrans(a: Player, b: Player, d: Player)
    requires Pushed(a, b) && Pushed(b, d)
    ensures Pushed(a, d)
  {
    assert d.events[..|a.events|] == d.events[..|b.events|][..|a.events|];
  }

  lemma TellPushes(p: Player, ev: M.Event)
    requires M.FlagOf(ev).Some?
    ensures Pushed(p, Tell(p, ev))
  {
  }

  lemma ChangePushes(p: Player, target: Option<nat>, bin: Bin, spot: nat)
    requires ChangeSong(p, target, bin, spot).Some?
    ensures Pushed(p, ChangeSong(p, target, bin, spot).value)
    ensures |ChangeSong(p, target, bin, spot).value.events| == |p.events| + 1
  {
    TellPushes(p, M.QueueChange);
  }

  lemma RemovePushes(p: Player, s: Search, stale: bool, c: Chance)
    requires DoRemove(p, s, stale, c).Some?
    ensures Pushed(p, DoRemove(p, s, stale, c).value)
  {
    var m := BeforeRemoving(p, s, stale, c).value;
    var p' := Unqueued(p, s);
    if MovesOn(p, s, stale) {
      ChangePushes(BeforeLooking(p', c), NextSong(p', c), p'.bin, c.spot);
      PushedTrans(p, p', m);
    }
    TellPushes(m, M.QueueChange);
    PushedTrans(p, m, DoRemove(p, s, stale, c).value);
  }

  lemma PlayPushes(p: Player, c: Chance)
    requires DoPlay(p, c).Some?
    ensures Pushed(p, DoPlay(p, c).value)
  {
    RebuiltSize(p, c);
    if Starts(p) {
      ChangePushes(p.(queue := Rebuilt(p, c)), Some(Rebuilt(p, c)[0]), Playing, c.spot);
    } else if p.bin == Playing {
      ChangePushes(p, p.current, Playing, c.spot);
    }
  }

  lemma SearchPushes(p: Player, target: Option<nat>, bin: Bin, c: Chance)
    requires ChangeSong(BeforeLooking(p, c), target, bin, c.spot).Some?
    ensures Pushed(p, ChangeSong(BeforeLooking(p, c), target, bin, c.spot).value)
  {
    ChangePushes(BeforeLooking(p, c), target, bin, c.spot);
  }

  lemma FinishPushes(p: Player, c: Chance)
    requires DoAboutToFinish(p, c).Some?
    ensures Pushed(p, DoAboutToFinish(p, c).value)
  {
    if !p.tempChange && p.single == Off {
      SearchPushes(p, NextSong(p, c), Playing, c);
    } else if !p.tempChange {
      var p' := if p.single == Oneshot then DoSetSingle(p, Off) else p;
      TellPushes(p, M.OptionChange);
      if p.repeat {
        ChangePushes(p', p.current, Playing, c.spot);
        PushedTrans(p, p', DoAboutToFinish(p, c).value);
      }
    }
  }

  lemma OneMorePushed(p: Player, p': Player, ev: M.Event)
    requires p'.events == p.events + [ev] && M.FlagOf(ev).Some?
    ensures Pushed(p, p')
  {
  }

  lemma OptionPushes(p: Player, step: Step)
    requires step.SetConsume? || step.SetRandom? || step.SetRepeat? || step.SetSingle?
    ensures Pushed(p, Apply(p, step).value)
  {
    assert Apply(p, step).value.events == p.events + [M.OptionChange];
    OneMorePushed(p, Apply(p, step).value, M.OptionChange);
  }

  lemma ListPushes(p: Player, step: Step)
    requires step.Add? || step.Clear? || step.Shuffle?
    requires Apply(p, step).Some?
    ensures Pushed(p, Apply(p, step).value)
  {
    assert Apply(p, step).value.events == p.events + [M.QueueChange];
    OneMorePushed(p, Apply(p, step).value, M.QueueChange);
  }

  lemma StepPushes(p: Player, step: Step)
    requires Apply(p, step).Some?
    ensures Pushed(p, Apply(p, step).value)
  {
    if step.SetConsume? || step.SetRandom? || step.SetRepeat? || step.SetSingle? {
      OptionPushes(p, step);
    } else if step.SetVolume? {
      TellPushes(p, M.VolumeChange);
    } else if step.Bus? {
      TellPushes(p.(bin := step.bin), M.StateChange);
    } else if step.Add? || step.Clear? || step.Shuffle? {
      ListPushes(p, step);
    } else if step.Remove? {
      RemovePushes(p, step.search, step.stale, step.c);
    } else if step.Next? {
      SearchPushes(p, NextSong(p, step.c), p.bin, step.c);
    } else if step.Previous? {
      SearchPushes(p, PreviousSong(p, step.c).song, p.bin, step.c);
    } else if step.Play? || (step.Resume? && p.current.None?) {
      PlayPushes(p, step.c);
    } else if step.PlayAt? && step.i < |p.list.songs| {
      ChangePushes(p, Some(p.list.songs[step.i].id), Playing, step.spot);
    } else if step.PlayId? && Listed(p, step.id) {
      ChangePushes(p, Some(step.id), Playing, step.spot);
    } else if step.AboutToFinish? {
      FinishPushes(p, step.c);
    }
  }

  /** Over every run the player only pushes events that have an idle flag, so none of them makes the
      protocol's socket thread give up. */
  lemma {:induction false} RunPushesKnownEvents(p: Player, run: seq<Step>)
    requires Legal(p, run)
    ensures Pushed(p, After(p, run))
    decreases |run|
  {
    if run != [] {
      StepPushes(p, run[0]);
      RunPushesKnownEvents(Apply(p, run[0]).value, run[1..]);
      PushedTrans(p, Apply(p, run[0]).value, After(p, run));
    }
  }
}

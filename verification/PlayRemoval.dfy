/**
 The three `removeSong`s of src/ActivePlaylist.cpp: which song leaves the list,
 when queue and list stay in step, and the commands `delete` and `deleteid`.
 Every condition is read off the state before the call.
 */
module PlayRemoval {
  import opened Common
  import opened ActivePlaylist
  import opened PlayMeaning
  import opened PlayOrder
  import P = Playlist
  import M = MpdState

  // ---------- Before the call ----------

  /** The `next` in the middle rebuilds the queue. */
  predicate RemovalRebuilds(p: Player, s: Search, stale: bool) {
    InRange(p, s) && MovesOn(p, s, stale) && p.list.songs != [] && p.repeat
  }

  function SongAt(list: P.Songs, j: nat): Option<nat> {
    if j < |list.songs| then Some(list.songs[j].id) else None
  }

  /** The song the queue search finds. */
  function Entry(p: Player, s: Search): Option<nat>
    requires InRange(p, s)
  {
    if EntryOf(p, s) < |p.queue| then Some(p.queue[EntryOf(p, s)]) else None
  }

  /** The list the second search runs on: without the current song when a `next` consumes it first. */
  function Searched(p: Player, s: Search, stale: bool): P.Songs
    requires InRange(p, s)
  {
    if MovesOn(p, s, stale) then ListAfterConsuming(p) else p.list
  }

  /** The song the list search finds there. */
  function Leaves(p: Player, s: Search, stale: bool): Option<nat>
    requires InRange(p, s)
  {
    SongAt(Searched(p, s, stale), SongOf(Searched(p, s, stale), s))
  }

  /** A removal goes wrong when the queue is rebuilt with the song still listed, or for the only song there
      is; and without a rebuild when it takes different songs out of the queue and out of the list. */
  predicate RemovalBreaks(p: Player, s: Search, stale: bool) {
    InRange(p, s) &&
    if RemovalRebuilds(p, s, stale) then Leaves(p, s, stale).Some? || OnlySong(p)
    else Leaves(p, s, stale) != Entry(p, s)
  }

  lemma MovedSearched(p: Player, s: Search, c: Chance)
    requires InRange(p, s) && MoveOn(Unqueued(p, s), p.bin, c).Some?
    ensures MoveOn(Unqueued(p, s), p.bin, c).value.list == ListAfterConsuming(p)
    ensures p.consume && p.current.Some? ==> Listed(p, p.current.value)
  {
    MovedList(Unqueued(p, s), p.bin, c);
  }

  lemma SearchedBefore(p: Player, s: Search, stale: bool, c: Chance)
    requires InRange(p, s) && BeforeRemoving(p, s, stale, c).Some?
    ensures BeforeRemoving(p, s, stale, c).value.list == Searched(p, s, stale)
    ensures MovesOn(p, s, stale) && p.consume && p.current.Some? ==> Listed(p, p.current.value)
  {
    if MovesOn(p, s, stale) {
      MovedSearched(p, s, c);
    }
  }

  // ---------- What the queue has too many along a removal ----------

  function One(o: Option<nat>, x: nat): int { if o == Some(x) then 1 else 0 }

  lemma ExcessOut(p: Player, s: Search, x: nat)
    requires InRange(p, s)
    ensures Excess(Unqueued(p, s), x) == Excess(p, x) - One(Entry(p, s), x)
  {
    if EntryOf(p, s) < |p.queue| {
      ExcessUnqueued(p, EntryOf(p, s), x);
    }
  }

  lemma ExcessMoved(p: Player, bin: Bin, c: Chance, x: nat)
    requires p.queue != [] && MoveOn(p, bin, c).Some?
    ensures Excess(MoveOn(p, bin, c).value, x) ==
      if p.list.songs != [] && p.repeat then
        One(if Reinserts(BeforeLooking(p, c), NextSong(p, c)) then NextSong(p, c) else None, x)
      else Excess(p, x)
  {
    ExcessChanged(BeforeLooking(p, c), NextSong(p, c), bin, c.spot, x);
    if p.list.songs != [] && p.repeat {
      RebuiltSize(p, c);
    } else {
      NextIsQueued(p, c);
    }
  }

  /** What the queue has too many between the two erasures of a removal. */
  lemma ExcessBefore(p: Player, s: Search, stale: bool, c: Chance, x: nat)
    requires InRange(p, s) && BeforeRemoving(p, s, stale, c).Some?
    ensures var p' := Unqueued(p, s);
      Excess(BeforeRemoving(p, s, stale, c).value, x) ==
        if RemovalRebuilds(p, s, stale) then
          One(if Reinserts(BeforeLooking(p', c), NextSong(p', c)) then NextSong(p', c) else None, x)
        else Excess(p, x) - One(Entry(p, s), x)
  {
    var p' := Unqueued(p, s);
    ExcessOut(p, s, x);
    if MovesOn(p, s, stale) {
      ExcessMoved(p', p'.bin, c, x);
    }
  }

  lemma ValidBefore(p: Player, s: Search, stale: bool, c: Chance)
    requires P.Valid(p.list) && InRange(p, s) && BeforeRemoving(p, s, stale, c).Some?
    ensures var m := BeforeRemoving(p, s, stale, c).value; P.Valid(m.list) && m.list.counter == p.list.counter
  {
    if MovesOn(p, s, stale) {
      ConsumedValid(BeforeLooking(Unqueued(p, s), c));
    }
  }

  lemma RemovedLast(m: Player, s: Search, x: nat)
    ensures var p' := Tell(m.(list := P.RemoveAt(m.list, SongOf(m.list, s))), M.QueueChange);
      Excess(p', x) == Excess(m, x) + One(SongAt(m.list, SongOf(m.list, s)), x)
  {
    ExcessRemoved(m, SongOf(m.list, s), x);
  }

  lemma RemovedValid(l: P.Songs, j: nat)
    requires P.Valid(l)
    ensures P.Valid(P.RemoveAt(l, j)) && P.RemoveAt(l, j).counter == l.counter
  {
    if j < |l.songs| {
      P.EraseKeeps(l, j);
    }
  }

  lemma ExcessAfter(p: Player, s: Search, stale: bool, c: Chance, x: nat)
    requires DoRemove(p, s, stale, c).Some?
    ensures var p' := Unqueued(p, s);
      Excess(DoRemove(p, s, stale, c).value, x) == One(Leaves(p, s, stale), x) +
        if RemovalRebuilds(p, s, stale) then
          One(if Reinserts(BeforeLooking(p', c), NextSong(p', c)) then NextSong(p', c) else None, x)
        else Excess(p, x) - One(Entry(p, s), x)
  {
    ExcessBefore(p, s, stale, c, x);
    SearchedBefore(p, s, stale, c);
    RemovedLast(BeforeRemoving(p, s, stale, c).value, s, x);
  }

  lemma RemovedIsValid(p: Player, s: Search, stale: bool, c: Chance)
    requires P.Valid(p.list) && DoRemove(p, s, stale, c).Some?
    ensures var p' := DoRemove(p, s, stale, c).value; P.Valid(p'.list) && p'.list.counter == p.list.counter
  {
    var m := BeforeRemoving(p, s, stale, c).value;
    ValidBefore(p, s, stale, c);
    RemovedValid(m.list, SongOf(m.list, s));
  }

  lemma AgainExactlyWhen(p: Player, s: Search, stale: bool, c: Chance)
    requires P.Valid(p.list) && RemovalRebuilds(p, s, stale) && DoRemove(p, s, stale, c).Some?
    ensures var p' := Unqueued(p, s); Reinserts(BeforeLooking(p', c), NextSong(p', c)) <==> OnlySong(p)
  {
    RebuiltReinsertsExactlyWhen(Unqueued(p, s), c);
  }

  /** A removal keeps the ledger exactly when it is not one of those that break it, whatever the erased
      iterator reads and wherever the `next` in between goes. */
  lemma RemoveOwes(p: Player, s: Search, stale: bool, c: Chance, mark: nat)
    requires Owes(p, mark) && DoRemove(p, s, stale, c).Some?
    ensures Owes(DoRemove(p, s, stale, c).value, if RemovalRebuilds(p, s, stale) then p.list.counter else mark)
      <==> !RemovalBreaks(p, s, stale)
  {
    var p', rebuilt := DoRemove(p, s, stale, c).value, RemovalRebuilds(p, s, stale);
    var target := NextSong(Unqueued(p, s), c);
    var again := Reinserts(BeforeLooking(Unqueued(p, s), c), target);
    RemovedIsValid(p, s, stale, c);
    forall x: nat
      ensures Excess(p', x) == One(Leaves(p, s, stale), x) +
        if rebuilt then One(if again then target else None, x) else Excess(p, x) - One(Entry(p, s), x)
    {
      ExcessAfter(p, s, stale, c, x);
    }
    if rebuilt {
      AgainExactlyWhen(p, s, stale, c);
    }
    RemovalVerdict(p, p', rebuilt, if again then target else None, Leaves(p, s, stale), Entry(p, s), mark);
  }

  lemma RemovalVerdict(
      p: Player, p': Player, rebuilt: bool, again: Option<nat>, removed: Option<nat>, entry: Option<nat>, mark: nat)
    requires Owes(p, mark) && P.Valid(p'.list) && p'.list.counter == p.list.counter
    requires forall x: nat ::
      Excess(p', x) == One(removed, x) + if rebuilt then One(again, x) else Excess(p, x) - One(entry, x)
    ensures Owes(p', if rebuilt then p.list.counter else mark) <==>
      if rebuilt then removed.None? && again.None? else removed == entry
  {
    if removed.Some? {
      var _ := Excess(p', removed.value) + Excess(p, removed.value);
    }
    if again.Some? {
      var _ := Excess(p', again.value);
    }
    if entry.Some? {
      var _ := Excess(p', entry.value) + Excess(p, entry.value);
    }
  }

  // ---------- By identifier ----------

  lemma LeavesById(p: Player, id: nat, stale: bool, c: Chance)
    requires P.Valid(p.list) && DoRemove(p, ById(id), stale, c).Some?
    ensures Leaves(p, ById(id), stale) ==
      if Listed(p, id) && !(MovesOn(p, ById(id), stale) && p.consume && p.current == Some(id)) then Some(id) else None
  {
    SearchedBefore(p, ById(id), stale, c);
    if MovesOn(p, ById(id), stale) && p.consume && p.current.Some? {
      ErasedListed(p.list, P.FindId(p.list.songs, p.current.value), id);
    }
  }

  /** Removing a listed song by identifier keeps the ledger when `next` is not called in between. With
      `next` in between and repeat off, it breaks it exactly when that `next` consumed the song; with
      repeat on, the song is back in the queue, unless that `next` consumed it and went on to another. */
  lemma RemovalBreaksExactlyWhen(p: Player, id: nat, stale: bool, c: Chance, mark: nat)
    requires Owes(p, mark) && Listed(p, id) && DoRemove(p, ById(id), stale, c).Some?
    ensures RemovalBreaks(p, ById(id), stale) <==>
      MovesOn(p, ById(id), stale) &&
      if p.repeat then !(p.consume && p.current == Some(id) && |p.list.songs| >= 2)
      else p.consume && p.current == Some(id)
  {
    ListedIsQueued(p, mark, id);
    LeavesById(p, id, stale, c);
    if |p.list.songs| == 1 && p.current == Some(id) {
      assert IdsOf(p) == [id];
    }
  }

  /** Removing an identifier that is not listed any more breaks the ledger exactly when it is still queued;
      with a rebuild in between, exactly when that rebuild puts the only song there is back. */
  lemma RemovingGoneBreaksExactlyWhen(p: Player, id: nat, stale: bool, c: Chance)
    requires P.Valid(p.list) && !Listed(p, id) && DoRemove(p, ById(id), stale, c).Some?
    ensures RemovalBreaks(p, ById(id), stale) <==>
      if RemovalRebuilds(p, ById(id), stale) then OnlySong(p) else id in p.queue
  {
    LeavesById(p, id, stale, c);
  }

  // ---------- By position ----------

  /** Removing by position a song of the list is removing its identifier, while `next` is not called in
      between. */
  lemma PositionIsIdentifier(p: Player, i: nat, stale: bool, c: Chance)
    requires P.Valid(p.list) && i < |p.list.songs| && !MovesOn(p, ByPosition(i), stale)
    ensures DoRemove(p, ByPosition(i), stale, c) == DoRemove(p, ById(p.list.songs[i].id), stale, c)
  {
    P.IndexOfSongAt(p.list, i);
  }

  lemma ErasedAhead(l: P.Songs, j: nat, i: nat)
    requires P.Valid(l) && j < |l.songs| && i < |l.songs|
    ensures SongAt(P.RemoveAt(l, j), i) == Some(l.songs[i].id) <==> i < j
  {
    var ids := P.Ids(l.songs);
    assert ids[i] == l.songs[i].id;
    if i + 1 < |l.songs| {
      assert ids[i] != ids[i + 1] && ids[i + 1] == l.songs[i + 1].id;
    }
  }

  lemma LeavesByPosition(p: Player, i: nat, stale: bool, c: Chance)
    requires P.Valid(p.list) && i < |p.list.songs| && DoRemove(p, ByPosition(i), stale, c).Some?
    ensures var consumes := MovesOn(p, ByPosition(i), stale) && p.consume && p.current.Some?;
      && (consumes ==> Listed(p, p.current.value))
      && (Leaves(p, ByPosition(i), stale) == Some(p.list.songs[i].id) <==>
            !(consumes && P.FindId(p.list.songs, p.current.value) <= i))
      && (Leaves(p, ByPosition(i), stale).None? <==> consumes && i == |p.list.songs| - 1)
  {
    SearchedBefore(p, ByPosition(i), stale, c);
    if MovesOn(p, ByPosition(i), stale) && p.consume && p.current.Some? {
      ErasedAhead(p.list, P.FindId(p.list.songs, p.current.value), i);
    }
  }

  /** Removal by position erases from the list as it is after the `next` in between: it takes the song it
      was asked for exactly when that `next` has not consumed a song at or in front of the position. */
  lemma PositionNamesSongExactlyWhen(p: Player, i: nat, stale: bool, c: Chance)
    requires P.Valid(p.list) && i < |p.list.songs| && DoRemove(p, ByPosition(i), stale, c).Some?
    ensures Leaves(p, ByPosition(i), stale) == Some(p.list.songs[i].id) <==>
      !(MovesOn(p, ByPosition(i), stale) && p.consume && p.current.Some?
        && P.FindId(p.list.songs, p.current.value) <= i)
  {
    LeavesByPosition(p, i, stale, c);
  }

  /** When removal by position breaks the ledger: only with a `next` in between. With repeat off exactly
      when that `next` consumed a song at or in front of the position; with repeat on always, unless it
      consumed a song and left nothing at the position, of two songs at least. */
  lemma PositionBreaksExactlyWhen(p: Player, i: nat, stale: bool, c: Chance, mark: nat)
    requires Owes(p, mark) && i < |p.list.songs| && DoRemove(p, ByPosition(i), stale, c).Some?
    ensures RemovalBreaks(p, ByPosition(i), stale) <==>
      MovesOn(p, ByPosition(i), stale) &&
      if p.repeat then !(p.consume && p.current.Some? && i == |p.list.songs| - 1 && i > 0)
      else p.consume && p.current.Some? && P.FindId(p.list.songs, p.current.value) <= i
  {
    P.IndexOfSongAt(p.list, i);
    ListedIsQueued(p, mark, p.list.songs[i].id);
    LeavesByPosition(p, i, stale, c);
    if |p.list.songs| == 1 && p.current.Some? && Listed(p, p.current.value) {
      assert IdsOf(p) == [p.current.value];
    }
  }

  // ---------- By text ----------

  /** `j` is the first song of the list that matches. */
  predicate FirstMatch(list: P.Songs, j: nat, text: string) {
    j < |list.songs| && P.Matches(list.songs[j], text) && forall k :: 0 <= k < j ==> !P.Matches(list.songs[k], text)
  }

  lemma LeavesByText(p: Player, text: string, gone: set<nat>, stale: bool)
    ensures var l := Searched(p, ByText(text, gone), stale); var x := Leaves(p, ByText(text, gone), stale);
      && (x.None? <==> forall k :: 0 <= k < |l.songs| ==> !P.Matches(l.songs[k], text))
      && (forall j: nat :: FirstMatch(l, j, text) ==> x == Some(l.songs[j].id))
  {
    var l := Searched(p, ByText(text, gone), stale);
    var j := P.FindText(l.songs, text);
    forall k: nat | FirstMatch(l, k, text) ensures k == j {
    }
  }

  /** When removal by text breaks the ledger. With a rebuild in between: when any song but the consumed one
      matches, or for the only song. Otherwise: unless the queue's first match is the entry of the list's
      first match other than the consumed song, or neither has a match. */
  lemma TextBreaksExactlyWhen(p: Player, text: string, gone: set<nat>, stale: bool)
    ensures var s := ByText(text, gone); var l := Searched(p, s, stale); var i := EntryOf(p, s);
      RemovalBreaks(p, s, stale) <==>
        if RemovalRebuilds(p, s, stale) then
          OnlySong(p) || exists j :: 0 <= j < |l.songs| && P.Matches(l.songs[j], text)
        else if i == |p.queue| then exists j :: 0 <= j < |l.songs| && P.Matches(l.songs[j], text)
        else forall j: nat :: FirstMatch(l, j, text) ==> l.songs[j].id != p.queue[i]
  {
    var s := ByText(text, gone);
    var l := Searched(p, s, stale);
    LeavesByText(p, text, gone, stale);
    if Leaves(p, s, stale).Some? {
      assert FirstMatch(l, P.FindText(l.songs, text), text);
    }
  }

  // ---------- delete and deleteid ----------

  lemma RemovedFirst(l: P.Songs, id: nat)
    requires P.Valid(l)
    ensures id !in P.Ids(P.RemoveId(l, id).songs)
    ensures forall x :: x != id ==> (x in P.Ids(P.RemoveId(l, id).songs) <==> x in P.Ids(l.songs))
  {
    forall x ensures x in P.Ids(P.RemoveId(l, id).songs) <==> x in P.Ids(l.songs) && x != id {
      ListedExactlyWhen(l.songs, x);
      ListedExactlyWhen(P.RemoveId(l, id).songs, x);
      if P.FindId(l.songs, id) < |l.songs| {
        ErasedListed(l, P.FindId(l.songs, id), x);
      }
    }
  }

  /** `removeSongID` leaves the list without the song, and without anything else exactly when it did not
      consume another song on the way. */
  lemma RemovesOneExactlyWhen(p: Player, id: nat, stale: bool, c: Chance)
    requires P.Valid(p.list) && Listed(p, id) && DoRemove(p, ById(id), stale, c).Some?
    ensures DoRemove(p, ById(id), stale, c).value.list == P.RemoveId(Searched(p, ById(id), stale), id)
    ensures DoRemove(p, ById(id), stale, c).value.list == P.RemoveId(p.list, id) <==>
      !(MovesOn(p, ById(id), stale) && p.consume && p.current.Some? && p.current.value != id)
  {
    SearchedBefore(p, ById(id), stale, c);
    if MovesOn(p, ById(id), stale) && p.consume && p.current.Some? {
      var x := p.current.value;
      var j := P.FindId(p.list.songs, x);
      P.EraseKeeps(p.list, j);
      RemovedFirst(p.list, id);
      RemovedFirst(p.list, x);
      RemovedFirst(P.RemoveId(p.list, x), id);
      ListedExactlyWhen(p.list.songs, x);
      if x == id {
        ErasedListed(p.list, j, id);
      }
    }
  }

  /** What becomes of `delete` or `deleteid`; Undefined where removing the song is. */
  datatype Deleted = Gone(player: Player) | BadPosition | NoSuchSong | Undefined

  /** `doDeleteid`: "delete" turns a position into an identifier; a negative number compares as a huge
      one. */
  function DoDelete(p: Player, byPosition: bool, arg: int, stale: bool, c: Chance): Deleted {
    if byPosition && !(0 <= arg < |p.list.songs|) then BadPosition
    else
      var id := if byPosition then p.list.songs[arg].id else arg;
      if id < 0 || !Listed(p, id) then NoSuchSong
      else match DoRemove(p, ById(id), stale, c)
        case None => Undefined
        case Some(p') => Gone(p')
  }

  /** Deleting by position is deleting that song's identifier. The song leaves the list and the rest keeps
      its order; another song leaves with it exactly when a `next` in between consumed it. The errors are
      exactly the positions outside the list and the identifiers nobody has. */
  lemma DeleteByPositionIsDeleteById(p: Player, arg: int, stale: bool, c: Chance)
    requires P.Valid(p.list)
    ensures 0 <= arg < |p.list.songs| ==>
      var id := p.list.songs[arg].id;
      && DoDelete(p, true, arg, stale, c) == DoDelete(p, false, id, stale, c)
      && (DoDelete(p, true, arg, stale, c).Gone? ==>
            (DoDelete(p, true, arg, stale, c).player.list.songs == p.list.songs[..arg] + p.list.songs[arg + 1..] <==>
              !(MovesOn(p, ById(id), stale) && p.consume && p.current.Some? && p.current.value != id)))
    ensures DoDelete(p, true, arg, stale, c) == BadPosition <==> !(0 <= arg < |p.list.songs|)
    ensures DoDelete(p, false, arg, stale, c) == NoSuchSong <==>
      forall i :: 0 <= i < |p.list.songs| ==> p.list.songs[i].id != arg
  {
    if 0 <= arg < |p.list.songs| {
      DeletesSongAt(p, arg, stale, c);
    }
  }

  lemma DeletesSongAt(p: Player, arg: nat, stale: bool, c: Chance)
    requires P.Valid(p.list) && arg < |p.list.songs|
    ensures var id := p.list.songs[arg].id;
      && DoDelete(p, true, arg, stale, c) == DoDelete(p, false, id, stale, c)
      && DoDelete(p, false, id, stale, c) != NoSuchSong
      && (DoDelete(p, true, arg, stale, c).Gone? ==>
            (DoDelete(p, true, arg, stale, c).player.list.songs == p.list.songs[..arg] + p.list.songs[arg + 1..] <==>
              !(MovesOn(p, ById(id), stale) && p.consume && p.current.Some? && p.current.value != id)))
  {
    var id := p.list.songs[arg].id;
    P.IndexOfSongAt(p.list, arg);
    assert Listed(p, id);
    if DoRemove(p, ById(id), stale, c).Some? {
      RemovesOneExactlyWhen(p, id, stale, c);
      RemovedIsValid(p, ById(id), stale, c);
      RemovedAtIndex(p.list, DoRemove(p, ById(id), stale, c).value.list, arg);
    }
  }

  /** A list that lost songs and kept its counter is the list without one song iff its songs are. */
  lemma RemovedAtIndex(l: P.Songs, after: P.Songs, i: nat)
    requires P.Valid(l) && i < |l.songs| && after.counter == l.counter
    ensures after == P.RemoveId(l, l.songs[i].id) <==> after.songs == l.songs[..i] + l.songs[i + 1..]
  {
    P.IndexOfSongAt(l, i);
  }
}

/**
 The object of src/ActivePlaylist.cpp: its methods, updating the fields in
 place, against the functions of ActivePlaylist. Where those give None the
 source's behaviour is undefined, and a method may not be called.
 */
module ActiveList {
  import opened Common
  import opened ActivePlaylist
  import P = Playlist
  import M = MpdState

  class ActiveList {
    var songs: seq<P.Song>
    var songCounter: nat
    var playQueue: seq<nat>
    var currentSong: Option<nat>
    var consume: bool
    var random: bool
    var repeat: bool
    var single: Single
    var bin: Bin
    var tempChange: bool
    var events: seq<M.Event>

    function View(): Player
      reads this
    {
      Player(P.Songs(songs, songCounter), playQueue, currentSong, consume, random, repeat, single,
             bin, tempChange, events)
    }

    constructor ()
      ensures View() == FRESH
    {
      songs, songCounter, playQueue, currentSong := [], 0, [], None;
      consume, random, repeat, single := false, false, false, Off;
      bin, tempChange, events := Null, false, [];
    }

    /** `Server::pushEvent`. */
    method PushEvent(ev: M.Event)
      modifies this`events
      ensures View() == Tell(old(View()), ev)
    {
      events := events + [ev];
    }

    // ---------- The queue ----------

    /** `resetQueue`. */
    method ResetQueue()
      modifies this`playQueue
      ensures View() == old(View()).(queue := IdsOf(old(View())))
    {
      playQueue := [];
      var i := 0;
      while i < |songs|
        invariant i <= |songs| && playQueue == P.Ids(songs[..i])
        invariant View() == old(View()).(queue := playQueue)
      {
        assert P.Ids(songs[..i + 1]) == P.Ids(songs[..i]) + [songs[i].id];
        playQueue := playQueue + [songs[i].id];
        i := i + 1;
      }
      assert songs[..i] == songs;
    }

    /** `shuffleQueue`. */
    method ShuffleQueue(order: seq<nat>)
      modifies this`playQueue
      ensures View() == old(View()).(queue := Shuffled(old(playQueue), order))
    {
      if multiset(order) == multiset(playQueue) {
        playQueue := order;
      }
    }

    /** What `play`, the searches and `shuffle` start with. */
    method RebuildQueue(c: Chance)
      modifies this`playQueue
      ensures View() == old(View()).(queue := Rebuilt(old(View()), c))
    {
      ResetQueue();
      if random {
        ShuffleQueue(c.order);
      }
    }

    /** `std::find` on the queue. */
    method FindInQueue(x: nat) returns (i: nat)
      ensures i == Find(playQueue, x)
    {
      i := 0;
      while i < |playQueue| && playQueue[i] != x
        invariant i <= |playQueue| && Find(playQueue, x) == i + Find(playQueue[i..], x)
      {
        assert playQueue[i..][1..] == playQueue[i + 1..];
        i := i + 1;
      }
    }

    /** `_addedSong`. */
    method AddedSong(x: nat, spot: nat)
      modifies this`playQueue
      ensures View() == old(View()).(queue := Inserted(old(View()), x, spot))
    {
      if random && spot < |playQueue| {
        playQueue := playQueue[..spot] + [x] + playQueue[spot..];
      } else {
        playQueue := playQueue + [x];
      }
    }

    // ---------- Changing songs ----------

    /** The first half of `changeSong`. */
    method ConsumeCurrent()
      requires Consumed(View()).Some?
      modifies this`playQueue, this`songs
      ensures Consumed(old(View())) == Some(View())
    {
      if consume && currentSong.Some? {
        var i := FindInQueue(currentSong.value);
        playQueue := playQueue[..i] + playQueue[i + 1..];
        var j := P.IndexIn(songs, currentSong.value);
        songs := songs[..j] + songs[j + 1..];
      }
    }

    /** The second half. */
    method StartSong(target: Option<nat>, state: Bin, spot: nat)
      modifies this
      ensures View() == Started(old(View()), target, state, spot)
    {
      currentSong := target;
      var next := state;
      if target.Some? {
        var i := FindInQueue(target.value);
        if i == |playQueue| {
          AddedSong(target.value, spot);
        }
        tempChange := tempChange || bin == Playing;
      } else if state == Playing {
        next := Ready;
      }
      bin := next;
      PushEvent(M.QueueChange);
    }

    /** `changeSong`. */
    method ChangeSong(target: Option<nat>, state: Bin, spot: nat)
      requires ActivePlaylist.ChangeSong(View(), target, state, spot).Some?
      modifies this
      ensures ActivePlaylist.ChangeSong(old(View()), target, state, spot) == Some(View())
    {
      ConsumeCurrent();
      StartSong(target, state, spot);
    }

    /** The place of the current song; `end()` when there is none. */
    method PlaceOfCurrent() returns (i: nat)
      ensures i == Place(playQueue, currentSong)
    {
      if currentSong.None? {
        return |playQueue|;
      }
      i := FindInQueue(currentSong.value);
    }

    /** What both searches do before they look. */
    method PrepareSearch(c: Chance) returns (looks: bool)
      modifies this`playQueue
      ensures View() == BeforeLooking(old(View()), c)
      ensures looks == Looks(old(View())) && (looks ==> playQueue != [])
    {
      if songs == [] || (playQueue == [] && !repeat) {
        return false;
      }
      RebuiltSize(View(), c);
      if repeat {
        RebuildQueue(c);
      }
      looks := true;
    }

    /** `nextSong`. */
    method NextSong(c: Chance) returns (song: Option<nat>)
      modifies this`playQueue
      ensures View() == BeforeLooking(old(View()), c)
      ensures song == ActivePlaylist.NextSong(old(View()), c)
    {
      var looks := PrepareSearch(c);
      if !looks {
        return None;
      }
      var i := PlaceOfCurrent();
      if i == |playQueue| {
        i := 0;
      }
      if i + 1 == |playQueue| {
        song := if repeat then Some(playQueue[0]) else None;
      } else {
        song := Some(playQueue[i + 1]);
      }
    }

    /** `previousSong`. */
    method PreviousSong(c: Chance) returns (song: Option<nat>)
      requires ActivePlaylist.PreviousSong(View(), c).At?
      modifies this`playQueue
      ensures View() == BeforeLooking(old(View()), c)
      ensures ActivePlaylist.PreviousSong(old(View()), c) == At(song)
    {
      var looks := PrepareSearch(c);
      if !looks {
        return None;
      }
      var i := PlaceOfCurrent();
      if i == 0 {
        i := |playQueue| - 1;
      }
      if i - 1 == 0 {
        song := if repeat then Some(playQueue[|playQueue| - 1]) else None;
      } else {
        song := Some(playQueue[i - 1]);
      }
    }

    // ---------- Playing ----------

    /** `play`. */
    method Play(c: Chance)
      requires DoPlay(View(), c).Some?
      modifies this
      ensures DoPlay(old(View()), c) == Some(View())
    {
      RebuiltSize(View(), c);
      if bin == Playing {
        ChangeSong(currentSong, Playing, c.spot);
      } else if songs != [] {
        RebuildQueue(c);
        ChangeSong(Some(playQueue[0]), Playing, c.spot);
      }
    }

    /** `playSong`. */
    method PlaySong(i: nat, spot: nat)
      requires DoPlayAt(View(), i, spot).Some?
      modifies this
      ensures DoPlayAt(old(View()), i, spot) == Some(View())
    {
      if i < |songs| {
        ChangeSong(Some(songs[i].id), Playing, spot);
      }
    }

    /** `playSongID`. */
    method PlaySongID(id: nat, spot: nat)
      requires DoPlayId(View(), id, spot).Some?
      modifies this
      ensures DoPlayId(old(View()), id, spot) == Some(View())
    {
      var j := P.IndexIn(songs, id);
      if j < |songs| {
        ChangeSong(Some(id), Playing, spot);
      }
    }

    /** `resume`. */
    method Resume(c: Chance)
      requires DoResume(View(), c).Some?
      modifies this
      ensures DoResume(old(View()), c) == Some(View())
    {
      if currentSong.None? {
        Play(c);
      } else if bin == Paused {
        bin := Playing;
      }
    }

    /** `next`. */
    method Next(c: Chance)
      requires MoveOn(View(), bin, c).Some?
      modifies this
      ensures MoveOn(old(View()), old(bin), c) == Some(View())
    {
      var song := NextSong(c);
      ChangeSong(song, bin, c.spot);
    }

    /** `previous`. */
    method Previous(c: Chance)
      requires DoPrevious(View(), c).Some?
      modifies this
      ensures DoPrevious(old(View()), c) == Some(View())
    {
      var song := PreviousSong(c);
      ChangeSong(song, bin, c.spot);
    }

    /** `on_about_to_finish`. */
    method OnAboutToFinish(c: Chance)
      requires DoAboutToFinish(View(), c).Some?
      modifies this
      ensures DoAboutToFinish(old(View()), c) == Some(View())
    {
      if tempChange {
        tempChange := false;
        return;
      }
      if single != Off {
        if single == Oneshot {
          SetSingle(Off);
        }
        if !repeat {
          bin := Null;
        } else {
          ChangeSong(currentSong, Playing, c.spot);
        }
      } else {
        var song := NextSong(c);
        ChangeSong(song, Playing, c.spot);
      }
    }

    // ---------- Songs ----------

    /** `addSong`. */
    method AddSong(url: string, position: int, spot: nat)
      requires DoAdd(View(), url, position, spot).Some?
      modifies this
      ensures DoAdd(old(View()), url, position, spot) == Some(View())
    {
      var at := if position < 0 then |songs| else if position == |songs| then |songs| - 1 else position;
      var id := songCounter;
      songs := songs[..at] + [P.NewSong(url, id)] + songs[at..];
      songCounter := songCounter + 1;
      AddedSong(id, spot);
      playQueue := playQueue + [id];
      PushEvent(M.QueueChange);
    }

    /** What the three `removeSong`s share once the queue has been searched: erase the entry, and stop or
        move on when the erased iterator reads the current song. */
    method DropEntry(i: nat, stale: bool, c: Chance, ghost s: Search)
      requires InRange(View(), s) && i == EntryOf(View(), s) && BeforeRemoving(View(), s, stale, c).Some?
      modifies this
      ensures BeforeRemoving(old(View()), s, stale, c) == Some(View())
    {
      if i < |playQueue| {
        playQueue := playQueue[..i] + playQueue[i + 1..];
      }
      if stale {
        if playQueue == [] {
          bin := Null;
        } else {
          Next(c);
        }
      }
    }

    /** `removeSong(size_t)`. */
    method RemoveSongAt(position: nat, stale: bool, c: Chance)
      requires DoRemove(View(), ByPosition(position), stale, c).Some?
      modifies this
      ensures DoRemove(old(View()), ByPosition(position), stale, c) == Some(View())
    {
      var i := FindInQueue(songs[position].id);
      DropEntry(i, stale, c, ByPosition(position));
      EraseSong(position);
    }

    /** `removeSongID`. */
    method RemoveSongID(id: nat, stale: bool, c: Chance)
      requires DoRemove(View(), ById(id), stale, c).Some?
      modifies this
      ensures DoRemove(old(View()), ById(id), stale, c) == Some(View())
    {
      var i := FindInQueue(id);
      DropEntry(i, stale, c, ById(id));
      var j := P.IndexIn(songs, id);
      EraseSong(j);
    }

    /** `removeSong(const std::string&)`. */
    method RemoveSong(text: string, gone: set<nat>, stale: bool, c: Chance)
      requires DoRemove(View(), ByText(text, gone), stale, c).Some?
      modifies this
      ensures DoRemove(old(View()), ByText(text, gone), stale, c) == Some(View())
    {
      var i := FindTextInQueue(text, gone);
      DropEntry(i, stale, c, ByText(text, gone));
      var j := FindTextInList(text);
      EraseSong(j);
    }

    /** The end of every removal: the song leaves the list, if it is in it, and the event is pushed. */
    method EraseSong(j: nat)
      modifies this`songs, this`events
      ensures View() == Tell(old(View()).(list := P.RemoveAt(old(View()).list, j)), M.QueueChange)
    {
      if j < |songs| {
        songs := songs[..j] + songs[j + 1..];
      }
      PushEvent(M.QueueChange);
    }

    method FindTextInQueue(text: string, gone: set<nat>) returns (i: nat)
      ensures i == FindEntry(P.Songs(songs, songCounter), playQueue, text, gone)
    {
      ghost var list := P.Songs(songs, songCounter);
      i := 0;
      while i < |playQueue|
        invariant i <= |playQueue|
        invariant FindEntry(list, playQueue, text, gone) == i + FindEntry(list, playQueue[i..], text, gone)
      {
        var j := P.IndexIn(songs, playQueue[i]);
        if if j < |songs| then P.Matches(songs[j], text) else playQueue[i] in gone {
          return;
        }
        assert playQueue[i..][1..] == playQueue[i + 1..];
        i := i + 1;
      }
    }

    method FindTextInList(text: string) returns (j: nat)
      ensures j == P.FindText(songs, text)
    {
      j := 0;
      while j < |songs| && !P.Matches(songs[j], text)
        invariant j <= |songs| && P.FindText(songs, text) == j + P.FindText(songs[j..], text)
      {
        assert songs[j..][1..] == songs[j + 1..];
        j := j + 1;
      }
    }

    /** `removeAllSongs`. */
    method RemoveAllSongs()
      modifies this
      ensures View() == DoClear(old(View()))
    {
      songs := [];
      ResetQueue();
      bin := Null;
      PushEvent(M.QueueChange);
    }

    /** `shuffle`. */
    method Shuffle(order: seq<P.Song>, c: Chance)
      modifies this
      ensures View() == DoShuffle(old(View()), order, c)
    {
      if multiset(order) == multiset(songs) {
        songs := order;
      }
      RebuildQueue(c);
      PushEvent(M.QueueChange);
    }

    // ---------- Options ----------

    method SetSingle(status: Single)
      modifies this`single, this`events
      ensures View() == DoSetSingle(old(View()), status)
    {
      single := status;
      PushEvent(M.OptionChange);
    }

    method SetRandom(on: bool, c: Chance)
      modifies this`playQueue, this`random, this`events
      ensures View() == DoSetRandom(old(View()), on, c)
    {
      if on {
        if !random {
          ShuffleQueue(c.order);
        }
        random := true;
      } else {
        if random {
          ResetQueue();
        }
        random := false;
      }
      PushEvent(M.OptionChange);
    }
  }
}

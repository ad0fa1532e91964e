/**
 The play queue of src/ActivePlaylist.cpp: a song list, a queue derived from it
 and a current song, under consume, random, repeat and single.

 Queue entries and the current song are pointers in the source; here they are
 the songs' identifiers, so an entry can outlive its song. Erasing at `end()`,
 reading a null pointer and stepping in front of `begin()` give None.
 What random devices decide is a parameter, as is the outcome of reading an
 iterator that was erased.
 */
module ActivePlaylist {
  import opened Common
  import P = Playlist
  import M = MpdState

  /** The states of the GStreamer playbin, to the extent the player looks at them. */
  datatype Bin = Null | Ready | Paused | Playing

  datatype Single = Off | Always | Oneshot

  datatype Player = Player(
    list: P.Songs, queue: seq<nat>, current: Option<nat>,
    consume: bool, random: bool, repeat: bool, single: Single,
    bin: Bin, tempChange: bool, events: seq<M.Event>)

  const FRESH: Player := Player(P.Songs([], 0), [], None, false, false, false, Off, Null, false, [])

  /** What the random device decides: an order for `std::shuffle`, and a place for one more entry. */
  datatype Chance = Chance(order: seq<nat>, spot: nat)

  // ---------- The queue ----------

  function IdsOf(p: Player): seq<nat> { P.Ids(p.list.songs) }

  /** `std::find`: the first place of `x`, or the length of the queue. */
  function Find(q: seq<nat>, x: nat): (i: nat)
    ensures i <= |q|
    ensures i < |q| ==> q[i] == x
    ensures x !in q[..i]
    ensures i == |q| <==> x !in q
  {
    if q == [] then 0
    else if q[0] == x then 0
    else
      var i := 1 + Find(q[1..], x);
      assert q == [q[0]] + q[1..] && q[..i] == [q[0]] + q[1..][..i - 1];
      i
  }

  /** `std::shuffle`: any order of the same entries. */
  function Shuffled<T(==)>(q: seq<T>, order: seq<T>): seq<T> {
    if multiset(order) == multiset(q) then order else q
  }

  /** `resetQueue`, and `shuffleQueue` when random is on. */
  function Rebuilt(p: Player, c: Chance): seq<nat> {
    if p.random then Shuffled(IdsOf(p), c.order) else IdsOf(p)
  }

  /** `_addedSong`: somewhere when random is on, otherwise at the end. */
  function Inserted(p: Player, x: nat, spot: nat): seq<nat> {
    if p.random && spot < |p.queue| then p.queue[..spot] + [x] + p.queue[spot..] else p.queue + [x]
  }

  function Tell(p: Player, ev: M.Event): Player { p.(events := p.events + [ev]) }

  // ---------- Changing songs ----------

  /** The first half of `changeSong`: with consume on, the current song leaves the queue and the list. */
  function Consumed(p: Player): Option<Player> {
    if !p.consume || p.current.None? then Some(p)
    else
      var i := Find(p.queue, p.current.value);
      var j := P.FindId(p.list.songs, p.current.value);
      if i == |p.queue| || j == |p.list.songs| then None
      else Some(p.(queue := P.Erase(p.queue, i), list := P.RemoveAt(p.list, j)))
  }

  /** The second half: the new song becomes current, entering the queue if it is not there. */
  function Started(p: Player, target: Option<nat>, bin: Bin, spot: nat): Player {
    var p' := match target
      case None => p.(current := None, bin := if bin == Playing then Ready else bin)
      case Some(x) => p.(
        current := target, bin := bin, tempChange := p.tempChange || p.bin == Playing,
        queue := if x in p.queue then p.queue else Inserted(p, x, spot));
    Tell(p', M.QueueChange)
  }

  /** `changeSong`. */
  function ChangeSong(p: Player, target: Option<nat>, bin: Bin, spot: nat): Option<Player> {
    match Consumed(p)
    case None => None
    case Some(p') => Some(Started(p', target, bin, spot))
  }

  /** The branch of `changeSong` that puts the new song into the queue. */
  predicate Reinserts(p: Player, target: Option<nat>) {
    target.Some? && Consumed(p).Some? && target.value !in Consumed(p).value.queue
  }

  /** Both searches rebuild the queue first when repeat is on, and give up before that on an empty list. */
  predicate Looks(p: Player) { p.list.songs != [] && (p.queue != [] || p.repeat) }

  function BeforeLooking(p: Player, c: Chance): Player {
    if Looks(p) && p.repeat then p.(queue := Rebuilt(p, c)) else p
  }

  /** The place of the current song, or the end. */
  function Place(q: seq<nat>, current: Option<nat>): nat {
    if current.None? then |q| else Find(q, current.value)
  }

  function Following(q: seq<nat>, current: Option<nat>, repeat: bool): Option<nat>
    requires q != []
  {
    var i := if Place(q, current) == |q| then 0 else Place(q, current);
    if i + 1 < |q| then Some(q[i + 1]) else if repeat then Some(q[0]) else None
  }

  lemma RebuiltSize(p: Player, c: Chance)
    ensures multiset(Rebuilt(p, c)) == multiset(IdsOf(p)) && |Rebuilt(p, c)| == |p.list.songs|
  {
    assert |multiset(Rebuilt(p, c))| == |multiset(IdsOf(p))|;
  }

  /** The song `nextSong` returns; the queue it leaves behind is that of BeforeLooking. */
  function NextSong(p: Player, c: Chance): Option<nat> {
    RebuiltSize(p, c);
    if Looks(p) then Following(BeforeLooking(p, c).queue, p.current, p.repeat) else None
  }

  datatype Back = OutOfRange | At(song: Option<nat>)

  /** The code starts from the last entry when the current song is the first, and takes the entry in
      front of where it is, unless that is the first. */
  function Preceding(q: seq<nat>, current: Option<nat>, repeat: bool): Back
    requires q != []
  {
    var i := if Place(q, current) == 0 then |q| - 1 else Place(q, current);
    if i == 0 then OutOfRange
    else if i - 1 > 0 then At(Some(q[i - 1]))
    else if repeat then At(Some(q[|q| - 1]))
    else At(None)
  }

  /** The song `previousSong` returns. */
  function PreviousSong(p: Player, c: Chance): Back {
    RebuiltSize(p, c);
    if Looks(p) then Preceding(BeforeLooking(p, c).queue, p.current, p.repeat) else At(None)
  }

  /** `next`, also from the end of a stream, which asks for Playing. */
  function MoveOn(p: Player, bin: Bin, c: Chance): Option<Player> {
    ChangeSong(BeforeLooking(p, c), NextSong(p, c), bin, c.spot)
  }

  // ---------- Operations ----------

  predicate Starts(p: Player) { p.bin != Playing && p.list.songs != [] }

  /** `play`. */
  function DoPlay(p: Player, c: Chance): Option<Player> {
    RebuiltSize(p, c);
    if p.bin == Playing then ChangeSong(p, p.current, Playing, c.spot)
    else if p.list.songs == [] then Some(p)
    else ChangeSong(p.(queue := Rebuilt(p, c)), Some(Rebuilt(p, c)[0]), Playing, c.spot)
  }

  /** `addSong`: the list calls `_addedSong`, and then the song is pushed once more. */
  function DoAdd(p: Player, url: string, position: int, spot: nat): Option<Player> {
    match P.Add(p.list, url, position)
    case None => None
    case Some(list) =>
      var id := p.list.counter;
      Some(Tell(p.(list := list, queue := Inserted(p, id, spot) + [id]), M.QueueChange))
  }

  /** How a song to remove is named. A search by text compares the records of the queued songs; of the
      entries whose song is gone, `gone` says which still compare equal. */
  datatype Search = ByPosition(i: nat) | ById(id: nat) | ByText(text: string, gone: set<nat>)

  predicate EntryMatches(list: P.Songs, x: nat, text: string, gone: set<nat>) {
    var j := P.FindId(list.songs, x);
    if j < |list.songs| then P.Matches(list.songs[j], text) else x in gone
  }

  /** The first queue entry that compares equal, or the length of the queue. */
  function FindEntry(list: P.Songs, q: seq<nat>, text: string, gone: set<nat>): (i: nat)
    ensures i <= |q|
    ensures i < |q| ==> EntryMatches(list, q[i], text, gone)
    ensures forall j :: 0 <= j < i ==> !EntryMatches(list, q[j], text, gone)
  {
    if q == [] || EntryMatches(list, q[0], text, gone) then 0 else 1 + FindEntry(list, q[1..], text, gone)
  }

  predicate InRange(p: Player, s: Search) { s.ByPosition? ==> s.i < |p.list.songs| }

  function EntryOf(p: Player, s: Search): (i: nat)
    requires InRange(p, s)
    ensures i <= |p.queue|
  {
    match s
    case ByPosition(i) => Find(p.queue, p.list.songs[i].id)
    case ById(id) => Find(p.queue, id)
    case ByText(text, gone) => FindEntry(p.list, p.queue, text, gone)
  }

  function SongOf(list: P.Songs, s: Search): (j: nat)
    ensures !s.ByPosition? ==> j <= |list.songs|
  {
    match s
    case ByPosition(i) => i
    case ById(id) => P.FindId(list.songs, id)
    case ByText(text, _) => P.FindText(list.songs, text)
  }

  /** The queue without the entry. */
  function Unqueued(p: Player, s: Search): Player
    requires InRange(p, s)
  {
    var i := EntryOf(p, s);
    if i < |p.queue| then p.(queue := P.Erase(p.queue, i)) else p
  }

  predicate MovesOn(p: Player, s: Search, stale: bool)
    requires InRange(p, s)
  {
    stale && Unqueued(p, s).queue != []
  }

  /** The three `removeSong`s: erase from the queue; if what the erased iterator reads equals the current
      song (`stale`), stop or move on; then remove from the list. */
  function BeforeRemoving(p: Player, s: Search, stale: bool, c: Chance): Option<Player>
    requires InRange(p, s)
  {
    var p' := Unqueued(p, s);
    if MovesOn(p, s, stale) then MoveOn(p', p'.bin, c)
    else if stale then Some(p'.(bin := Null))
    else Some(p')
  }

  function DoRemove(p: Player, s: Search, stale: bool, c: Chance): Option<Player> {
    if !InRange(p, s) then None
    else match BeforeRemoving(p, s, stale, c)
      case None => None
      case Some(p') => Some(Tell(p'.(list := P.RemoveAt(p'.list, SongOf(p'.list, s))), M.QueueChange))
  }

  /** `playSongID`. */
  function DoPlayId(p: Player, id: nat, spot: nat): Option<Player> {
    if P.FindId(p.list.songs, id) < |p.list.songs| then ChangeSong(p, Some(id), Playing, spot) else Some(p)
  }

  function DoPlayAt(p: Player, i: nat, spot: nat): Option<Player> {
    if i < |p.list.songs| then ChangeSong(p, Some(p.list.songs[i].id), Playing, spot) else Some(p)
  }

  function DoPrevious(p: Player, c: Chance): Option<Player> {
    match PreviousSong(p, c)
    case OutOfRange => None
    case At(song) => ChangeSong(BeforeLooking(p, c), song, p.bin, c.spot)
  }

  function DoResume(p: Player, c: Chance): Option<Player> {
    if p.current.None? then DoPlay(p, c)
    else if p.bin == Paused then Some(p.(bin := Playing))
    else Some(p)
  }

  function DoSetSingle(p: Player, single: Single): Player { Tell(p.(single := single), M.OptionChange) }

  function DoSetRandom(p: Player, on: bool, c: Chance): Player {
    var queue :=
      if on && !p.random then Shuffled(p.queue, c.order)
      else if !on && p.random then IdsOf(p)
      else p.queue;
    Tell(p.(queue := queue, random := on), M.OptionChange)
  }

  function DoShuffle(p: Player, order: seq<P.Song>, c: Chance): Player {
    var p' := p.(list := p.list.(songs := Shuffled(p.list.songs, order)));
    Tell(p'.(queue := Rebuilt(p', c)), M.QueueChange)
  }

  function DoClear(p: Player): Player {
    Tell(p.(list := p.list.(songs := []), queue := [], bin := Null), M.QueueChange)
  }

  /** `on_about_to_finish`. */
  function DoAboutToFinish(p: Player, c: Chance): Option<Player> {
    if p.tempChange then Some(p.(tempChange := false))
    else if p.single == Off then MoveOn(p, Playing, c)
    else
      var p' := if p.single == Oneshot then DoSetSingle(p, Off) else p;
      if p.repeat then ChangeSong(p', p.current, Playing, c.spot) else Some(p'.(bin := Null))
  }

  // ---------- Runs ----------

  datatype Step =
    | Add(url: string, position: int, spot: nat)
    | Remove(search: Search, stale: bool, c: Chance)
    | Clear
    | Shuffle(songOrder: seq<P.Song>, c: Chance)
    | SetConsume(on: bool)
    | SetRandom(on: bool, c: Chance)
    | SetRepeat(on: bool)
    | SetSingle(single: Single)
    | SetVolume
    | Play(c: Chance)
    | PlayAt(i: nat, spot: nat)
    | PlayId(id: nat, spot: nat)
    | Stop
    | Pause
    | Resume(c: Chance)
    | Next(c: Chance)
    | Previous(c: Chance)
    | Status(c: Chance)              // `doStatus` asks for the next song
    | AboutToFinish(c: Chance)
    | Bus(bin: Bin, told: bool)      // a message from the playbin, which may have changed its state

  /** One step; None when the code's behaviour is undefined. */
  function Apply(p: Player, step: Step): Option<Player> {
    match step
    case Add(url, position, spot) => DoAdd(p, url, position, spot)
    case Remove(s, stale, c) => DoRemove(p, s, stale, c)
    case Clear => Some(DoClear(p))
    case Shuffle(order, c) => Some(DoShuffle(p, order, c))
    case SetConsume(on) => Some(Tell(p.(consume := on), M.OptionChange))
    case SetRandom(on, c) => Some(DoSetRandom(p, on, c))
    case SetRepeat(on) => Some(Tell(p.(repeat := on), M.OptionChange))
    case SetSingle(single) => Some(DoSetSingle(p, single))
    case SetVolume => Some(Tell(p, M.VolumeChange))
    case Play(c) => DoPlay(p, c)
    case PlayAt(i, spot) => DoPlayAt(p, i, spot)
    case PlayId(id, spot) => DoPlayId(p, id, spot)
    case Stop => Some(p.(bin := Null))
    case Pause => Some(p.(bin := Paused))
    case Resume(c) => DoResume(p, c)
    case Next(c) => MoveOn(p, p.bin, c)
    case Previous(c) => DoPrevious(p, c)
    case Status(c) => Some(if p.current.Some? then BeforeLooking(p, c) else p)
    case AboutToFinish(c) => DoAboutToFinish(p, c)
    case Bus(bin, told) => Some(var p' := p.(bin := bin); if told then Tell(p', M.StateChange) else p')
  }

  predicate Legal(p: Player, run: seq<Step>)
    decreases |run|
  {
    run == [] || (Apply(p, run[0]).Some? && Legal(Apply(p, run[0]).value, run[1..]))
  }

  function After(p: Player, run: seq<Step>): Player
    requires Legal(p, run)
    decreases |run|
  {
    if run == [] then p else After(Apply(p, run[0]).value, run[1..])
  }
}

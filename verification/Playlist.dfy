/**
 The song list of src/Playlist.cpp: URL normalisation, insertion and removal,
 identifiers, and the lookups by position, identifier and text.
 */
module Playlist {
  import opened Common

  // ---------- URLs ----------

  /** `find(part) != npos`. */
  predicate Has(s: string, part: string) {
    part <= s || (s != "" && Has(s[1..], part))
  }

  /** `Song::isLocal`. */
  predicate IsLocal(url: string) {
    (url != "" && url[0] == '/') || "file://" <= url || !Has(url, "://")
  }

  function Stripped(url: string): string {
    if "yt:" <= url then url[3..]
    else if "youtube:" <= url then url[8..]
    else url
  }

  /** The URL `_addSong` stores. */
  function Stored(url: string): string {
    var s := Stripped(url);
    if IsLocal(s) && !Has(s, "file://") then "file://" + s else s
  }

  /** `part` stands somewhere in `s`. */
  ghost predicate Contains(s: string, part: string) {
    exists i: nat :: i <= |s| && part <= s[i..]
  }

  lemma {:induction false} HasExactlyWhen(s: string, part: string)
    ensures Has(s, part) <==> Contains(s, part)
  {
    if part <= s {
      assert s[0..] == s;
    } else if s != "" {
      HasExactlyWhen(s[1..], part);
      if Contains(s[1..], part) {
        var i: nat :| i <= |s| - 1 && part <= s[1..][i..];
        assert s[1..][i..] == s[i + 1..];
      }
      if Contains(s, part) {
        var i: nat :| i <= |s| && part <= s[i..];
        assert i > 0 && s[1..][i - 1..] == s[i..];
      }
    }
  }

  predicate Prefixed(url: string) { "yt:" <= url || "youtube:" <= url }

  /** A file: an absolute path, a file URL, or anything that has no scheme. */
  ghost predicate IsFile(x: string) { "/" <= x || "file://" <= x || !Contains(x, "://") }

  lemma IsFileExactlyWhen(x: string)
    ensures IsLocal(x) <==> IsFile(x)
    ensures Contains(x, "file://") ==> Contains(x, "://")
  {
    HasExactlyWhen(x, "://");
    assert "/" <= x <==> x != "" && x[0] == '/';
    SchemeInside(x);
  }

  lemma SchemeInside(x: string)
    ensures Contains(x, "file://") ==> Contains(x, "://")
  {
    if Contains(x, "file://") {
      var i: nat :| i <= |x| && "file://" <= x[i..];
      assert x[i + 4..] == x[i..][4..] && "file://"[4..] == "://";
    }
  }

  /** A URL without a prefix is stored as it is, except that a file that does not say so gets "file://". */
  lemma PlainIsStoredAs(x: string)
    requires !Prefixed(x)
    ensures Stored(x) == if IsFile(x) && !Contains(x, "file://") then "file://" + x else x
  {
    IsFileExactlyWhen(x);
    HasExactlyWhen(x, "file://");
  }

  /** Either prefix is taken off, once. */
  lemma PrefixIsTakenOff(x: string)
    ensures Stored("youtube:" + x) == Stored("yt:" + x)
    ensures !Prefixed(x) ==> Stored("yt:" + x) == Stored(x)
    ensures Stripped("youtube:" + x) == x && Stripped("yt:" + x) == x
  {
    assert ("youtube:" + x)[1] == 'o' && ("yt:" + x)[1] == 't' && "yt:"[1] == 't';
    assert ("youtube:" + x)[8..] == x && ("yt:" + x)[3..] == x;
  }

  lemma FilePrefixIsStored(s: string)
    requires "file://" <= s
    ensures Stored(s) == s
  {
    assert s[0] == 'f';
  }

  lemma StrippedOnce(s: string)
    requires "yt:" <= s || "youtube:" <= s
    ensures Stored(s) != s
  {
    assert s[0] == 'y';
    assert ("file://" + Stripped(s))[0] == 'f';
  }

  /** Normalising twice is normalising once, except on what is left of a doubly prefixed remote URL. */
  lemma StoredTwiceExactlyWhen(url: string)
    ensures Stored(Stored(url)) == Stored(url) <==> !("yt:" <= Stored(url)) && !("youtube:" <= Stored(url))
  {
    var s := Stored(url);
    if "yt:" <= s || "youtube:" <= s {
      StrippedOnce(s);
    } else if s != Stripped(url) {
      assert "file://" <= s;
      FilePrefixIsStored(s);
    }
  }

  lemma StoredIsNotEmpty(url: string)
    ensures Stored(url) != ""
  {
  }

  lemma StoredKeepsOut(url: string, c: char)
    requires c !in url && c !in "file://"
    ensures c !in Stored(url)
  {
    assert c !in Stripped(url);
  }

  // ---------- Songs ----------

  datatype Song = Song(
    url: string, id: nat, title: string, seconds: int, dataUrl: string, thumbnail: string, tags: seq<(string, string)>)

  datatype Songs = Songs(songs: seq<Song>, counter: nat)

  /** `_addSong`'s new song; a local one has its own URL as data URL. */
  function NewSong(url: string, id: nat): Song {
    Song(Stored(url), id, "", 0, if IsLocal(Stripped(url)) then Stored(url) else "", "", [])
  }

  /** Where `_addSong` inserts: negative means at the end, and the position just past the end is moved
      to the one before the last song. An iterator past that, or before the first song of an empty
      list, is undefined. */
  function InsertionPoint(size: nat, position: int): Option<nat> {
    if position < 0 then Some(size)
    else if position < size then Some(position)
    else if position == size && size > 0 then Some(size - 1)
    else None
  }

  function InsertAt(s: seq<Song>, i: nat, song: Song): seq<Song>
    requires i <= |s|
  {
    s[..i] + [song] + s[i..]
  }

  function Add(l: Songs, url: string, position: int): Option<Songs> {
    match InsertionPoint(|l.songs|, position)
    case None => None
    case Some(i) => Some(Songs(InsertAt(l.songs, i, NewSong(url, l.counter)), l.counter + 1))
  }

  function Erase<T>(s: seq<T>, i: nat): seq<T>
    requires i < |s|
  {
    s[..i] + s[i + 1..]
  }

  /** `m` is `l` with a new song at place `i`, which has the next identifier. */
  ghost predicate AddedAt(l: Songs, m: Songs, i: nat, song: Song) {
    && i < |m.songs| && m.songs[i] == song && Erase(m.songs, i) == l.songs
    && song.id == l.counter && m.counter == l.counter + 1
  }

  /** What adding puts into the list, and where: the URL `x` with or without one prefix in front. A file's
      data URL is its URL; other songs have none yet. */
  lemma AddPuts(l: Songs, prefix: string, x: string, position: int)
    requires prefix == "" || prefix == "yt:" || prefix == "youtube:"
    requires !Prefixed(x) && Add(l, prefix + x, position).Some?
    ensures var n := |l.songs|;
      var url := if IsFile(x) && !Contains(x, "file://") then "file://" + x else x;
      AddedAt(l, Add(l, prefix + x, position).value,
              if position < 0 then n else if position < n then position else n - 1,
              Song(url, l.counter, "", 0, if IsFile(x) then url else "", "", []))
    ensures position <= |l.songs| && !(position == 0 && l.songs == [])
  {
    NewSongIs(prefix, x, l.counter);
    InsertPuts(l, InsertionPoint(|l.songs|, position).value, NewSong(prefix + x, l.counter));
  }

  lemma InsertPuts(l: Songs, i: nat, song: Song)
    requires i <= |l.songs| && song.id == l.counter
    ensures AddedAt(l, Songs(InsertAt(l.songs, i, song), l.counter + 1), i, song)
  {
    assert Erase(InsertAt(l.songs, i, song), i) == l.songs;
  }

  lemma NewSongIs(prefix: string, x: string, id: nat)
    requires prefix == "" || prefix == "yt:" || prefix == "youtube:"
    requires !Prefixed(x)
    ensures var url := if IsFile(x) && !Contains(x, "file://") then "file://" + x else x;
      NewSong(prefix + x, id) == Song(url, id, "", 0, if IsFile(x) then url else "", "", [])
  {
    PrefixIsTakenOff(x);
    PlainIsStoredAs(x);
    IsFileExactlyWhen(x);
    assert "" + x == x;
    assert Stripped(prefix + x) == x && Stored(prefix + x) == Stored(x);
  }

  // ---------- Lookups ----------

  /** `find_if` for an identifier: its index, or the size of the list. */
  function FindId(s: seq<Song>, id: nat): (i: nat)
    ensures i <= |s|
    ensures i < |s| ==> s[i].id == id
    ensures forall j :: 0 <= j < i ==> s[j].id != id
  {
    if s == [] || s[0].id == id then 0 else 1 + FindId(s[1..], id)
  }

  predicate Matches(song: Song, search: string) { song.url == search || song.title == search }

  function FindText(s: seq<Song>, search: string): (i: nat)
    ensures i <= |s|
    ensures i < |s| ==> Matches(s[i], search)
    ensures forall j :: 0 <= j < i ==> !Matches(s[j], search)
  {
    if s == [] || Matches(s[0], search) then 0 else 1 + FindText(s[1..], search)
  }

  function RemoveAt(l: Songs, i: nat): Songs {
    if i < |l.songs| then l.(songs := Erase(l.songs, i)) else l
  }

  function RemoveId(l: Songs, id: nat): Songs { RemoveAt(l, FindId(l.songs, id)) }

  function RemoveText(l: Songs, search: string): Songs { RemoveAt(l, FindText(l.songs, search)) }

  /** Removal by text takes out the first song that has it as its URL or its title. */
  lemma RemovesFirstWithText(l: Songs, i: nat, text: string)
    requires i < |l.songs| && (l.songs[i].url == text || l.songs[i].title == text)
    requires forall j :: 0 <= j < i ==> l.songs[j].url != text && l.songs[j].title != text
    ensures RemoveText(l, text).songs == l.songs[..i] + l.songs[i + 1..]
  {
    assert Matches(l.songs[i], text) && forall j :: 0 <= j < i ==> !Matches(l.songs[j], text);
    assert FindText(l.songs, text) == i;
  }

  /** Without such a song nothing happens. */
  lemma RemovesNothingWithoutText(l: Songs, text: string)
    requires forall j :: 0 <= j < |l.songs| ==> l.songs[j].url != text && l.songs[j].title != text
    ensures RemoveText(l, text) == l
  {
    assert forall j :: 0 <= j < |l.songs| ==> !Matches(l.songs[j], text);
  }

  // ---------- Identity over whole runs ----------

  function Ids(s: seq<Song>): seq<nat> {
    seq(|s|, i requires 0 <= i < |s| => s[i].id)
  }

  ghost predicate Distinct<T(!new)>(s: seq<T>) {
    forall i, j :: 0 <= i < j < |s| ==> s[i] != s[j]
  }

  /** Identifiers are unique and below the counter. */
  ghost predicate Valid(l: Songs) {
    Distinct(Ids(l.songs)) && forall i :: 0 <= i < |l.songs| ==> l.songs[i].id < l.counter
  }

  datatype Step =
    | AddUrl(url: string, position: int)
    | DropAt(i: nat)
    | DropId(id: nat)
    | DropText(search: string)
    | Clear
    | Reorder(order: seq<Song>)             // shuffle: any permutation
    | Refresh(i: nat, song: Song)           // _updateSong: new details, same URL and identifier
    | Load(urls: seq<string>)               // loadFromFile: clear, then add each line

  ghost predicate Enabled(l: Songs, step: Step) {
    match step
    case AddUrl(url, position) => InsertionPoint(|l.songs|, position).Some?
    case Reorder(order) => multiset(order) == multiset(l.songs)
    case Refresh(i, song) => i < |l.songs| && song.id == l.songs[i].id && song.url == l.songs[i].url
    case _ => true
  }

  function AddAll(l: Songs, urls: seq<string>): Songs
    decreases |urls|
  {
    if urls == [] then l else AddAll(Add(l, urls[0], -1).value, urls[1..])
  }

  function Apply(l: Songs, step: Step): Songs
    requires Enabled(l, step)
  {
    match step
    case AddUrl(url, position) => Add(l, url, position).value
    case DropAt(i) => RemoveAt(l, i)
    case DropId(id) => RemoveId(l, id)
    case DropText(search) => RemoveText(l, search)
    case Clear => l.(songs := [])
    case Reorder(order) => l.(songs := order)
    case Refresh(i, song) => l.(songs := l.songs[i := song])
    case Load(urls) => AddAll(l.(songs := []), urls)
  }

  ghost predicate Legal(l: Songs, run: seq<Step>)
    decreases |run|
  {
    run == [] || (Enabled(l, run[0]) && Legal(Apply(l, run[0]), run[1..]))
  }

  function After(l: Songs, run: seq<Step>): Songs
    requires Legal(l, run)
    decreases |run|
  {
    if run == [] then l else After(Apply(l, run[0]), run[1..])
  }

  /** `m` is a later state of `l`: the counter has not gone back, and every song with an identifier
      from before is a song `l` had, with the same URL. */
  ghost predicate Later(l: Songs, m: Songs) {
    && l.counter <= m.counter
    && forall i :: 0 <= i < |m.songs| && m.songs[i].id < l.counter ==>
         exists j :: 0 <= j < |l.songs| && l.songs[j].id == m.songs[i].id && l.songs[j].url == m.songs[i].url
  }

  lemma LaterTrans(a: Songs, b: Songs, c: Songs)
    requires Later(a, b) && Later(b, c)
    ensures Later(a, c)
  {
    forall i | 0 <= i < |c.songs| && c.songs[i].id < a.counter
      ensures exists j :: 0 <= j < |a.songs| && a.songs[j].id == c.songs[i].id && a.songs[j].url == c.songs[i].url
    {
      var k :| 0 <= k < |b.songs| && b.songs[k].id == c.songs[i].id && b.songs[k].url == c.songs[i].url;
    }
  }

  lemma EraseKeeps(l: Songs, i: nat)
    requires Valid(l) && i < |l.songs|
    ensures Valid(l.(songs := Erase(l.songs, i))) && Later(l, l.(songs := Erase(l.songs, i)))
  {
    var t := Erase(l.songs, i);
    forall j, k | 0 <= j < k < |t| ensures Ids(t)[j] != Ids(t)[k] {
      var j', k' := if j < i then j else j + 1, if k < i then k else k + 1;
      assert Ids(l.songs)[j'] != Ids(l.songs)[k'];
    }
    forall j | 0 <= j < |t|
      ensures exists k :: 0 <= k < |l.songs| && l.songs[k].id == t[j].id && l.songs[k].url == t[j].url
    {
      var k := if j < i then j else j + 1;
      assert l.songs[k] == t[j];
    }
  }

  lemma InsertKeeps(l: Songs, i: nat, song: Song)
    requires Valid(l) && i <= |l.songs| && song.id == l.counter
    ensures var m := Songs(InsertAt(l.songs, i, song), l.counter + 1); Valid(m) && Later(l, m)
  {
    var t := InsertAt(l.songs, i, song);
    forall j, k | 0 <= j < k < |t| ensures Ids(t)[j] != Ids(t)[k] {
      var j', k' := if j < i then j else j - 1, if k < i then k else k - 1;
      if j != i && k != i {
        assert Ids(l.songs)[j'] != Ids(l.songs)[k'];
      }
    }
    forall j | 0 <= j < |t| && t[j].id < l.counter
      ensures exists k :: 0 <= k < |l.songs| && l.songs[k].id == t[j].id && l.songs[k].url == t[j].url
    {
      var k := if j < i then j else j - 1;
      assert l.songs[k] == t[j];
    }
  }

  lemma {:induction false} AddAllKeeps(l: Songs, urls: seq<string>)
    requires Valid(l)
    ensures Valid(AddAll(l, urls)) && Later(l, AddAll(l, urls))
    decreases |urls|
  {
    if urls != [] {
      var m := Add(l, urls[0], -1).value;
      InsertKeeps(l, |l.songs|, NewSong(urls[0], l.counter));
      AddAllKeeps(m, urls[1..]);
      LaterTrans(l, m, AddAll(m, urls[1..]));
    }
  }

  lemma ReorderKeeps(l: Songs, order: seq<Song>)
    requires Valid(l) && multiset(order) == multiset(l.songs)
    ensures Valid(l.(songs := order)) && Later(l, l.(songs := order))
  {
    forall i | 0 <= i < |order| ensures exists j :: 0 <= j < |l.songs| && l.songs[j] == order[i] {
      assert order[i] in multiset(order);
    }
    forall i, j | 0 <= i < j < |order| ensures Ids(order)[i] != Ids(order)[j] {
      if order[i].id == order[j].id {
        assert order[i] in multiset(l.songs) && order[j] in multiset(l.songs);
        var a :| 0 <= a < |l.songs| && l.songs[a] == order[i];
        var b :| 0 <= b < |l.songs| && l.songs[b] == order[j];
        assert Ids(l.songs)[a] == Ids(l.songs)[b];
        assert order[i] == order[j];
        TwiceInMultiset(order, i, j);
        OnceInMultiset(l.songs, a);
      }
    }
  }

  lemma TwiceInMultiset(s: seq<Song>, i: nat, j: nat)
    requires i < j < |s| && s[i] == s[j]
    ensures multiset(s)[s[i]] >= 2
  {
    assert s == s[..j] + [s[j]] + s[j + 1..];
    assert s[i] in s[..j];
  }

  lemma OnceInMultiset(s: seq<Song>, i: nat)
    requires i < |s| && Distinct(Ids(s))
    ensures multiset(s)[s[i]] == 1
  {
    assert s == s[..i] + [s[i]] + s[i + 1..];
    forall k | 0 <= k < i ensures s[k] != s[i] { assert Ids(s)[k] != Ids(s)[i]; }
    forall k | i < k < |s| ensures s[k] != s[i] { assert Ids(s)[i] != Ids(s)[k]; }
    assert s[i] !in s[..i] && s[i] !in s[i + 1..];
  }

  lemma StepKeeps(l: Songs, step: Step)
    requires Valid(l) && Enabled(l, step)
    ensures Valid(Apply(l, step)) && Later(l, Apply(l, step))
  {
    match step
    case AddUrl(url, position) =>
      InsertKeeps(l, InsertionPoint(|l.songs|, position).value, NewSong(url, l.counter));
    case DropAt(i) => if i < |l.songs| { EraseKeeps(l, i); }
    case DropId(id) => if FindId(l.songs, id) < |l.songs| { EraseKeeps(l, FindId(l.songs, id)); }
    case DropText(search) => if FindText(l.songs, search) < |l.songs| { EraseKeeps(l, FindText(l.songs, search)); }
    case Clear =>
    case Reorder(order) => ReorderKeeps(l, order);
    case Refresh(i, song) => assert Ids(l.songs[i := song]) == Ids(l.songs);
    case Load(urls) =>
      AddAllKeeps(l.(songs := []), urls);
      LaterTrans(l, l.(songs := []), Apply(l, step));
  }

  /** Over every run: identifiers stay unique and below the counter, and a song whose identifier was
      given out before the run is a song that was there before the run, with the same URL. */
  lemma {:induction false} RunKeepsIdentity(l: Songs, run: seq<Step>)
    requires Valid(l) && Legal(l, run)
    ensures Valid(After(l, run)) && Later(l, After(l, run))
    decreases |run|
  {
    if run != [] {
      StepKeeps(l, run[0]);
      RunKeepsIdentity(Apply(l, run[0]), run[1..]);
      LaterTrans(l, Apply(l, run[0]), After(l, run));
    }
  }

  /** An identifier that has been given out and is gone never comes back. */
  lemma GoneForGood(l: Songs, run: seq<Step>, id: nat)
    requires Valid(l) && Legal(l, run) && id < l.counter && FindId(l.songs, id) == |l.songs|
    ensures var m := After(l, run); FindId(m.songs, id) == |m.songs|
  {
    RunKeepsIdentity(l, run);
  }

  /** Asking for a song by position and for its position by identifier undo each other. */
  lemma IndexOfSongAt(l: Songs, i: nat)
    requires Valid(l) && i < |l.songs|
    ensures FindId(l.songs, l.songs[i].id) == i
  {
    var j := FindId(l.songs, l.songs[i].id);
    assert j <= i && Ids(l.songs)[i] == l.songs[i].id && Ids(l.songs)[j] == l.songs[j].id;
  }

  // ---------- Removal and insertion by position ----------

  /** `Playlist::removeSong(size_t)` takes out exactly the song at the position and keeps the order of the
      rest, as does `Playlist::removeSongID` with that song's identifier; outside the list, and for an
      identifier nobody has, nothing happens. */
  lemma RemovalByPositionIsById(l: Songs, i: nat)
    requires Valid(l)
    ensures i < |l.songs| ==>
      && RemoveAt(l, i) == l.(songs := l.songs[..i] + l.songs[i + 1..])
      && RemoveId(l, l.songs[i].id) == RemoveAt(l, i)
    ensures RemoveAt(l, i) == l <==> i >= |l.songs|
    ensures RemoveId(l, i) == l <==> forall j :: 0 <= j < |l.songs| ==> l.songs[j].id != i
  {
    if i < |l.songs| {
      IndexOfSongAt(l, i);
    }
  }

  /** The position a song asked for and the position it gets agree exactly when it is inside the list. */
  lemma PositionHonouredExactlyWhen(l: Songs, url: string, position: nat)
    requires Valid(l) && Add(l, url, position).Some?
    ensures var m := Add(l, url, position).value.songs;
      (position < |m| && m[position].id == l.counter) <==> position < |l.songs|
  {
  }

  // ---------- addFromPlaylist ----------

  const BLANK: Song := Song("", 0, "", 0, "", "", [])

  function Copied(songs: seq<Song>, counter: nat): seq<Song> {
    if songs == [] then [] else [songs[0].(id := counter)] + Copied(songs[1..], counter + 1)
  }

  /** `addFromPlaylist` grows the list by as many blank songs as the other list has, and then appends
      the copies behind them. */
  function AddFrom(l: Songs, other: seq<Song>): Songs {
    Songs(l.songs + seq(|other|, i => BLANK) + Copied(other, l.counter), l.counter + |other|)
  }

  lemma {:induction false} CopiedIds(songs: seq<Song>, counter: nat)
    ensures |Copied(songs, counter)| == |songs|
    ensures forall i :: 0 <= i < |songs| ==> Copied(songs, counter)[i] == songs[i].(id := counter + i)
  {
    if songs != [] {
      CopiedIds(songs[1..], counter + 1);
    }
  }

  /** What adding from a playlist leaves: the old songs, as many blank ones as the other list has, and its songs in
      order under the next identifiers. */
  lemma AddFromPuts(l: Songs, other: seq<Song>, i: nat)
    requires i < |other|
    ensures var m, n := AddFrom(l, other), |l.songs|;
      && |m.songs| == n + 2 * |other| && m.songs[..n] == l.songs && m.counter == l.counter + |other|
      && m.songs[n + i] == Song("", 0, "", 0, "", "", [])
      && m.songs[n + |other| + i] == other[i].(id := l.counter + i)
  {
    CopiedIds(other, l.counter);
  }

  /** Adding from a playlist keeps identifiers unique exactly when the other list is empty, or holds
      one song and identifier 0 has been given out and is free again. */
  lemma AddFromKeepsIdentityExactlyWhen(l: Songs, other: seq<Song>)
    requires Valid(l)
    ensures Valid(AddFrom(l, other)) <==>
      other == [] || (|other| == 1 && l.counter > 0 && FindId(l.songs, 0) == |l.songs|)
  {
    var m, n := AddFrom(l, other), |l.songs|;
    CopiedIds(other, l.counter);
    var ids := Ids(m.songs);
    assert forall i :: 0 <= i < n ==> ids[i] == Ids(l.songs)[i];
    assert forall i :: n <= i < n + |other| ==> ids[i] == 0;
    assert forall i :: n + |other| <= i < n + 2 * |other| ==> ids[i] == l.counter + (i - n - |other|);
    if |other| >= 2 {
      assert ids[n] == ids[n + 1];
    } else if |other| == 1 {
      if FindId(l.songs, 0) < n {
        assert ids[FindId(l.songs, 0)] == ids[n];
      } else if l.counter == 0 {
        assert ids[n] == ids[n + 1];
      }
    }
  }

  /** The search loop behind `indexOf`, `hasSongID` and `getSongID`. */
  method IndexIn(songs: seq<Song>, id: nat) returns (i: nat)
    ensures i == FindId(songs, id)
  {
    i := 0;
    while i < |songs| && songs[i].id != id
      invariant i <= |songs|
      invariant FindId(songs, id) == i + FindId(songs[i..], id)
    {
      assert songs[i..][1..] == songs[i + 1..];
      i := i + 1;
    }
  }

  // ---------- The object ----------

  class SongList {
    var songs: seq<Song>
    var songCounter: nat

    function View(): Songs
      reads this
    {
      Songs(songs, songCounter)
    }

    constructor ()
      ensures View() == Songs([], 0)
    {
      songs, songCounter := [], 0;
    }

    /** `_addSong(url, position)`. */
    method AddSong(url: string, position: int) returns (id: nat)
      requires InsertionPoint(|songs|, position).Some?
      modifies this
      ensures Add(old(View()), url, position) == Some(View()) && id == old(songCounter)
    {
      var stripped := Stripped(url);
      var at := if position < 0 then |songs| else if position == |songs| then |songs| - 1 else position;
      var song := Song(stripped, songCounter, "", 0, "", "", []);
      id := songCounter;
      songCounter := songCounter + 1;
      if IsLocal(song.url) {
        if !Has(song.url, "file://") {
          song := song.(url := "file://" + song.url);
        }
        song := song.(dataUrl := song.url);
      }
      songs := songs[..at] + [song] + songs[at..];
    }

    method RemoveSongId(id: nat)
      modifies this
      ensures View() == RemoveId(old(View()), id)
    {
      var i := IndexIn(songs, id);
      if i < |songs| {
        songs := songs[..i] + songs[i + 1..];
      }
    }

    method RemoveSongAt(i: nat)
      modifies this
      ensures View() == RemoveAt(old(View()), i)
    {
      if i < |songs| {
        songs := songs[..i] + songs[i + 1..];
      }
    }

    method RemoveAllSongs()
      modifies this
      ensures View() == old(View()).(songs := [])
    {
      songs := [];
    }
  }
}

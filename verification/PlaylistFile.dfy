/**
 The playlist file: `saveToFile` and `loadFromFile` of src/Playlist.cpp, on the
 text of the file.
 */
module PlaylistFile {
  import opened Common
  import opened Tokeniser
  import opened Text
  import opened Playlist

  const NL: char := '\n'

  // ---------- Writing ----------

  /** `std::quoted`: quotes and backslashes get a backslash in front. */
  function Escaped(s: string): string {
    if s == "" then ""
    else (if s[0] == '"' || s[0] == '\\' then ['\\', s[0]] else [s[0]]) + Escaped(s[1..])
  }

  /** The tags from index `i` on; a comma goes in front of every tag that differs from the first. */
  function TagText(tags: seq<(string, string)>, i: nat): string
    requires i <= |tags|
    decreases |tags| - i
  {
    if i == |tags| then ""
    else (if tags[i] != tags[0] then "," else "") + tags[i].0 + "=\"" + Escaped(tags[i].1) + "\"" + TagText(tags, i + 1)
  }

  function InfoLine(s: Song): string { "#EXTINF:" + Decimal(s.seconds) + "," + s.title }

  function DataLine(s: Song): string { "#YTDLD:" + s.dataUrl + "," + s.thumbnail + "," + TagText(s.tags, 0) }

  function Entries(songs: seq<Song>): string {
    if songs == [] then ""
    else InfoLine(songs[0]) + [NL] + (DataLine(songs[0]) + [NL] + (songs[0].url + ([NL] + Entries(songs[1..]))))
  }

  const HEADER: string := "#EXTM3U"

  /** `saveToFile`. */
  function Save(songs: seq<Song>): string { HEADER + [NL] + Entries(songs) }

  // ---------- Reading ----------

  /** What the `getline` loop sees in `line`, once per turn. After a last line without a newline the
      stream is not yet failed, so the loop turns once more, `getline` fails before touching `line`, and
      the last line is seen twice. After a final newline the last turn sees an empty line. */
  function LinesRead(text: string): seq<string> { LastTwice(Split(text, NL)) }

  function LastTwice(fields: seq<string>): seq<string>
    requires fields != []
  {
    if Last(fields) == "" then fields else fields + [Last(fields)]
  }

  predicate Skipped(line: string) { line == "" || line[0] == '#' }

  /** The URLs the lines turn into. */
  function LoadedUrls(lines: seq<string>): seq<string> {
    if lines == [] then []
    else (if Skipped(lines[0]) then [] else [Stored(lines[0])]) + LoadedUrls(lines[1..])
  }

  /** The lines `_addSong` is called with. */
  function Kept(lines: seq<string>): seq<string> {
    if lines == [] then []
    else (if Skipped(lines[0]) then [] else [lines[0]]) + Kept(lines[1..])
  }

  /** `loadFromFile`, on the text of the file. */
  function LoadText(l: Songs, text: string): Songs {
    Apply(l, Load(Kept(LinesRead(text))))
  }

  function Urls(songs: seq<Song>): seq<string> {
    if songs == [] then [] else [songs[0].url] + Urls(songs[1..])
  }

  lemma {:induction false} UrlsAppend(songs: seq<Song>, s: Song)
    ensures Urls(songs + [s]) == Urls(songs) + [s.url]
  {
    if songs != [] {
      assert (songs + [s])[1..] == songs[1..] + [s];
      UrlsAppend(songs[1..], s);
    } else {
      assert ([] + [s])[1..] == [];
    }
  }

  lemma UrlsOfAdd(l: Songs, line: string)
    ensures Urls(Add(l, line, -1).value.songs) == Urls(l.songs) + [Stored(line)]
  {
    var song := NewSong(line, l.counter);
    assert InsertAt(l.songs, |l.songs|, song) == l.songs + [song];
    UrlsAppend(l.songs, song);
  }

  lemma {:induction false} UrlsOfAddAll(l: Songs, lines: seq<string>)
    requires forall line :: line in lines ==> !Skipped(line)
    ensures Urls(AddAll(l, lines).songs) == Urls(l.songs) + LoadedUrls(lines)
    decreases |lines|
  {
    if lines == [] {
      assert Urls(l.songs) + [] == Urls(l.songs);
    } else {
      assert lines[0] in lines;
      UrlsOfAdd(l, lines[0]);
      UrlsOfAddAll(Add(l, lines[0], -1).value, lines[1..]);
      Reassociate(Urls(l.songs), [Stored(lines[0])], LoadedUrls(lines[1..]));
    }
  }

  lemma {:induction false} KeptAreLoaded(lines: seq<string>)
    ensures LoadedUrls(Kept(lines)) == LoadedUrls(lines)
    ensures forall line :: line in Kept(lines) ==> !Skipped(line)
  {
    if lines != [] {
      KeptAreLoaded(lines[1..]);
      if Skipped(lines[0]) {
        assert Kept(lines) == Kept(lines[1..]);
      } else {
        assert Kept(lines)[1..] == Kept(lines[1..]);
      }
    }
  }

  /** The URLs of a loaded list are those of the lines read. */
  lemma UrlsOfLoad(l: Songs, text: string)
    ensures Urls(LoadText(l, text).songs) == LoadedUrls(LinesRead(text))
  {
    var lines := LinesRead(text);
    KeptAreLoaded(lines);
    UrlsOfAddAll(l.(songs := []), Kept(lines));
    assert [] + LoadedUrls(lines) == LoadedUrls(lines);
  }

  lemma {:induction false} LoadedConcat(a: seq<string>, b: seq<string>)
    ensures LoadedUrls(a + b) == LoadedUrls(a) + LoadedUrls(b)
  {
    if a == [] {
      assert a + b == b;
    } else {
      LoadedConcat(a[1..], b);
      LoadedBehind(a[0], a[1..], b);
      assert [a[0]] + a[1..] == a;
      assert [a[0]] + (a[1..] + b) == a + b;
    }
  }

  lemma LoadedCons(line: string, rest: seq<string>)
    ensures LoadedUrls([line] + rest) == (if Skipped(line) then [] else [Stored(line)]) + LoadedUrls(rest)
  {
    assert ([line] + rest)[1..] == rest;
  }

  lemma LoadedBehind(line: string, rest: seq<string>, b: seq<string>)
    requires LoadedUrls(rest + b) == LoadedUrls(rest) + LoadedUrls(b)
    ensures LoadedUrls([line] + (rest + b)) == LoadedUrls([line] + rest) + LoadedUrls(b)
  {
    LoadedCons(line, rest);
    LoadedCons(line, rest + b);
    Reassociate(if Skipped(line) then [] else [Stored(line)], LoadedUrls(rest), LoadedUrls(b));
  }

  // ---------- Save, then load ----------

  /** No newline in any field written beside the URL. */
  predicate OneLineFields(s: Song) {
    && NL !in s.title && NL !in s.dataUrl && NL !in s.thumbnail
    && forall i :: 0 <= i < |s.tags| ==> NL !in s.tags[i].0 && NL !in s.tags[i].1
  }

  lemma {:induction false} EscapedStaysOnLine(s: string)
    requires NL !in s
    ensures NL !in Escaped(s)
  {
    if s != "" {
      EscapedStaysOnLine(s[1..]);
    }
  }

  lemma {:induction false} TagTextStaysOnLine(tags: seq<(string, string)>, i: nat)
    requires i <= |tags| && forall k :: 0 <= k < |tags| ==> NL !in tags[k].0 && NL !in tags[k].1
    ensures NL !in TagText(tags, i)
    decreases |tags| - i
  {
    if i < |tags| {
      EscapedStaysOnLine(tags[i].1);
      TagTextStaysOnLine(tags, i + 1);
    }
  }

  lemma HeadLinesAreSkipped(s: Song)
    requires OneLineFields(s)
    ensures NL !in InfoLine(s) && Skipped(InfoLine(s))
    ensures NL !in DataLine(s) && Skipped(DataLine(s))
  {
    TagTextStaysOnLine(s.tags, 0);
  }

  /** The URLs that come back from the entries, whatever the URLs are. */
  function Returned(songs: seq<Song>): seq<string> {
    if songs == [] then [] else LoadedUrls(Split(songs[0].url, NL)) + Returned(songs[1..])
  }

  lemma EntryLines(s: Song, rest: string)
    requires OneLineFields(s)
    ensures Split(InfoLine(s) + [NL] + (DataLine(s) + [NL] + (s.url + ([NL] + rest))), NL)
         == [InfoLine(s)] + ([DataLine(s)] + (Split(s.url, NL) + Split(rest, NL)))
  {
    HeadLinesAreSkipped(s);
    SplitAt(s.url, rest, NL);
    SplitCons(DataLine(s), s.url + ([NL] + rest), NL);
    SplitCons(InfoLine(s), DataLine(s) + [NL] + (s.url + ([NL] + rest)), NL);
  }

  lemma LoadedEntry(s: Song, rest: seq<string>)
    requires OneLineFields(s)
    ensures LoadedUrls([InfoLine(s)] + ([DataLine(s)] + (Split(s.url, NL) + rest)))
         == LoadedUrls(Split(s.url, NL)) + LoadedUrls(rest)
  {
    HeadLinesAreSkipped(s);
    var tail := Split(s.url, NL) + rest;
    LoadedConcat(Split(s.url, NL), rest);
    assert ([DataLine(s)] + tail)[1..] == tail;
    assert ([InfoLine(s)] + ([DataLine(s)] + tail))[1..] == [DataLine(s)] + tail;
  }

  lemma {:induction false} EntriesEndEmpty(songs: seq<Song>)
    ensures Entries(songs) == "" || Entries(songs)[|Entries(songs)| - 1] == NL
  {
    if songs != [] {
      EntriesEndEmpty(songs[1..]);
    }
  }

  lemma {:induction false} EntriesComeBack(songs: seq<Song>)
    requires forall s :: s in songs ==> OneLineFields(s)
    ensures LoadedUrls(Split(Entries(songs), NL)) == Returned(songs)
  {
    if songs == [] {
      SplitCons("", "", NL);
      assert LoadedUrls([""]) == [] + LoadedUrls([""][1..]);
    } else {
      var rest := Entries(songs[1..]);
      assert songs[0] in songs;
      EntryLines(songs[0], rest);
      LoadedEntry(songs[0], Split(rest, NL));
      EntriesComeBack(songs[1..]);
    }
  }

  lemma LinesOfClosed(head: string, body: string)
    requires NL !in head && (body == "" || body[|body| - 1] == NL) && Skipped(head)
    ensures LoadedUrls(LinesRead(head + [NL] + body)) == LoadedUrls(Split(body, NL))
  {
    SplitCons(head, body, NL);
    LastField(body, NL);
    FrontCons(head, Split(body, NL), []);
    SkippedLine(head, body);
  }

  lemma SavedIsEntries(l: Songs, songs: seq<Song>)
    ensures Urls(LoadText(l, Save(songs)).songs) == LoadedUrls(Split(Entries(songs), NL))
  {
    UrlsOfLoad(l, Save(songs));
    EntriesEndEmpty(songs);
    LinesOfClosed(HEADER, Entries(songs));
  }

  lemma SavedComesBack(l: Songs, songs: seq<Song>)
    requires forall s :: s in songs ==> OneLineFields(s)
    ensures Urls(LoadText(l, Save(songs)).songs) == Returned(songs)
  {
    SavedIsEntries(l, songs);
    EntriesComeBack(songs);
  }

  /** A URL that survives being written on a line of its own. */
  predicate Survives(url: string) { !Skipped(url) && NL !in url && Stored(url) == url }

  lemma {:induction false} LoadedHaveNoNewline(lines: seq<string>)
    requires forall line :: line in lines ==> NL !in line
    ensures forall u :: u in LoadedUrls(lines) ==> NL !in u
  {
    if lines != [] {
      assert lines[0] in lines;
      StoredKeepsOut(lines[0], NL);
      LoadedHaveNoNewline(lines[1..]);
    }
  }

  lemma {:induction false} ReturnedHaveNoNewline(songs: seq<Song>)
    ensures forall u :: u in Returned(songs) ==> NL !in u
  {
    if songs != [] {
      JoinOfSplit(songs[0].url, NL);
      LoadedHaveNoNewline(Split(songs[0].url, NL));
      ReturnedHaveNoNewline(songs[1..]);
    }
  }

  lemma OneLineUrl(url: string)
    requires NL !in url
    ensures LoadedUrls(Split(url, NL)) == if Skipped(url) then [] else [Stored(url)]
  {
    SplitCons(url, "", NL);
    LoadedCons(url, []);
    assert [url] + [] == [url];
  }

  lemma {:induction false} OneLineUrls(songs: seq<Song>)
    requires forall s :: s in songs ==> NL !in s.url
    ensures |Returned(songs)| <= |songs|
    ensures Returned(songs) == Urls(songs) <==> forall s :: s in songs ==> Survives(s.url)
  {
    if songs != [] {
      var s, rest := songs[0], songs[1..];
      assert s in songs && forall t :: t in songs <==> t == s || t in rest;
      OneLineUrl(s.url);
      OneLineUrls(rest);
      UrlsLength(songs);
      if !Skipped(s.url) {
        assert Returned(songs) == [Stored(s.url)] + Returned(rest);
        assert Urls(songs)[1..] == Urls(rest) && Returned(songs)[1..] == Returned(rest);
        assert Urls(songs)[0] == s.url && Returned(songs)[0] == Stored(s.url);
      }
    }
  }

  lemma {:induction false} UrlsLength(songs: seq<Song>)
    ensures |Urls(songs)| == |songs|
    ensures forall i :: 0 <= i < |songs| ==> Urls(songs)[i] == songs[i].url
  {
    if songs != [] {
      UrlsLength(songs[1..]);
    }
  }

  /** Saving a list and loading the text again gives the same URLs in the same order, if and only if
      every URL is non-empty, does not start with '#', has no newline and is left alone by
      normalisation; for all lists whose other fields stay on their line. Identifiers go on from the
      counter, so they are new. */
  lemma SaveThenLoadExactlyWhen(l: Songs, songs: seq<Song>)
    requires forall s :: s in songs ==> OneLineFields(s)
    ensures Urls(LoadText(l, Save(songs)).songs) == Urls(songs) <==> forall s :: s in songs ==> Survives(s.url)
  {
    SavedComesBack(l, songs);
    UrlsLength(songs);
    ReturnedHaveNoNewline(songs);
    if Returned(songs) == Urls(songs) {
      forall s | s in songs ensures NL !in s.url {
        var i :| 0 <= i < |songs| && songs[i] == s;
        assert Urls(songs)[i] in Returned(songs);
      }
    }
    if forall s :: s in songs ==> NL !in s.url {
      OneLineUrls(songs);
    }
  }

  /** For a URL as `_addSong` stores it, surviving means: no newline, no leading '#', and no prefix left
      that would be stripped again. */
  lemma StoredUrlSurvivesExactlyWhen(url: string)
    ensures Survives(Stored(url)) <==>
      && NL !in Stored(url)
      && Stored(url)[0] != '#' && !("yt:" <= Stored(url)) && !("youtube:" <= Stored(url))
  {
    StoredIsNotEmpty(url);
    StoredTwiceExactlyWhen(url);
  }

  lemma SkippedLine(line: string, rest: string)
    requires NL !in line && Skipped(line)
    ensures LoadedUrls(Split(line + [NL] + rest, NL)) == LoadedUrls(Split(rest, NL))
  {
    SplitCons(line, rest, NL);
    LoadedConcat([line], Split(rest, NL));
    assert LoadedUrls([line]) == [] + LoadedUrls([line][1..]);
  }

  lemma LoadedLine(line: string, rest: string)
    requires NL !in line && !Skipped(line)
    ensures LoadedUrls(Split(line + [NL] + rest, NL)) == [Stored(line)] + LoadedUrls(Split(rest, NL))
  {
    SplitCons(line, rest, NL);
    LoadedConcat([line], Split(rest, NL));
    assert LoadedUrls([line]) == [Stored(line)] + LoadedUrls([line][1..]);
  }

  lemma Regrouped(a: string, b: string, rest: string)
    ensures (a + ([NL] + b)) + [NL] + rest == a + [NL] + (b + [NL] + rest)
  {
  }

  lemma OneEntry(s: Song, first: string, b: string)
    requires InfoLine(s) == first + ([NL] + b)
    ensures Entries([s]) == first + [NL] + (b + [NL] + (DataLine(s) + [NL] + (s.url + [NL] + "")))
  {
    assert [s][1..] == [];
    assert s.url + ([NL] + "") == s.url + [NL] + "";
    Regrouped(first, b, DataLine(s) + [NL] + (s.url + [NL] + ""));
  }

  lemma LastTwoLines(data: string, url: string)
    requires NL !in data && Skipped(data) && Survives(url)
    ensures LoadedUrls(Split(data + [NL] + (url + [NL] + ""), NL)) == [url]
  {
    SkippedLine(data, url + [NL] + "");
    LoadedLine(url, "");
    EntriesComeBack([]);
  }

  lemma FourLines(first: string, b: string, data: string, url: string)
    requires NL !in first && Skipped(first) && NL !in b && !Skipped(b)
    requires NL !in data && Skipped(data) && Survives(url)
    ensures LoadedUrls(Split(first + [NL] + (b + [NL] + (data + [NL] + (url + [NL] + ""))), NL)) == [Stored(b)] + [url]
  {
    var rest := data + [NL] + (url + [NL] + "");
    SkippedLine(first, b + [NL] + rest);
    LoadedLine(b, rest);
    LastTwoLines(data, url);
  }

  lemma TitleInFile(s: Song, first: string, b: string)
    requires InfoLine(s) == first + ([NL] + b) && NL !in first && Skipped(first) && NL !in b && !Skipped(b)
    requires NL !in DataLine(s) && Survives(s.url)
    ensures LoadedUrls(Split(Entries([s]), NL)) == [Stored(b)] + [s.url]
  {
    OneEntry(s, first, b);
    FourLines(first, b, DataLine(s), s.url);
  }

  lemma LongerTitle(s: Song, a: string, more: string)
    requires s.title == a + more
    ensures InfoLine(s) == InfoLine(s.(title := a)) + more && DataLine(s) == DataLine(s.(title := a))
  {
    var front := "#EXTINF:" + Decimal(s.seconds) + ",";
    assert front + (a + more) == (front + a) + more;
  }

  /** A newline in a title makes the rest of the title a song of its own. */
  lemma TitleWithNewlineAddsSong(l: Songs, s: Song, a: string, b: string)
    requires s.title == a + ([NL] + b) && NL !in b && !Skipped(b)
    requires OneLineFields(s.(title := a)) && Survives(s.url)
    ensures Urls(LoadText(l, Save([s])).songs) == [Stored(b)] + [s.url]
  {
    HeadLinesAreSkipped(s.(title := a));
    LongerTitle(s, a, [NL] + b);
    TitleInFile(s, InfoLine(s.(title := a)), b);
    SavedIsEntries(l, [s]);
  }

  lemma LoadedOfOne(line: string)
    ensures LoadedUrls([line]) == if Skipped(line) then [] else [Stored(line)]
  {
    assert [line][1..] == [];
  }

  /** Loading a text gives the URLs of its lines, each once, exactly when what follows the last newline is
      skipped: otherwise that last line is loaded twice. */
  lemma LoadsEachLineOnceExactlyWhen(l: Songs, text: string)
    ensures var lines := Split(text, NL);
      && (Urls(LoadText(l, text).songs) == LoadedUrls(lines) <==> Skipped(Last(lines)))
      && (!Skipped(Last(lines)) ==> Urls(LoadText(l, text).songs) == LoadedUrls(lines) + [Stored(Last(lines))])
  {
    var lines := Split(text, NL);
    UrlsOfLoad(l, text);
    LoadedConcat(lines, [Last(lines)]);
    LoadedOfOne(Last(lines));
    assert LoadedUrls(lines) + [] == LoadedUrls(lines);
  }

  /** So a file of one line without a newline loads that line twice. */
  lemma LastLineLoadedTwice(l: Songs, line: string)
    requires NL !in line && !Skipped(line)
    ensures Urls(LoadText(l, line).songs) == [Stored(line)] + [Stored(line)]
  {
    SplitCons(line, "", NL);
    UrlsOfLoad(l, line);
    LoadedConcat([line], [line]);
  }

  // ---------- The loops ----------

  lemma LastTwiceCons(field: string, rest: seq<string>)
    requires rest != []
    ensures LastTwice([field] + rest) == [field] + LastTwice(rest)
  {
    assert Last([field] + rest) == Last(rest);
    Reassociate([field], rest, [Last(rest)]);
  }

  /** The line up to the first newline is read first, and the rest is read from behind the newline. */
  lemma LinesReadNext(text: string, i: nat)
    requires i == IndexOf(text, NL) < |text|
    ensures LinesRead(text) == [text[..i]] + LinesRead(text[i + 1..])
  {
    var line, rest := text[..i], Split(text[i + 1..], NL);
    assert Split(text, NL) == [line] + rest;
    LastTwiceCons(line, rest);
  }

  /** A text without a newline is read twice, unless it is empty. */
  lemma LinesReadEnd(text: string)
    requires IndexOf(text, NL) == |text|
    ensures LinesRead(text) == if text == "" then [text] else [text] + [text]
  {
    assert Split(text, NL) == [text];
  }

  lemma KeptCons(line: string, rest: seq<string>)
    ensures Kept([line] + rest) == if Skipped(line) then Kept(rest) else [line] + Kept(rest)
  {
    assert ([line] + rest)[1..] == rest;
  }

  lemma AddAllCons(l: Songs, line: string, rest: seq<string>)
    ensures AddAll(l, [line] + rest) == AddAll(Add(l, line, -1).value, rest)
  {
    assert ([line] + rest)[1..] == rest;
  }

  /** `_addSong`, unless the loop skips the line. */
  method TakeLine(list: SongList, line: string, ghost rest: seq<string>)
    modifies list
    ensures AddAll(old(list.View()), Kept([line] + rest)) == AddAll(list.View(), Kept(rest))
  {
    KeptCons(line, rest);
    if line == "" || line[0] == '#' {
      return;
    }
    AddAllCons(list.View(), line, Kept(rest));
    var _ := list.AddSong(line, -1);
  }

  /** A file stream: what is left of the text, and its two state bits. */
  datatype Stream = Stream(rest: string, eof: bool, fail: bool)

  /** What `line` will be in the turns still to come. */
  function Ahead(s: Stream, line: string): seq<string> {
    if s.fail then [] else if s.eof then [line] else LinesRead(s.rest)
  }

  /** `std::getline`: a stream that has met its end fails without touching the line; otherwise the line
      is the text up to the next newline, the stream meets its end when there is none, and it fails
      when there was nothing left at all. */
  method GetLine(s: Stream, line: string) returns (next: string, t: Stream)
    requires !s.fail
    ensures Ahead(s, line) == [next] + Ahead(t, next)
    ensures t.fail || (t.eof && !s.eof) || (t.eof == s.eof && |t.rest| < |s.rest|)
  {
    if s.eof {
      return line, s.(fail := true);
    }
    var i := IndexOf(s.rest, NL);
    if i < |s.rest| {
      LinesReadNext(s.rest, i);
      next, t := s.rest[..i], s.(rest := s.rest[i + 1..]);
    } else {
      LinesReadEnd(s.rest);
      next, t := s.rest, Stream("", true, s.rest == "");
    }
  }

  /** `loadFromFile`: clear the list, then read lines until the stream fails. */
  method LoadFromFile(list: SongList, text: string)
    modifies list
    ensures list.View() == LoadText(old(list.View()), text)
  {
    list.RemoveAllSongs();
    var s, line := Stream(text, false, false), "";
    while !s.fail
      invariant AddAll(list.View(), Kept(Ahead(s, line))) == LoadText(old(list.View()), text)
      decreases !s.fail, !s.eof, |s.rest|
    {
      line, s := GetLine(s, line);
      TakeLine(list, line, Ahead(s, line));
    }
  }

  lemma EntryAppended(before: string, info: string, data: string, url: string, rest: string)
    ensures ((before + info + [NL]) + data + [NL]) + url + [NL] + rest
         == before + (info + [NL] + (data + [NL] + (url + ([NL] + rest))))
  {
    assert url + [NL] + rest == url + ([NL] + rest);
    assert data + [NL] + (url + [NL] + rest) == data + [NL] + url + [NL] + rest;
  }

  /** `saveToFile`. */
  method SaveToFile(list: SongList) returns (text: string)
    ensures text == Save(list.songs)
  {
    text := HEADER + [NL];
    var i := 0;
    while i < |list.songs|
      invariant 0 <= i <= |list.songs|
      invariant text + Entries(list.songs[i..]) == Save(list.songs)
    {
      var s := list.songs[i];
      assert list.songs[i..][1..] == list.songs[i + 1..];
      EntryAppended(text, InfoLine(s), DataLine(s), s.url, Entries(list.songs[i + 1..]));
      text := text + InfoLine(s) + [NL];
      text := text + DataLine(s) + [NL];
      text := text + s.url + [NL];
      i := i + 1;
    }
    assert text + "" == text;
  }
}

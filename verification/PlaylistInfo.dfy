/**
 What the lines `saveToFile` of src/Playlist.cpp writes beside the URLs say: a
 reader for the whole file, which the loader of the source does not have yet,
 gets back every field of every song.
 */
module PlaylistInfo {
  import opened Common
  import opened Tokeniser
  import opened Text
  import opened Playlist
  import opened PlaylistFile
  import D = Duration

  const COMMA: char := ','

  /** The three lines of a song. */
  datatype Entry = Entry(
    seconds: int, title: string, dataUrl: string, thumbnail: string, tags: seq<(string, string)>, url: string)

  function EntryOf(s: Song): Entry { Entry(s.seconds, s.title, s.dataUrl, s.thumbnail, s.tags, s.url) }

  function EntriesOf(songs: seq<Song>): seq<Entry> {
    if songs == [] then [] else [EntryOf(songs[0])] + EntriesOf(songs[1..])
  }

  // ---------- Reading ----------

  /** The text in front of the first `d`, and the text behind it. */
  function Before(s: string, d: char): string { s[..IndexOf(s, d)] }
  function Behind(s: string, d: char): (rest: string)
    ensures s != "" ==> |rest| < |s|
  {
    if IndexOf(s, d) < |s| then s[IndexOf(s, d) + 1..] else ""
  }

  /** Reading a quoted text up to its closing quote: its value, and what follows. */
  function Unquoted(s: string): (r: (string, string))
    ensures |r.1| <= |s|
  {
    if s == "" then ("", "")
    else if s[0] == '"' then ("", s[1..])
    else if s[0] == '\\' && |s| > 1 then var more := Unquoted(s[2..]); ([s[1]] + more.0, more.1)
    else var more := Unquoted(s[1..]); ([s[0]] + more.0, more.1)
  }

  /** Tags: a key, '=' and a quoted value, separated by commas. */
  function ReadTags(s: string): seq<(string, string)>
    decreases |s|
  {
    if s == "" then []
    else
      var quoted := Behind(s, '=');
      var value := Unquoted(if quoted == "" then "" else quoted[1..]);
      [(Before(s, '='), value.0)] + ReadTags(PastComma(value.1))
  }

  function PastComma(s: string): string { if s == "" then "" else s[1..] }

  const INFO: string := "#EXTINF:"
  const DATA: string := "#YTDLD:"

  function ReadEntry(info: string, data: string, url: string): Option<Entry> {
    if INFO <= info && DATA <= data then
      var i, d := info[|INFO|..], data[|DATA|..];
      var behindUrl := Behind(d, COMMA);
      Some(Entry(D.Signed(Before(i, COMMA)), Behind(i, COMMA),
                 Before(d, COMMA), Before(behindUrl, COMMA), ReadTags(Behind(behindUrl, COMMA)), url))
    else None
  }

  function ReadEntries(lines: seq<string>): Option<seq<Entry>>
    decreases |lines|
  {
    if lines == [""] then Some([])
    else if |lines| < 3 then None
    else match (ReadEntry(lines[0], lines[1], lines[2]), ReadEntries(lines[3..]))
      case (Some(entry), Some(more)) => Some([entry] + more)
      case _ => None
  }

  /** The whole file: a header, then three lines for each song. */
  function ReadFile(text: string): Option<seq<Entry>> {
    var lines := Split(text, NL);
    if lines[0] == "#EXTM3U" then ReadEntries(lines[1..]) else None
  }

  // ---------- Reading undoes writing ----------

  lemma AtFirst(a: string, d: char, b: string)
    requires d !in a
    ensures Before(a + [d] + b, d) == a && Behind(a + [d] + b, d) == b
  {
    IndexOfField(a, b, d);
    assert (a + [d] + b)[..|a|] == a;
    assert (a + [d] + b)[|a| + 1..] == b;
  }

  lemma {:induction false} UnquotedBack(value: string, rest: string)
    ensures Unquoted(Escaped(value) + (['"'] + rest)) == (value, rest)
  {
    var end := ['"'] + rest;
    if value == "" {
      assert Escaped(value) + end == end && end[1..] == rest;
    } else {
      var head := if value[0] == '"' || value[0] == '\\' then ['\\', value[0]] else [value[0]];
      var more := Escaped(value[1..]) + end;
      UnquotedBack(value[1..], rest);
      assert Escaped(value) + end == head + more;
      assert (head + more)[|head|..] == more;
      assert [value[0]] + value[1..] == value;
    }
  }

  /** Keys hold no '=', and no later tag is the first one again. */
  predicate PlainTags(tags: seq<(string, string)>) {
    && (forall i :: 0 <= i < |tags| ==> '=' !in tags[i].0)
    && forall i :: 0 < i < |tags| ==> tags[i] != tags[0]
  }

  /** One tag, and what follows it. */
  function TagThen(tag: (string, string), rest: string): string {
    tag.0 + ['='] + (['"'] + (Escaped(tag.1) + (['"'] + rest)))
  }

  lemma TagTextThen(tags: seq<(string, string)>, i: nat)
    requires i < |tags| && PlainTags(tags)
    ensures TagText(tags, i) == (if i > 0 then "," else "") + TagThen(tags[i], TagText(tags, i + 1))
  {
    var key, value, rest := tags[i].0, Escaped(tags[i].1), TagText(tags, i + 1);
    assert "=\"" == ['='] + ['"'];
    assert key + "=\"" + value + "\"" + rest == TagThen(tags[i], rest);
    assert (if i > 0 then "," else "") + key + "=\"" + value + "\"" + rest
        == (if i > 0 then "," else "") + (key + "=\"" + value + "\"" + rest);
  }

  lemma ReadTagThen(tag: (string, string), rest: string)
    requires '=' !in tag.0
    ensures ReadTags(TagThen(tag, rest)) == [tag] + ReadTags(PastComma(rest))
  {
    var quoted := ['"'] + (Escaped(tag.1) + (['"'] + rest));
    AtFirst(tag.0, '=', quoted);
    UnquotedBack(tag.1, rest);
    assert quoted[1..] == Escaped(tag.1) + (['"'] + rest);
  }

  lemma NextTag(tags: seq<(string, string)>, i: nat)
    requires 0 < i < |tags| && PlainTags(tags)
    ensures PastComma(TagText(tags, i)) == TagThen(tags[i], TagText(tags, i + 1))
  {
    var next := TagThen(tags[i], TagText(tags, i + 1));
    TagTextThen(tags, i);
    assert ("," + next)[1..] == next;
  }

  /** The tags from index `i` on. */
  function From(tags: seq<(string, string)>, i: nat): seq<(string, string)>
    requires i <= |tags|
    decreases |tags| - i
  {
    if i == |tags| then [] else [tags[i]] + From(tags, i + 1)
  }

  lemma {:induction false} FromIs(tags: seq<(string, string)>, i: nat)
    requires i <= |tags|
    ensures From(tags, i) == tags[i..]
    decreases |tags| - i
  {
    if i < |tags| {
      FromIs(tags, i + 1);
    }
  }

  lemma {:induction false} TagsBack(tags: seq<(string, string)>, i: nat)
    requires i < |tags| && PlainTags(tags)
    ensures ReadTags(TagThen(tags[i], TagText(tags, i + 1))) == From(tags, i)
    decreases |tags| - i
  {
    ReadTagThen(tags[i], TagText(tags, i + 1));
    if i + 1 < |tags| {
      NextTag(tags, i + 1);
      TagsBack(tags, i + 1);
    }
  }

  lemma AllTagsBack(tags: seq<(string, string)>)
    requires PlainTags(tags)
    ensures ReadTags(TagText(tags, 0)) == tags
  {
    if tags != [] {
      FirstTag(tags);
      TagsBack(tags, 0);
      FromIs(tags, 0);
    }
  }

  lemma FirstTag(tags: seq<(string, string)>)
    requires tags != [] && PlainTags(tags)
    ensures TagText(tags, 0) == TagThen(tags[0], TagText(tags, 1))
  {
    TagTextThen(tags, 0);
    NothingInFront(TagThen(tags[0], TagText(tags, 1)));
  }

  lemma NothingInFront(s: string)
    ensures "" + s == s
  {
  }

  /** All fields stay on their lines, and the two URLs hold no comma. */
  predicate Readable(s: Song) {
    && OneLineFields(s) && NL !in s.url
    && COMMA !in s.dataUrl && COMMA !in s.thumbnail && PlainTags(s.tags)
  }

  lemma InfoBack(s: Song)
    ensures INFO <= InfoLine(s)
    ensures var i := InfoLine(s)[|INFO|..]; D.Signed(Before(i, COMMA)) == s.seconds && Behind(i, COMMA) == s.title
  {
    D.NumberBack(s.seconds);
    var rest := Decimal(s.seconds) + [COMMA] + s.title;
    assert InfoLine(s) == INFO + rest;
    AtFirst(Decimal(s.seconds), COMMA, s.title);
  }

  lemma DataBack(s: Song)
    requires Readable(s)
    ensures DATA <= DataLine(s)
    ensures var d := DataLine(s)[|DATA|..];
      var behindUrl := Behind(d, COMMA);
      && Before(d, COMMA) == s.dataUrl && Before(behindUrl, COMMA) == s.thumbnail
      && ReadTags(Behind(behindUrl, COMMA)) == s.tags
  {
    var tags := TagText(s.tags, 0);
    var behindUrl := s.thumbnail + [COMMA] + tags;
    assert DataLine(s) == DATA + (s.dataUrl + [COMMA] + behindUrl);
    AtFirst(s.dataUrl, COMMA, behindUrl);
    AtFirst(s.thumbnail, COMMA, tags);
    AllTagsBack(s.tags);
  }

  lemma EntryBack(s: Song)
    requires Readable(s)
    ensures ReadEntry(InfoLine(s), DataLine(s), s.url) == Some(EntryOf(s))
  {
    InfoBack(s);
    DataBack(s);
  }

  lemma ThreeLines(a: string, b: string, c: string, rest: seq<string>)
    ensures var lines := [a] + ([b] + ([c] + rest));
      |lines| >= 3 && lines[0] == a && lines[1] == b && lines[2] == c && lines[3..] == rest
  {
  }

  lemma {:induction false} EntriesBack(songs: seq<Song>)
    requires forall s :: s in songs ==> Readable(s)
    ensures ReadEntries(Split(Entries(songs), NL)) == Some(EntriesOf(songs))
  {
    if songs == [] {
      SplitCons("", "", NL);
    } else {
      var s, rest := songs[0], Entries(songs[1..]);
      assert s in songs;
      EntryLines(s, rest);
      SplitCons(s.url, "", NL);
      ThreeLines(InfoLine(s), DataLine(s), s.url, Split(rest, NL));
      EntryBack(s);
      EntriesBack(songs[1..]);
    }
  }

  /** A saved file says all there is to say about the songs: the reader gets back their durations, titles, data
      URLs, thumbnails, tags and URLs, in order. */
  lemma SavedReadsBack(songs: seq<Song>)
    requires forall s :: s in songs ==> Readable(s)
    ensures ReadFile(Save(songs)) == Some(EntriesOf(songs))
  {
    SplitCons(HEADER, Entries(songs), NL);
    EntriesBack(songs);
  }
}

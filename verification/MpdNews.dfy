/**
 From a change of the player to the word an idle client reads: the events that
 src/ActivePlaylist.cpp pushes, the posting of src/Server.cpp, and the fan-out
 of src/Protocols/MPD.cpp together. Everything here is said in the words of the
 protocol (section "idle" of the Music Player Daemon protocol).
 */
module MpdNews {
  import opened Common
  import opened MpdState
  import opened MpdHandler
  import opened MpdRun
  import opened MpdIdle
  import A = ActivePlaylist
  import S = MpdSurvival
  import L = Playlist
  import W = MpdAnswers

  // ---------- What a step changes ----------

  function WhenPlaying(p: A.Player): (ws: seq<string>)
    ensures AreSubsystems(ws)
  {
    if p.bin == A.Playing || p.list.songs != [] then ["playlist"] else []
  }

  /** The subsystems a step of the player changes, in order: "playlist" when songs are added, removed or
      reordered and when the current song is changed, "options" when a flag is set, "mixer" with the volume,
      "player" when the playbin tells of its state. */
  function News(p: A.Player, step: A.Step): (ws: seq<string>)
    ensures AreSubsystems(ws)
  {
    match step
    case Add(_, _, _) => ["playlist"]
    case Remove(search, stale, _) =>
      if A.InRange(p, search) && A.MovesOn(p, search, stale) then ["playlist", "playlist"] else ["playlist"]
    case Clear => ["playlist"]
    case Shuffle(_, _) => ["playlist"]
    case SetConsume(_) => ["options"]
    case SetRandom(_, _) => ["options"]
    case SetRepeat(_) => ["options"]
    case SetSingle(_) => ["options"]
    case SetVolume => ["mixer"]
    case Play(_) => WhenPlaying(p)
    case PlayAt(i, _) => if i < |p.list.songs| then ["playlist"] else []
    case PlayId(id, _) => if exists j :: 0 <= j < |p.list.songs| && p.list.songs[j].id == id then ["playlist"] else []
    case Stop => []
    case Pause => []
    case Resume(_) => if p.current.None? then WhenPlaying(p) else []
    case Next(_) => ["playlist"]
    case Previous(_) => ["playlist"]
    case Status(_) => []
    case AboutToFinish(_) =>
      if p.tempChange then []
      else if p.single == A.Off then ["playlist"]
      else (if p.single == A.Oneshot then ["options"] else []) + (if p.repeat then ["playlist"] else [])
    case Bus(_, told) => if told then ["player"] else []
  }

  predicate IsSubsystem(w: string) { w == "playlist" || w == "player" || w == "mixer" || w == "options" }

  /** The event for a subsystem. */
  function EventFor(w: string): Event
    requires IsSubsystem(w)
  {
    if w == "playlist" then QueueChange
    else if w == "player" then StateChange
    else if w == "mixer" then VolumeChange
    else OptionChange
  }

  predicate AreSubsystems(ws: seq<string>) { forall i :: 0 <= i < |ws| ==> IsSubsystem(ws[i]) }

  function EventsFor(ws: seq<string>): (events: seq<Event>)
    requires AreSubsystems(ws)
    ensures |events| == |ws|
  {
    seq(|ws|, i requires 0 <= i < |ws| => EventFor(ws[i]))
  }

  lemma OneEvent(w: string)
    requires IsSubsystem(w)
    ensures EventsFor([w]) == [EventFor(w)]
  {
  }

  lemma NoEvents()
    ensures EventsFor([]) == []
  {
  }

  lemma ChangeTells(p: A.Player, target: Option<nat>, bin: A.Bin, spot: nat)
    requires A.ChangeSong(p, target, bin, spot).Some?
    ensures A.ChangeSong(p, target, bin, spot).value.events == p.events + [QueueChange]
  {
  }

  lemma PlayTells(p: A.Player, c: A.Chance)
    requires A.DoPlay(p, c).Some?
    ensures A.DoPlay(p, c).value.events == p.events + EventsFor(WhenPlaying(p))
  {
    OneEvent("playlist");
    A.RebuiltSize(p, c);
    if p.bin == A.Playing {
      ChangeTells(p, p.current, A.Playing, c.spot);
    } else if p.list.songs != [] {
      ChangeTells(p.(queue := A.Rebuilt(p, c)), Some(A.Rebuilt(p, c)[0]), A.Playing, c.spot);
    }
  }

  lemma DroppingTells(p: A.Player, s: A.Search, stale: bool, c: A.Chance)
    requires A.InRange(p, s) && A.BeforeRemoving(p, s, stale, c).Some?
    ensures A.BeforeRemoving(p, s, stale, c).value.events ==
      p.events + if A.MovesOn(p, s, stale) then [QueueChange] else []
  {
    var q := A.Unqueued(p, s);
    if A.MovesOn(p, s, stale) {
      ChangeTells(A.BeforeLooking(q, c), A.NextSong(q, c), q.bin, c.spot);
    } else {
      assert p.events + [] == p.events;
    }
  }

  lemma RemoveTells(p: A.Player, s: A.Search, stale: bool, c: A.Chance)
    requires A.DoRemove(p, s, stale, c).Some?
    ensures A.InRange(p, s)
    ensures A.DoRemove(p, s, stale, c).value.events ==
      p.events + if A.MovesOn(p, s, stale) then [QueueChange, QueueChange] else [QueueChange]
  {
    var m := A.BeforeRemoving(p, s, stale, c).value;
    assert A.DoRemove(p, s, stale, c).value.events == m.events + [QueueChange];
    DroppingTells(p, s, stale, c);
    OneMoreEvent(p.events, A.MovesOn(p, s, stale));
  }

  lemma OneMoreEvent(events: seq<Event>, moves: bool)
    ensures (events + if moves then [QueueChange] else []) + [QueueChange] ==
      events + if moves then [QueueChange, QueueChange] else [QueueChange]
  {
  }

  lemma FinishTells(p: A.Player, step: A.Step)
    requires step.AboutToFinish? && A.Apply(p, step).Some?
    ensures A.Apply(p, step).value.events == p.events + EventsFor(News(p, step))
  {
    OneEvent("playlist");
    OneEvent("options");
    var c := step.c;
    if !p.tempChange && p.single == A.Off {
      ChangeTells(A.BeforeLooking(p, c), A.NextSong(p, c), A.Playing, c.spot);
    } else if !p.tempChange && p.repeat {
      var q := if p.single == A.Oneshot then A.DoSetSingle(p, A.Off) else p;
      ChangeTells(q, p.current, A.Playing, c.spot);
      assert ["options"] + ["playlist"] == ["options", "playlist"];
      assert EventsFor(["options", "playlist"]) == [OptionChange, QueueChange];
      assert p.events + [OptionChange] + [QueueChange] == p.events + [OptionChange, QueueChange];
    }
  }

  lemma GoTells(p: A.Player, step: A.Step)
    requires step.PlayAt? || step.PlayId?
    requires A.Apply(p, step).Some?
    ensures A.Apply(p, step).value.events == p.events + EventsFor(News(p, step))
  {
    OneEvent("playlist");
    if step.PlayAt? && step.i < |p.list.songs| {
      ChangeTells(p, Some(p.list.songs[step.i].id), A.Playing, step.spot);
    } else if step.PlayId? && L.FindId(p.list.songs, step.id) < |p.list.songs| {
      ChangeTells(p, Some(step.id), A.Playing, step.spot);
    } else {
      assert EventsFor([]) == [];
    }
  }

  lemma NextTells(p: A.Player, c: A.Chance)
    requires A.Apply(p, A.Next(c)).Some?
    ensures A.Apply(p, A.Next(c)).value.events == p.events + [QueueChange]
  {
    ChangeTells(A.BeforeLooking(p, c), A.NextSong(p, c), p.bin, c.spot);
  }

  lemma PreviousTells(p: A.Player, c: A.Chance)
    requires A.Apply(p, A.Previous(c)).Some?
    ensures A.Apply(p, A.Previous(c)).value.events == p.events + [QueueChange]
  {
    ChangeTells(A.BeforeLooking(p, c), A.PreviousSong(p, c).song, p.bin, c.spot);
  }

  lemma PlainTells(p: A.Player, step: A.Step)
    requires !step.Remove? && !step.AboutToFinish? && !step.Play? && !step.Resume?
    requires !step.Next? && !step.Previous? && !step.PlayAt? && !step.PlayId?
    requires A.Apply(p, step).Some?
    ensures A.Apply(p, step).value.events == p.events + EventsFor(News(p, step))
  {
    OneEvent("playlist");
    OneEvent("options");
    OneEvent("mixer");
    OneEvent("player");
  }

  /** Every defined step of the player pushes exactly the events of the subsystems it changes, in order. */
  lemma StepTells(p: A.Player, step: A.Step)
    requires A.Apply(p, step).Some?
    ensures A.Apply(p, step).value.events == p.events + EventsFor(News(p, step))
    ensures S.Told(p, A.Apply(p, step).value) == EventsFor(News(p, step))
  {
    OneEvent("playlist");
    if step.Remove? {
      RemoveTells(p, step.search, step.stale, step.c);
      assert EventsFor(["playlist", "playlist"]) == [QueueChange, QueueChange];
    } else if step.AboutToFinish? {
      FinishTells(p, step);
    } else if step.Play? || (step.Resume? && p.current.None?) {
      PlayTells(p, step.c);
    } else if step.Resume? {
      assert EventsFor([]) == [];
    } else if step.Next? {
      NextTells(p, step.c);
    } else if step.Previous? {
      PreviousTells(p, step.c);
    } else if step.PlayAt? || step.PlayId? {
      GoTells(p, step);
    } else {
      PlainTells(p, step);
    }
    var told := EventsFor(News(p, step));
    assert (p.events + told)[|p.events|..] == told;
  }

  // ---------- What a client asked for ----------

  /** The client sent `idle` with these words: it wants to hear of all subsystems, or of those it named. */
  predicate Wants(words: seq<string>, w: string) { words == [] || w in words }

  function Wanted(ws: seq<string>, words: seq<string>): seq<string> {
    if ws == [] then [] else (if Wants(words, ws[0]) then [ws[0]] else []) + Wanted(ws[1..], words)
  }

  /** It waits because of such an `idle`, whose uninitialised flag word held none of the four kinds. */
  predicate WaitsFor(cl: Client, words: seq<string>, garbage: set<nat>) {
    IdleMask(words, garbage).Asked? && cl.waiting == IdleMask(words, garbage).flags && garbage !! KINDS
  }

  function BitFor(w: string): nat
    requires IsSubsystem(w)
  {
    if FlagOf(EventFor(w)).Some? then FlagOf(EventFor(w)).value else 0
  }

  lemma NamesDiffer()
    ensures "playlist" != "player" && "playlist" != "mixer" && "playlist" != "options"
    ensures "player" != "mixer" && "player" != "options" && "mixer" != "options"
  {
    assert |"playlist"| == 8 && |"player"| == 6 && |"mixer"| == 5 && |"options"| == 7;
  }

  /** The bit of a subsystem's event is reported under the subsystem's word. */
  lemma BitIsNamed(w: string)
    requires IsSubsystem(w)
    ensures FlagOf(EventFor(w)) == Some(BitFor(w)) && IdleName({BitFor(w)}) == w && BitFor(w) in KINDS
  {
    NamesDiffer();
    assert forall a: nat, b: nat :: {a} == {b} ==> a == b by {
      forall a: nat, b: nat | {a} == {b} ensures a == b {
        assert a in {b};
      }
    }
  }

  /** A word an `idle` knows asks for exactly its own subsystem. */
  lemma WordAsksFor(arg: string, w: string)
    requires IsSubsystem(w) && IdleArgument(arg).Some?
    ensures IdleArgument(arg).value == BitFor(w) <==> arg == w
  {
    NamesDiffer();
  }

  lemma {:induction false} BitsAskFor(words: seq<string>, w: string)
    requires IsSubsystem(w) && forall i :: 0 <= i < |words| ==> IdleArgument(words[i]).Some?
    ensures BitFor(w) in BitsOf(words) <==> w in words
  {
    if words != [] {
      WordAsksFor(words[0], w);
      BitsAskFor(words[1..], w);
    }
  }

  lemma {:induction false} KnownWords(words: seq<string>, flags: set<nat>)
    requires MaskOf(words, flags).Asked?
    ensures forall i :: 0 <= i < |words| ==> IdleArgument(words[i]).Some?
  {
    if words != [] {
      KnownWords(words[1..], flags + {IdleArgument(words[0]).value});
      assert forall i :: 0 < i < |words| ==> words[i] == words[1..][i - 1];
    }
  }

  /** A waiting client waits for exactly the subsystems it wants to hear of. */
  lemma WaitsForExactly(cl: Client, words: seq<string>, garbage: set<nat>, w: string)
    requires WaitsFor(cl, words, garbage) && IsSubsystem(w)
    ensures BitFor(w) in cl.waiting <==> Wants(words, w)
  {
    BitIsNamed(w);
    if words != [] {
      KnownWords(words, garbage);
      MaskAddsBits(words, garbage);
      BitsAskFor(words, w);
    }
  }

  // ---------- What it reads ----------

  /** The words of the reports among the notes, in order. */
  function Reports(notes: seq<Note>): seq<string> {
    if notes == [] then []
    else (if notes[0].Wrote? && notes[0].reply.Changed? then [IdleName(notes[0].reply.flags)] else [])
         + Reports(notes[1..])
  }

  lemma {:induction false} ReportsConcat(a: seq<Note>, b: seq<Note>)
    ensures Reports(a + b) == Reports(a) + Reports(b)
  {
    if a == [] {
      assert a + b == b;
    } else {
      assert (a + b)[1..] == a[1..] + b;
      ReportsConcat(a[1..], b);
    }
  }

  /** From `a` to `b` the client was written exactly these reports, and it waits for the same. */
  ghost predicate Read(a: Client, b: Client, reports: seq<string>) {
    a.history <= b.history && Reports(b.history[|a.history|..]) == reports && b.waiting == a.waiting
  }

  lemma ReadThen(a: Client, b: Client, d: Client, first: seq<string>, more: seq<string>)
    requires Read(a, b, first) && Read(b, d, more)
    ensures Read(a, d, first + more)
  {
    var one, two := b.history[|a.history|..], d.history[|b.history|..];
    assert d.history[|a.history|..] == one + two;
    ReportsConcat(one, two);
  }

  lemma OneReport(n: Note)
    ensures Reports([n]) == if n.Wrote? && n.reply.Changed? then [IdleName(n.reply.flags)] else []
  {
    assert [n][1..] == [];
  }

  lemma OneNoteRead(cl: Client, w: string, f: nat)
    requires IdleName({f}) == w
    ensures Read(cl, Notify(cl, f), if f in cl.waiting then [w] else [])
  {
    OneReport(Heard(f));
    OneReport(Wrote(Changed({f})));
    if f in cl.waiting {
      var more := [Heard(f)] + [Wrote(Changed({f}))];
      ReportsConcat([Heard(f)], [Wrote(Changed({f}))]);
      assert Notify(cl, f).history == cl.history + more;
      assert Notify(cl, f).history[|cl.history|..] == more;
    } else {
      assert Notify(cl, f).history[|cl.history|..] == [Heard(f)];
    }
  }

  lemma SameRead(cl: Client)
    ensures Read(cl, cl, [])
  {
  }

  /** Draining the events of subsystems tells a waiting client of those it wants to hear of, each under its
      word, in order, and of nothing else. */
  lemma {:induction false} DrainTells<P>(
      s: Proto<P>, ws: seq<string>, c: ClientId, words: seq<string>, garbage: set<nat>)
    requires AreSubsystems(ws) && s.running && c in s.clients && WaitsFor(s.clients[c], words, garbage)
    ensures var e := DrainEvents(s, EventsFor(ws));
      e.running && c in e.clients && Read(s.clients[c], e.clients[c], Wanted(ws, words))
    decreases |ws|
  {
    if ws == [] {
      SameRead(s.clients[c]);
    } else {
      var f := BitFor(ws[0]);
      BitIsNamed(ws[0]);
      WaitsForExactly(s.clients[c], words, garbage, ws[0]);
      assert EventsFor(ws)[0] == EventFor(ws[0]) && EventsFor(ws)[1..] == EventsFor(ws[1..]);
      var t := FanOut(s, EventFor(ws[0]), f);
      OneNoteRead(s.clients[c], ws[0], f);
      DrainTells(t, ws[1..], c, words, garbage);
      var e := DrainEvents(t, EventsFor(ws[1..]));
      ReadThen(s.clients[c], t.clients[c], e.clients[c],
               if Wants(words, ws[0]) then [ws[0]] else [], Wanted(ws[1..], words));
    }
  }

  // ---------- Main results ----------

  /** With the events of subsystems waiting to be posted and nothing waiting to be sent: the rest of the tick
      and one pass of the socket thread tell a waiting client of exactly those it wants to hear of. */
  lemma PostedIsTold<P>(
      s: Proto<P>, ws: seq<string>, c: ClientId, words: seq<string>, garbage: set<nat>, exec: Player<P>, pooled: bool)
    requires Inv(s) && s.running && s.sendQueue == [] && AreSubsystems(ws) && s.eventQueue == EventsFor(ws)
    requires c in s.clients && WaitsFor(s.clients[c], words, garbage)
    ensures var run := Times(PostNext, |ws|) + [Drain];
      && Legal(s, run, exec, pooled)
      && var e := After(s, run, exec, pooled);
         c in e.clients && Read(s.clients[c], e.clients[c], Wanted(ws, words))
  {
    var posting := Times(PostNext, |ws|);
    PostingIsSteps(s, exec, pooled);
    PostAllPosts(s, s.eventQueue);
    var t := After(s, posting, exec, pooled);
    assert t == s.(sendQueue := EventsFor(ws), eventQueue := []) by {
      assert [] + EventsFor(ws) == EventsFor(ws);
    }
    NothingIsLost(s, posting, exec, pooled);
    FirstStep(t, Drain, [], exec, pooled);
    assert [Drain] + [] == [Drain];
    RunThen(s, posting, [Drain], exec, pooled);
    DrainTells(t, ws, c, words, garbage);
  }

  /** The steps that push the events. */
  function Pushes(events: seq<Event>): seq<Step> {
    if events == [] then [] else [Push(events[0])] + Pushes(events[1..])
  }

  lemma {:induction false} PushesQueue<P>(s: Proto<P>, events: seq<Event>, exec: Player<P>, pooled: bool)
    requires Inv(s)
    ensures Legal(s, Pushes(events), exec, pooled)
    ensures After(s, Pushes(events), exec, pooled) == PushAll(s, events)
    decreases |events|
  {
    if events == [] {
      assert s.eventQueue + [] == s.eventQueue && s.pushed + [] == s.pushed;
    } else {
      FirstStep(s, Push(events[0]), Pushes(events[1..]), exec, pooled);
      PushesQueue(PushAll(s, [events[0]]), events[1..], exec, pooled);
      assert s.eventQueue + [events[0]] + events[1..] == s.eventQueue + events;
      assert s.pushed + [events[0]] + events[1..] == s.pushed + events;
    }
  }

  /** Something happens to the player by itself, a song that ends or a state that changes: after the tick and
      the next pass of the socket thread a waiting client has read exactly the words of what it changed, as far
      as it asked for them. */
  lemma ChangeIsTold<P>(
      s: Proto<P>, p: A.Player, step: A.Step, c: ClientId, words: seq<string>, garbage: set<nat>,
      exec: Player<P>, pooled: bool)
    requires Inv(s) && s.running && s.sendQueue == [] && s.eventQueue == [] && A.Apply(p, step).Some?
    requires c in s.clients && WaitsFor(s.clients[c], words, garbage)
    ensures var news := News(p, step);
      var run := Pushes(S.Told(p, A.Apply(p, step).value)) + (Times(PostNext, |news|) + [Drain]);
      && Legal(s, run, exec, pooled)
      && var e := After(s, run, exec, pooled);
         c in e.clients && Read(s.clients[c], e.clients[c], Wanted(news, words))
  {
    var news := News(p, step);
    StepTells(p, step);
    PushedIsTold(s, news, c, words, garbage, exec, pooled);
  }

  lemma PushedIsTold<P>(
      s: Proto<P>, ws: seq<string>, c: ClientId, words: seq<string>, garbage: set<nat>, exec: Player<P>, pooled: bool)
    requires Inv(s) && s.running && s.sendQueue == [] && s.eventQueue == [] && AreSubsystems(ws)
    requires c in s.clients && WaitsFor(s.clients[c], words, garbage)
    ensures var run := Pushes(EventsFor(ws)) + (Times(PostNext, |ws|) + [Drain]);
      && Legal(s, run, exec, pooled)
      && var e := After(s, run, exec, pooled);
         c in e.clients && Read(s.clients[c], e.clients[c], Wanted(ws, words))
  {
    var pushing := Pushes(EventsFor(ws));
    PushesQueue(s, EventsFor(ws), exec, pooled);
    var t := After(s, pushing, exec, pooled);
    NothingIsLost(s, pushing, exec, pooled);
    assert [] + EventsFor(ws) == EventsFor(ws);
    PostedIsTold(t, ws, c, words, garbage, exec, pooled);
    RunThen(s, pushing, Times(PostNext, |ws|) + [Drain], exec, pooled);
  }

  /** The player makes the step, and gives back the events it pushed. */
  predicate Makes(p: A.Player, step: A.Step, e: Exec<A.Player>) {
    && A.Apply(p, step).Some? && e.player == A.Apply(p, step).value
    && e.events == S.Told(p, e.player) && !e.ending.Throws?
  }

  /** The message in front is a command for the player that stands for the step. */
  predicate Commands(s: Proto<A.Player>, step: A.Step, exec: Player<A.Player>) {
    s.recvQueue != [] &&
    var msg := s.recvQueue[0];
    && msg.command.Some? && RunsOnPlayer(msg.command.value) && ArgsFit(msg.command.value, msg.args)
    && !ClientOf(s, msg.client).inList
    && Makes(s.player, step, exec(s.player, msg.command.value, msg.args))
  }

  /** After the command the player has made its step, the events of what it changed wait to be posted, and the
      records of the other clients are as they were. */
  lemma CommandTells(s: Proto<A.Player>, step: A.Step, c: ClientId, exec: Player<A.Player>, pooled: bool)
    requires Inv(s) && s.eventQueue == [] && Commands(s, step, exec)
    requires c in s.clients && c != s.recvQueue[0].client
    ensures Apply(s, HandleNext, exec, pooled).Returned?
    ensures var t := Apply(s, HandleNext, exec, pooled).s;
      && t.player == A.Apply(s.player, step).value
      && t.eventQueue == EventsFor(News(s.player, step)) && t.sendQueue == s.sendQueue && t.running == s.running
      && c in t.clients && t.clients[c] == s.clients[c]
  {
    CommandAnswers(s, step, exec, pooled);
  }

  lemma CommandAnswers(s: Proto<A.Player>, step: A.Step, exec: Player<A.Player>, pooled: bool)
    requires Inv(s) && s.eventQueue == [] && Commands(s, step, exec)
    ensures var c, r := s.recvQueue[0].client, Handle(s, s.recvQueue[0], exec, pooled);
      && r.Returned? && c in r.s.clients && r.s.clients == s.clients[c := r.s.clients[c]]
      && r.s == s.(player := A.Apply(s.player, step).value, clients := r.s.clients,
                   eventQueue := EventsFor(News(s.player, step)), pushed := r.s.pushed)
  {
    var told, msg := EventsFor(News(s.player, step)), s.recvQueue[0];
    StepTells(s.player, step);
    assert exec(s.player, msg.command.value, msg.args).events == told && [] + told == told;
    W.PlayerAnswers(s, msg, exec, pooled);
  }

  /** A client sends a command that changes something: the tick that handles it and the next pass of the socket
      thread tell every other waiting client exactly the words of what it changed, as far as it asked for
      them. */
  lemma CommandIsTold(
      s: Proto<A.Player>, step: A.Step, c: ClientId, words: seq<string>, garbage: set<nat>,
      exec: Player<A.Player>, pooled: bool)
    requires Inv(s) && s.running && s.sendQueue == [] && s.eventQueue == [] && Commands(s, step, exec)
    requires c in s.clients && c != s.recvQueue[0].client && WaitsFor(s.clients[c], words, garbage)
    ensures var news := News(s.player, step);
      var run := [HandleNext] + (Times(PostNext, |news|) + [Drain]);
      && Legal(s, run, exec, pooled)
      && var e := After(s, run, exec, pooled);
         c in e.clients && Read(s.clients[c], e.clients[c], Wanted(news, words))
  {
    var news := News(s.player, step);
    CommandTells(s, step, c, exec, pooled);
    FirstStep(s, HandleNext, Times(PostNext, |news|) + [Drain], exec, pooled);
    PostedIsTold(Apply(s, HandleNext, exec, pooled).s, news, c, words, garbage, exec, pooled);
  }

  /** How a client comes to wait: an `idle` that finds nothing of what it asks for pending. */
  lemma IdleMakesItWait<P>(s: Proto<P>, msg: Message, exec: Player<P>, pooled: bool)
    requires OwnList(ClientOf(s, msg.client).list, msg.client) && !ClientOf(s, msg.client).inList
    requires msg.command == Some(Idle) && IdleMask(msg.args, msg.garbage).Asked? && msg.garbage !! KINDS
    requires ClientOf(s, msg.client).pending == {}
    ensures var r := Handle(s, msg, exec, pooled);
      && r.Returned? && msg.client in r.s.clients && WaitsFor(r.s.clients[msg.client], msg.args, msg.garbage)
      && r.s.clients[msg.client].history == ClientOf(s, msg.client).history
  {
    IdleIsNeverClosed(s, msg, exec, pooled);
  }

  /** In so many words: adding a song is told to a client in `idle playlist` as "playlist", and to nobody who
      waits for other words only. */
  lemma AddIsToldAsPlaylist(
      s: Proto<A.Player>, url: string, position: int, spot: nat, c: ClientId, words: seq<string>, garbage: set<nat>,
      exec: Player<A.Player>, pooled: bool)
    requires Inv(s) && s.running && s.sendQueue == [] && s.eventQueue == []
    requires Commands(s, A.Add(url, position, spot), exec)
    requires c in s.clients && c != s.recvQueue[0].client && WaitsFor(s.clients[c], words, garbage)
    ensures var run := [HandleNext, PostNext, Drain];
      && Legal(s, run, exec, pooled)
      && var e := After(s, run, exec, pooled);
         && c in e.clients
         && (words == ["playlist"] || words == [] ==> Read(s.clients[c], e.clients[c], ["playlist"]))
         && (words != [] && "playlist" !in words ==> Read(s.clients[c], e.clients[c], []))
  {
    CommandIsTold(s, A.Add(url, position, spot), c, words, garbage, exec, pooled);
    assert Times(PostNext, 1) == [PostNext];
    assert [HandleNext] + ([PostNext] + [Drain]) == [HandleNext, PostNext, Drain];
    WantedOne("playlist", words);
  }

  lemma WantedOne(w: string, words: seq<string>)
    ensures Wanted([w], words) == if Wants(words, w) then [w] else []
  {
    assert [w][1..] == [];
  }
}

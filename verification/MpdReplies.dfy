/**
 What clients cannot learn from the replies of src/Protocols/MPD.cpp: where a
 command list failed, and whether they asked for `list_OK`.
 */
module MpdReplies {
  import opened Common
  import opened MpdState
  import opened MpdHandler
  import opened MpdCommandLists

  // ---------- The position in an ACK ----------

  /** The ACK that ends a failed list. `setCmdListIndex` does not rebuild the text, so the position written
      is 0; it is the position of the failing command exactly when that is the first. */
  lemma AckPositionRightExactlyWhen<P>(s: Proto<P>, c: ClientId, msgs: seq<Message>, end: Message, exec: Player<P>)
    requires c in s.clients && !s.clients[c].inList && s.clients[c].list == []
    requires Ends(end, c) && OwnList(msgs, c) && RunAll(s, c, msgs, 0, exec).Raised?
    ensures msgs != [] && ClientOf(s, msgs[0].client).list == []
    ensures var listed := With(s, c, s.clients[c].(inList := true, list := msgs));
      var h := ClientOf(HandleAll(listed, c, [end], exec, true).s, c).history;
      var e := RunAll(s, c, msgs, 0, exec).error;
      && h != [] && h[|h| - 1] == Wrote(Ack(e.code, 0, e.command, e.text))
      && (h[|h| - 1].reply.index == e.index <==> HandleListed(s, msgs[0], exec).Raised?)
  {
    assert msgs[0] in msgs;
    EndRunsTheLoop(s, c, msgs, end, exec);
    FailsFirstExactlyWhen(s, c, msgs, exec);
  }

  lemma FailsFirstExactlyWhen<P>(s: Proto<P>, c: ClientId, msgs: seq<Message>, exec: Player<P>)
    requires msgs != [] && OwnList(msgs, c) && ClientOf(s, c).list == [] && RunAll(s, c, msgs, 0, exec).Raised?
    ensures msgs[0].client == c
    ensures RunAll(s, c, msgs, 0, exec).error.index == 0 <==> HandleListed(s, msgs[0], exec).Raised?
  {
    assert msgs[0] in msgs;
    ListedKeepsListEmpty(s, msgs[0], exec);
    var first := HandleListed(s, msgs[0], exec);
    if first.Ran? {
      FailingPosition(first.s, c, msgs[1..], 1, exec);
    }
  }

  // ---------- The verbose flag ----------

  /** Two states that differ in the client's verbose flag at most. */
  ghost predicate Twin<P>(s: Proto<P>, t: Proto<P>, c: ClientId) {
    && c in s.clients && c in t.clients
    && t == With(s, c, t.clients[c])
    && t.clients[c] == s.clients[c].(verbose := t.clients[c].verbose)
  }

  ghost predicate TwinRan<P>(r: Ran<P>, q: Ran<P>, c: ClientId) {
    && Twin(r.s, q.s, c)
    && (r.Ran? <==> q.Ran?) && (r.Raised? <==> q.Raised?)
    && (r.Ran? ==> r.silent == q.silent)
    && (r.Raised? ==> r.error == q.error)
  }

  ghost predicate TwinTop<P>(r: Top<P>, q: Top<P>, c: ClientId) {
    Twin(r.s, q.s, c) && (r.Crashed? <==> q.Crashed?)
  }

  lemma TwinClients<P>(s: Proto<P>, t: Proto<P>, c: ClientId, a: Client, b: Client)
    requires Twin(s, t, c) && b == a.(verbose := b.verbose)
    ensures Twin(With(s, c, a), With(t, c, b), c)
  {
    assert With(t, c, b).clients == With(s, c, a).clients[c := b];
  }

  lemma TwinWrite<P>(s: Proto<P>, t: Proto<P>, c: ClientId, r: Reply)
    requires Twin(s, t, c)
    ensures Twin(Write(s, c, r), Write(t, c, r), c)
  {
    TwinClients(s, t, c, Noted(s.clients[c], Wrote(r)), Noted(t.clients[c], Wrote(r)));
  }

  lemma {:induction false} TwinWriteAll(a: Client, v: bool, out: seq<string>)
    ensures WriteAll(a.(verbose := v), out) == WriteAll(a, out).(verbose := v)
    decreases |out|
  {
    if out != [] {
      TwinWriteAll(Noted(a, Wrote(Data(out[0]))), v, out[1..]);
    }
  }

  lemma TwinPlayed<P>(s: Proto<P>, t: Proto<P>, c: ClientId, player: P, events: seq<Event>)
    requires Twin(s, t, c)
    ensures Twin(PushAll(s.(player := player), events), PushAll(t.(player := player), events), c)
  {
  }

  lemma TwinOnPlayer<P>(s: Proto<P>, t: Proto<P>, msg: Message, cmd: CommandId, exec: Player<P>)
    requires Twin(s, t, msg.client)
    ensures TwinRan(RunOnPlayer(s, msg, cmd, exec), RunOnPlayer(t, msg, cmd, exec), msg.client)
  {
    var c := msg.client;
    var e := exec(s.player, cmd, msg.args);
    var a, b := WriteAll(s.clients[c], e.out), WriteAll(t.clients[c], e.out);
    TwinWriteAll(s.clients[c], t.clients[c].verbose, e.out);
    TwinClients(s, t, c, a, b);
    TwinPlayed(With(s, c, a), With(t, c, b), c, e.player, e.events);
  }

  lemma TwinPlain<P>(s: Proto<P>, t: Proto<P>, msg: Message, cmd: CommandId, exec: Player<P>)
    requires Twin(s, t, msg.client) && !cmd.CommandListEnd?
    ensures TwinRan(RunPlain(s, msg, cmd, exec), RunPlain(t, msg, cmd, exec), msg.client)
  {
    var c := msg.client;
    var a, b := s.clients[c], t.clients[c];
    if cmd.CommandListBegin? || cmd.CommandListOkBegin? {
      var v := cmd.CommandListOkBegin?;
      TwinClients(s, t, c, a.(inList := true, verbose := v), b.(inList := true, verbose := v));
    } else if cmd.Noidle? {
      TwinClients(s, t, c, a.(waiting := {}), b.(waiting := {}));
    } else if cmd.Idle? {
      var mask := IdleMask(msg.args, msg.garbage);
      if mask.Asked? {
        TwinClients(s, t, c, DoIdle(a, mask.flags), DoIdle(b, mask.flags));
      }
    } else if !cmd.Other? {
      TwinOnPlayer(s, t, msg, cmd, exec);
    }
  }

  lemma TwinListed<P>(s: Proto<P>, t: Proto<P>, msg: Message, exec: Player<P>)
    requires Twin(s, t, msg.client) && ClientOf(s, msg.client).list == []
    ensures TwinRan(HandleListed(s, msg, exec), HandleListed(t, msg, exec), msg.client)
  {
    var c := msg.client;
    assert With(s, c, s.clients[c]) == s && With(t, c, t.clients[c]) == t;
    if msg.command.Some? && ArgsFit(msg.command.value, msg.args) {
      var cmd := msg.command.value;
      if cmd.CommandListEnd? {
        var s1, t1 := With(s, c, s.clients[c].(inList := false)), With(t, c, t.clients[c].(inList := false));
        TwinClients(s, t, c, s.clients[c].(inList := false), t.clients[c].(inList := false));
        TwinWrite(s1, t1, c, ListOk);
      } else {
        TwinPlain(s, t, msg, cmd, exec);
        var r := RunPlain(s, msg, cmd, exec);
        if r.Ran? && !r.silent {
          TwinWrite(r.s, RunPlain(t, msg, cmd, exec).s, c, ListOk);
        }
      }
    }
  }

  lemma {:induction false} TwinRunAll<P>(
      s: Proto<P>, t: Proto<P>, c: ClientId, msgs: seq<Message>, i: nat, exec: Player<P>)
    requires Twin(s, t, c) && OwnList(msgs, c) && ClientOf(s, c).list == []
    ensures TwinRan(RunAll(s, c, msgs, i, exec), RunAll(t, c, msgs, i, exec), c)
    decreases |msgs|
  {
    if msgs != [] {
      assert msgs[0] in msgs;
      ListedKeepsListEmpty(s, msgs[0], exec);
      TwinListed(s, t, msgs[0], exec);
      var r := HandleListed(s, msgs[0], exec);
      if r.Ran? {
        TwinRunAll(r.s, HandleListed(t, msgs[0], exec).s, c, msgs[1..], i + 1, exec);
      }
    }
  }

  lemma TwinCommand<P>(s: Proto<P>, t: Proto<P>, msg: Message, cmd: CommandId, exec: Player<P>)
    requires Twin(s, t, msg.client) && OwnList(s.clients[msg.client].list, msg.client)
    ensures TwinRan(RunCommand(s, msg, cmd, exec), RunCommand(t, msg, cmd, exec), msg.client)
  {
    var c := msg.client;
    if cmd.CommandListEnd? {
      var a, b := s.clients[c].(inList := false, list := []), t.clients[c].(inList := false, list := []);
      TwinClients(s, t, c, a, b);
      TwinRunAll(With(s, c, a), With(t, c, b), c, s.clients[c].list, 0, exec);
    } else {
      TwinPlain(s, t, msg, cmd, exec);
    }
  }

  lemma TwinAnswer<P>(r: Ran<P>, q: Ran<P>, c: ClientId)
    requires TwinRan(r, q, c)
    ensures TwinTop(Answer(r, c), Answer(q, c), c)
  {
    if r.Ran? && !r.silent {
      TwinWrite(r.s, q.s, c, Ok);
    } else if r.Raised? {
      TwinWrite(r.s, q.s, c, Ack(r.error.code, 0, r.error.command, r.error.text));
    }
  }

  /** No message a client sends is handled differently because of the flag. */
  lemma TwinHandle<P>(s: Proto<P>, t: Proto<P>, msg: Message, exec: Player<P>, pooled: bool)
    requires Twin(s, t, msg.client) && OwnList(s.clients[msg.client].list, msg.client)
    ensures TwinTop(Handle(s, msg, exec, pooled), Handle(t, msg, exec, pooled), msg.client)
  {
    var c := msg.client;
    var a, b := s.clients[c], t.clients[c];
    assert With(s, c, a) == s && With(t, c, b) == t;
    if msg.command.None? {
      TwinWrite(s, t, c, Ack(ACK_ERROR_UNKNOWN, 0, "", "unknown command \"" + msg.line + "\""));
    } else if Queues(a, msg.command.value, pooled) {
      TwinClients(s, t, c, a.(list := a.list + [msg]), b.(list := b.list + [msg]));
    } else if !ArgsFit(msg.command.value, msg.args) {
      var name := NameOf(msg.command.value);
      TwinWrite(s, t, c, Ack(ACK_ERROR_ARG, 0, name, "wrong number of arguments for \"" + name + "\""));
    } else {
      TwinCommand(s, t, msg, msg.command.value, exec);
      TwinAnswer(RunCommand(s, msg, msg.command.value, exec), RunCommand(t, msg, msg.command.value, exec), c);
    }
  }

  lemma {:induction false} TwinHandleAll<P>(
      s: Proto<P>, t: Proto<P>, c: ClientId, msgs: seq<Message>, exec: Player<P>, pooled: bool)
    requires Twin(s, t, c) && OwnList(msgs, c) && OwnList(s.clients[c].list, c)
    ensures TwinTop(HandleAll(s, c, msgs, exec, pooled), HandleAll(t, c, msgs, exec, pooled), c)
    decreases |msgs|
  {
    if msgs != [] {
      assert msgs[0] in msgs;
      TwinHandle(s, t, msgs[0], exec, pooled);
      HandleKeepsOwnList(s, msgs[0], exec, pooled);
      var r := Handle(s, msgs[0], exec, pooled);
      if r.Returned? {
        TwinHandleAll(r.s, Handle(t, msgs[0], exec, pooled).s, c, msgs[1..], exec, pooled);
      }
    }
  }

  /** Whether a list is opened with or without the wish for `list_OK`, whatever is sent after it gets the
      same replies and leaves the same state, but for the flag itself. */
  lemma OpeningMakesNoDifference<P>(
      s: Proto<P>, c: ClientId, one: Message, other: Message, rest: seq<Message>, exec: Player<P>, pooled: bool)
    requires c in s.clients && !s.clients[c].inList && s.clients[c].list == []
    requires Opens(one, c) && Opens(other, c) && OwnList(rest, c)
    ensures OwnList([one] + rest, c) && OwnList([other] + rest, c)
    ensures var r, q := HandleAll(s, c, [one] + rest, exec, pooled), HandleAll(s, c, [other] + rest, exec, pooled);
      TwinTop(r, q, c) && r.s.clients[c].history == q.s.clients[c].history
  {
    OpeningStep(s, c, one, exec, pooled);
    OpeningStep(s, c, other, exec, pooled);
    assert ([one] + rest)[1..] == rest && ([other] + rest)[1..] == rest;
    var a := s.clients[c].(inList := true, verbose := one.command.value.CommandListOkBegin?);
    var b := s.clients[c].(inList := true, verbose := other.command.value.CommandListOkBegin?);
    WithWith(s, c, a, b);
    TwinHandleAll(With(s, c, a), With(s, c, b), c, rest, exec, pooled);
  }
}

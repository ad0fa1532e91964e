/**
 Which command lines the parser of src/Protocols/MPD.cpp gives a meaning to.
 A line it gives none runs into undefined behaviour there; which lines do so
 can be read off their tokens.
 */
module MpdBadLines {
  import opened Common
  import opened Tokeniser
  import opened MpdIntake
  import opened MpdParse

  /** A token that only opens a quoted argument, and one that only closes it. */
  predicate Opens(t: string) { t != "" && t[0] == QUOTE && t[|t| - 1] != QUOTE }
  predicate Closes(t: string) { t != "" && t[0] != QUOTE && t[|t| - 1] == QUOTE }

  /** Token `k` is empty, opens or closes a quote with too few characters to drop as many as the code of
      '"', or closes one that was never opened. */
  predicate BadAt(ts: seq<string>, k: nat, carried: bool)
    requires k < |ts|
  {
    || ts[k] == ""
    || ((Opens(ts[k]) || Closes(ts[k])) && |ts[k]| < QUOTE_CODE)
    || (Closes(ts[k]) && !carried && forall j :: 0 <= j < k ==> !Opens(ts[j]))
  }

  predicate AnyBad(ts: seq<string>, carried: bool) { exists k :: 0 <= k < |ts| && BadAt(ts, k, carried) }

  function Stripped(raw: string): string {
    if raw != "" && raw[|raw| - 1] == CR then raw[..|raw| - 1] else raw
  }

  /** The line is empty, or a token behind its name is bad. */
  predicate BadLine(raw: string) {
    raw == "" || var ts := Tokens(Stripped(raw), SPACE); ts != [] && AnyBad(ts[1..], false)
  }

  // ---------- The argument loop ----------

  lemma BadLater(ts: seq<string>, carried: bool)
    requires ts != [] && !BadAt(ts, 0, carried)
    ensures AnyBad(ts, carried) <==> AnyBad(ts[1..], carried || Opens(ts[0]))
  {
    var rest, now := ts[1..], carried || Opens(ts[0]);
    forall k | 0 <= k < |rest| ensures BadAt(ts, k + 1, carried) <==> BadAt(rest, k, now) {
      assert rest[k] == ts[k + 1];
      if forall j :: 0 <= j < k + 1 ==> !Opens(ts[j]) {
        assert forall j :: 0 <= j < k ==> rest[j] == ts[j + 1];
      }
      if !Opens(ts[0]) && forall j :: 0 <= j < k ==> !Opens(rest[j]) {
        assert forall j :: 1 <= j < k + 1 ==> ts[j] == rest[j - 1];
      }
    }
    if AnyBad(ts, carried) {
      var k :| 0 <= k < |ts| && BadAt(ts, k, carried);
      assert BadAt(rest, k - 1, now);
    }
    if AnyBad(rest, now) {
      var k :| 0 <= k < |rest| && BadAt(rest, k, now);
      assert BadAt(ts, k + 1, carried);
    }
  }

  lemma FirstIsBad(line: string, ts: seq<string>, at: nat, carry: Option<View>)
    requires ts != [] && Fits(line, ts, at) && CarryEndsBefore(carry, at)
    ensures var piece := PieceOf(line, ts[0], at, carry);
      && (piece.Bad? <==> BadAt(ts, 0, carry.Some?))
      && (!piece.Bad? ==> (CarryWith(carry, piece).Some? <==> carry.Some? || Opens(ts[0])))
  {
    ViewsStayInLine(line, ts, at, carry);
  }

  /** The loop over tokens that lie in the line is undefined exactly when one of them is bad. */
  lemma {:induction false} ArgsUndefinedExactlyWhen(line: string, ts: seq<string>, at: nat, carry: Option<View>)
    requires Fits(line, ts, at) && CarryEndsBefore(carry, at)
    ensures ParseArgs(line, ts, at, carry).None? <==> AnyBad(ts, carry.Some?)
    decreases |ts|
  {
    if ts != [] {
      var piece := PieceOf(line, ts[0], at, carry);
      FirstIsBad(line, ts, at, carry);
      ViewsStayInLine(line, ts, at, carry);
      if !piece.Bad? {
        BadLater(ts, carry.Some?);
        ArgsUndefinedExactlyWhen(line, ts[1..], at + |ts[0]| + 1, CarryWith(carry, piece));
      }
    }
  }

  // ---------- Lines ----------

  lemma StrippedUndefinedExactlyWhen(line: string)
    ensures ParseLineOf(line) == Undefined <==> var ts := Tokens(line, SPACE); ts != [] && AnyBad(ts[1..], false)
  {
    var ts := Tokens(line, SPACE);
    if ts != [] {
      TokensFit(line);
      ArgsUndefinedExactlyWhen(line, ts[1..], |ts[0]| + 1, None);
    }
  }

  /** A line has no defined meaning exactly when it is bad. */
  lemma LineUndefinedExactlyWhen(raw: string)
    ensures ParseLine(raw) == Undefined <==> BadLine(raw)
  {
    StrippedUndefinedExactlyWhen(Stripped(raw));
  }

  predicate SomeBad(lines: seq<string>) { exists i :: 0 <= i < |lines| && BadLine(lines[i]) }

  /** A generate step is undefined exactly when one of the lines it dispatches is bad. */
  lemma {:induction false} LinesUndefinedExactlyWhen(lines: seq<string>)
    ensures ParseLines(lines).None? <==> SomeBad(lines)
  {
    if lines != [] {
      LineUndefinedExactlyWhen(lines[0]);
      LinesUndefinedExactlyWhen(lines[1..]);
      if SomeBad(lines[1..]) {
        var i :| 0 <= i < |lines| - 1 && BadLine(lines[1..][i]);
        assert BadLine(lines[i + 1]);
      }
      if SomeBad(lines) && !BadLine(lines[0]) {
        var i :| 0 <= i < |lines| && BadLine(lines[i]);
        assert BadLine(lines[1..][i - 1]);
      }
    }
  }

  // ---------- What clients send ----------

  /** Written commands without spaces in their arguments are good lines, and no pass over them fails. */
  lemma SpaceFreeIsGood(cs: seq<Sent>)
    requires forall c :: c in cs ==> Sendable(c) && SpaceFree(c.args)
    ensures !SomeBad(Dispatched(Written(cs)))
  {
    StreamComesBackExactlyWhen(cs);
    LinesUndefinedExactlyWhen(Dispatched(Written(cs)));
  }

  lemma TokensOfTwo(name: string, token: string)
    requires SPACE !in name && SPACE !in token && token != ""
    ensures var line := name + [SPACE] + token;
      line[|line| - 1] == token[|token| - 1] && Tokens(line, SPACE) == [name, token]
  {
    var line := name + [SPACE] + token;
    SplitCons(name, token, SPACE);
    SplitCons(token, "", SPACE);
    assert token[|token| - 1] in token;
    TokensExact(line, SPACE);
    assert Dropped(line, SPACE) == 0;
  }

  /** A last token that opens a quote is dropped, if it is long enough. */
  lemma OpenedLast(line: string, token: string, at: nat)
    requires Opens(token)
    ensures ParseArgs(line, [token], at, None) == if |token| < QUOTE_CODE then None else Some([])
  {
    var ts := [token];
    assert ts[1..] == [];
    if |token| >= QUOTE_CODE {
      var piece := PieceOf(line, token, at, None);
      var none: seq<string> := [];
      assert ParseArgs(line, ts[1..], at + |token| + 1, Some(piece.view)) == Some(none);
      PrependNothing(Some(none));
    }
  }

  lemma LineOfTwo(line: string, name: string, token: string)
    requires Tokens(line, SPACE) == [name, token] && Opens(token)
    requires line != "" && line[|line| - 1] != CR
    ensures ParseLine(line) == if |token| < QUOTE_CODE then Undefined else Parsed(Command(line, name, []))
  {
    OpenedLast(line, token, |name| + 1);
    assert [name, token][1..] == [token];
  }

  /** A command cut inside its first quoted argument is undefined unless at least 33 characters of the
      argument have come through; then the argument is dropped. */
  lemma CutLineExactlyWhen(name: string, part: string)
    requires IsName(name) && part != "" && SPACE !in part && part[|part| - 1] != QUOTE && part[|part| - 1] != CR
    ensures ParseLine(CutLine(name, part)) ==
      if |part| < QUOTE_CODE - 1 then Undefined else Parsed(Command(CutLine(name, part), name, []))
  {
    var token := [QUOTE] + part;
    assert token[0] == QUOTE && token[|token| - 1] == part[|part| - 1];
    TokensOfTwo(name, token);
    LineOfTwo(CutLine(name, part), name, token);
  }

  /** A name, and as much of a quoted argument. */
  function CutLine(name: string, part: string): string { name + [SPACE] + ([QUOTE] + part) }

  lemma CutBufferExactlyWhen(name: string, part: string)
    requires IsName(name) && part != "" && SPACE !in part && NL !in part
    requires part[|part| - 1] != QUOTE && part[|part| - 1] != CR
    ensures SomeBad(Dispatched(CutLine(name, part))) <==> |part| < QUOTE_CODE - 1
  {
    CutLineExactlyWhen(name, part);
    assert NL !in CutLine(name, part) && CutLine(name, part) != "";
    OneLinePass(CutLine(name, part));
  }

  lemma OneLinePass(line: string)
    requires line != "" && NL !in line
    ensures SomeBad(Dispatched(line)) <==> ParseLine(line) == Undefined
  {
    assert Dispatched(line) == [line] by {
      OneClosedLine(line);
    }
    SomeOfOne(line);
    LineUndefinedExactlyWhen(line);
  }

  lemma SomeOfOne(line: string)
    ensures SomeBad([line]) <==> BadLine(line)
  {
    assert [line][0] == line;
    if BadLine(line) {
      assert BadLine([line][0]);
    }
  }

  // ---------- An argument of several words ----------

  predicate IsWord(w: string) { SPACE !in w && QUOTE !in w }

  function QuotedWords(words: seq<string>): seq<string>
    requires |words| >= 2
  {
    [[QUOTE] + words[0]] + words[1..|words| - 1] + [Last(words) + [QUOTE]]
  }

  lemma {:induction false} JoinWithEnd(fields: seq<string>, end: string, d: char)
    requires fields != []
    ensures Join(fields, d) + end == Join(Front(fields) + [Last(fields) + end], d)
  {
    var longer := Front(fields) + [Last(fields) + end];
    if |fields| > 1 {
      JoinWithEnd(fields[1..], end, d);
      assert longer[1..] == Front(fields[1..]) + [Last(fields[1..]) + end];
      assert fields[0] + [d] + Join(fields[1..], d) + end == fields[0] + [d] + (Join(fields[1..], d) + end);
    }
  }

  lemma EndsQuoted(words: seq<string>, begun: seq<string>)
    requires |words| >= 2 && begun == [[QUOTE] + words[0]] + words[1..]
    ensures Front(begun) + [Last(begun) + [QUOTE]] == QuotedWords(words)
    ensures Join(begun, SPACE) == [QUOTE] + Join(words, SPACE)
  {
    assert Front(begun) == [[QUOTE] + words[0]] + words[1..|words| - 1];
    assert begun[1..] == words[1..];
    var later := Join(words[1..], SPACE);
    assert ([QUOTE] + words[0]) + [SPACE] + later == [QUOTE] + (words[0] + [SPACE] + later);
  }

  lemma QuotedWordsHoldNoSpace(words: seq<string>)
    requires |words| >= 2 && forall w :: w in words ==> IsWord(w)
    ensures forall w :: w in QuotedWords(words) ==> SPACE !in w
  {
    assert words[0] in words && Last(words) in words;
    forall w | w in QuotedWords(words) ensures SPACE !in w {
      var k :| 0 <= k < |words| && QuotedWords(words)[k] == w;
      assert words[k] in words;
    }
  }

  lemma SplitOfQuoted(words: seq<string>)
    requires |words| >= 2 && forall w :: w in words ==> IsWord(w)
    ensures Split(Quoted(Join(words, SPACE)), SPACE) == QuotedWords(words)
  {
    var begun := [[QUOTE] + words[0]] + words[1..];
    EndsQuoted(words, begun);
    JoinWithEnd(begun, [QUOTE], SPACE);
    QuotedWordsHoldNoSpace(words);
    SplitOfJoin(QuotedWords(words), SPACE);
  }

  /** The tokens of a quoted argument of several words: one is bad exactly when an inner word is empty, the
      first or the last word is too short to drop 33 characters from it, or the argument starts with a
      space and does not end with one. */
  lemma QuotedWordsBadExactlyWhen(words: seq<string>)
    requires |words| >= 2 && forall w :: w in words ==> IsWord(w)
    ensures AnyBad(QuotedWords(words), false) <==> ShortWords(words)
  {
    var ts, n := QuotedWords(words), |words|;
    var first, last := words[0], words[n - 1];
    assert first in words && last in words;
    assert ts[0] == [QUOTE] + first && ts[n - 1] == last + [QUOTE];
    assert forall k :: 0 < k < n - 1 ==> ts[k] == words[k];
    assert Opens(ts[0]) <==> first != "";
    assert Closes(ts[n - 1]) <==> last != "";
    forall k | 0 < k < n - 1 ensures !Opens(ts[k]) && (BadAt(ts, k, false) <==> words[k] == "") {
      assert words[k] in words;
    }
    assert BadAt(ts, 0, false) <==> 0 < |first| < QUOTE_CODE - 1;
    var unopened := forall j :: 0 <= j < n - 1 ==> !Opens(ts[j]);
    assert unopened <==> first == "";
    assert BadAt(ts, n - 1, false) <==> (0 < |last| < QUOTE_CODE - 1) || (last != "" && unopened);
  }

  predicate ShortWords(words: seq<string>)
    requires |words| >= 2
  {
    var first, last := words[0], Last(words);
    || (exists k :: 0 < k < |words| - 1 && words[k] == "")
    || 0 < |first| < QUOTE_CODE - 1
    || 0 < |last| < QUOTE_CODE - 1
    || (first == "" && last != "")
  }

  lemma TokensOfQuoted(name: string, words: seq<string>)
    requires IsName(name) && |words| >= 2 && forall w :: w in words ==> IsWord(w)
    ensures var ts := Tokens(Render(name, [InQuotes(Join(words, SPACE))]), SPACE);
      ts != [] && ts[0] == name && ts[1..] == QuotedWords(words)
  {
    var args := [InQuotes(Join(words, SPACE))];
    TokensOfRender(name, args);
    SplitOfQuoted(words);
    assert args[1..] == [] && SplitArgs([]) == [];
    assert SplitArgs(args) == QuotedWords(words) + [] == QuotedWords(words);
    assert ([name] + QuotedWords(words))[1..] == QuotedWords(words);
  }

  /** A command with one argument of several words and no inner quotes, written as the protocol asks for it,
      is undefined exactly when its words are short in this sense. */
  lemma SeveralWordsUndefinedExactlyWhen(name: string, words: seq<string>, crlf: bool)
    requires IsName(name) && |words| >= 2 && forall w :: w in words ==> IsWord(w)
    ensures ParseLine(RawLine(Sent(name, [InQuotes(Join(words, SPACE))], crlf))) == Undefined <==> ShortWords(words)
  {
    var args := [InQuotes(Join(words, SPACE))];
    var line := Render(name, args);
    RenderEnds(name, args);
    ParseWithReturn(line, crlf);
    TokensOfQuoted(name, words);
    StrippedUndefinedExactlyWhen(line);
    QuotedWordsBadExactlyWhen(words);
  }

  // ---------- What several words are taken for ----------

  /** Whole words between a quoted argument's first and last are taken as arguments of their own. */
  lemma {:induction false} InnerWords(line: string, inner: seq<string>, last: string, at: nat, carry: Option<View>)
    requires forall w :: w in inner ==> IsWord(w) && w != ""
    ensures ParseArgs(line, inner + [last], at, carry)
         == Prepend(inner, ParseArgs(line, [last], at + Widths(inner), carry))
    decreases |inner|
  {
    if inner == [] {
      assert inner + [last] == [last];
      PrependNothing(ParseArgs(line, [last], at, carry));
    } else {
      var w, rest := inner[0], inner[1..];
      assert w in inner;
      InnerWords(line, rest, last, at + |w| + 1, carry);
      WordAndMore(line, w, rest, last, at, at + Widths(inner), carry);
      assert [w] + rest == inner;
    }
  }

  lemma WordAndMore(
      line: string, w: string, rest: seq<string>, last: string, at: nat, far: nat, carry: Option<View>)
    requires IsWord(w) && w != ""
    requires ParseArgs(line, rest + [last], at + |w| + 1, carry) == Prepend(rest, ParseArgs(line, [last], far, carry))
    ensures ParseArgs(line, ([w] + rest) + [last], at, carry)
         == Prepend([w] + rest, ParseArgs(line, [last], far, carry))
  {
    BareFirstArgument(line, w, rest + [last], at, carry);
    assert [w] + (rest + [last]) == ([w] + rest) + [last];
    PrependAll([w], rest, ParseArgs(line, [last], far, carry));
  }

  /** How far the tokens reach, the space behind each included. */
  function Widths(tokens: seq<string>): nat {
    if tokens == [] then 0 else |tokens[0]| + 1 + Widths(tokens[1..])
  }

  lemma {:induction false} JoinReaches(words: seq<string>)
    requires |words| >= 2
    ensures |Join(words, SPACE)| >= |words[0]| + |Last(words)| + 1
  {
    if |words| > 2 {
      JoinReaches(words[1..]);
    }
  }

  /** The text between the 34th character behind the opening quote and as many characters further on as the
      first and the last word have beyond 33, and the space. */
  function Remainder(words: seq<string>): string
    requires |words| >= 2
  {
    var x, end := Join(words, SPACE), |words[0]| + |Last(words)| - 32;
    if 33 <= end <= |x| then x[33..end] else ""
  }

  /** The arguments several words in quotes turn into. */
  function Taken(words: seq<string>): seq<string>
    requires |words| >= 2
  {
    (if words[0] == "" then [""] else [])
    + words[1..|words| - 1]
    + [if Last(words) == "" then "" else Remainder(words)]
  }

  /** The line has the quoted text at that offset. */
  predicate QuotedAt(line: string, at: nat, x: string) {
    at + |x| + 2 <= |line| && line[at..at + |x| + 2] == Quoted(x)
  }

  lemma FromLine(line: string, at: nat, x: string, i: nat, j: nat)
    requires QuotedAt(line, at, x) && i <= j <= |x|
    ensures at + 1 + j <= |line| && line[at + 1 + i..at + 1 + j] == x[i..j]
  {
    forall k | i <= k < j ensures line[at + 1 + k] == x[k] {
      assert line[at..at + |x| + 2][1 + k] == Quoted(x)[1 + k];
    }
  }

  /** The last token of the quoted argument. */
  lemma LastOfQuoted(line: string, at: nat, words: seq<string>, far: nat, carry: Option<View>)
    requires |words| >= 2 && (forall w :: w in words ==> IsWord(w)) && !ShortWords(words)
    requires QuotedAt(line, at, Join(words, SPACE))
    requires carry == if words[0] == "" then None else Some(View(at + QUOTE_CODE, |words[0]| + 1 - QUOTE_CODE))
    ensures ParseArgs(line, [Last(words) + [QUOTE]], far, carry)
         == Some([if Last(words) == "" then "" else Remainder(words)])
  {
    var token := Last(words) + [QUOTE];
    var one := [token];
    assert one[1..] == [];
    JoinReaches(words);
    assert Last(words) in words;
    if Last(words) != "" {
      assert token[0] == Last(words)[0];
      FromLine(line, at, Join(words, SPACE), 33, |words[0]| + |Last(words)| - 32);
    }
    var piece := PieceOf(line, token, far, carry);
    assert piece == Arg(if Last(words) == "" then "" else Remainder(words));
    OneTurn(line, token, [], far, carry, []);
    assert [token] + [] == one;
    PrependNothing(ParseArgs(line, one, far, carry));
    assert [] + [piece.text] == [piece.text] && [piece.text] + [] == [piece.text];
  }

  lemma FirstOfQuoted(line: string, at: nat, first: string, rest: seq<string>)
    requires IsWord(first) && !(0 < |first| < QUOTE_CODE - 1)
    ensures ParseArgs(line, [[QUOTE] + first] + rest, at, None) ==
      if first == "" then Prepend([""], ParseArgs(line, rest, at + 2, None))
      else ParseArgs(line, rest, at + |first| + 2, Some(View(at + QUOTE_CODE, |first| + 1 - QUOTE_CODE)))
  {
    FirstPiece(line, at, first);
    OneTurn(line, [QUOTE] + first, rest, at, None, []);
    PrependNothing(ParseArgs(line, [[QUOTE] + first] + rest, at, None));
    if first != "" {
      PrependNothing(ParseArgs(line, rest, at + |first| + 2, Some(View(at + QUOTE_CODE, |first| + 1 - QUOTE_CODE))));
    } else {
      assert [] + [""] == [""];
    }
  }

  lemma FirstPiece(line: string, at: nat, first: string)
    requires IsWord(first) && !(0 < |first| < QUOTE_CODE - 1)
    ensures PieceOf(line, [QUOTE] + first, at, None) ==
      if first == "" then Arg("") else Hold(View(at + QUOTE_CODE, |first| + 1 - QUOTE_CODE))
  {
    var token := [QUOTE] + first;
    if first != "" {
      assert token[|token| - 1] == first[|first| - 1];
    } else {
      assert token == [QUOTE];
    }
  }

  lemma InnerAreWords(words: seq<string>)
    requires |words| >= 2 && (forall w :: w in words ==> IsWord(w)) && !ShortWords(words)
    ensures forall w :: w in words[1..|words| - 1] ==> IsWord(w) && w != ""
  {
    var inner := words[1..|words| - 1];
    forall w | w in inner ensures IsWord(w) && w != "" {
      var k :| 0 <= k < |inner| && inner[k] == w;
      assert words[k + 1] in words;
    }
  }

  /** The tokens behind the first. */
  lemma BehindTheFirst(line: string, at: nat, words: seq<string>, carry: Option<View>)
    requires |words| >= 2 && (forall w :: w in words ==> IsWord(w)) && !ShortWords(words)
    requires QuotedAt(line, at, Join(words, SPACE))
    requires carry == if words[0] == "" then None else Some(View(at + QUOTE_CODE, |words[0]| + 1 - QUOTE_CODE))
    ensures ParseArgs(line, words[1..|words| - 1] + [Last(words) + [QUOTE]], at + |words[0]| + 2, carry)
         == Some(words[1..|words| - 1] + [if Last(words) == "" then "" else Remainder(words)])
  {
    var inner, far := words[1..|words| - 1], at + |words[0]| + 2;
    InnerAreWords(words);
    InnerWords(line, inner, Last(words) + [QUOTE], far, carry);
    LastOfQuoted(line, at, words, far + Widths(inner), carry);
  }

  lemma QuotedWordsMean(line: string, at: nat, words: seq<string>)
    requires |words| >= 2 && (forall w :: w in words ==> IsWord(w)) && !ShortWords(words)
    requires QuotedAt(line, at, Join(words, SPACE))
    ensures ParseArgs(line, QuotedWords(words), at, None) == Some(Taken(words))
  {
    var rest := words[1..|words| - 1] + [Last(words) + [QUOTE]];
    var taken := words[1..|words| - 1] + [if Last(words) == "" then "" else Remainder(words)];
    assert QuotedWords(words) == [[QUOTE] + words[0]] + rest;
    assert words[0] in words;
    FirstOfQuoted(line, at, words[0], rest);
    if words[0] == "" {
      BehindTheFirst(line, at, words, None);
      assert Taken(words) == [""] + taken;
    } else {
      BehindTheFirst(line, at, words, Some(View(at + QUOTE_CODE, |words[0]| + 1 - QUOTE_CODE)));
      assert Taken(words) == taken;
    }
  }

  lemma QuotedInLine(name: string, x: string)
    ensures QuotedAt(Render(name, [InQuotes(x)]), |name| + 1, x)
  {
    var front, quoted := name + [SPACE], Quoted(x);
    assert [InQuotes(x)][1..] == [];
    assert RenderArgs([InQuotes(x)]) == [SPACE] + (quoted + "");
    assert Render(name, [InQuotes(x)]) == front + quoted;
    EndOf(front, quoted);
  }

  lemma EndOf(a: string, b: string)
    ensures (a + b)[|a|..|a| + |b|] == b
  {
  }

  lemma LineMeans(line: string, ts: seq<string>, args: seq<string>)
    requires ts == Tokens(line, SPACE) && ts != [] && ParseArgs(line, ts[1..], |ts[0]| + 1, None) == Some(args)
    ensures ParseLineOf(line) == Parsed(Command(line, ts[0], args))
  {
  }

  lemma UnendedMeans(line: string, name: string, ts: seq<string>, words: seq<string>)
    requires |words| >= 2 && (forall w :: w in words ==> IsWord(w)) && !ShortWords(words)
    requires ts == Tokens(line, SPACE) && ts != [] && ts[0] == name && ts[1..] == QuotedWords(words)
    requires QuotedAt(line, |name| + 1, Join(words, SPACE))
    ensures ParseLineOf(line) == Parsed(Command(line, name, Taken(words)))
  {
    QuotedWordsMean(line, |name| + 1, words);
    LineMeans(line, ts, Taken(words));
  }

  lemma RenderedMeans(name: string, words: seq<string>)
    requires IsName(name) && |words| >= 2 && (forall w :: w in words ==> IsWord(w)) && !ShortWords(words)
    ensures var line := Render(name, [InQuotes(Join(words, SPACE))]);
      ParseLineOf(line) == Parsed(Command(line, name, Taken(words)))
  {
    var line := Render(name, [InQuotes(Join(words, SPACE))]);
    TokensOfQuoted(name, words);
    QuotedInLine(name, Join(words, SPACE));
    UnendedMeans(line, name, Tokens(line, SPACE), words);
  }

  /** What becomes of a command with one argument of several words and no inner quotes, written as the
      protocol asks for it, where it has a meaning at all: every inner word is an argument, and of the first
      and the last word together what is left beyond 33 characters of each; empty ones are empty arguments. */
  lemma SeveralWordsMean(name: string, words: seq<string>, crlf: bool)
    requires IsName(name) && |words| >= 2 && (forall w :: w in words ==> IsWord(w)) && !ShortWords(words)
    ensures var args := [InQuotes(Join(words, SPACE))];
      ParseLine(RawLine(Sent(name, args, crlf))) == Parsed(Command(Render(name, args), name, Taken(words)))
  {
    var args := [InQuotes(Join(words, SPACE))];
    var line := Render(name, args);
    assert RawLine(Sent(name, args, crlf)) == line + if crlf then [CR] else "";
    RenderEnds(name, args);
    ParseWithReturn(line, crlf);
    RenderedMeans(name, words);
  }
}

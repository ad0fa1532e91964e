/**
 One command line into a name and arguments: the inner loop of the generate
 step in src/Protocols/MPD.cpp, and its inverse, the way a client writes a
 command (section "Requests" of the Music Player Daemon protocol).

 Reading the front or back of an empty view, dropping more characters than a
 view has, or building a view on a null pointer is undefined in the original.
 The result `Undefined` stands for all of these.
 */
module MpdParse {
  import opened Common
  import opened Tokeniser
  import opened MpdIntake

  datatype Command = Command(line: string, name: string, args: seq<string>)

  datatype Parsed = Undefined | Parsed(command: Command)

  /** A view into the command line. */
  datatype View = View(start: nat, len: nat)

  /** `remove_prefix('"')` and `remove_suffix('"')` drop as many characters as the code of '"'. */
  const QUOTE_CODE: nat := 34

  // ---------- Arguments ----------

  /** What the loop body makes of one token: an argument, a view to carry over, or no defined result. */
  datatype Piece = Bad | Hold(view: View) | Arg(text: string)

  /** The token `cur` starts at offset `at` of `line`. A view that left the line would be undefined
      too; `ViewsStayInLine` shows that this does not happen. */
  function PieceOf(line: string, cur: string, at: nat, carry: Option<View>): Piece {
    if cur == "" then Bad
    else if cur[0] == QUOTE && cur[|cur| - 1] == QUOTE then
      // substr(1, size - 2); for a lone quote the length wraps round and nothing is left.
      Arg(if |cur| == 1 then "" else cur[1..|cur| - 1])
    else if cur[0] == QUOTE then
      if |cur| < QUOTE_CODE then Bad else Hold(View(at + QUOTE_CODE, |cur| - QUOTE_CODE))
    else if cur[|cur| - 1] == QUOTE then
      if |cur| < QUOTE_CODE || carry.None? then Bad
      else
        var start, end := carry.value.start, carry.value.start + carry.value.len + (|cur| - QUOTE_CODE) + 1;
        if end <= |line| then Arg(line[start..end]) else Bad
    else Arg(cur)
  }

  function Prepend<T>(done: seq<T>, rest: Option<seq<T>>): Option<seq<T>> {
    if rest.None? then None else Some(done + rest.value)
  }

  function ArgsWith(args: seq<string>, piece: Piece): seq<string> {
    if piece.Arg? then args + [piece.text] else args
  }

  function CarryWith(carry: Option<View>, piece: Piece): Option<View> {
    if piece.Hold? then Some(piece.view) else carry
  }

  /** The argument loop over the remaining tokens, or `None` when it runs into undefined behaviour. */
  function ParseArgs(line: string, ts: seq<string>, at: nat, carry: Option<View>): Option<seq<string>>
    decreases |ts|
  {
    if ts == [] then Some([])
    else
      var piece := PieceOf(line, ts[0], at, carry);
      if piece.Bad? then None
      else Prepend(ArgsWith([], piece), ParseArgs(line, ts[1..], at + |ts[0]| + 1, CarryWith(carry, piece)))
  }

  /** Name and arguments. */
  function ParseLineOf(line: string): Parsed {
    var ts := Tokens(line, SPACE);
    if ts == [] then Parsed(Command(line, "", []))
    else match ParseArgs(line, ts[1..], |ts[0]| + 1, None)
      case None => Undefined
      case Some(args) => Parsed(Command(line, ts[0], args))
  }

  /** A raw line from the line tokeniser: strip one carriage return, then name and arguments. */
  function ParseLine(raw: string): Parsed {
    if raw == "" then Undefined
    else ParseLineOf(if raw[|raw| - 1] == CR then raw[..|raw| - 1] else raw)
  }

  // ---------- Views stay inside the line ----------

  /** The tokens `ts` lie in `line` from offset `at` on. */
  ghost predicate Fits(line: string, ts: seq<string>, at: nat) {
    ts == [] ||
    (at + |Join(ts, SPACE)| <= |line| && line[at..at + |Join(ts, SPACE)|] == Join(ts, SPACE))
  }

  lemma FitsRest(line: string, ts: seq<string>, at: nat)
    requires ts != [] && Fits(line, ts, at)
    ensures at + |ts[0]| <= |line| && line[at..at + |ts[0]|] == ts[0]
    ensures Fits(line, ts[1..], at + |ts[0]| + 1)
  {
    var all := Join(ts, SPACE);
    assert all[..|ts[0]|] == ts[0];
    assert line[at..at + |all|][..|ts[0]|] == line[at..at + |ts[0]|];
    if |ts| > 1 {
      var rest := Join(ts[1..], SPACE);
      assert all == ts[0] + [SPACE] + rest;
      assert all[|ts[0]| + 1..] == rest;
      assert line[at..at + |all|][|ts[0]| + 1..] == line[at + |ts[0]| + 1..at + |all|];
    }
  }

  /** A carried view ends before the space in front of offset `at`. */
  predicate CarryEndsBefore(carry: Option<View>, at: nat) {
    carry.Some? ==> carry.value.start + carry.value.len < at
  }

  /** The tokens of a line lie in it, offsets included. */
  lemma TokensFit(line: string)
    requires Tokens(line, SPACE) != []
    ensures var ts := Tokens(line, SPACE); Fits(line, ts[1..], |ts[0]| + 1) && CarryEndsBefore(None, |ts[0]| + 1)
  {
    TokensRebuild(line, SPACE);
    FitsRest(line, Tokens(line, SPACE), 0);
  }

  /** Every turn of the loop keeps offsets and carried view right, and a view it builds ends inside the
      current token. */
  lemma ViewsStayInLine(line: string, ts: seq<string>, at: nat, carry: Option<View>)
    requires ts != [] && Fits(line, ts, at) && CarryEndsBefore(carry, at)
    ensures var piece := PieceOf(line, ts[0], at, carry);
      && Fits(line, ts[1..], at + |ts[0]| + 1)
      && CarryEndsBefore(CarryWith(carry, piece), at + |ts[0]| + 1)
      && (carry.Some? && |ts[0]| >= QUOTE_CODE ==>
            carry.value.start + carry.value.len + (|ts[0]| - QUOTE_CODE) + 1 <= at + |ts[0]| <= |line|)
  {
    FitsRest(line, ts, at);
  }

  // ---------- The loop ----------

  /** One turn of the loop, with `args` collected so far and the token `token` in front of `rest`. */
  lemma OneTurn(line: string, token: string, rest: seq<string>, at: nat, carry: Option<View>, args: seq<string>)
    ensures var piece := PieceOf(line, token, at, carry);
      Prepend(args, ParseArgs(line, [token] + rest, at, carry)) ==
        if piece.Bad? then None
        else Prepend(ArgsWith(args, piece), ParseArgs(line, rest, at + |token| + 1, CarryWith(carry, piece)))
  {
    var piece := PieceOf(line, token, at, carry);
    var more := ParseArgs(line, rest, at + |token| + 1, CarryWith(carry, piece));
    assert ([token] + rest)[1..] == rest;
    if piece.Arg? {
      assert [] + [piece.text] == [piece.text];
      PrependAll(args, [piece.text], more);
    } else {
      PrependNothing(more);
    }
  }

  /** With the tokens `ts` left and `args` collected, the loop will end with `goal`. */
  ghost predicate Heading(
    line: string, ts: seq<string>, at: nat, carry: Option<View>, args: seq<string>, goal: Option<seq<string>>)
  {
    Prepend(args, ParseArgs(line, ts, at, carry)) == goal
  }

  /** What `size() - 2` wraps round by. */
  const SIZE_WRAP: int := 0x1_0000_0000_0000_0000

  /** `substr(1, size() - 2)`: the count wraps round for a lone quote, and is cut to what is left. */
  method WithoutQuotes(cur: string) returns (text: string)
    requires cur != ""
    ensures text == if |cur| == 1 then "" else cur[1..|cur| - 1]
  {
    var count := |cur| - 2;
    if count < 0 {
      count := count + SIZE_WRAP;
    }
    if count > |cur| - 1 {
      count := |cur| - 1;
    }
    text := cur[1..1 + count];
  }

  /** The branches of the loop body on the view `cur`, which starts at offset `at` of the line: `bad` where
      an operation on a view is undefined, otherwise the new carried view and the arguments pushed. */
  method LookAtToken(line: string, cur: string, at: nat, carry: Option<View>)
    returns (bad: bool, carry': Option<View>, pushed: seq<string>)
    ensures var piece := PieceOf(line, cur, at, carry);
      bad == piece.Bad? && (!bad ==> carry' == CarryWith(carry, piece) && pushed == ArgsWith([], piece))
  {
    bad, carry', pushed := false, carry, [];
    // front() and back() of an empty view.
    if cur == "" {
      return true, carry, [];
    }
    if cur[0] == QUOTE && cur[|cur| - 1] == QUOTE {
      var text := WithoutQuotes(cur);
      pushed := pushed + [text];
    } else if cur[0] == QUOTE {
      // remove_prefix('"'), then the view is carried over.
      if |cur| < QUOTE_CODE {
        return true, carry, [];
      }
      carry' := Some(View(at + QUOTE_CODE, |cur| - QUOTE_CODE));
    } else if cur[|cur| - 1] == QUOTE {
      // remove_suffix('"'), then a view from the start of the carried one, as long as both and a space.
      if |cur| < QUOTE_CODE || carry.None? {
        return true, carry, [];
      }
      var start, length := carry.value.start, carry.value.len + (|cur| - QUOTE_CODE) + 1;
      if start + length > |line| {
        return true, carry, [];
      }
      pushed := pushed + [line[start..start + length]];
    } else {
      pushed := pushed + [cur];
    }
  }

  lemma PushedArgs(args: seq<string>, piece: Piece)
    ensures ArgsWith(args, piece) == args + ArgsWith([], piece)
  {
  }

  /** The body of the argument loop. */
  method TakeToken(line: string, token: string, at: nat, carry: Option<View>, args: seq<string>,
                   ghost ts: seq<string>, ghost goal: Option<seq<string>>)
    returns (bad: bool, at': nat, carry': Option<View>, args': seq<string>)
    requires ts != [] && ts[0] == token && Heading(line, ts, at, carry, args, goal)
    ensures if bad then goal == None else Heading(line, ts[1..], at', carry', args', goal)
  {
    assert ts == [token] + ts[1..];
    OneTurn(line, token, ts[1..], at, carry, args);
    PushedArgs(args, PieceOf(line, token, at, carry));
    var pushed;
    bad, carry', pushed := LookAtToken(line, token, at, carry);
    at', args' := at + |token| + 1, args + pushed;
  }

  /** The argument loop, over the space tokeniser's iterator. */
  method CollectArguments(line: string, it: ConstIterator, start: nat) returns (r: Option<seq<string>>)
    requires it.delimiter == SPACE
    modifies it
    ensures r == ParseArgs(line, Emitted(old(it.View()), SPACE), start, None)
  {
    ghost var left := Emitted(it.View(), SPACE);
    ghost var goal := ParseArgs(line, left, start, None);
    PrependNothing(goal);
    var args: seq<string> := [];
    var carry: Option<View> := None;
    var at: nat := start;
    while it.View() != END
      invariant left == Emitted(it.View(), SPACE)
      invariant Heading(line, left, at, carry, args, goal)
      decreases |it.data|, |it.token|
    {
      var token := it.Next();
      var bad;
      bad, at, carry, args := TakeToken(line, token, at, carry, args, left, goal);
      if bad {
        return None;
      }
      left := left[1..];
    }
    assert args + [] == args;
    r := Some(args);
  }

  lemma AfterName(line: string)
    ensures var first := Begin(line, SPACE); var ts := Tokens(line, SPACE);
      && (ts == [] <==> first == END)
      && (ts != [] ==> ts[0] == first.token && Emitted(Advance(first, SPACE), SPACE) == ts[1..])
      && (ts == [] ==> Emitted(Advance(first, SPACE), SPACE) == [])
  {
    assert Advance(END, SPACE) == END && Emitted(END, SPACE) == [];
  }

  lemma ParseStripped(line: string, args: Option<seq<string>>)
    requires var first := Begin(line, SPACE);
      args == ParseArgs(line, Emitted(Advance(first, SPACE), SPACE), |first.token| + 1, None)
    ensures args.None? ==> ParseLineOf(line) == Undefined
    ensures args.Some? ==> ParseLineOf(line) == Parsed(Command(line, Begin(line, SPACE).token, args.value))
  {
    AfterName(line);
  }

  /** The whole line: strip the carriage return, take the name, then the arguments. */
  method ParseCommandLine(raw: string) returns (r: Parsed)
    ensures r == ParseLine(raw)
  {
    if raw == "" {
      return Undefined;
    }
    var line := if raw[|raw| - 1] == CR then raw[..|raw| - 1] else raw;
    r := SplitCommand(line);
  }

  /** Name and arguments of a line without its carriage return. */
  method SplitCommand(line: string) returns (r: Parsed)
    ensures r == ParseLineOf(line)
  {
    var it := new ConstIterator(line, SPACE);
    var name := it.token;
    it.MoveToNext();
    var args := CollectArguments(line, it, |name| + 1);
    ParseStripped(line, args);
    r := if args.None? then Undefined else Parsed(Command(line, name, args.value));
  }

  /** The line of a command is the raw line without one carriage return at its end, and its name is everything up to
      the first space of it; a line that starts with a space has the empty name. */
  lemma NameIsFirstField(raw: string)
    requires ParseLine(raw).Parsed?
    ensures var c := ParseLine(raw).command;
      && c.line == (if raw[|raw| - 1] == CR then raw[..|raw| - 1] else raw)
      && c.name == Split(c.line, SPACE)[0]
  {
    var line := ParseLine(raw).command.line;
    TokensExact(line, SPACE);
    if Tokens(line, SPACE) == [] {
      assert Split(line, SPACE)[0] == "";
    }
  }

  lemma PrependNothing<T>(rest: Option<seq<T>>)
    ensures Prepend([], rest) == rest
  {
    if rest.Some? {
      assert [] + rest.value == rest.value;
    }
  }

  lemma PrependAll<T>(a: seq<T>, b: seq<T>, rest: Option<seq<T>>)
    ensures Prepend(a, Prepend(b, rest)) == Prepend(a + b, rest)
  {
    if rest.Some? {
      assert a + (b + rest.value) == (a + b) + rest.value;
    }
  }

  // ---------- Writing a command ----------

  function Quoted(arg: string): string { [QUOTE] + arg + [QUOTE] }

  /** An argument as a client writes it, bare or in quotes. */
  datatype Argument = Bare(text: string) | InQuotes(text: string)

  function Shape(a: Argument): string { if a.Bare? then a.text else Quoted(a.text) }

  /** What may be written bare: something without a space, with a quote at neither end. */
  predicate Writable(a: Argument) {
    a.Bare? ==>
      a.text != "" && SPACE !in a.text && a.text[0] != QUOTE && a.text[|a.text| - 1] != QUOTE
  }

  /** A bare argument at the end of the line does not end in a carriage return. */
  predicate EndsWell(args: seq<Argument>) {
    args != [] && args[|args| - 1].Bare? && args[|args| - 1].text != "" ==>
      var last := args[|args| - 1].text; last[|last| - 1] != CR
  }

  predicate AllWritable(args: seq<Argument>) { EndsWell(args) && forall a :: a in args ==> Writable(a) }

  function TextsOf(args: seq<Argument>): seq<string> {
    if args == [] then [] else [args[0].text] + TextsOf(args[1..])
  }

  function RenderArgs(args: seq<Argument>): string {
    if args == [] then "" else [SPACE] + (Shape(args[0]) + RenderArgs(args[1..]))
  }

  /** A command as a client writes it: the name, then its arguments, each behind a space. */
  function Render(name: string, args: seq<Argument>): string { name + RenderArgs(args) }

  predicate IsName(name: string) {
    name != "" && SPACE !in name && NL !in name && name[|name| - 1] != CR
  }

  /** No argument in quotes holds a space. */
  predicate SpaceFree(args: seq<Argument>) {
    forall a :: a in args && a.InQuotes? ==> SPACE !in a.text
  }

  function SplitArgs(args: seq<Argument>): seq<string> {
    if args == [] then [] else Split(Shape(args[0]), SPACE) + SplitArgs(args[1..])
  }

  lemma {:induction false} SplitOfRender(start: string, args: seq<Argument>)
    ensures Split(start + RenderArgs(args), SPACE) == Split(start, SPACE) + SplitArgs(args)
    decreases |args|
  {
    if args == [] {
      assert start + "" == start;
    } else {
      SplitAt(start, Shape(args[0]) + RenderArgs(args[1..]), SPACE);
      SplitOfRender(Shape(args[0]), args[1..]);
    }
  }

  lemma ShapeEnds(a: Argument)
    requires Writable(a)
    ensures Shape(a) != "" && Shape(a)[|Shape(a)| - 1] != SPACE
    ensures EndsWell([a]) ==> Shape(a)[|Shape(a)| - 1] != CR
  {
  }

  lemma {:induction false} RenderArgsEnd(args: seq<Argument>)
    requires args != [] && AllWritable(args)
    ensures var s := RenderArgs(args); s != "" && s[|s| - 1] != SPACE && s[|s| - 1] != CR
  {
    assert args[0] in args;
    ShapeEnds(args[0]);
    if |args| > 1 {
      assert args[1..][|args| - 2] == args[|args| - 1];
      RenderArgsEnd(args[1..]);
    }
  }

  /** The space tokeniser sees every piece of a written command. */
  lemma TokensOfRender(name: string, args: seq<Argument>)
    requires IsName(name) && AllWritable(args)
    ensures Tokens(Render(name, args), SPACE) == [name] + SplitArgs(args)
  {
    SplitOfRender(name, args);
    SplitCons(name, "", SPACE);
    RenderEndsInNoSpace(name, args);
    NothingDropped(Render(name, args));
  }

  lemma RenderEndsInNoSpace(name: string, args: seq<Argument>)
    requires IsName(name) && AllWritable(args)
    ensures var s := Render(name, args); s != "" && s[|s| - 1] != SPACE
  {
    if args != [] {
      RenderArgsEnd(args);
    }
  }

  lemma NothingDropped(s: string)
    requires s != "" && s[|s| - 1] != SPACE
    ensures Tokens(s, SPACE) == Split(s, SPACE)
  {
    TokensExact(s, SPACE);
    assert Dropped(s, SPACE) == 0;
  }

  // ---------- When arguments come back ----------

  lemma QuotedIsOneToken(arg: string)
    requires SPACE !in arg
    ensures Split(Quoted(arg), SPACE) == [Quoted(arg)]
  {
    var q := Quoted(arg);
    assert q[..|q|] == q;
    IndexOfUnique(q, SPACE, |q|);
  }

  /** The result cannot be a list that starts with `x`. */
  predicate FirstIsNot(r: Option<seq<string>>, x: string) {
    r.None? || (r.value != [] && r.value[0] != x)
  }

  /** `own` are the tokens left of a quoted argument `x` that holds a space; the quoted argument began
      at `base`. Whatever the loop does with them, the first argument it yields is either a single
      token, which holds no space, or a view shorter than `x`. */
  lemma {:induction false} FirstArgumentDiffers(
      line: string, own: seq<string>, later: seq<string>, at: nat, carry: Option<View>, base: nat, x: string)
    requires own != [] && CarryEndsBefore(carry, at)
    requires forall t :: t in own ==> SPACE !in t
    requires Last(own) != "" && Last(own)[|Last(own)| - 1] == QUOTE
    requires SPACE in x
    requires base <= at && at + |Join(own, SPACE)| <= base + |x| + 2
    requires carry.Some? ==> carry.value.start >= base + QUOTE_CODE
    ensures FirstIsNot(ParseArgs(line, own + later, at, carry), x)
    decreases |own|
  {
    var ts := own + later;
    var cur := own[0];
    assert ts[0] == cur && ts[1..] == own[1..] + later;
    assert cur in own;
    var piece := PieceOf(line, cur, at, carry);
    match piece {
      case Bad =>
      case Arg(text) => ArgumentDiffers(line, cur, at, carry, base, x);
      case Hold(view) =>
        assert |own| > 1;
        assert Last(own[1..]) == Last(own);
        FirstArgumentDiffers(line, own[1..], later, at + |cur| + 1, Some(view), base, x);
    }
  }

  lemma ArgumentDiffers(line: string, cur: string, at: nat, carry: Option<View>, base: nat, x: string)
    requires CarryEndsBefore(carry, at)
    requires PieceOf(line, cur, at, carry).Arg?
    requires SPACE !in cur && SPACE in x
    requires base <= at && at + |cur| <= base + |x| + 2
    requires carry.Some? ==> carry.value.start >= base + QUOTE_CODE
    ensures PieceOf(line, cur, at, carry).text != x
  {
    var text := PieceOf(line, cur, at, carry).text;
  }

  lemma SpacedFirstArgument(line: string, x: string, later: seq<string>, at: nat)
    requires SPACE in x
    ensures FirstIsNot(ParseArgs(line, Split(Quoted(x), SPACE) + later, at, None), x)
  {
    JoinOfSplit(Quoted(x), SPACE);
    LastField(Quoted(x), SPACE);
    FirstArgumentDiffers(line, Split(Quoted(x), SPACE), later, at, None, at, x);
  }

  /** A quoted argument without spaces is taken as it is, whatever follows. */
  lemma SpaceFreeFirstArgument(line: string, x: string, later: seq<string>, at: nat)
    requires SPACE !in x
    ensures ParseArgs(line, Split(Quoted(x), SPACE) + later, at, None)
         == Prepend([x], ParseArgs(line, later, at + |x| + 3, None))
  {
    QuotedIsOneToken(x);
    var ts := [Quoted(x)] + later;
    assert ts[1..] == later;
    assert ts[0][1..|ts[0]| - 1] == x;
    assert [] + [x] == [x];
  }

  /** A bare argument is taken as it is, whatever is carried and whatever follows. */
  lemma BareFirstArgument(line: string, x: string, later: seq<string>, at: nat, carry: Option<View>)
    requires Writable(Bare(x))
    ensures ParseArgs(line, [x] + later, at, carry) == Prepend([x], ParseArgs(line, later, at + |x| + 1, carry))
  {
    var ts := [x] + later;
    assert ts[1..] == later;
    assert [] + [x] == [x];
  }

  lemma FirstArgument(line: string, a: Argument, later: seq<string>, at: nat)
    requires Writable(a) && SPACE !in a.text
    ensures ParseArgs(line, Split(Shape(a), SPACE) + later, at, None)
         == Prepend([a.text], ParseArgs(line, later, at + |Shape(a)| + 1, None))
  {
    if a.Bare? {
      SplitCons(a.text, "", SPACE);
      BareFirstArgument(line, a.text, later, at, None);
    } else {
      SpaceFreeFirstArgument(line, a.text, later, at);
    }
  }

  /** The arguments come back exactly when none of those in quotes holds a space. */
  lemma {:induction false} ArgsComeBackExactlyWhen(line: string, args: seq<Argument>, at: nat)
    requires forall a :: a in args ==> Writable(a)
    ensures ParseArgs(line, SplitArgs(args), at, None) == Some(TextsOf(args)) <==> SpaceFree(args)
    decreases |args|
  {
    if args != [] {
      var a, later := args[0], SplitArgs(args[1..]);
      assert a in args;
      if SPACE in a.text {
        SpacedFirstArgument(line, a.text, later, at);
      } else {
        FirstArgument(line, a, later, at);
        ArgsComeBackExactlyWhen(line, args[1..], at + |Shape(a)| + 1);
        ConsComesBack(ParseArgs(line, later, at + |Shape(a)| + 1, None), args);
      }
    }
  }

  lemma ConsComesBack(rest: Option<seq<string>>, args: seq<Argument>)
    requires args != [] && SPACE !in args[0].text
    ensures Prepend([args[0].text], rest) == Some(TextsOf(args)) <==> rest == Some(TextsOf(args[1..]))
    ensures SpaceFree(args) <==> SpaceFree(args[1..])
  {
    var x := args[0].text;
    assert args == [args[0]] + args[1..];
    if rest.Some? {
      assert ([x] + rest.value)[1..] == rest.value;
      assert ([x] + TextsOf(args[1..]))[1..] == TextsOf(args[1..]);
    }
  }

  lemma RenderEnds(name: string, args: seq<Argument>)
    requires IsName(name) && AllWritable(args)
    ensures var line := Render(name, args); line != "" && line[|line| - 1] != CR
  {
    if args != [] {
      RenderArgsEnd(args);
    }
  }

  lemma ParseWithReturn(line: string, crlf: bool)
    requires line != "" && line[|line| - 1] != CR
    ensures ParseLine(line + if crlf then [CR] else "") == ParseLineOf(line)
  {
    assert line + "" == line;
    assert (line + [CR])[..|line|] == line;
  }

  lemma ParseOfLine(line: string, ts: seq<string>, args: seq<string>)
    requires ts == Tokens(line, SPACE) && ts != []
    ensures ParseLineOf(line) == Parsed(Command(line, ts[0], args))
      <==> ParseArgs(line, ts[1..], |ts[0]| + 1, None) == Some(args)
  {
  }

  lemma LineOfRenderExactlyWhen(name: string, args: seq<Argument>)
    requires IsName(name) && AllWritable(args)
    ensures ParseLineOf(Render(name, args)) == Parsed(Command(Render(name, args), name, TextsOf(args)))
       <==> SpaceFree(args)
  {
    var line := Render(name, args);
    TokensOfRender(name, args);
    LineOfTokensExactlyWhen(line, name, args);
  }

  lemma LineOfTokensExactlyWhen(line: string, name: string, args: seq<Argument>)
    requires Tokens(line, SPACE) == [name] + SplitArgs(args) && forall a :: a in args ==> Writable(a)
    ensures ParseLineOf(line) == Parsed(Command(line, name, TextsOf(args))) <==> SpaceFree(args)
  {
    var ts := [name] + SplitArgs(args);
    assert ts[0] == name && ts[1..] == SplitArgs(args);
    ParseOfLine(line, ts, TextsOf(args));
    ArgsComeBackExactlyWhen(line, args, |name| + 1);
  }

  /** Writing then parsing one command, each argument bare or in quotes, ended by LF or CRLF, gives back
      the same name and arguments if and only if no argument in quotes holds a space. Empty arguments,
      inner quotes and carriage returns inside arguments all survive; an argument of several words never
      does. */
  lemma ParseOfRenderExactlyWhen(name: string, args: seq<Argument>, crlf: bool)
    requires IsName(name) && AllWritable(args)
    ensures ParseLine(Render(name, args) + if crlf then [CR] else "")
         == Parsed(Command(Render(name, args), name, TextsOf(args)))
         <==> SpaceFree(args)
  {
    RenderEnds(name, args);
    ParseWithReturn(Render(name, args), crlf);
    LineOfRenderExactlyWhen(name, args);
  }

  // ---------- A whole stream of commands ----------

  /** A command as it goes over the wire. */
  datatype Sent = Sent(name: string, args: seq<Argument>, crlf: bool)

  predicate Sendable(c: Sent) {
    IsName(c.name) && AllWritable(c.args) && forall a :: a in c.args ==> NL !in a.text
  }

  function RawLine(c: Sent): string {
    Render(c.name, c.args) + if c.crlf then [CR] else ""
  }

  function RawLines(cs: seq<Sent>): seq<string> {
    if cs == [] then [] else [RawLine(cs[0])] + RawLines(cs[1..])
  }

  function Written(cs: seq<Sent>): string {
    if cs == [] then "" else RawLine(cs[0]) + [NL] + Written(cs[1..])
  }

  function CommandOf(c: Sent): Command {
    Command(Render(c.name, c.args), c.name, TextsOf(c.args))
  }

  function CommandsOf(cs: seq<Sent>): seq<Command> {
    if cs == [] then [] else [CommandOf(cs[0])] + CommandsOf(cs[1..])
  }

  /** The messages made from dispatched lines, or `None` once one of them is undefined. */
  function ParseLines(lines: seq<string>): Option<seq<Command>> {
    if lines == [] then Some([])
    else match ParseLine(lines[0])
      case Undefined => None
      case Parsed(c) => Prepend([c], ParseLines(lines[1..]))
  }

  lemma {:induction false} RenderArgsHasNoNewline(args: seq<Argument>)
    requires forall a :: a in args ==> NL !in a.text
    ensures NL !in RenderArgs(args)
  {
    if args != [] {
      assert args[0] in args;
      RenderArgsHasNoNewline(args[1..]);
    }
  }

  lemma RawLineIsOneLine(c: Sent)
    requires Sendable(c)
    ensures NL !in RawLine(c) && RawLine(c) != ""
  {
    RenderArgsHasNoNewline(c.args);
  }

  lemma {:induction false} SplitOfWritten(cs: seq<Sent>)
    requires forall c :: c in cs ==> Sendable(c)
    ensures Split(Written(cs), NL) == RawLines(cs) + [""]
  {
    if cs != [] {
      RawLineIsOneLine(cs[0]);
      SplitCons(RawLine(cs[0]), Written(cs[1..]), NL);
      SplitOfWritten(cs[1..]);
      Reassociate([RawLine(cs[0])], RawLines(cs[1..]), [""]);
    }
  }

  lemma {:induction false} WrittenIsClean(cs: seq<Sent>)
    requires forall c :: c in cs ==> Sendable(c)
    ensures Clean(Written(cs))
  {
    if cs != [] {
      var raw := RawLine(cs[0]);
      RawLineIsOneLine(cs[0]);
      assert raw[|raw| - 1] in raw;
      WrittenIsClean(cs[1..]);
    }
  }

  lemma PrependExactlyWhen(c: Command, more: Option<seq<Command>>, d: Command, rest: seq<Command>)
    ensures Prepend([c], more) == Some([d] + rest) <==> c == d && more == Some(rest)
  {
    if more.Some? && [c] + more.value == [d] + rest {
      assert ([c] + more.value)[0] == ([d] + rest)[0];
      assert ([c] + more.value)[1..] == ([d] + rest)[1..];
    }
  }

  lemma {:induction false} ParseLinesExactlyWhen(cs: seq<Sent>)
    requires forall c :: c in cs ==> Sendable(c)
    ensures ParseLines(RawLines(cs)) == Some(CommandsOf(cs)) <==> forall c :: c in cs ==> SpaceFree(c.args)
  {
    if cs != [] {
      var c, rest := cs[0], cs[1..];
      assert c in cs && forall d :: d in cs <==> d == c || d in rest;
      ParseOfRenderExactlyWhen(c.name, c.args, c.crlf);
      ParseLinesExactlyWhen(rest);
      assert RawLines(cs)[1..] == RawLines(rest);
      var first := ParseLine(RawLine(c));
      if first.Parsed? {
        PrependExactlyWhen(first.command, ParseLines(RawLines(rest)), CommandOf(c), CommandsOf(rest));
      }
    }
  }

  /** Through both tokenisers: a stream of commands, each a name and arguments bare or in quotes and ended by
      LF or CRLF, passes through one generate step as exactly the commands that were written, in order,
      and empties the buffer, if and only if no argument in quotes holds a space. */
  lemma StreamComesBackExactlyWhen(cs: seq<Sent>)
    requires forall c :: c in cs ==> Sendable(c)
    ensures Kept(Written(cs)) == "" && Dispatched(Written(cs)) == RawLines(cs)
    ensures ParseLines(Dispatched(Written(cs))) == Some(CommandsOf(cs))
       <==> forall c :: c in cs ==> SpaceFree(c.args)
  {
    var text := Written(cs);
    WrittenIsClean(cs);
    PassWithoutTail(text);
    KeptIsTail(text);
    SplitOfWritten(cs);
    assert Front(RawLines(cs) + [""]) == RawLines(cs);
    ParseLinesExactlyWhen(cs);
  }

  /** The generate step for one client's buffer. */
  method GenerateFrom(buffer: string) returns (commands: Option<seq<Command>>, rest: string)
    ensures commands == ParseLines(Dispatched(buffer)) && rest == Kept(buffer)
  {
    rest := buffer[AfterLastIndex(buffer, NL)..];
    var it := new ConstIterator(buffer, NL);
    var parsed: seq<Command> := [];
    PrependNothing(ParseLines(Dispatched(buffer)));
    while it.View() != END
      invariant it.delimiter == NL
      invariant Prepend(parsed, ParseLines(Emitted(it.View(), NL))) == ParseLines(Dispatched(buffer))
      decreases |it.data|, |it.token|
    {
      ghost var left := Emitted(it.View(), NL);
      var r := ParseCommandLine(it.token);
      it.MoveToNext();
      assert Emitted(it.View(), NL) == left[1..];
      if r.Undefined? {
        return None, rest;
      }
      PrependAll(parsed, [r.command], ParseLines(left[1..]));
      parsed := parsed + [r.command];
    }
    assert parsed + [] == parsed;
    commands := Some(parsed);
  }
}

/**
 The delimiter tokeniser of src/Util/Tokeniser.hpp, next to the plain
 definition of splitting a text at a delimiter.
 */
module Tokeniser {

  /** `find_first_of`: the first place of `d`, or the length of `s` when there is none. */
  function IndexOf(s: string, d: char): (i: nat)
    ensures i <= |s|
    ensures i < |s| ==> s[i] == d
    ensures d !in s[..i]
  {
    if s == [] then 0
    else if s[0] == d then 0
    else
      var i := 1 + IndexOf(s[1..], d);
      assert s[..i] == [s[0]] + s[1..][..i - 1];
      i
  }

  // ---------- The reference: splitting and joining ----------

  /** Every field of `s` between delimiters, the empty ones included. */
  function Split(s: string, d: char): (fields: seq<string>)
    ensures |fields| >= 1
    decreases |s|
  {
    var i := IndexOf(s, d);
    if i == |s| then [s] else [s[..i]] + Split(s[i + 1..], d)
  }

  function Join(fields: seq<string>, d: char): string {
    if fields == [] then ""
    else if |fields| == 1 then fields[0]
    else fields[0] + [d] + Join(fields[1..], d)
  }

  lemma IndexOfField(field: string, rest: string, d: char)
    requires d !in field
    ensures IndexOf(field + [d] + rest, d) == |field|
    ensures IndexOf(field, d) == |field|
  {
    var s := field + [d] + rest;
    assert s[..|field|] == field;
    IndexOfUnique(s, d, |field|);
    assert field[..|field|] == field;
    IndexOfUnique(field, d, |field|);
  }

  lemma {:induction false} IndexOfUnique(s: string, d: char, i: nat)
    requires i <= |s| && d !in s[..i] && (i < |s| ==> s[i] == d)
    ensures IndexOf(s, d) == i
  {
    if s != [] && i > 0 {
      assert s[0] == s[..i][0];
      assert s[1..][..i - 1] == s[..i][1..];
      IndexOfUnique(s[1..], d, i - 1);
    }
  }

  lemma SplitCons(field: string, rest: string, d: char)
    requires d !in field
    ensures Split(field + [d] + rest, d) == [field] + Split(rest, d)
    ensures Split(field, d) == [field]
  {
    IndexOfField(field, rest, d);
    var s := field + [d] + rest;
    assert s[..|field|] == field && s[|field| + 1..] == rest;
  }

  /** Split after Join: splitting undoes joining. */
  lemma {:induction false} SplitOfJoin(fields: seq<string>, d: char)
    requires |fields| >= 1 && forall f :: f in fields ==> d !in f
    ensures Split(Join(fields, d), d) == fields
  {
    SplitCons(fields[0], Join(fields[1..], d), d);
    if |fields| > 1 {
      SplitOfJoin(fields[1..], d);
    }
  }

  /** Join after Split: joining undoes splitting, and no field holds a delimiter. */
  lemma {:induction false} JoinOfSplit(s: string, d: char)
    ensures Join(Split(s, d), d) == s
    ensures forall f :: f in Split(s, d) ==> d !in f
    decreases |s|
  {
    var i := IndexOf(s, d);
    if i < |s| {
      JoinOfSplit(s[i + 1..], d);
      assert Split(s, d)[1..] == Split(s[i + 1..], d);
      assert s == s[..i] + [d] + s[i + 1..];
    } else {
      assert s[..i] == s;
    }
  }

  lemma Reassociate(a: seq<string>, b: seq<string>, c: seq<string>)
    ensures (a + b) + c == a + (b + c)
  {
  }

  function Front(fields: seq<string>): seq<string>
    requires fields != []
  {
    fields[..|fields| - 1]
  }

  function Last(fields: seq<string>): string
    requires fields != []
  {
    fields[|fields| - 1]
  }

  lemma FrontCons(field: string, fields: seq<string>, more: seq<string>)
    requires fields != []
    ensures Last([field] + fields) == Last(fields)
    ensures Front([field] + fields) + more == [field] + (Front(fields) + more)
  {
    assert Front([field] + fields) == [field] + Front(fields);
  }

  /** Splitting a text that arrives in two parts: only the last field of the first part can grow. */
  lemma {:induction false} SplitConcat(a: string, b: string, d: char)
    ensures Split(a + b, d) == Front(Split(a, d)) + Split(Last(Split(a, d)) + b, d)
    decreases |a|
  {
    var i := IndexOf(a, d);
    if i == |a| {
      assert Front(Split(a, d)) == [] && Last(Split(a, d)) == a;
    } else {
      var field, rest := a[..i], a[i + 1..];
      assert a == field + [d] + rest && a + b == field + [d] + (rest + b);
      SplitCons(field, rest, d);
      SplitCons(field, rest + b, d);
      SplitConcat(rest, b, d);
      FrontCons(field, Split(rest, d), Split(Last(Split(rest, d)) + b, d));
    }
  }

  lemma FrontAndLast(fields: seq<string>, more: seq<string>)
    requires fields != []
    ensures Front(fields) + ([Last(fields)] + more) == fields + more
  {
    assert Front(fields) + [Last(fields)] == fields;
  }

  /** Splitting on both sides of a delimiter. */
  lemma SplitAt(a: string, b: string, d: char)
    ensures Split(a + ([d] + b), d) == Split(a, d) + Split(b, d)
  {
    var last := Last(Split(a, d));
    JoinOfSplit(a, d);
    assert last in Split(a, d);
    SplitConcat(a, [d] + b, d);
    assert last + ([d] + b) == last + [d] + b;
    SplitCons(last, b, d);
    FrontAndLast(Split(a, d), Split(b, d));
  }

  /** `t` is what follows the last delimiter of `s`. */
  ghost predicate IsTailOf(t: string, s: string, d: char) {
    && |t| <= |s| && s[|s| - |t|..] == t
    && (|t| < |s| ==> s[|s| - |t| - 1] == d)
  }

  lemma TailOfLonger(t: string, field: string, rest: string, d: char)
    requires IsTailOf(t, rest, d)
    ensures IsTailOf(t, field + [d] + rest, d)
    ensures rest != "" ==> (field + [d] + rest)[|field| + |rest|] == rest[|rest| - 1]
  {
    var s := field + [d] + rest;
    assert s[|s| - |t|..] == rest[|rest| - |t|..];
  }

  /** What follows the last delimiter is the last field: it is empty exactly when the text is
      empty or ends with the delimiter. */
  lemma {:induction false} LastField(s: string, d: char)
    ensures IsTailOf(Last(Split(s, d)), s, d)
    ensures Last(Split(s, d)) == "" <==> s == "" || s[|s| - 1] == d
    decreases |s|
  {
    var i := IndexOf(s, d);
    if i < |s| {
      var field, rest := s[..i], s[i + 1..];
      assert s == field + [d] + rest;
      LastField(rest, d);
      FrontCons(field, Split(rest, d), []);
      TailOfLonger(Last(Split(rest, d)), field, rest, d);
    } else if s != "" {
      assert s[..i] == s && s[|s| - 1] in s;
    }
  }

  // ---------- The iterator ----------

  /** What a `ConstIterator` holds: the text still to be cut, and the current token. Two iterators
      are equal when both agree, and `end()` is the one where both are empty. */
  datatype Cursor = Cursor(data: string, token: string)

  const END := Cursor("", "")

  function Advance(c: Cursor, d: char): Cursor {
    var search := IndexOf(c.data, d);
    if search < |c.data| then Cursor(c.data[search + 1..], c.data[..search])
    else Cursor("", c.data)
  }

  function Begin(source: string, d: char): Cursor {
    Advance(Cursor(source, ""), d)
  }

  /** The tokens a loop sees from `c` up to `end()`. */
  function Emitted(c: Cursor, d: char): seq<string>
    decreases |c.data|, |c.token|
  {
    if c == END then [] else [c.token] + Emitted(Advance(c, d), d)
  }

  function Tokens(source: string, d: char): seq<string> {
    Emitted(Begin(source, d), d)
  }

  class ConstIterator {
    var data: string
    var token: string
    const delimiter: char

    function View(): Cursor
      reads this
    {
      Cursor(data, token)
    }

    constructor (source: string, delimiter: char)
      ensures View() == Begin(source, delimiter) && this.delimiter == delimiter
    {
      this.delimiter := delimiter;
      data, token := source, "";
      new;
      MoveToNext();
    }

    method MoveToNext()
      modifies this
      ensures View() == Advance(old(View()), delimiter)
    {
      var search := IndexOf(data, delimiter);
      if search < |data| {
        token := data[..search];
        data := data[search + 1..];
      } else {
        token := data;
        data := "";
      }
    }

    /** `*it++`: the current token, then on to the next. */
    method Next() returns (current: string)
      requires View() != END
      modifies this
      ensures current == old(token)
      ensures Emitted(old(View()), delimiter) == [current] + Emitted(View(), delimiter)
      ensures |data| < old(|data|) || (|data| == old(|data|) == 0 && |token| < old(|token|))
    {
      EmittedNext(View(), delimiter);
      current := token;
      MoveToNext();
    }
  }

  lemma EmittedNext(c: Cursor, d: char)
    requires c != END
    ensures Emitted(c, d) == [c.token] + Emitted(Advance(c, d), d)
  {
  }

  /** `for (auto& token : tokeniser)`, collecting the tokens. It ends on every source. */
  method Collect(source: string, d: char) returns (tokens: seq<string>)
    ensures tokens == Tokens(source, d)
  {
    var it := new ConstIterator(source, d);
    tokens := [];
    while it.View() != END
      invariant it.delimiter == d
      invariant tokens + Emitted(it.View(), d) == Tokens(source, d)
      decreases |it.data|, |it.token|
    {
      ghost var before, left := tokens, Emitted(it.View(), d);
      var token := it.Next();
      Reassociate(before, [token], Emitted(it.View(), d));
      tokens := tokens + [token];
    }
  }

  // ---------- What the iterator loses ----------

  /** How many trailing fields iteration drops, read off the end of the source. */
  function Dropped(s: string, d: char): nat {
    if s == "" then 1
    else if s[|s| - 1] != d then 0
    else if |s| == 1 || s[|s| - 2] == d then 2
    else 1
  }

  lemma DroppedOfRest(s: string, d: char, i: nat)
    requires i < |s| - 1 && s[i] == d
    ensures Dropped(s, d) == Dropped(s[i + 1..], d)
  {
    var rest := s[i + 1..];
    assert rest[|rest| - 1] == s[|s| - 1];
    if |rest| > 1 {
      assert rest[|rest| - 2] == s[|s| - 2];
    }
  }

  lemma EmittedLast(token: string, d: char)
    ensures Emitted(Cursor("", token), d) == if token == "" then [] else [token]
  {
    assert Advance(Cursor("", token), d) == END;
  }

  lemma TokensThen(s: string, d: char, i: nat)
    requires i == IndexOf(s, d) < |s| - 1
    ensures Tokens(s, d) == [s[..i]] + Tokens(s[i + 1..], d)
  {
    var c := Cursor(s[i + 1..], s[..i]);
    assert Begin(s, d) == c && c.data != "";
    assert Advance(c, d) == Begin(s[i + 1..], d);
    EmittedNext(c, d);
  }

  lemma SplitThen(s: string, d: char, i: nat)
    requires i == IndexOf(s, d) < |s|
    ensures Split(s, d) == [s[..i]] + Split(s[i + 1..], d)
  {
  }

  /** One step of iteration is one step of splitting, while text remains. */
  lemma TokensStep(s: string, d: char)
    requires IndexOf(s, d) < |s| - 1
    ensures var i := IndexOf(s, d);
      && Tokens(s, d) == [s[..i]] + Tokens(s[i + 1..], d)
      && Split(s, d) == [s[..i]] + Split(s[i + 1..], d)
      && Dropped(s, d) == Dropped(s[i + 1..], d)
  {
    var i := IndexOf(s, d);
    TokensThen(s, d, i);
    SplitThen(s, d, i);
    DroppedOfRest(s, d, i);
  }

  /** Iteration where the only delimiter, if any, is the last character. */
  lemma TokensLast(s: string, d: char)
    requires IndexOf(s, d) >= |s| - 1
    ensures var i := IndexOf(s, d);
      && Tokens(s, d) == (if s[..i] == "" then [] else [s[..i]])
      && Split(s, d) == (if i == |s| then [s] else [s[..i], ""])
      && Dropped(s, d) == (if i == |s| then (if s == "" then 1 else 0) else if i == 0 then 2 else 1)
  {
    var i := IndexOf(s, d);
    EmittedLast(s[..i], d);
    DroppedLast(s, d);
    if i < |s| {
      assert s[i + 1..] == "";
    } else {
      assert s[..i] == s;
    }
  }

  lemma DroppedLast(s: string, d: char)
    requires IndexOf(s, d) >= |s| - 1
    ensures var i := IndexOf(s, d);
      Dropped(s, d) == (if i == |s| then (if s == "" then 1 else 0) else if i == 0 then 2 else 1)
  {
    var i := IndexOf(s, d);
    if i < |s| {
      assert i > 0 ==> s[|s| - 2] == s[..i][i - 1] && s[..i][i - 1] in s[..i];
    } else if s != "" {
      assert s[|s| - 1] in s[..i];
    }
  }

  ghost predicate DropsTrailing(tokens: seq<string>, fields: seq<string>, n: nat) {
    && n <= |fields|
    && tokens == fields[..|fields| - n]
    && forall k :: |fields| - n <= k < |fields| ==> fields[k] == ""
  }

  lemma DropsTrailingCons(field: string, tokens: seq<string>, fields: seq<string>, n: nat)
    requires DropsTrailing(tokens, fields, n)
    ensures DropsTrailing([field] + tokens, [field] + fields, n)
  {
    var all := [field] + fields;
    assert all[..|all| - n] == [field] + tokens;
    forall k | |all| - n <= k < |all| ensures all[k] == "" { assert all[k] == fields[k - 1]; }
  }

  /** Iteration yields the full split with exactly `Dropped` trailing fields missing, all empty. */
  lemma {:induction false} TokensExact(s: string, d: char)
    ensures DropsTrailing(Tokens(s, d), Split(s, d), Dropped(s, d))
    decreases |s|
  {
    var i := IndexOf(s, d);
    if i < |s| - 1 {
      TokensStep(s, d);
      TokensExact(s[i + 1..], d);
      DropsTrailingCons(s[..i], Tokens(s[i + 1..], d), Split(s[i + 1..], d), Dropped(s[i + 1..], d));
    } else {
      TokensLast(s, d);
      assert s[..|s|] == s;
    }
  }

  /** Joining the tokens rebuilds the source up to at most two trailing delimiters. */
  lemma TokensRebuild(s: string, d: char)
    ensures var missing := if Tokens(s, d) == [] then |s| else Dropped(s, d);
      missing <= 2 && s == Join(Tokens(s, d), d) + seq(missing, i => d)
  {
    TokensExact(s, d);
    JoinOfSplit(s, d);
    var f := Split(s, d);
    var n := |f| - Dropped(s, d);
    if n > 0 {
      JoinDropsEmpty(f, n, d);
    } else {
      NothingEmitted(s, d);
    }
  }

  /** Only the empty text and a lone delimiter emit nothing. */
  lemma NothingEmitted(s: string, d: char)
    requires |Split(s, d)| <= Dropped(s, d)
    ensures s == seq(|s|, i => d) && |s| <= 1
  {
    if IndexOf(s, d) < |s| - 1 {
      DroppedOfRest(s, d, IndexOf(s, d));
      TokensExact(s[IndexOf(s, d) + 1..], d);
    } else {
      TokensLast(s, d);
    }
  }

  lemma {:induction false} JoinDropsEmpty(f: seq<string>, n: nat, d: char)
    requires 1 <= n <= |f| && forall k :: n <= k < |f| ==> f[k] == ""
    ensures Join(f, d) == Join(f[..n], d) + seq(|f| - n, i => d)
    decreases |f|
  {
    if n == |f| {
      assert f[..n] == f;
    } else {
      var g := f[..|f| - 1];
      assert g[..n] == f[..n];
      JoinDropsEmpty(g, n, d);
      assert f == g + [""];
      JoinAppend(g, "", d);
      assert seq(|f| - n, i => d) == seq(|g| - n, i => d) + [d];
    }
  }

  lemma {:induction false} JoinAppend(f: seq<string>, last: string, d: char)
    requires f != []
    ensures Join(f + [last], d) == Join(f, d) + [d] + last
  {
    if |f| > 1 {
      assert (f + [last])[1..] == f[1..] + [last];
      JoinAppend(f[1..], last, d);
    } else {
      assert (f + [last])[1..] == [last];
    }
  }

  /** A source whose last field is not empty loses nothing. */
  lemma TokensAreSplit(s: string, d: char)
    ensures Tokens(s, d) == Split(s, d) <==> s != "" && s[|s| - 1] != d
  {
    TokensExact(s, d);
  }
}

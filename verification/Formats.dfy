/** The interpreter of the format language (`idle-parser.c`). */
module Formats {
  import opened Seqs
  import opened Wrappers
  import opened Handles
  import opened Parser

  // ---- The interpreter ----

  /** A slot of the token array: a C string, or the NULL that ends it. */
  datatype Cell = Null | Ptr(s: string)

  /** Two slots for each token, then one NULL. */
  function TokenArray(toks: seq<Token>): (cells: seq<Cell>)
    ensures |cells| == 2 * |toks| + 1
  {
    seq(2 * |toks| + 1, i requires 0 <= i < 2 * |toks| + 1 =>
      if i == 2 * |toks| then Null else if i % 2 == 0 then Ptr(toks[i / 2].text) else Ptr(toks[i / 2].rest))
  }

  /** The repeat of one atom over all the remaining tokens. */
  method ParseRepeat(repos: Repos, atom: char, tokens: seq<Cell>, start: nat, ghost toks: seq<Token>)
    returns (success: bool, args: seq<Value>, iter: nat)
    requires tokens == TokenArray(toks) && start <= 2 * |toks| && start % 2 == 0
    ensures success ==> RepeatAtom(repos, atom, toks[start / 2..]) == Some(args)
    ensures !success ==> RepeatAtom(repos, atom, toks[start / 2..]) == None
    ensures iter % 2 == 0
  {
    hide ParseAtom, Prepend;
    success, args, iter := true, [], start;
    PrependTwice([], [], RepeatAtom(repos, atom, toks[start / 2..]));
    while tokens[iter] != Null
      invariant iter <= 2 * |toks| && iter % 2 == 0
      invariant RepeatAtom(repos, atom, toks[start / 2..]) == Prepend(args, RepeatAtom(repos, atom, toks[iter / 2..]))
      decreases 2 * |toks| - iter
    {
      ghost var later := toks[iter / 2..];
      assert later[0] == toks[iter / 2] && later[1..] == toks[(iter + 2) / 2..];
      var v := ParseAtom(repos, atom, tokens[iter].s);
      if v.None? {
        PrependNone(args);
        success := false;
        return;
      }
      PrependTwice(args, v.value, RepeatAtom(repos, atom, later[1..]));
      args := args + v.value;
      iter := iter + 2;
    }
    assert toks[iter / 2..] == [];
    PrependTwice(args, [], Some([]));
  }

  lemma PrependNone(a: seq<Value>)
    ensures Prepend(a, None) == None
  {
  }

  /** Behind a repeat there is one atom, behind a trailing parameter nothing. */
  lemma {:induction false} GoodAt(format: string, f: nat)
    requires GoodFormat(format) && f < |format|
    ensures format[f] == 'v' ==> f == |format| - 2 && IsAtom(format[f + 1])
    ensures format[f] == ':' || format[f] == '.' ==> f == |format| - 1
  {
    if f > 0 {
      if format[0] == 'v' {
        assert format[1..][0] == format[f];
      } else {
        GoodAt(format[1..], f - 1);
      }
    } else if format[0] == 'v' {
      assert format[1..][0] == format[1];
    }
  }

  /** One turn of the interpreter's loop. */
  lemma InterpretStep(repos: Repos, format: string, toks: seq<Token>, f: nat, k: nat)
    requires GoodFormat(format) && f < |format| && k < |toks|
    ensures format[f] == 'v' ==>
      f == |format| - 2 &&
      Interpret(repos, format[f..], toks[k..]) == RepeatAtom(repos, format[f + 1], toks[k..])
    ensures format[f] == ':' || format[f] == '.' ==>
      var t := Trailing(toks[k], k == |toks| - 1);
      f == |format| - 1 &&
      Interpret(repos, format[f..], toks[k..])
        == if t.Some? then Some([Text(t.value)]) else if format[f] == '.' then Some([]) else None
    ensures format[f] != 'v' && format[f] != ':' && format[f] != '.' ==>
      var v := ParseAtom(repos, format[f], toks[k].text);
      Interpret(repos, format[f..], toks[k..])
        == if v.None? then None else Prepend(v.value, Interpret(repos, format[f + 1..], toks[k + 1..]))
  {
    hide ParseAtom, RepeatAtom, Trailing;
    GoodAt(format, f);
    assert format[f..][1..] == format[f + 1..] && toks[k..][1..] == toks[k + 1..];
  }

  /** What the loop has still to do, from format position `f` and slot `iter`. */
  ghost function ToDo(repos: Repos, format: string, toks: seq<Token>, f: nat, iter: nat): Option<seq<Value>>
  {
    if f >= |format| then Some([])
    else if iter > 2 * |toks| then None
    else Interpret(repos, format[f..], toks[iter / 2..])
  }

  /**
   * `_parse_and_forward_one`.  Every slot it looks at lies inside the token array: the
   * index is behind the NULL only after a repeat, when the format has ended.
   */
  method ParseAndForwardOne(repos: Repos, tokens: seq<Cell>, format: string, ghost toks: seq<Token>)
    returns (forwarded: Option<seq<Value>>)
    requires tokens == TokenArray(toks) && RealTokens(toks) && toks != [] && GoodFormat(format)
    ensures forwarded == Interpret(repos, format, toks)
  {
    hide ParseAtom, RepeatAtom, Trailing, GoodFormat, Interpret;
    var f: nat, iter: nat := 0, 0;
    var success := true;
    var args: seq<Value> := [];
    ghost var whole := Interpret(repos, format, toks);
    assert format[0..] == format && toks[0..] == toks;
    PrependTwice([], [], whole);
    Ends(repos, format, toks, 0, 0);
    while f < |format| && success && tokens[iter] != Null
      invariant f <= |format| && iter % 2 == 0
      invariant success && f < |format| ==> iter <= 2 * |toks|
      invariant success ==> whole == Prepend(args, ToDo(repos, format, toks, f, iter))
      invariant !success ==> whole == None && CharAt(format, f) != '.'
      decreases |format| - f
    {
      ghost var k := iter / 2;
      PrependNone(args);
      InterpretStep(repos, format, toks, f, k);
      if format[f] == 'v' {
        f := f + 1;
        var more;
        success, more, iter := ParseRepeat(repos, format[f], tokens, iter, toks);
        args := args + more;
        PrependTwice(args, [], Some([]));
      } else if format[f] == ':' || format[f] == '.' {
        var last := tokens[iter + 2] == Null;
        assert toks[k] == Token(tokens[iter].s, tokens[iter + 1].s);
        PrependTwice(args, [], Some([]));
        var trailing := Trailing(Token(tokens[iter].s, tokens[iter + 1].s), last);
        if trailing.None? {
          success := false;
          break;
        }
        args := args + [Text(trailing.value)];
        PrependTwice(args, [], Some([]));
      } else {
        var v := ParseAtom(repos, format[f], tokens[iter].s);
        if v.None? {
          success := false;
          break;
        }
        PrependTwice(args, v.value, Interpret(repos, format[f + 1..], toks[k + 1..]));
        args := args + v.value;
        Ends(repos, format, toks, f + 1, k + 1);
      }
      f := f + 1;
      iter := iter + 2;
    }
    if !success && CharAt(format, f) != '.' {
      return None;
    }
    PrependTwice(args, [], Some([]));
    if success && f < |format| {
      Ends(repos, format, toks, f, iter / 2);
    }
    if f < |format| && format[f] != '.' {
      return None;
    }
    return Some(args);
  }

  /** The format or the tokens have come to their end. */
  lemma Ends(repos: Repos, format: string, toks: seq<Token>, f: nat, k: nat)
    requires f <= |format| && k <= |toks|
    ensures f == |format| ==> Interpret(repos, format[f..], toks[k..]) == Some([])
    ensures f < |format| && k == |toks| ==>
              Interpret(repos, format[f..], toks[k..]) == if format[f] == '.' then Some([]) else None
  {
    hide ParseAtom, RepeatAtom, Trailing;
  }

  lemma PrependTwice(a: seq<Value>, b: seq<Value>, rest: Option<seq<Value>>)
    ensures Prepend(a, Prepend(b, rest)) == Prepend(a + b, rest)
    ensures Prepend(a, Some([])) == Some(a)
    ensures Prepend([], rest) == rest
  {
    assert a + [] == a;
    if rest.Some? {
      Assoc(a, b, rest.value);
      assert [] + rest.value == rest.value;
    }
  }
}

/** Iteration over a D-Bus signature (`tools/libtpcodegen.py`). */
module Signatures {
  import opened Seqs
  import opened Wrappers

  // ---- D-Bus single complete types, from the section "Type System" of the D-Bus Specification ----

  datatype Type =
    | Basic(code: char)
    | Array(elem: Type)
    | Struct(fields: seq<Type>)
    | Dict(key: char, value: Type)

  predicate IsBasic(c: char) {
    c in "ybnqiuxtdsogvh"
  }

  predicate WellFormed(t: Type) {
    match t
    case Basic(c) => IsBasic(c)
    case Array(e) => WellFormed(e)
    case Struct(fs) => fs != [] && forall i :: 0 <= i < |fs| ==> WellFormed(fs[i])
    case Dict(k, v) => IsBasic(k) && WellFormed(v)
  }

  predicate AllWellFormed(ts: seq<Type>) {
    forall i :: 0 <= i < |ts| ==> WellFormed(ts[i])
  }

  function Encode(t: Type): (s: string)
    ensures s != ""
    decreases t, 1
  {
    match t
    case Basic(c) => [c]
    case Array(e) => "a" + Encode(e)
    case Struct(fs) => "(" + EncodeAll(fs) + ")"
    case Dict(k, v) => "a{" + [k] + Encode(v) + "}"
  }

  function EncodeAll(ts: seq<Type>): string
    decreases ts, 0
  {
    if ts == [] then "" else Encode(ts[0]) + EncodeAll(ts[1..])
  }

  // ---- The scan ----

  /** The bracket that opened the block, and how many of its kind are open. */
  datatype Scan = Scan(depth: int, kind: Option<char>)

  /** What one character does: the scan goes on, or the type ends here. */
  function Look(c: char, s: Scan): Option<Scan> {
    if c == 'a' then Some(s)
    else if c == '{' || c == '(' then
      var kind := if s.kind == None then Some(c) else s.kind;
      Some(Scan(if kind == Some(c) then s.depth + 1 else s.depth, kind))
    else if c == '}' || c == ')' then
      var open := if c == '}' then '{' else '(';
      var depth := if s.kind == Some(open) then s.depth - 1 else s.depth;
      if depth == 0 then None else Some(Scan(depth, s.kind))
    else if s.depth == 0 then None
    else Some(s)
  }

  /** How many characters the scan passes before the last one of the type. */
  function Passed(sig: string, s: Scan): (n: nat)
    ensures n <= |sig|
  {
    if sig == "" then 0
    else match Look(sig[0], s)
      case None => 0
      case Some(t) => 1 + Passed(sig[1..], t)
  }

  const START := Scan(0, None)

  /** Length of the type a signature starts with, as the iterator takes it. */
  function FirstLen(sig: string): (n: nat)
    ensures n <= |sig| && (sig != "" ==> n > 0)
  {
    if Passed(sig, START) == |sig| then |sig| else Passed(sig, START) + 1
  }

  /** `_SignatureIter`. */
  class SignatureIter {
    var remaining: string

    constructor (s: string)
      ensures remaining == s
    {
      remaining := s;
    }

    /** `None` is the end of the iteration. */
    method Next() returns (r: Option<string>)
      modifies this
      ensures r == None <==> old(remaining) == ""
      ensures r.Some? ==> r.value == old(remaining)[..FirstLen(old(remaining))]
      ensures r.Some? ==> remaining == old(remaining)[FirstLen(old(remaining))..]
      ensures r.None? ==> remaining == ""
    {
      if remaining == "" {
        return None;
      }
      var signature := remaining;
      var blockDepth := 0;
      var blockType: Option<char> := None;
      var end := |signature|;
      var marker := 0;
      assert signature[0..] == signature;
      while marker < |signature|
        invariant 0 <= marker <= |signature| && end == |signature|
        invariant marker + Passed(signature[marker..], Scan(blockDepth, blockType)) == Passed(signature, START)
      {
        var cur := signature[marker];
        ghost var before := Scan(blockDepth, blockType);
        if cur == 'a' {
        } else if cur == '{' || cur == '(' {
          if blockType == None {
            blockType := Some(cur);
          }
          if blockType == Some(cur) {
            blockDepth := blockDepth + 1;
          }
        } else if cur == '}' {
          if blockType == Some('{') {
            blockDepth := blockDepth - 1;
          }
          if blockDepth == 0 {
            end := marker;
            break;
          }
        } else if cur == ')' {
          if blockType == Some('(') {
            blockDepth := blockDepth - 1;
          }
          if blockDepth == 0 {
            end := marker;
            break;
          }
        } else {
          if blockDepth == 0 {
            end := marker;
            break;
          }
        }
        assert Look(cur, before) == Some(Scan(blockDepth, blockType));
        marker := marker + 1;
      }
      assert signature[|signature|..] == "";
      end := end + 1;
      if end > |signature| {
        end := |signature|;
      }
      remaining := signature[end..];
      r := Some(signature[..end]);
    }
  }

  // ---- Why counting one kind of bracket is enough ----

  predicate InBlock(s: Scan) {
    s.depth > 0 && (s.kind == Some('(') || s.kind == Some('{'))
  }

  lemma PassedStep(sig: string, s: Scan)
    requires sig != "" && Look(sig[0], s).Some?
    ensures Passed(sig, s) == 1 + Passed(sig[1..], Look(sig[0], s).value)
  {
  }

  lemma PassedStop(sig: string, s: Scan)
    requires sig != "" && Look(sig[0], s).None?
    ensures Passed(sig, s) == 0
  {
  }

  lemma BasicLook(c: char, s: Scan)
    requires IsBasic(c)
    ensures Look(c, s) == if s.depth == 0 then None else Some(s)
  {
  }

  /** The scan behind an opening bracket. */
  function Opened(open: char, s: Scan): Scan {
    var kind := if s.kind == None then Some(open) else s.kind;
    Scan(if kind == Some(open) then s.depth + 1 else s.depth, kind)
  }

  lemma BracketLook(open: char, close: char, s: Scan)
    requires (open == '(' && close == ')') || (open == '{' && close == '}')
    ensures Look(open, s) == Some(Opened(open, s))
    ensures InBlock(s) ==> InBlock(Opened(open, s)) && Look(close, Opened(open, s)) == Some(s)
    ensures s == START ==> InBlock(Opened(open, s)) && Look(close, Opened(open, s)) == None
  {
  }

  lemma BlockParts(open: char, close: char, inner: string, rest: string)
    ensures ([open] + inner + [close] + rest)[0] == open
    ensures ([open] + inner + [close] + rest)[1..] == inner + ([close] + rest)
    ensures ([close] + rest)[0] == close && ([close] + rest)[1..] == rest
  {
  }

  lemma NotInBlock()
    ensures !InBlock(START)
  {
  }

  /** A block whose content passes, inside another block and at the top. */
  lemma BlockPasses(open: char, close: char, inner: string, rest: string, s: Scan)
    requires (open == '(' && close == ')') || (open == '{' && close == '}')
    requires InBlock(s) || s == START
    requires Passed(inner + ([close] + rest), Opened(open, s))
          == |inner| + Passed([close] + rest, Opened(open, s))
    ensures InBlock(s) ==> Passed([open] + inner + [close] + rest, s) == |inner| + 2 + Passed(rest, s)
    ensures s == START ==> Passed([open] + inner + [close] + rest, s) == |inner| + 1
  {
    hide Look, Opened, Passed, InBlock;
    BracketLook(open, close, s);
    BlockParts(open, close, inner, rest);
    PassedStep([open] + inner + [close] + rest, s);
    if InBlock(s) {
      PassedStep([close] + rest, Opened(open, s));
    } else {
      PassedStop([close] + rest, Opened(open, s));
    }
    assert InBlock(s) ==> s != START by { NotInBlock(); }
  }

  /** The content of a dictionary entry. */
  function Entry(k: char, v: Type): string {
    [k] + Encode(v)
  }

  lemma EncodeBlocks(t: Type, rest: string)
    ensures t.Struct? ==> Encode(t) + rest == ['('] + EncodeAll(t.fields) + [')'] + rest
    ensures t.Struct? ==> |Encode(t)| == |EncodeAll(t.fields)| + 2
    ensures t.Dict? ==> (Encode(t) + rest)[0] == 'a'
    ensures t.Dict? ==> (Encode(t) + rest)[1..] == ['{'] + Entry(t.key, t.value) + ['}'] + rest
    ensures t.Dict? ==> |Encode(t)| == |Entry(t.key, t.value)| + 3
  {
  }

  /** Inside a block a whole type goes by without changing the count. */
  lemma {:induction false} TypePasses(t: Type, rest: string, s: Scan)
    requires WellFormed(t) && InBlock(s)
    ensures Passed(Encode(t) + rest, s) == |Encode(t)| + Passed(rest, s)
    decreases t, 1
  {
    hide Look, Passed, IsBasic;
    var e := Encode(t) + rest;
    match t
    case Basic(c) =>
      BasicLook(c, s);
      PassedStep(e, s);
      assert e[1..] == rest;
    case Array(elem) =>
      ArrayLook(s);
      PassedStep(e, s);
      assert e[1..] == Encode(elem) + rest;
      TypePasses(elem, rest, s);
    case Struct(fs) =>
      EncodeBlocks(t, rest);
      BracketLook('(', ')', s);
      TypesPass(fs, [')'] + rest, Opened('(', s));
      BlockPasses('(', ')', EncodeAll(fs), rest, s);
    case Dict(k, v) =>
      EncodeBlocks(t, rest);
      ArrayLook(s);
      PassedStep(e, s);
      BracketLook('{', '}', s);
      TypePasses(v, ['}'] + rest, Opened('{', s));
      EntryPasses(k, v, ['}'] + rest, Opened('{', s));
      BlockPasses('{', '}', Entry(k, v), rest, s);
  }

  lemma ArrayLook(s: Scan)
    ensures Look('a', s) == Some(s)
  {
  }

  lemma EntryPasses(k: char, v: Type, rest: string, s: Scan)
    requires IsBasic(k) && InBlock(s)
    requires Passed(Encode(v) + rest, s) == |Encode(v)| + Passed(rest, s)
    ensures Passed(Entry(k, v) + rest, s) == |Entry(k, v)| + Passed(rest, s)
  {
    hide Look, Passed, IsBasic, Encode;
    BasicLook(k, s);
    PassedStep(Entry(k, v) + rest, s);
    assert (Entry(k, v) + rest)[1..] == Encode(v) + rest;
  }

  lemma {:induction false} TypesPass(ts: seq<Type>, rest: string, s: Scan)
    requires AllWellFormed(ts) && InBlock(s)
    ensures Passed(EncodeAll(ts) + rest, s) == |EncodeAll(ts)| + Passed(rest, s)
    decreases ts, 0
  {
    hide Look, Passed, WellFormed;
    if ts == [] {
      assert EncodeAll(ts) + rest == rest;
    } else {
      Assoc(Encode(ts[0]), EncodeAll(ts[1..]), rest);
      TypePasses(ts[0], EncodeAll(ts[1..]) + rest, s);
      TypesPass(ts[1..], rest, s);
    }
  }

  /** At the top the scan stops at the last character of the first type. */
  lemma {:induction false} TypeEnds(t: Type, rest: string)
    requires WellFormed(t)
    ensures Passed(Encode(t) + rest, START) == |Encode(t)| - 1
    decreases t
  {
    hide Look, IsBasic;
    var e := Encode(t) + rest;
    match t
    case Basic(c) =>
      BasicLook(c, START);
    case Array(elem) =>
      ArrayLook(START);
      assert e[1..] == Encode(elem) + rest;
      TypeEnds(elem, rest);
    case Struct(fs) =>
      EncodeBlocks(t, rest);
      BracketLook('(', ')', START);
      TypesPass(fs, [')'] + rest, Opened('(', START));
      BlockPasses('(', ')', EncodeAll(fs), rest, START);
    case Dict(k, v) =>
      EncodeBlocks(t, rest);
      ArrayLook(START);
      BracketLook('{', '}', START);
      TypePasses(v, ['}'] + rest, Opened('{', START));
      EntryPasses(k, v, ['}'] + rest, Opened('{', START));
      BlockPasses('{', '}', Entry(k, v), rest, START);
  }

  /** The iterator's whole run over a signature. */
  function Iterate(sig: string): seq<string>
    decreases |sig|
  {
    if sig == "" then [] else [sig[..FirstLen(sig)]] + Iterate(sig[FirstLen(sig)..])
  }

  /** Iterating over the signature of a list of types gives the signature of each type,
      in order, although only one kind of bracket is counted. */
  lemma {:induction false} IterateGivesTypes(ts: seq<Type>)
    requires AllWellFormed(ts)
    ensures Iterate(EncodeAll(ts)) == seq(|ts|, i requires 0 <= i < |ts| => Encode(ts[i]))
  {
    hide Look, WellFormed, Encode;
    if ts != [] {
      var first, rest := Encode(ts[0]), EncodeAll(ts[1..]);
      TypeEnds(ts[0], rest);
      IterateGivesTypes(ts[1..]);
      var sig := first + rest;
      assert FirstLen(sig) == |first|;
      assert sig[..|first|] == first && sig[|first|..] == rest;
    }
  }
}

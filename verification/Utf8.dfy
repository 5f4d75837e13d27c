/**
 * UTF-8 as section 4 of RFC 3629 defines it, and the GLib helpers built on it.
 *
 * A `string` in this project stands for a C string: each `char` is one byte, so
 * its code is below 256.  A NUL byte never belongs to a valid text.
 */
module Utf8 {
  predicate In(c: char, lo: int, hi: int) {
    lo <= c as int <= hi
  }

  /** A continuation byte, 10xxxxxx. */
  predicate IsTail(c: char) {
    In(c, 0x80, 0xBF)
  }

  /** Length of the well-formed character `s` starts with; 0 if there is none. */
  function CharLen(s: string): (n: nat)
    ensures n <= |s| && n <= 4
    ensures forall i :: 0 < i < n ==> IsTail(s[i])
    ensures n > 0 ==> !IsTail(s[0])
  {
    if |s| >= 1 && In(s[0], 0x01, 0x7F) then 1
    else if |s| >= 2 && In(s[0], 0xC2, 0xDF) && IsTail(s[1]) then 2
    else if |s| >= 3 && IsTail(s[2]) &&
            ((In(s[0], 0xE0, 0xE0) && In(s[1], 0xA0, 0xBF)) ||
             (In(s[0], 0xE1, 0xEC) && IsTail(s[1])) ||
             (In(s[0], 0xED, 0xED) && In(s[1], 0x80, 0x9F)) ||
             (In(s[0], 0xEE, 0xEF) && IsTail(s[1]))) then 3
    else if |s| >= 4 && IsTail(s[2]) && IsTail(s[3]) &&
            ((In(s[0], 0xF0, 0xF0) && In(s[1], 0x90, 0xBF)) ||
             (In(s[0], 0xF1, 0xF3) && IsTail(s[1])) ||
             (In(s[0], 0xF4, 0xF4) && In(s[1], 0x80, 0x8F))) then 4
    else 0
  }

  predicate Valid(s: string) {
    s == [] || (CharLen(s) > 0 && Valid(s[CharLen(s)..]))
  }

  /** Where `g_utf8_validate` stops: the end of the last character read. */
  function ValidPrefix(s: string): (n: nat)
    ensures n <= |s|
  {
    if CharLen(s) == 0 then 0 else CharLen(s) + ValidPrefix(s[CharLen(s)..])
  }

  /** The first character is found whatever follows it. */
  lemma CharLenPrefix(s: string, k: nat)
    requires 0 < CharLen(s) <= k <= |s|
    ensures CharLen(s[..k]) == CharLen(s)
  {
  }

  lemma CharLenExtend(a: string, b: string)
    requires CharLen(a) > 0
    ensures CharLen(a + b) == CharLen(a)
  {
  }

  /** Valid texts are closed under concatenation. */
  lemma {:induction false} ValidConcat(a: string, b: string)
    requires Valid(a) && Valid(b)
    ensures Valid(a + b)
  {
    hide CharLen;
    if a == [] {
      assert a + b == b;
    } else {
      CharLenExtend(a, b);
      ValidConcat(a[CharLen(a)..], b);
      assert (a + b)[CharLen(a)..] == a[CharLen(a)..] + b;
    }
  }

  /** A valid text may be cut wherever no continuation byte follows. */
  lemma {:induction false} ValidCut(s: string, k: nat)
    requires Valid(s) && k <= |s|
    requires k == |s| || !IsTail(s[k])
    ensures Valid(s[..k]) && Valid(s[k..])
  {
    hide CharLen;
    if k > 0 {
      var n := CharLen(s);
      assert n <= k;
      CharLenPrefix(s, k);
      ValidCut(s[n..], k - n);
      assert s[..k][n..] == s[n..][..k - n];
      assert s[k..] == s[n..][k - n..];
    } else {
      assert s[k..] == s;
    }
  }

  /** At most three continuation bytes stand in a row. */
  lemma {:induction false} CharStartNear(s: string, p: nat) returns (q: nat)
    requires Valid(s) && p < |s|
    ensures q <= p <= q + 3 && !IsTail(s[q])
  {
    var n := CharLen(s);
    if p < n {
      q := 0;
    } else {
      var r := CharStartNear(s[n..], p - n);
      q := n + r;
    }
  }

  /** `g_utf8_find_prev_char (s, s + p)`: the last character start strictly
      before `p`, or -1 for NULL. */
  function FindPrevChar(s: string, p: nat): (q: int)
    requires p <= |s|
    ensures -1 <= q < p
    ensures q >= 0 ==> !IsTail(s[q])
    ensures forall i :: q < i < p ==> IsTail(s[i])
  {
    if p == 0 then -1
    else if !IsTail(s[p - 1]) then p - 1
    else FindPrevChar(s, p - 1)
  }

  /** `ValidPrefix` is the longest valid prefix. */
  lemma {:induction false} ValidPrefixIsLongest(s: string)
    ensures Valid(s[..ValidPrefix(s)])
    ensures forall k :: ValidPrefix(s) < k <= |s| ==> !Valid(s[..k])
    ensures Valid(s) <==> ValidPrefix(s) == |s|
  {
    hide CharLen;
    var n := CharLen(s);
    if n == 0 {
      forall k | 0 < k <= |s| ensures !Valid(s[..k]) {
        assert s[..k] + s[k..] == s;
        if CharLen(s[..k]) > 0 {
          CharLenExtend(s[..k], s[k..]);
        }
      }
    } else {
      ValidPrefixIsLongest(s[n..]);
      var v := ValidPrefix(s);
      CharLenPrefix(s, v);
      assert s[..v][n..] == s[n..][..v - n];
      forall k | v < k <= |s| ensures !Valid(s[..k]) {
        CharLenPrefix(s, k);
        assert s[..k][n..] == s[n..][..k - n];
      }
    }
  }
}

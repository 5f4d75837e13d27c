/** The reversible encoding of names as identifiers (`tools/libtpcodegen.py`). */
module Identifiers {
  import opened Seqs

  predicate IsLetter(c: char) {
    'a' <= c <= 'z' || 'A' <= c <= 'Z'
  }

  predicate IsAlnum(c: char) {
    IsLetter(c) || '0' <= c <= '9'
  }

  function HexDigit(d: nat): (c: char)
    requires d < 16
    ensures IsAlnum(c)
  {
    if d < 10 then ('0' as int + d) as char else ('a' as int + d - 10) as char
  }

  function Hex(n: nat): (h: string)
    ensures h != "" && forall i :: 0 <= i < |h| ==> IsAlnum(h[i])
  {
    if n < 16 then [HexDigit(n)] else Hex(n / 16) + [HexDigit(n % 16)]
  }

  /** `'_%02x' % ord(c)`. */
  function Escaped(c: char): string {
    "_" + (if c as int < 16 then "0" else "") + Hex(c as int)
  }

  function EscapeRest(s: string): string {
    if s == "" then "" else (if IsAlnum(s[0]) then [s[0]] else Escaped(s[0])) + EscapeRest(s[1..])
  }

  function EscapeFirst(c: char): string {
    if IsLetter(c) then [c] else Escaped(c)
  }

  /** The encoding its documentation describes. */
  function Encode(identifier: string): string {
    if identifier == "" then "_" else EscapeFirst(identifier[0]) + EscapeRest(identifier[1..])
  }

  /** `str.strip` of letters and digits. */
  function LStrip(s: string): (r: string)
    ensures |r| <= |s| && (r != "" ==> !IsAlnum(r[0]))
    ensures r == "" <==> forall i :: 0 <= i < |s| ==> IsAlnum(s[i])
  {
    if s != "" && IsAlnum(s[0]) then LStrip(s[1..]) else s
  }

  function RStrip(s: string): (r: string)
    ensures |r| <= |s| && r <= s
    ensures r == "" <==> forall i :: 0 <= i < |s| ==> IsAlnum(s[i])
  {
    if s != "" && IsAlnum(s[|s| - 1]) then RStrip(s[..|s| - 1]) else s
  }

  /** `escape_as_identifier`, with its fast path for names that need no escape. */
  method EscapeAsIdentifier(identifier: string) returns (ret: string)
    ensures ret == Encode(identifier)
  {
    if identifier == "" {
      return "_";
    }
    if RStrip(LStrip(identifier)) == "" && IsLetter(identifier[0]) {
      FastPath(identifier);
      return identifier;
    }
    if !IsLetter(identifier[0]) {
      ret := Escaped(identifier[0]);
    } else {
      ret := [identifier[0]];
    }
    for i := 1 to |identifier|
      invariant ret + EscapeRest(identifier[i..]) == Encode(identifier)
    {
      Assoc(ret, if IsAlnum(identifier[i]) then [identifier[i]] else Escaped(identifier[i]),
            EscapeRest(identifier[i + 1..]));
      if IsAlnum(identifier[i]) {
        ret := ret + [identifier[i]];
      } else {
        ret := ret + Escaped(identifier[i]);
      }
      assert identifier[i..][1..] == identifier[i + 1..];
    }
  }

  /** The fast path gives what the slow one would. */
  lemma FastPath(identifier: string)
    requires identifier != "" && RStrip(LStrip(identifier)) == "" && IsLetter(identifier[0])
    ensures Encode(identifier) == identifier
  {
    var stripped := LStrip(identifier);
    assert stripped == "";
    RestUnchanged(identifier[1..]);
  }

  lemma {:induction false} RestUnchanged(s: string)
    requires forall i :: 0 <= i < |s| ==> IsAlnum(s[i])
    ensures EscapeRest(s) == s
  {
    if s != "" {
      RestUnchanged(s[1..]);
    }
  }

  // ---- What an encoded name looks like ----

  predicate IsIdentifier(s: string) {
    && s != "" && (IsLetter(s[0]) || s[0] == '_')
    && forall i :: 0 <= i < |s| ==> IsAlnum(s[i]) || s[i] == '_'
  }

  lemma {:induction false} EncodedIsIdentifier(identifier: string)
    ensures IsIdentifier(Encode(identifier))
  {
    if identifier != "" {
      RestIsWordy(identifier[1..]);
    }
  }

  lemma {:induction false} RestIsWordy(s: string)
    ensures forall i :: 0 <= i < |EscapeRest(s)| ==> IsAlnum(EscapeRest(s)[i]) || EscapeRest(s)[i] == '_'
  {
    if s != "" {
      RestIsWordy(s[1..]);
    }
  }

  // ---- The encoding can be reversed ----

  function HexValue(c: char): nat {
    if '0' <= c <= '9' then c as int - '0' as int
    else if 'a' <= c <= 'f' then c as int - 'a' as int + 10
    else 0
  }

  /** Reads the encoding back: an underscore with two digits is one character. */
  function DecodeRest(s: string): string
    decreases |s|
  {
    if s == "" then ""
    else if s[0] == '_' && |s| >= 3 then
      [(16 * HexValue(s[1]) + HexValue(s[2])) as char] + DecodeRest(s[3..])
    else [s[0]] + DecodeRest(s[1..])
  }

  function Decode(s: string): string {
    if s == "_" then "" else DecodeRest(s)
  }

  predicate Below(s: string, n: nat) {
    forall i :: 0 <= i < |s| ==> s[i] as int < n
  }

  lemma EscapedIsTwoDigits(c: char)
    requires c as int < 256
    ensures Escaped(c) == ['_', HexDigit(c as int / 16), HexDigit(c as int % 16)]
    ensures HexValue(HexDigit(c as int / 16)) == c as int / 16
    ensures HexValue(HexDigit(c as int % 16)) == c as int % 16
  {
    var n := c as int;
    if n >= 16 {
      assert Hex(n / 16) == [HexDigit(n / 16)];
    } else {
      assert Hex(n) == [HexDigit(n)];
    }
  }

  lemma DecodeEscaped(c: char, rest: string)
    requires c as int < 256
    ensures DecodeRest(Escaped(c) + rest) == [c] + DecodeRest(rest)
  {
    EscapedIsTwoDigits(c);
    assert (Escaped(c) + rest)[3..] == rest;
  }

  lemma DecodePlain(c: char, rest: string)
    requires IsAlnum(c)
    ensures DecodeRest([c] + rest) == [c] + DecodeRest(rest)
  {
  }

  lemma {:induction false} DecodeUndoesRest(s: string)
    requires Below(s, 256)
    ensures DecodeRest(EscapeRest(s)) == s
  {
    hide Escaped;
    if s != "" {
      DecodeUndoesRest(s[1..]);
      if IsAlnum(s[0]) {
        DecodePlain(s[0], EscapeRest(s[1..]));
      } else {
        DecodeEscaped(s[0], EscapeRest(s[1..]));
      }
    }
  }

  /** The encoding has a left inverse on names of code points below 256. */
  lemma DecodeUndoesEncode(identifier: string)
    requires Below(identifier, 256)
    ensures Decode(Encode(identifier)) == identifier
  {
    if identifier != "" {
      var c, rest := identifier[0], EscapeRest(identifier[1..]);
      DecodeUndoesRest(identifier[1..]);
      if IsLetter(c) {
        DecodePlain(c, rest);
      } else {
        EscapedIsTwoDigits(c);
        DecodeEscaped(c, rest);
      }
      assert identifier == [c] + identifier[1..];
    }
  }

  /** So different names have different identifiers. */
  lemma EncodeIsInjective(a: string, b: string)
    requires Below(a, 256) && Below(b, 256) && Encode(a) == Encode(b)
    ensures a == b
  {
    DecodeUndoesEncode(a);
    DecodeUndoesEncode(b);
  }

  /** Beyond that range two digits do not suffice and names collide: U+0100 to U+0FFF
      are encoded like the character of their first two digits followed by the third. */
  lemma WideCharactersCollide(n: nat)
    requires 0x100 <= n < 0x1000 && !IsAlnum((n / 16) as char)
    ensures Encode([n as char]) == Encode([(n / 16) as char, HexDigit(n % 16)])
    ensures [n as char] != [(n / 16) as char, HexDigit(n % 16)]
  {
    var wide, narrow, digit := n as char, (n / 16) as char, HexDigit(n % 16);
    assert [wide][1..] == "" && [narrow, digit][1..] == [digit] && [digit][1..] == "";
    assert Hex(n) == Hex(n / 16) + [digit];
    assert EscapeRest([digit]) == [digit] + EscapeRest("");
  }

  ghost predicate InjectiveBelow(n: nat) {
    forall a, b :: Below(a, n) && Below(b, n) && Encode(a) == Encode(b) ==> a == b
  }

  /** Different names have different identifiers as long as all code points are below a
      bound, exactly when the bound is at most 256. */
  lemma InjectiveUpTo256(n: nat)
    ensures InjectiveBelow(n) <==> n <= 256
  {
    hide Encode;
    if n <= 256 {
      forall a, b | Below(a, n) && Below(b, n) && Encode(a) == Encode(b) ensures a == b {
        EncodeIsInjective(a, b);
      }
    } else {
      WideCharactersCollide(0x100);
      var wide, narrow := [0x100 as char], [0x10 as char, HexDigit(0)];
      assert Below(wide, n) && Below(narrow, n) && wide != narrow;
      assert (0x100 / 16) as char == 0x10 as char;
      assert Encode(wide) == Encode(narrow);
    }
  }

  /** How many characters need an escape. */
  function Escapes(s: string): nat {
    if s == "" then 0 else (if IsAlnum(s[0]) then 0 else 1) + Escapes(s[1..])
  }

  /** And nothing is escaped that need not be: each escape adds two bytes, and only those
      characters have one that are no letter or digit, and a digit at the start. */
  lemma EncodedLength(identifier: string)
    requires identifier != "" && Below(identifier, 256)
    ensures |Encode(identifier)| == |identifier| + 2 * Escapes(identifier)
                                    + if '0' <= identifier[0] <= '9' then 2 else 0
  {
    RestLength(identifier[1..]);
    EscapedIsTwoDigits(identifier[0]);
  }

  lemma {:induction false} RestLength(s: string)
    requires Below(s, 256)
    ensures |EscapeRest(s)| == |s| + 2 * Escapes(s)
  {
    if s != "" {
      RestLength(s[1..]);
      EscapedIsTwoDigits(s[0]);
    }
  }
}

/** Which names are nicknames and which are channels (`idle-handles.c`). */
module Handles {
  import opened Irc
  import opened Seqs
  import opened Utf8

  /** What the handle repositories take from GLib: whether a multi-byte character is
      a letter or a digit, and the lower-case form of a name. */
  datatype Repos = Repos(alnum: string -> bool, strdown: string -> string)

  predicate IsAsciiAlpha(c: char) {
    'a' <= c <= 'z' || 'A' <= c <= 'Z'
  }

  predicate IsNickSymbol(c: char) {
    c in "[]\\`_^{|}"
  }

  /** `idle_muc_channel_is_typechar`. */
  predicate IsTypeChar(c: char) {
    c in "#&+!"
  }

  /** `idle_muc_channel_is_modechar`. */
  predicate IsModeChar(c: char) {
    c in "*~!&@%+"
  }

  /** Length of the stretch of continuation bytes at the start of `s`. */
  function TailRun(s: string): (n: nat)
    ensures n <= |s|
    ensures forall i :: 0 <= i < n ==> IsTail(s[i])
  {
    if s == [] || !IsTail(s[0]) then 0 else 1 + TailRun(s[1..])
  }

  /** `g_utf8_find_next_char` from the start of `s`. */
  function NextChar(s: string): (n: nat)
    requires s != []
    ensures 1 <= n <= |s|
  {
    1 + TailRun(s[1..])
  }

  /** A letter or digit of any script, at the start of `s`. */
  predicate IsUnicodeAlnum(repos: Repos, s: string)
    requires s != []
  {
    if In(s[0], 0, 0x7F) then IsAsciiAlpha(s[0]) || IsDigit(s[0])
    else CharLen(s) > 0 && repos.alnum(s[..CharLen(s)])
  }

  predicate NickCharOk(repos: Repos, rest: string, first: bool, strict: bool)
    requires rest != []
  {
    var c := rest[0];
    if IsNickSymbol(c) then true
    else if c == '-' then !(strict && first)
    else if strict then IsAsciiAlpha(c) || (!first && IsDigit(c))
    else IsUnicodeAlnum(repos, rest)
  }

  predicate NickCharsOk(repos: Repos, rest: string, first: bool, strict: bool)
    decreases |rest|
  {
    rest == [] ||
    (NickCharOk(repos, rest, first, strict) && NickCharsOk(repos, rest[NextChar(rest)..], false, strict))
  }

  predicate NicknameValid(repos: Repos, nickname: string, strict: bool) {
    nickname != "" && NickCharsOk(repos, nickname, true, strict)
  }

  /** `idle_nickname_is_valid`. */
  method NicknameIsValid(repos: Repos, nickname: string, strict: bool) returns (ok: bool)
    ensures ok == NicknameValid(repos, nickname, strict)
  {
    hide NickCharOk, NextChar;
    if nickname == "" {
      return false;
    }
    var pos := 0;
    while pos < |nickname|
      invariant 0 <= pos <= |nickname|
      invariant NickCharsOk(repos, nickname[pos..], pos == 0, strict) == NickCharsOk(repos, nickname, true, strict)
    {
      var rest := nickname[pos..];
      if !NickCharOk(repos, rest, pos == 0, strict) {
        return false;
      }
      DropDrop(nickname, pos, NextChar(rest));
      pos := pos + NextChar(rest);
    }
    return true;
  }

  predicate Forbidden(c: char) {
    c in " \U{07},\r\n:\0"
  }

  predicate Allowed(s: string) {
    forall i :: 0 <= i < |s| ==> !Forbidden(s[i])
  }

  predicate SafeChannelId(channel: string) {
    forall i :: 1 <= i < 6 && i < |channel| ==> IsSafeIdChar(channel[i])
  }

  predicate IsSafeIdChar(c: char) {
    'A' <= c <= 'Z' || IsDigit(c)
  }

  /** Channel names: a type character, at most 50 bytes in all, and one colon at most. */
  predicate ChannelNameValid(channel: string) {
    && channel != "" && IsTypeChar(channel[0])
    && 2 <= |channel| <= 50
    && (channel[0] == '!' ==> SafeChannelId(channel))
    && var colon := IndexOf(channel[1..], ':');
    && Allowed(channel[1..][..colon])
    && (colon < |channel| - 1 ==> Allowed(channel[1..][colon + 1..]))
  }

  method IsAllowed(s: string) returns (ok: bool)
    ensures ok == Allowed(s)
  {
    for i := 0 to |s|
      invariant forall j :: 0 <= j < i ==> !Forbidden(s[j])
    {
      if Forbidden(s[i]) {
        return false;
      }
    }
    return true;
  }

  /** `_channelname_is_valid`. */
  method ChannelNameIsValid(channel: string) returns (ok: bool)
    ensures ok == ChannelNameValid(channel)
  {
    if channel == "" || !IsTypeChar(channel[0]) {
      return false;
    }
    if |channel| < 2 || |channel| > 50 {
      return false;
    }
    if channel[0] == '!' {
      var i := 0;
      while i < 5 && i + 1 < |channel|
        invariant 0 <= i <= 5 && i + 1 <= |channel|
        invariant forall j :: 1 <= j < i + 1 ==> IsSafeIdChar(channel[j])
      {
        if !IsSafeIdChar(channel[i + 1]) {
          return false;
        }
        i := i + 1;
      }
    }
    var colon := IndexOf(channel[1..], ':');
    var ok1 := IsAllowed(channel[1..][..colon]);
    if !ok1 {
      return false;
    }
    if colon < |channel| - 1 {
      ok := IsAllowed(channel[1..][colon + 1..]);
      return;
    }
    return true;
  }

  // ---- No name is both ----

  /** A token as the parser looks it up in the contact repository: up to the first `!`. */
  function NickPart(token: string): string {
    token[..IndexOf(token, '!')]
  }

  /** A name the room repository accepts is refused by the contact repository. */
  lemma RoomIsNoContact(repos: Repos, token: string)
    requires ChannelNameValid(token)
    ensures !NicknameValid(repos, NickPart(token), false)
  {
  }

  /** A byte that separates tokens, prefixes or lines. */
  predicate Separator(c: char) {
    c in " \r\n:!\0"
  }

  predicate Clean(s: string) {
    forall i :: 0 <= i < |s| ==> !Separator(s[i])
  }

  /** A nickname contains no separator. */
  lemma {:induction false} NicknameIsClean(repos: Repos, s: string, first: bool, strict: bool)
    requires NickCharsOk(repos, s, first, strict)
    ensures Clean(s)
    decreases |s|
  {
    hide CharLen;
    if s != [] {
      var n := NextChar(s);
      NicknameIsClean(repos, s[n..], false, strict);
      assert forall i :: 0 <= i < n - 1 ==> IsTail(s[1..][i]);
      forall i | 0 <= i < |s| ensures !Separator(s[i]) {
        if i == 0 {
        } else if i < n {
          assert s[i] == s[1..][i - 1];
        } else {
          assert s[i] == s[n..][i - n];
        }
      }
    }
  }

  /** A valid channel name holds no space, line end or NUL, and starts with no colon. */
  lemma ChannelIsClean(channel: string)
    requires ChannelNameValid(channel)
    ensures channel != "" && channel[0] != ':'
    ensures forall i :: 0 <= i < |channel| ==> channel[i] !in " \r\n\0"
  {
    var colon := IndexOf(channel[1..], ':');
    forall i | 0 <= i < |channel| ensures channel[i] !in " \r\n\0" {
      if 0 < i && i - 1 < colon {
        assert channel[i] == channel[1..][..colon][i - 1];
      } else if i - 1 > colon {
        assert channel[i] == channel[1..][colon + 1..][i - 1 - (colon + 1)];
      }
    }
  }

  // ---- The names written out ----

  /** The bytes of nicknames in the grammar of section 2.3.1 of RFC 2812. */
  predicate NickByte(c: char) {
    'a' <= c <= 'z' || 'A' <= c <= 'Z' || '0' <= c <= '9' || c in "-[]\\`_^{|}"
  }

  predicate AllAscii(s: string) {
    forall i :: 0 <= i < |s| ==> s[i] as int < 0x80
  }

  lemma {:induction false} AsciiChars(repos: Repos, s: string, first: bool, strict: bool)
    requires AllAscii(s)
    ensures NickCharsOk(repos, s, first, strict) <==>
      && (forall i :: 0 <= i < |s| ==> NickByte(s[i]))
      && (strict && first && s != "" ==> s[0] != '-' && !('0' <= s[0] <= '9'))
    decreases |s|
  {
    hide NickCharOk;
    if s != "" {
      AsciiIsOneByte(s);
      AsciiChars(repos, s[1..], false, strict);
      AsciiChar(repos, s, first, strict);
      assert s == [s[0]] + s[1..];
    }
  }

  lemma AsciiIsOneByte(s: string)
    requires s != "" && AllAscii(s)
    ensures NextChar(s) == 1 && AllAscii(s[1..])
  {
    assert |s| > 1 ==> s[1..][0] == s[1];
  }

  lemma AsciiChar(repos: Repos, s: string, first: bool, strict: bool)
    requires s != "" && s[0] as int < 0x80
    ensures NickCharOk(repos, s, first, strict) <==>
      NickByte(s[0]) && (strict && first ==> s[0] != '-' && !('0' <= s[0] <= '9'))
  {
  }

  /** A name of ASCII is a nickname exactly when it is not empty and its bytes are letters,
      digits, hyphens and the symbols of the grammar; strictly, when it does not start with a
      digit or a hyphen either. */
  lemma AsciiNickname(repos: Repos, nickname: string, strict: bool)
    requires AllAscii(nickname)
    ensures NicknameValid(repos, nickname, strict) <==>
      && nickname != "" && (forall i :: 0 <= i < |nickname| ==> NickByte(nickname[i]))
      && (strict ==> nickname[0] != '-' && !('0' <= nickname[0] <= '9'))
  {
    hide NickCharsOk;
    AsciiChars(repos, nickname, true, strict);
  }

  /** A character of several bytes is a nickname exactly when it is a letter or a digit of its
      script, and never strictly. */
  lemma WideNickname(repos: Repos, ch: string, strict: bool)
    requires ch != "" && Valid(ch) && CharLen(ch) == |ch| > 1
    ensures NicknameValid(repos, ch, strict) <==> !strict && repos.alnum(ch)
  {
    hide CharLen, Valid, NickCharOk;
    NextIsChar(ch);
    WideChar(repos, ch, strict);
    assert ch[NextChar(ch)..] == "" && NickCharsOk(repos, "", false, strict);
  }

  lemma WideChar(repos: Repos, ch: string, strict: bool)
    requires CharLen(ch) == |ch| > 1
    ensures NickCharOk(repos, ch, true, strict) <==> !strict && repos.alnum(ch)
  {
    WideIsHigh(ch);
    assert ch[..|ch|] == ch;
    hide CharLen;
  }

  lemma WideIsHigh(ch: string)
    requires CharLen(ch) > 1
    ensures ch[0] as int > 0xBF
  {
  }

  /** Nicknames are judged character by character, the first one as the first. */
  lemma {:induction false} NicknameConcat(repos: Repos, a: string, b: string, first: bool, strict: bool)
    requires Valid(a) && Valid(b)
    ensures NickCharsOk(repos, a + b, first, strict) <==>
      NickCharsOk(repos, a, first, strict) && NickCharsOk(repos, b, first && a == "", strict)
    decreases |a|
  {
    hide CharLen, NickCharOk;
    if a == "" {
      assert a + b == b;
    } else {
      var n := CharLen(a);
      FirstOfBoth(repos, a, b, first, strict);
      NicknameConcat(repos, a[n..], b, false, strict);
      assert (a + b)[n..] == a[n..] + b;
    }
  }

  lemma FirstOfBoth(repos: Repos, a: string, b: string, first: bool, strict: bool)
    requires Valid(a) && a != "" && Valid(b)
    ensures NextChar(a) == CharLen(a) == NextChar(a + b)
    ensures NickCharOk(repos, a + b, first, strict) == NickCharOk(repos, a, first, strict)
  {
    hide CharLen;
    NextIsChar(a);
    ValidConcat(a, b);
    NextIsChar(a + b);
    CharLenExtend(a, b);
    assert (a + b)[..CharLen(a)] == a[..CharLen(a)];
  }

  lemma NextIsChar(s: string)
    requires Valid(s) && s != ""
    ensures NextChar(s) == CharLen(s)
  {
    hide CharLen;
    var n := CharLen(s);
    RunIs(s[1..], n - 1);
    assert n < |s| ==> s[n..][0] == s[1..][n - 1];
  }

  lemma {:induction false} RunIs(s: string, k: nat)
    requires k <= |s| && (forall i :: 0 <= i < k ==> IsTail(s[i])) && (k < |s| ==> !IsTail(s[k]))
    ensures TailRun(s) == k
  {
    if k > 0 {
      RunIs(s[1..], k - 1);
    }
  }

  // ---- Channel names by their grammar ----

  /** A piece of a channel name: no space, bell, comma, line end, colon or NUL. */
  predicate ChanString(s: string) {
    forall i :: 0 <= i < |s| ==> s[i] !in " \U{07},\r\n:\0"
  }

  /** The grammar of section 1.3 of RFC 2812, with the length that goes with it: a prefix, a
      piece, and perhaps a colon and another piece.  After an exclamation mark up to five
      capitals or digits come first. */
  ghost predicate ChannelGrammar(channel: string) {
    && 2 <= |channel| <= 50 && channel[0] in "#&+!"
    && (ChanString(channel[1..]) ||
        exists k {:trigger channel[k]} :: 1 <= k < |channel| && channel[k] == ':'
             && ChanString(channel[1..k]) && ChanString(channel[k + 1..]))
    && (channel[0] == '!' ==>
          forall i :: 1 <= i < |channel| && i < 6 ==> 'A' <= channel[i] <= 'Z' || '0' <= channel[i] <= '9')
  }

  /** The room repository accepts exactly the names of this grammar. */
  lemma ChannelIsGrammar(channel: string)
    ensures ChannelNameValid(channel) <==> ChannelGrammar(channel)
  {
    if channel != "" {
      var rest := channel[1..];
      var colon := IndexOf(rest, ':');
      assert rest[..|rest|] == rest;
      if colon < |rest| {
        assert rest[..colon] == channel[1..colon + 1] && rest[colon + 1..] == channel[colon + 2..];
        assert channel[colon + 1] == ':';
        forall k | 1 <= k < |channel| && channel[k] == ':' && ChanString(channel[1..k]) ensures k == colon + 1 {
          FirstColon(channel, k, colon + 1);
        }
      }
    }
  }

  lemma FirstColon(channel: string, k: nat, j: nat)
    requires 1 <= k < |channel| && 1 <= j < |channel| && channel[k] == ':' == channel[j] && ':' !in channel[1..j]
    requires ChanString(channel[1..k])
    ensures k == j
  {
  }
}

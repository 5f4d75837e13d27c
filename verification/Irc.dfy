/** What the IRC modules share (`idle-connection.h`, section 2.3 of RFC 2812). */
module Irc {

  /** Longest message without its CR LF. */
  const IRC_MSG_MAXLEN := 510

  predicate IsEol(c: char) {
    c == '\r' || c == '\n'
  }

  predicate NoEol(s: string) {
    forall i :: 0 <= i < |s| ==> !IsEol(s[i])
  }

  predicate IsDigit(c: char) {
    '0' <= c <= '9'
  }

  /** A number as `printf` writes it. */
  function Decimal(n: nat): string {
    (if n < 10 then "" else Decimal(n / 10)) + [('0' as int + n % 10) as char]
  }
}

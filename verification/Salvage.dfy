/** Repair of text that is not UTF-8 (`idle_salvage_utf8`). */
module Salvage {
  import opened Seqs
  import opened Utf8

  /** U+FFFD, the bytes EF BF BD. */
  const REPLACEMENT: string := "\U{EF}\U{BF}\U{BD}"

  /**
   * A reading of a byte string, character by character: either a well-formed
   * character or a single byte at which no well-formed character starts.
   */
  datatype Item = Good(bytes: string) | Bad(byte: char) {
    function Source(): string {
      match this case Good(b) => b case Bad(c) => [c]
    }
    function Repaired(): string {
      match this case Good(b) => b case Bad(_) => REPLACEMENT
    }
  }

  function Read(s: string): seq<Item> {
    if s == [] then []
    else if CharLen(s) > 0 then [Good(s[..CharLen(s)])] + Read(s[CharLen(s)..])
    else [Bad(s[0])] + Read(s[1..])
  }

  function Sources(items: seq<Item>): string {
    if items == [] then [] else items[0].Source() + Sources(items[1..])
  }

  function Repair(items: seq<Item>): string {
    if items == [] then [] else items[0].Repaired() + Repair(items[1..])
  }

  function BadCount(items: seq<Item>): nat {
    if items == [] then 0 else (if items[0].Bad? then 1 else 0) + BadCount(items[1..])
  }

  /** Salvaging appends each longest valid stretch and drops the one byte after
      it.  This equals repairing the text character by character. */
  method SalvageUtf8(supposedUtf8: string) returns (salvaged: string)
    ensures salvaged == Repair(Read(supposedUtf8))
  {
    hide CharLen, Read, Repair, REPLACEMENT;
    salvaged := "";
    var rest := supposedUtf8;
    while ValidPrefix(rest) < |rest|
      invariant salvaged + Repair(Read(rest)) == Repair(Read(supposedUtf8))
      decreases |rest|
    {
      var validBytes := ValidPrefix(rest);
      ReadStretch(rest);
      salvaged := salvaged + rest[..validBytes];
      salvaged := salvaged + REPLACEMENT;
      rest := rest[validBytes + 1..];
    }
    ReadStretch(rest);
    salvaged := salvaged + rest;
  }

  /** One step of the reading, and what the other functions make of it. */
  lemma ReadStep(s: string)
    requires s != []
    ensures var n := if CharLen(s) > 0 then CharLen(s) else 1;
      Read(s) != [] && Read(s)[1..] == Read(s[n..])
      && Read(s)[0] == if CharLen(s) > 0 then Good(s[..n]) else Bad(s[0])
  {
    hide CharLen;
  }

  /** What follows the longest valid prefix: one replacement character for the
      byte after it, then the repair of the rest. */
  function AfterStretch(s: string, v: nat): string
    requires v <= |s|
  {
    if v == |s| then [] else REPLACEMENT + Repair(Read(s[v + 1..]))
  }

  lemma RepairStep(s: string)
    requires s != []
    ensures Repair(Read(s)) ==
      if CharLen(s) > 0 then s[..CharLen(s)] + Repair(Read(s[CharLen(s)..])) else AfterStretch(s, 0)
  {
    hide CharLen, Read, REPLACEMENT;
    ReadStep(s);
  }

  /** Repairing a text is keeping its longest valid prefix and repairing the rest. */
  lemma {:induction false} ReadStretch(s: string)
    ensures Repair(Read(s)) == s[..ValidPrefix(s)] + AfterStretch(s, ValidPrefix(s))
  {
    hide CharLen, Read, Repair, AfterStretch;
    var n := CharLen(s);
    if s == [] {
      NothingToRepair();
    } else {
      RepairStep(s);
      if n > 0 {
        ReadStretch(s[n..]);
        AfterStretchLater(s, n, ValidPrefix(s[n..]));
      } else {
        assert s[..0] + AfterStretch(s, 0) == AfterStretch(s, 0);
      }
    }
  }

  lemma NothingToRepair()
    ensures Repair(Read("")) == "" && AfterStretch("", 0) == ""
  {
  }

  lemma AfterStretchLater(s: string, n: nat, v: nat)
    requires n + v <= |s|
    ensures s[..n] + (s[n..][..v] + AfterStretch(s[n..], v)) == s[..n + v] + AfterStretch(s, n + v)
  {
    hide Repair, Read, REPLACEMENT;
    DropDrop(s, n, v);
    if n + v < |s| {
      DropDrop(s, n, v + 1);
    }
  }

  /** The reading loses nothing; each good item is one well-formed character, and
      each bad byte is one at which no well-formed character starts. */
  lemma {:induction false} ReadIsFaithful(s: string)
    ensures Sources(Read(s)) == s
    ensures forall i :: 0 <= i < |Read(s)| ==> Faithful(Read(s)[i], Sources(Read(s)[i..]))
  {
    hide CharLen, Read, Sources, Faithful;
    if s == [] {
      NothingRead();
    } else {
      var n := if CharLen(s) > 0 then CharLen(s) else 1;
      ReadIsFaithful(s[n..]);
      FirstIsFaithful(s);
      assert Read(s)[0..] == Read(s);
      forall i | 0 <= i < |Read(s)| ensures Faithful(Read(s)[i], Sources(Read(s)[i..])) {
        if i > 0 {
          LaterIsFaithful(s, i);
        }
      }
    }
  }

  lemma NothingRead()
    ensures Read("") == [] && Sources([]) == ""
  {
  }

  lemma FirstIsFaithful(s: string)
    requires s != "" && var n := if CharLen(s) > 0 then CharLen(s) else 1; Sources(Read(s[n..])) == s[n..]
    ensures Read(s) != [] && Sources(Read(s)) == s && Faithful(Read(s)[0], s)
  {
    hide CharLen, Read, Faithful;
    ReadStep(s);
    FirstItem(s);
    var n := if CharLen(s) > 0 then CharLen(s) else 1;
    assert s == s[..n] + s[n..];
  }

  lemma FirstItem(s: string)
    requires s != ""
    ensures var item := if CharLen(s) > 0 then Good(s[..CharLen(s)]) else Bad(s[0]);
      Faithful(item, s) && item.Source() == s[..if CharLen(s) > 0 then CharLen(s) else 1]
  {
    hide CharLen;
    if CharLen(s) > 0 {
      CharLenPrefix(s, CharLen(s));
    }
  }

  /** What is said of the reading of the rest, said of the reading. */
  lemma LaterIsFaithful(s: string, i: nat)
    requires s != "" && 0 < i < |Read(s)|
    requires var later := Read(s[if CharLen(s) > 0 then CharLen(s) else 1..]);
      forall j :: 0 <= j < |later| ==> Faithful(later[j], Sources(later[j..]))
    ensures Faithful(Read(s)[i], Sources(Read(s)[i..]))
  {
    hide CharLen, Read, Sources, Faithful;
    ReadStep(s);
    var later := Read(s)[1..];
    assert Read(s)[i] == later[i - 1];
    DropDrop(Read(s), 1, i - 1);
    assert Faithful(later[i - 1], Sources(later[i - 1..]));
  }

  /** `item` is rightly read at the start of `text`. */
  predicate Faithful(item: Item, text: string) {
    match item
    case Good(b) => 0 < |b| == CharLen(b)
    case Bad(_) => CharLen(text) == 0
  }

  lemma ReplacementIsValid()
    ensures Valid(REPLACEMENT)
  {
  }

  /** The salvaged text is valid UTF-8, is the input when that is valid, and is
      longer by exactly two bytes for each byte dropped, so at most three times
      as long. */
  lemma {:induction false} SalvagedIsValid(s: string)
    ensures Valid(Repair(Read(s)))
    ensures Valid(s) <==> BadCount(Read(s)) == 0
    ensures Valid(s) ==> Repair(Read(s)) == s
    ensures |Repair(Read(s))| == |s| + 2 * BadCount(Read(s))
    ensures |Repair(Read(s))| <= 3 * |s|
  {
    hide CharLen, Valid, Repair, Read, BadCount;
    if s == [] {
      NothingSalvaged();
    } else {
      var n := if CharLen(s) > 0 then CharLen(s) else 1;
      SalvagedIsValid(s[n..]);
      FirstSalvaged(s);
      ValidStep(s);
      assert s == s[..n] + s[n..];
    }
  }

  lemma NothingSalvaged()
    ensures Read("") == [] && Repair([]) == "" && BadCount([]) == 0 && Valid("")
  {
  }

  lemma ValidStep(s: string)
    requires s != ""
    ensures Valid(s) <==> CharLen(s) > 0 && Valid(s[CharLen(s)..])
  {
    hide CharLen;
  }

  /** The first item of a reading, repaired in front of the rest. */
  lemma FirstSalvaged(s: string)
    requires s != ""
    ensures var n := if CharLen(s) > 0 then CharLen(s) else 1; var later := Read(s[n..]);
      && Repair(Read(s)) == (if CharLen(s) > 0 then s[..n] else REPLACEMENT) + Repair(later)
      && BadCount(Read(s)) == (if CharLen(s) > 0 then 0 else 1) + BadCount(later)
      && (Valid(Repair(later)) ==> Valid(Repair(Read(s))))
  {
    hide CharLen, Read, REPLACEMENT, Valid;
    ReadStep(s);
    var n := if CharLen(s) > 0 then CharLen(s) else 1;
    var head := if CharLen(s) > 0 then s[..n] else REPLACEMENT;
    if CharLen(s) > 0 {
      CharLenPrefix(s, n);
      ValidStep(head);
      assert head[n..] == [];
      NothingSalvaged();
    } else {
      ReplacementIsValid();
    }
    if Valid(Repair(Read(s[n..]))) {
      ValidConcat(head, Repair(Read(s[n..])));
    }
  }

  /** Salvaging once is enough. */
  lemma SalvageIsIdempotent(s: string)
    ensures Repair(Read(Repair(Read(s)))) == Repair(Read(s))
  {
    SalvagedIsValid(s);
    SalvagedIsValid(Repair(Read(s)));
  }
}

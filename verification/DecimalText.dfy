/** The text the publisher formats for a version number, the fixed-size buffers it
    travels through, and reading the number back. */
module DecimalText {

  const NUL: char := 0 as char
  const MAX_TEXT_LEN := 100
  const TWO_TO_64 := 0x1_0000_0000_0000_0000

  // ------------------------------------------------------------- decimal numerals

  function Digit(d: nat): char
    requires d < 10
  {
    "0123456789"[d]
  }

  function DigitValue(c: char): nat {
    if '0' <= c <= '9' then (c as int) - ('0' as int) else 0
  }

  /** The decimal numeral of v without leading zeros. */
  function Decimal(v: nat): (s: string)
    ensures s != [] && forall i :: 0 <= i < |s| ==> '0' <= s[i] <= '9'
  {
    if v < 10 then [Digit(v)] else Decimal(v / 10) + [Digit(v % 10)]
  }

  function ParseDecimal(s: string): nat {
    if s == [] then 0 else ParseDecimal(s[..|s| - 1]) * 10 + DigitValue(s[|s| - 1])
  }

  lemma {:induction false} ParseOfDecimal(v: nat)
    ensures ParseDecimal(Decimal(v)) == v
  {
    if v < 10 {
      assert [Digit(v)][..0] == [];
    } else {
      ParseOfDecimal(v / 10);
      assert (Decimal(v / 10) + [Digit(v % 10)])[..|Decimal(v / 10)|] == Decimal(v / 10);
    }
  }

  function Pow10(k: nat): nat { if k == 0 then 1 else 10 * Pow10(k - 1) }

  /** A number below 10^k has at most k digits. */
  lemma {:induction false} DigitCount(v: nat, k: nat)
    requires k >= 1 && v < Pow10(k)
    ensures |Decimal(v)| <= k
  {
    if v >= 10 {
      assert k >= 2 by {
        assert Pow10(1) == 10 * Pow10(0);
      }
      DigitCount(v / 10, k - 1);
    }
  }

  lemma TwentyDigits()
    ensures TWO_TO_64 <= Pow10(20)
  {
    assert Pow10(5) == 100000;
    assert Pow10(10) == 100000 * 100000 by {
      assert Pow10(10) == 10 * (10 * (10 * (10 * (10 * Pow10(5)))));
    }
    assert Pow10(15) == 10 * (10 * (10 * (10 * (10 * Pow10(10)))));
    assert Pow10(20) == 10 * (10 * (10 * (10 * (10 * Pow10(15)))));
  }

  // -------------------------------------------------------------------- the message

  const PREFIX := "data update: "

  /** What snprintf formats for a version. */
  function Message(v: nat): string { PREFIX + Decimal(v) + "\n" }

  lemma MessageText(d: nat)
    requires d < 10
    ensures Message(d) == "data update: " + ["0123456789"[d]] + "\n"
    ensures Message(10 + d) == "data update: 1" + ["0123456789"[d]] + "\n"
  {
    assert Decimal(10 + d) == Decimal(1) + [Digit(d)];
  }

  /** The version in a message. */
  function ParseMessage(s: string): nat {
    if |s| <= |PREFIX| then 0 else ParseDecimal(s[|PREFIX|..|s| - 1])
  }

  // -------------------------------------------------------------------- the buffers

  /** A formatted or copied string lands in a buffer: as much as fits, a terminator,
      and the rest of the buffer as it was. */
  function PutString(buf: seq<char>, s: string): (r: seq<char>)
    ensures |r| == |buf|
  {
    if buf == [] then [] else
    var n := if |s| < |buf| then |s| else |buf| - 1;
    s[..n] + [NUL] + buf[n + 1..]
  }

  /** The string in a buffer: everything before the first terminator. */
  function CString(buf: seq<char>): string {
    if buf == [] || buf[0] == NUL then [] else [buf[0]] + CString(buf[1..])
  }

  predicate NoNul(s: string) { forall i :: 0 <= i < |s| ==> s[i] != NUL }

  lemma {:induction false} CStringOf(s: string, rest: seq<char>)
    requires NoNul(s)
    ensures CString(s + [NUL] + rest) == s
  {
    var buf := s + [NUL] + rest;
    if s != [] {
      assert buf[1..] == s[1..] + [NUL] + rest;
      CStringOf(s[1..], rest);
    }
  }

  /** A string that fits with its terminator is read back whole. */
  lemma FitsUntruncated(buf: seq<char>, s: string)
    requires NoNul(s) && |s| < |buf|
    ensures CString(PutString(buf, s)) == s
  {
    assert s[..|s|] == s;
    CStringOf(s, buf[|s| + 1..]);
  }

  /** A longer one is cut off to what fits with a terminator; either way the bytes behind
      the terminator stay. */
  lemma CutOff(buf: seq<char>, s: string)
    requires NoNul(s) && buf != []
    ensures var kept := if |s| < |buf| then |s| else |buf| - 1;
      && CString(PutString(buf, s)) == s[..kept]
      && PutString(buf, s)[kept] == NUL
      && PutString(buf, s)[kept + 1..] == buf[kept + 1..]
  {
    var kept := if |s| < |buf| then |s| else |buf| - 1;
    CStringOf(s[..kept], buf[kept + 1..]);
  }

  lemma MessageFits(v: nat)
    requires v < TWO_TO_64
    ensures NoNul(Message(v)) && |Message(v)| + 1 <= 35 <= MAX_TEXT_LEN
  {
    TwentyDigits();
    DigitCount(v, 20);
  }

  /** For every 64-bit version: the message with its terminator takes at most 35 bytes,
      so neither the shared nor the local 100-byte buffer cuts it off, whatever they
      held before, and the version can be parsed back from the reader's copy. */
  lemma PublishedTextRoundTrip(v: nat, shared: seq<char>, local: seq<char>)
    requires v < TWO_TO_64 && |shared| == |local| == MAX_TEXT_LEN
    ensures |Message(v)| + 1 <= 35
    ensures var copy := CString(PutString(local, CString(PutString(shared, Message(v)))));
            copy == Message(v) && ParseMessage(copy) == v
  {
    MessageFits(v);
    FitsUntruncated(shared, Message(v));
    FitsUntruncated(local, Message(v));
    ParseOfDecimal(v);
    assert Message(v)[|PREFIX|..|Message(v)| - 1] == Decimal(v);
  }

  /** snprintf or strlcpy into a char array. */
  method Put(buf: array<char>, s: string)
    requires buf.Length > 0
    modifies buf
    ensures buf[..] == PutString(old(buf[..]), s)
  {
    ghost var before := buf[..];
    var i := 0;
    while i < |s| && i + 1 < buf.Length
      invariant 0 <= i <= |s| && i < buf.Length
      invariant buf[..i] == s[..i] && buf[i..] == before[i..]
    {
      buf[i] := s[i];
      i := i + 1;
    }
    buf[i] := NUL;
    assert buf[..] == buf[..i] + [buf[i]] + buf[i + 1..];
    assert buf[i + 1..] == before[i + 1..];
  }
}

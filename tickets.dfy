/** The ticket numbers of the raffle: `i.toString().padStart(5, '0')` for every
    `i` from 10001 to 20000, and the loop that fills the pool with them. */
module Tickets {
  import opened Pool

  const FirstTicket: nat := 10001
  const LastTicket: nat := 20000
  const TicketWidth: nat := 5
  const PoolSize: nat := LastTicket - FirstTicket + 1

  predicate IsDigit(c: char) {
    '0' <= c <= '9'
  }

  /** Every character of `s` is a decimal digit. */
  predicate IsDecimal(s: string) {
    forall i :: 0 <= i < |s| ==> IsDigit(s[i])
  }

  function DigitChar(d: nat): (c: char)
    requires d < 10
    ensures IsDigit(c)
  {
    ('0' as int + d) as char
  }

  function DigitValue(c: char): (d: nat)
    requires IsDigit(c)
    ensures d < 10
  {
    c as int - '0' as int
  }

  /** The numeric value of a string of decimal digits, most significant first. */
  function DecimalValue(s: string): nat
    requires IsDecimal(s)
  {
    if s == [] then 0 else DecimalValue(s[..|s| - 1]) * 10 + DigitValue(s[|s| - 1])
  }

  function Pow10(k: nat): (p: nat)
    ensures 0 < p
  {
    if k == 0 then 1 else 10 * Pow10(k - 1)
  }

  /** `n.toString()` for a non-negative integer: its shortest decimal form. */
  function NatToDecimal(n: nat): (s: string)
    ensures 0 < |s| && IsDecimal(s)
    ensures |s| > 1 ==> s[0] != '0'
  {
    if n < 10 then [DigitChar(n)] else NatToDecimal(n / 10) + [DigitChar(n % 10)]
  }

  /** Reading back the decimal form gives the number again. */
  lemma {:induction false} DecimalRoundTrip(n: nat)
    ensures DecimalValue(NatToDecimal(n)) == n
  {
    var s := NatToDecimal(n);
    if n >= 10 {
      DecimalRoundTrip(n / 10);
      assert s[..|s| - 1] == NatToDecimal(n / 10);
    }
  }

  /** A number with exactly `k + 1` digits has a decimal form of that length. */
  lemma {:induction false} DecimalLength(n: nat, k: nat)
    requires Pow10(k) <= n < Pow10(k + 1)
    ensures |NatToDecimal(n)| == k + 1
  {
    if k > 0 {
      DecimalLength(n / 10, k - 1);
    }
  }

  /** `s.padStart(width, fill)` for a one-character fill: `s` itself when it is
      already `width` long, otherwise `s` preceded by enough fill characters. */
  function PadStart(s: string, width: nat, fill: char): (r: string)
    ensures |r| == if |s| < width then width else |s|
    ensures r[|r| - |s|..] == s
    ensures forall i :: 0 <= i < |r| - |s| ==> r[i] == fill
  {
    if width <= |s| then s else seq(width - |s|, _ => fill) + s
  }

  /** The ticket string for the number `i`. */
  function Ticket(i: nat): (t: string)
    ensures IsDecimal(t) && TicketWidth <= |t|
  {
    PadStart(NatToDecimal(i), TicketWidth, '0')
  }

  /** A ticket number with five digits is printed without padding, as a
      five-character decimal string whose value is that number. */
  lemma TicketFacts(i: nat)
    requires 10000 <= i < 100000
    ensures Ticket(i) == NatToDecimal(i)
    ensures |Ticket(i)| == TicketWidth && IsDecimal(Ticket(i))
    ensures DecimalValue(Ticket(i)) == i
  {
    DecimalLength(i, 4);
    DecimalRoundTrip(i);
  }

  /** The tickets of the `count` consecutive numbers starting at `from`. */
  function TicketRange(from: nat, count: nat): (r: seq<string>)
    ensures |r| == count
  {
    seq(count, (k: nat) => Ticket(from + k))
  }

  lemma TicketRangeSnoc(from: nat, count: nat)
    ensures TicketRange(from, count + 1) == TicketRange(from, count) + [Ticket(from + count)]
  {
    assert TicketRange(from, count + 1)[..count] == TicketRange(from, count);
  }

  /** The pool the raffle starts from (and returns to on reset). */
  function InitialPool(): (p: seq<string>)
    ensures |p| == PoolSize
  {
    TicketRange(FirstTicket, PoolSize)
  }

  /** The initial pool holds 10000 five-character decimal tickets, the k-th of
      them with value 10001 + k. */
  lemma InitialPoolValues()
    ensures |InitialPool()| == 10000
    ensures forall k :: 0 <= k < |InitialPool()| ==>
      |InitialPool()[k]| == TicketWidth && IsDecimal(InitialPool()[k]) &&
      DecimalValue(InitialPool()[k]) == FirstTicket + k
  {
    var p := InitialPool();
    TicketRangeValues(FirstTicket, PoolSize);
    assert p == TicketRange(FirstTicket, PoolSize);
  }

  /** Every ticket of a range of five-digit numbers is a five-character decimal
      string whose value is its number. */
  lemma TicketRangeValues(from: nat, count: nat)
    requires 10000 <= from && from + count <= 100000
    ensures forall k :: 0 <= k < count ==>
      |TicketRange(from, count)[k]| == TicketWidth && IsDecimal(TicketRange(from, count)[k]) &&
      DecimalValue(TicketRange(from, count)[k]) == from + k
  {
    var p := TicketRange(from, count);
    forall k | 0 <= k < count
      ensures |p[k]| == TicketWidth && IsDecimal(p[k]) && DecimalValue(p[k]) == from + k
    {
      assert p[k] == Ticket(from + k);
      TicketFacts(from + k);
    }
  }

  /** The first ticket is "10001" and the last is "20000". */
  lemma InitialPoolEnds()
    ensures |InitialPool()| == 10000
    ensures InitialPool()[0] == "10001" && InitialPool()[9999] == "20000"
  {
    TicketFacts(10001);
    TicketFacts(20000);
    assert NatToDecimal(10001) == "10001";
    assert NatToDecimal(20000) == "20000";
  }

  /** The initial pool is strictly ascending and therefore free of duplicates. */
  lemma InitialPoolAscending()
    ensures forall i, j :: 0 <= i < j < |InitialPool()| ==>
      IsDecimal(InitialPool()[i]) && IsDecimal(InitialPool()[j]) &&
      DecimalValue(InitialPool()[i]) < DecimalValue(InitialPool()[j])
    ensures Distinct(InitialPool())
  {
    InitialPoolValues();
    var p := InitialPool();
    forall i, j | 0 <= i < j < |p|
      ensures p[i] != p[j]
    {
      assert DecimalValue(p[i]) != DecimalValue(p[j]);
    }
  }

  /** The fill loop: push the ticket of every number from 10001 to 20000. */
  method BuildPool() returns (nums: seq<string>)
    ensures nums == InitialPool()
  {
    nums := [];
    var i := FirstTicket;
    while i <= LastTicket
      invariant FirstTicket <= i <= LastTicket + 1
      invariant nums == TicketRange(FirstTicket, i - FirstTicket)
    {
      TicketRangeSnoc(FirstTicket, i - FirstTicket);
      nums := nums + [PadStart(NatToDecimal(i), TicketWidth, '0')];
      i := i + 1;
    }
  }
}

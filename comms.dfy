/** The command string of `JohnRobot.move` in comms/johnrobot.py: each of
    forward, lateral and w is clipped to [-255, 255] and truncated to an
    integer, the duration is converted to whole milliseconds, and the five
    integers are joined with commas, broadcast id first and lateral before
    forward. Sending the string is not modelled.

    A parser of such strings is given alongside, so that what the string
    says can be stated as a round trip. */
module Comms {
  import opened Geometry

  /** The robot id that addresses every robot. */
  const Broadcast: int := -1

  /** The largest channel magnitude the wire accepts. */
  const MaxChannel: int := 255

  /** `int(np.clip(x, -255, 255))`. */
  function Channel(x: real): (c: int)
    ensures -MaxChannel <= c <= MaxChannel
    ensures -(MaxChannel as real) <= x <= MaxChannel as real ==> c == Trunc(x)
    ensures x > MaxChannel as real ==> c == MaxChannel
    ensures x < -(MaxChannel as real) ==> c == -MaxChannel
  {
    Trunc(Clip(x, -(MaxChannel as real), MaxChannel as real))
  }

  /** `int(time * 1000.0)`. */
  function Millis(time: real): (ms: int)
    ensures 0.0 <= time ==> 0 <= ms && ms as real <= time * 1000.0 < ms as real + 1.0
    ensures time < 0.0 ==> ms <= 0 && ms as real - 1.0 < time * 1000.0 <= ms as real
  {
    Trunc(time * 1000.0)
  }

  /** The digit character of 0 <= d < 10. */
  function DigitChar(d: int): char
    requires 0 <= d < 10
  {
    "0123456789"[d]
  }

  /** The value of a digit character. */
  function DigitValue(c: char): int
  {
    if '0' <= c <= '9' then c as int - '0' as int else 0
  }

  predicate IsDigit(c: char)
  {
    '0' <= c <= '9'
  }

  /** Every character of `s` is a decimal digit. */
  predicate AllDigits(s: string)
  {
    forall i :: 0 <= i < |s| ==> IsDigit(s[i])
  }

  /** The decimal digits of a natural number, most significant first. */
  function NatDigits(n: nat): (s: string)
    ensures |s| >= 1 && AllDigits(s)
  {
    if n < 10 then [DigitChar(n)] else NatDigits(n / 10) + [DigitChar(n % 10)]
  }

  /** Python's `str()` of an integer. */
  function Decimal(n: int): (s: string)
    ensures ',' !in s
  {
    if n < 0 then "-" + NatDigits(-n) else NatDigits(n)
  }

  /** The value of a string of decimal digits. */
  function ParseNat(s: string): nat
  {
    if s == [] then 0 else ParseNat(s[..|s| - 1]) * 10 + DigitValue(s[|s| - 1])
  }

  /** An optional minus sign followed by at least one digit. */
  function ParseInt(s: string): Option<int>
  {
    if |s| >= 2 && s[0] == '-' && AllDigits(s[1..]) then Some(0 - ParseNat(s[1..]))
    else if |s| >= 1 && AllDigits(s) then Some(ParseNat(s))
    else None
  }

  lemma {:induction false} NatDigitsRoundTrip(n: nat)
    ensures ParseNat(NatDigits(n)) == n
  {
    if n >= 10 {
      NatDigitsRoundTrip(n / 10);
      var s := NatDigits(n);
      assert s[..|s| - 1] == NatDigits(n / 10);
    }
  }

  /** Reading back a formatted integer gives the integer. */
  lemma DecimalRoundTrip(n: int)
    ensures ParseInt(Decimal(n)) == Some(n)
  {
    if n < 0 {
      NegativeRoundTrip(-n);
      assert Decimal(n) == "-" + NatDigits(-n);
    } else {
      NonNegativeRoundTrip(n);
      assert Decimal(n) == NatDigits(n);
    }
  }

  lemma NegativeRoundTrip(m: nat)
    ensures ParseInt("-" + NatDigits(m)) == Some(0 - m)
  {
    var d := NatDigits(m);
    NatDigitsRoundTrip(m);
    SignedDigits(d);
  }

  lemma NonNegativeRoundTrip(m: nat)
    ensures ParseInt(NatDigits(m)) == Some(m)
  {
    var d := NatDigits(m);
    NatDigitsRoundTrip(m);
    UnsignedDigits(d);
  }

  /** Digits alone read as their value. */
  lemma UnsignedDigits(d: string)
    requires |d| >= 1 && AllDigits(d)
    ensures ParseInt(d) == Some(ParseNat(d))
  {
    assert d[0] != '-';
  }

  /** A minus sign followed by digits reads as the negated digits. */
  lemma SignedDigits(d: string)
    requires |d| >= 1 && AllDigits(d)
    ensures ParseInt("-" + d) == Some(0 - ParseNat(d))
  {
    var s := "-" + d;
    assert s[1..] == d;
    assert !IsDigit(s[0]);
  }

  /** `",".join(fields)`. */
  function Join(fields: seq<string>): string
    requires |fields| >= 1
  {
    if |fields| == 1 then fields[0] else fields[0] + "," + Join(fields[1..])
  }

  /** `s.split(",")`. */
  function Split(s: string): (fields: seq<string>)
    ensures |fields| >= 1
  {
    if s == [] then [[]]
    else
      var rest := Split(s[1..]);
      if s[0] == ',' then [[]] + rest else [[s[0]] + rest[0]] + rest[1..]
  }

  /** Splitting a text with no comma, followed by anything, puts the text
      at the front of the first field. */
  lemma {:induction false} SplitPrefix(a: string, t: string)
    requires ',' !in a
    ensures Split(a + t) == [a + Split(t)[0]] + Split(t)[1..]
  {
    if a != [] {
      SplitPrefix(a[1..], t);
      assert a[0] in a;
      assert (a + t)[0] == a[0] && (a + t)[1..] == a[1..] + t;
      var rest := Split((a + t)[1..]);
      assert rest == [a[1..] + Split(t)[0]] + Split(t)[1..];
      assert rest[0] == a[1..] + Split(t)[0] && rest[1..] == Split(t)[1..];
      assert Split(a + t) == [[a[0]] + rest[0]] + rest[1..];
      assert [a[0]] + (a[1..] + Split(t)[0]) == a + Split(t)[0];
      assert [a[0]] + rest[0] == a + Split(t)[0];
      assert Split(a + t) == [a + Split(t)[0]] + Split(t)[1..];
    } else {
      assert a + t == t && a + Split(t)[0] == Split(t)[0];
      assert Split(t) == [Split(t)[0]] + Split(t)[1..];
    }
  }

  /** Splitting undoes joining fields that hold no comma. */
  lemma {:induction false} SplitJoin(fields: seq<string>)
    requires |fields| >= 1 && forall i :: 0 <= i < |fields| ==> ',' !in fields[i]
    ensures Split(Join(fields)) == fields
  {
    if |fields| == 1 {
      SplitPrefix(fields[0], []);
      assert fields[0] + [] == fields[0];
    } else {
      SplitJoin(fields[1..]);
      var tail := "," + Join(fields[1..]);
      SplitPrefix(fields[0], tail);
      assert Join(fields) == fields[0] + tail;
      assert tail[0] == ',' && tail[1..] == Join(fields[1..]);
      assert Split(tail) == [[]] + Split(Join(fields[1..]));
      assert fields[0] + [] == fields[0];
      assert fields == [fields[0]] + fields[1..];
    }
  }

  /** The fields of a list of integers. */
  function Decimals(ns: seq<int>): (fields: seq<string>)
    ensures |fields| == |ns| && forall i :: 0 <= i < |fields| ==> ',' !in fields[i]
  {
    if ns == [] then [] else [Decimal(ns[0])] + Decimals(ns[1..])
  }

  /** The five integers of a move command, in wire order. */
  function MoveFields(forward: real, lateral: real, w: real, time: real): seq<int>
  {
    [Broadcast, Channel(lateral), Channel(forward), Channel(w), Millis(time)]
  }

  /** `"{},{},{},{},{}".format(robot_id, l, f, w, time_ms)`. */
  function MoveCommand(forward: real, lateral: real, w: real, time: real): (cmd: string)
    ensures ParseInts(Split(cmd)) == Some([Broadcast, Channel(lateral), Channel(forward), Channel(w), Millis(time)])
  {
    var ns := MoveFields(forward, lateral, w, time);
    SplitJoin(Decimals(ns));
    DecimalsRoundTrip(ns);
    Join(Decimals(ns))
  }

  /** Reads a list of integer fields. */
  function ParseInts(fields: seq<string>): Option<seq<int>>
  {
    if fields == [] then Some([])
    else match (ParseInt(fields[0]), ParseInts(fields[1..]))
      case (Some(n), Some(ns)) => Some([n] + ns)
      case _ => None
  }

  /** Reading back formatted integers gives the integers. */
  lemma {:induction false} DecimalsRoundTrip(ns: seq<int>)
    ensures ParseInts(Decimals(ns)) == Some(ns)
  {
    if ns != [] {
      DecimalsRoundTrip(ns[1..]);
      DecimalRoundTrip(ns[0]);
      assert Decimals(ns)[1..] == Decimals(ns[1..]);
      assert ns == [ns[0]] + ns[1..];
    }
  }

  /** Every channel of any command is within [-255, 255]. */
  lemma ChannelsInRange(forward: real, lateral: real, w: real, time: real)
    ensures ParseInts(Split(MoveCommand(forward, lateral, w, time))).Some?
    ensures var ns := ParseInts(Split(MoveCommand(forward, lateral, w, time))).value;
      |ns| == 5 && ns[0] == -1 && forall i :: 1 <= i < 4 ==> -255 <= ns[i] <= 255
  {
    var ns := ParseInts(Split(MoveCommand(forward, lateral, w, time))).value;
    assert ns[1] == Channel(lateral) && ns[2] == Channel(forward) && ns[3] == Channel(w);
  }

  /** The default duration of half a second is sent as 500 ms. */
  lemma DefaultDuration()
    ensures Millis(0.5) == 500
  {
  }
}

/** Printing a 32-bit number in decimal by repeated subtraction of powers of ten held as pairs of
    16-bit words. */
module Decimal {
  import opened Bytes
  import opened Division

  function Pow10(k: nat): (p: nat)
    ensures p >= 1
  {
    if k == 0 then 1 else 10 * Pow10(k - 1)
  }

  /** The table: ten entries of a low and a high word, 10^9 first. */
  function PowerLow(i: nat): word
    requires i < 10
  {
    Pow10(9 - i) % 0x1_0000
  }

  function PowerHigh(i: nat): word
    requires i < 10
  {
    Pow10(9 - i) / 0x1_0000 % 0x1_0000
  }

  lemma Powers()
    ensures Pow10(0) == 1 && Pow10(1) == 10 && Pow10(2) == 100 && Pow10(3) == 1000 && Pow10(4) == 10000
    ensures Pow10(5) == 100000 && Pow10(6) == 1000000 && Pow10(7) == 10000000 && Pow10(8) == 100000000
    ensures Pow10(9) == 1000000000 && Pow10(10) == 10000000000
  {
    assert Pow10(2) == 10 * Pow10(1) && Pow10(4) == 10 * Pow10(3) && Pow10(6) == 10 * Pow10(5)
        && Pow10(8) == 10 * Pow10(7) && Pow10(10) == 10 * Pow10(9);
  }

  /** The two words of a table entry make the power. */
  lemma TableEntry(i: nat)
    requires i < 10
    ensures Wide(PowerLow(i), PowerHigh(i)) == Pow10(9 - i)
  {
    Powers();
    var p := Pow10(9 - i);
    assert p <= 1000000000;
    assert p / 0x1_0000 < 0x1_0000;
  }

  const ZERO: byte := 0x30
  const SPACE: byte := 0x20

  /** The digit a character stands for; a blank counts as zero. */
  function Digit(c: byte): int { if c == SPACE then 0 else c - ZERO }

  /** The number a buffer spells. */
  function Value(buf: seq<byte>): int {
    if buf == [] then 0 else 10 * Value(buf[..|buf| - 1]) + Digit(buf[|buf| - 1])
  }

  /** Blanks, then digits of which the first is not zero unless it is the last character. */
  predicate RightAligned(buf: seq<byte>) {
    buf != [] && exists j :: 0 <= j < |buf| && BlankUntil(buf, j)
  }

  predicate BlankUntil(buf: seq<byte>, j: nat)
    requires j < |buf|
  {
    && (forall i :: 0 <= i < j ==> buf[i] == SPACE)
    && (forall i :: j <= i < |buf| ==> ZERO <= buf[i] < ZERO + 10)
    && (buf[j] == ZERO ==> j == |buf| - 1)
  }

  predicate AllDigits(buf: seq<byte>) {
    forall i :: 0 <= i < |buf| ==> ZERO <= buf[i] < ZERO + 10
  }

  lemma {:induction false} ValueBounds(buf: seq<byte>)
    requires forall i :: 0 <= i < |buf| ==> buf[i] == SPACE || ZERO <= buf[i] < ZERO + 10
    ensures 0 <= Value(buf) < Pow10(|buf|)
    decreases |buf|
  {
    if buf != [] {
      ValueBounds(buf[..|buf| - 1]);
    }
  }

  /** Zeros at the end multiply by the power of their number. */
  lemma {:induction false} TrailingZeros(buf: seq<byte>, x: nat)
    requires x <= |buf| && forall i :: x <= i < |buf| ==> buf[i] == ZERO
    ensures Value(buf) == Value(buf[..x]) * Pow10(|buf| - x)
    decreases |buf| - x
  {
    if x < |buf| {
      var s := buf[..|buf| - 1];
      assert s[..x] == buf[..x];
      TrailingZeros(s, x);
    } else {
      assert buf[..x] == buf;
    }
  }

  /** Only the last character differs. */
  lemma ValueOfNext(buf: seq<byte>, x: nat)
    requires x < |buf|
    ensures Value(buf[..x + 1]) == 10 * Value(buf[..x]) + Digit(buf[x])
  {
    assert buf[..x + 1][..x] == buf[..x];
  }

  /** Blanking leading zeros does not change the number. */
  lemma {:induction false} SameValue(a: seq<byte>, b: seq<byte>)
    requires |a| == |b| && forall i :: 0 <= i < |a| ==> Digit(a[i]) == Digit(b[i])
    ensures Value(a) == Value(b)
    decreases |a|
  {
    if a != [] {
      SameValue(a[..|a| - 1], b[..|b| - 1]);
    }
  }

  /** There is only one right-aligned form of a number. */
  lemma {:induction false} FormIsUnique(a: seq<byte>, b: seq<byte>)
    requires |a| == |b| && RightAligned(a) && RightAligned(b) && Value(a) == Value(b)
    ensures a == b
    decreases |a|
  {
    hide Value;
    var n := |a| - 1;
    var i :| 0 <= i <= n && BlankUntil(a, i);
    var j :| 0 <= j <= n && BlankUntil(b, j);
    var a', b' := a[..n], b[..n];
    LastAndFront(a, b);
    FrontForm(a, i);
    FrontForm(b, j);
    if i < n && j < n {
      FormIsUnique(a', b');
    } else if i < n {
      Positive(a', i);
    } else if j < n {
      Positive(b', j);
    }
    assert a == a' + [a[n]] && b == b' + [b[n]];
  }

  lemma LastAndFront(a: seq<byte>, b: seq<byte>)
    requires |a| == |b| > 0 && Value(a) == Value(b)
    requires ZERO <= a[|a| - 1] < ZERO + 10 && ZERO <= b[|b| - 1] < ZERO + 10
    ensures a[|a| - 1] == b[|b| - 1] && Value(a[..|a| - 1]) == Value(b[..|b| - 1])
  {
  }

  lemma FrontForm(a: seq<byte>, i: nat)
    requires i < |a| && BlankUntil(a, i)
    ensures i < |a| - 1 ==> RightAligned(a[..|a| - 1]) && BlankUntil(a[..|a| - 1], i)
    ensures i == |a| - 1 ==> Value(a[..|a| - 1]) == 0 && forall k :: 0 <= k < i ==> a[k] == SPACE
  {
    if i < |a| - 1 {
      assert BlankUntil(a[..|a| - 1], i);
    } else {
      Blank(a[..|a| - 1]);
    }
  }

  lemma {:induction false} Blank(a: seq<byte>)
    requires forall k :: 0 <= k < |a| ==> a[k] == SPACE
    ensures Value(a) == 0
    decreases |a|
  {
    if a != [] {
      Blank(a[..|a| - 1]);
    }
  }

  lemma {:induction false} Positive(a: seq<byte>, i: nat)
    requires i < |a| && BlankUntil(a, i) && a[i] != ZERO
    ensures Value(a) > 0
    decreases |a|
  {
    var r := a[..|a| - 1];
    if i < |a| - 1 {
      assert BlankUntil(r, i);
      Positive(r, i);
    } else {
      Blank(r);
    }
  }

  // ------------------------------------------------------------------ the routine

  /** The state between two steps: `x` digits are settled, digit `x` is being counted up, the others are
      still zero, and the number is what they spell plus the rest. */
  ghost predicate Counting(buf: seq<byte>, x: nat, rest: nat, n: nat) {
    && |buf| == 10 && x <= 9 && AllDigits(buf)
    && (forall i :: x < i < 10 ==> buf[i] == ZERO)
    && Value(buf) + rest == n
  }

  /** What a digit character is worth at position `x` of ten. */
  function Worth(c: byte, x: nat): int
    requires x <= 9
  {
    (c - ZERO) * Pow10(9 - x)
  }

  lemma WorthUp(c: byte, x: nat)
    requires x <= 9 && c < 255
    ensures Worth(c + 1, x) == Worth(c, x) + Pow10(9 - x)
    ensures Worth(ZERO, x) == 0
  {
    Distributed(c + 1 - ZERO, c - ZERO, Pow10(9 - x));
  }

  lemma Distributed(a: int, b: int, p: int)
    ensures a * p - b * p == (a - b) * p
  {
  }

  /** Counting digit `x` up by one adds its power of ten. */
  lemma DigitUp(buf: seq<byte>, x: nat)
    requires |buf| == 10 && x <= 9 && AllDigits(buf) && (forall i :: x < i < 10 ==> buf[i] == ZERO)
    ensures Value(buf[x := buf[x] + 1]) == Value(buf) + Pow10(9 - x)
  {
    hide Value, Pow10, AllDigits;
    IsDigit(buf, x);
    var b := buf[x := buf[x] + 1];
    TrailingZeros(buf, x + 1);
    TrailingZeros(b, x + 1);
    ValueOfNext(buf, x);
    ValueOfNext(b, x);
    assert b[..x] == buf[..x];
    OneMoreUnit(Value(buf[..x + 1]), Pow10(9 - x));
  }

  lemma IsDigit(buf: seq<byte>, x: nat)
    requires x < |buf| && AllDigits(buf)
    ensures ZERO <= buf[x] < ZERO + 10
  {
  }

  lemma OneMoreUnit(v: int, p: int)
    ensures (v + 1) * p == v * p + p
  {
  }

  /** The last digit is set at once. */
  lemma LastDigit(buf: seq<byte>, w: word)
    requires |buf| == 10 && buf[9] == ZERO && w < 10
    ensures Value(buf[9 := ZERO + w]) == Value(buf) + w
  {
    assert buf[9 := ZERO + w][..9] == buf[..9];
  }

  /** A digit that is still counted up is below 9: the rest was below ten of its powers. */
  lemma StillADigit(c: byte, rest: nat, x: nat)
    requires x <= 9 && ZERO <= c && Worth(c, x) + rest < Pow10(10 - x) && rest >= Pow10(9 - x)
    ensures c < ZERO + 9
  {
    var p := Pow10(9 - x);
    assert Pow10(10 - x) == 10 * p;
    OneMoreUnit(c - ZERO, p);
    Smaller(c - ZERO + 1, 10, p);
  }

  lemma Smaller(a: nat, b: nat, p: nat)
    requires a * p < b * p
    ensures a < b
  {
    if a >= b {
      Grows(b, a, p);
    }
  }

  /** The 32-bit number in the two words. */
  function Wide(w1: word, w2: word): nat { w1 as nat + 0x1_0000 * w2 as nat }

  /** Comparison and subtraction on the words are comparison and subtraction on the number. */
  method SubtractIfFits(w1: word, w2: word, p1: word, p2: word) returns (fits: bool, r1: word, r2: word)
    ensures fits <==> Wide(w1, w2) >= Wide(p1, p2)
    ensures Wide(r1, r2) == if fits then Wide(w1, w2) - Wide(p1, p2) else Wide(w1, w2)
  {
    fits, r1, r2 := false, w1, w2;
    if w2 < p2 { return; }
    if w2 == p2 {
      if w1 < p1 { return; }
    }
    var borrow := if w1 >= p1 then 0 else 1;
    fits := true;
    r1 := if w1 >= p1 then w1 - p1 else w1 + 0x1_0000 - p1;
    r2 := w2 - p2 - borrow;
  }

  /** Takes a 32-bit number, as its low and high word, to a ten-character buffer. */
  method Unpack(low: word, high: word, buf: array<byte>)
    requires buf.Length == 10
    modifies buf
    ensures Value(buf[..]) == Wide(low, high)
    ensures RightAligned(buf[..])
  {
    hide Value, Pow10, Worth, PowerLow, PowerHigh;
    var w1: word, w2: word := low, high;
    ghost var n := Wide(low, high);
    forall i | 0 <= i < 10 { buf[i] := ZERO; }
    Powers();
    ZeroBuffer(buf[..]);
    WorthUp(ZERO, 0);
    var x := 0;
    while x < 9
      invariant 0 <= x <= 9
      invariant Counting(buf[..], x, Wide(w1, w2), n)
      invariant Worth(buf[x], x) + Wide(w1, w2) < Pow10(10 - x)
      invariant x == 9 ==> buf[9] == ZERO && w2 == 0 && w1 < 10
      decreases 9 - x, Wide(w1, w2)
    {
      TableEntry(x);
      StillADigitIf(buf[x], Wide(w1, w2), x);
      var fits;
      fits, w1, w2 := SubtractIfFits(w1, w2, PowerLow(x), PowerHigh(x));
      if fits {
        DigitUp(buf[..], x);
        WorthUp(buf[x], x);
        buf[x] := buf[x] + 1;
      } else {
        if w2 == 0 && w1 == 0 {
          BlankZeros(buf, n);
          return;
        }
        x := x + 1;
        WorthUp(ZERO, x);
        assert buf[x] == ZERO;
      }
    }
    LastDigit(buf[..], w1);
    buf[9] := ZERO + w1;          // for a digit, adding is the same as setting bits 4 and 5
    BlankZeros(buf, n);
  }

  lemma StillADigitIf(c: byte, rest: nat, x: nat)
    requires x <= 9 && ZERO <= c && Worth(c, x) + rest < Pow10(10 - x)
    ensures rest >= Pow10(9 - x) ==> c < ZERO + 9
  {
    if rest >= Pow10(9 - x) {
      StillADigit(c, rest, x);
    }
  }

  lemma ZeroBuffer(buf: seq<byte>)
    requires |buf| == 10 && forall i :: 0 <= i < 10 ==> buf[i] == ZERO
    ensures Value(buf) == 0
  {
    TrailingZeros(buf, 0);
  }

  /** Replaces leading zeros, but never the last character, by spaces. */
  method BlankZeros(buf: array<byte>, ghost n: nat)
    requires buf.Length == 10 && AllDigits(buf[..]) && Value(buf[..]) == n
    modifies buf
    ensures Value(buf[..]) == n && RightAligned(buf[..])
  {
    ghost var before := buf[..];
    var x := 0;
    while x < 9 && buf[x] == ZERO
      invariant 0 <= x <= 9
      invariant forall i :: 0 <= i < x ==> buf[i] == SPACE && before[i] == ZERO
      invariant forall i :: x <= i < 10 ==> buf[i] == before[i]
    {
      buf[x] := SPACE;
      x := x + 1;
    }
    SameValue(before, buf[..]);
    assert BlankUntil(buf[..], x);
  }
}

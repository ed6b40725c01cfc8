/** The 40 bits of a directory entry's date: how the format lays them out, and how the volume writer and
    DOS each pack them. */
module Dates {

  /** The parts of a date, the year from 1980 on and the months and days from 1. */
  datatype Date = Date(year: bv16, month: bv16, day: bv16, hour: bv16, minute: bv16, second: bv16)

  /** The dates the volume writer accepts, but for the lengths of the months. */
  predicate Valid(d: Date) {
    d.year <= 511 && 1 <= d.month <= 12 && 1 <= d.day <= 31 && d.hour <= 23 && d.minute <= 59 && d.second <= 59
  }

  datatype Bytes = Bytes(b0: bv8, b1: bv8, b2: bv8, b3: bv8, b4: bv8)

  /** The format's layout: two bits and six of the year, four of the month, five of the day, five of the
      hour, five of the minute, seven of the second. */
  function Unpacked(b: Bytes): Date {
    var (b0, b1, b2, b3, b4) := (b.b0 as bv16, b.b1 as bv16, b.b2 as bv16, b.b3 as bv16, b.b4 as bv16);
    Date(((b0 & 0x03) << 6) | (b1 >> 2),
         ((b1 & 0x03) << 2) | (b2 >> 6),
         (b2 >> 1) & 0x1F,
         ((b2 & 0x01) << 4) | (b3 >> 4),
         ((b3 & 0x0F) << 1) | (b4 >> 7),
         b4 & 0x7F)
  }

  function Low(w: bv16): bv8 { (w & 0xFF) as bv8 }

  function High(w: bv16): bv8 { (w >> 8) as bv8 }

  /** As the volume writer packs it. */
  function Packed(d: Date): Bytes {
    Bytes(Low(d.year >> 6),
          Low((d.year << 2) | (d.month >> 2)),
          Low((d.month << 6) | (d.day << 1) | (d.hour >> 4)),
          Low((d.hour << 4) | (d.minute >> 1)),
          Low((d.minute << 7) | d.second))
  }

  function Swapped(w: bv16): bv16 { (w << 8) | (w >> 8) }

  /** As DOS packs it, setting bits in two bytes at a time. DOS counts months and days from 0. */
  method PackedByDos(year: bv16, month: bv16, day: bv16, hour: bv16, minute: bv16, second: bv16)
    returns (b: Bytes)
    requires year <= 0xFF && month < 12 && day < 31 && hour <= 23 && minute <= 59 && second <= 59
    ensures Unpacked(b) == Date(year, month + 1, day + 1, hour, minute & 0x1F, second)
    ensures b.b0 < 4
  {
    var b0, b1, b2, b3, b4: bv8 := 0, 0, 0, 0, 0;
    var a := Swapped((year & 0xFF) << 2);
    b0, b1 := b0 | Low(a), b1 | High(a);
    a := Swapped(Swapped((month + 1) & 0x0F) >> 2);
    b1, b2 := b1 | Low(a), b2 | High(a);
    a := ((day + 1) & 0x1F) << 1;
    b2, b3 := b2 | Low(a), b3 | High(a);
    a := Swapped((hour & 0x1F) << 4);
    b2, b3 := b2 | Low(a), b3 | High(a);
    a := Swapped(Swapped(((second << 8) | minute) & 0x1F) >> 1);
    b3, b4 := b3 | Low(a), b4 | High(a);
    b4 := b4 | Low(second & 0x7F);
    b := Bytes(b0, b1, b2, b3, b4);
  }

  /** What is read back from the volume writer's bytes: the year without its ninth bit, the minute
      without its sixth; and a minute from 32 on makes the hour odd. */
  lemma ReadBack(d: Date)
    requires Valid(d)
    ensures Unpacked(Packed(d))
         == d.(year := d.year & 0xFF, minute := d.minute & 0x1F,
               hour := if d.minute >= 32 then d.hour | 1 else d.hour)
  {
  }

  /** A date survives exactly in the first 32 minutes of an hour, before 2236. */
  lemma DatesSurvive(d: Date)
    requires Valid(d)
    ensures Unpacked(Packed(d)) == d <==> d.year < 256 && d.minute < 32
  {
    ReadBack(d);
  }

  /** Bytes in the format's range are determined by the date they are read as. */
  lemma LayoutUnique(b: Bytes, c: Bytes)
    requires b.b0 < 4 && c.b0 < 4 && Unpacked(b) == Unpacked(c)
    ensures b == c
  {
  }

  /** The volume writer's bytes are those DOS makes of the same date exactly in the first 32 minutes of an
      hour, or in an odd hour. */
  lemma WriterAgreesWithDos(d: Date, b: Bytes)
    requires Valid(d) && d.year < 256
    requires b.b0 < 4 && Unpacked(b) == d.(minute := d.minute & 0x1F)
    ensures Packed(d) == b <==> d.minute < 32 || d.hour & 1 == 1
  {
    ReadBack(d);
    assert Packed(d).b0 < 4;
    if Unpacked(Packed(d)) == Unpacked(b) {
      LayoutUnique(Packed(d), b);
    }
  }
}

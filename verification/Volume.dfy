/**
 The volume curve and the balance bytes, both computed with multiplications by reciprocals
 instead of divisions.
 */
module Volume {
  import opened Bytes
  import opened Powers

  type Word = x: int | -0x8000_0000 <= x < 0x8000_0000

  const RADIX: nat := 0x1_0000_0000

  /** The high word of a 64-bit product. */
  function High(x: int): int { x / RADIX }

  /** Division truncating towards zero, as in C. */
  function Quot(x: int, d: nat): int
    requires d > 0
  {
    if x >= 0 then x / d else -(-x / d)
  }

  /** 0 for a number that is not negative, -1 for one that is. */
  function Sign(x: int): int { if x >= 0 then 0 else -1 }

  // ---------------------------------------------------------------- reciprocals

  function TwoThirds(x: int): int { High(0xAAAAAAAC * x) }

  function ByMillion(n: int): int { High(0x431BDE83 * n) / 0x4_0000 - Sign(Int32(n)) }

  function By28(x: int): int { Int32(High(-1840700269 * x) + x) / 16 - Sign(x) }

  /** The multiplication is exact below 2^30; above, as long as the surplus of the factor is
      less than what the fraction of 2x/3 lacks to the next whole number. */
  lemma TwoThirdsIsExact(x: nat)
    ensures TwoThirds(x) == 2 * x / 3 <==> x < 0x4000_0000 * (if x % 3 == 0 then 3 else x % 3)
  {
    var q, r := x / 3, x % 3;
    var rest := 4 * q + 0xAAAAAAAC * r;
    assert 0xAAAAAAAC * x == (2 * q) * RADIX + rest;
    assert TwoThirds(x) == 2 * q + rest / RADIX;
    assert 2 * x / 3 == 2 * q + 2 * r / 3;
  }

  lemma Floor(a: int, d: nat, q: int)
    requires d > 0 && q * d <= a < (q + 1) * d
    ensures a / d == q
  {
    var p := a / d;
    assert a == p * d + a % d;
    if q < p {
      TimesGrows(q + 1, p, d);
    } else if p < q {
      TimesGrows(p + 1, q, d);
    }
  }

  lemma ByMillionIsExact(n: Word)
    ensures ByMillion(n) == Quot(n, 1000000)
  {
    var m: int := n;
    var a := if m >= 0 then m else -m;
    var q, r := a / 1000000, a % 1000000;
    var h := High(0x431BDE83 * m);
    assert h * RADIX <= 0x431BDE83 * m < (h + 1) * RADIX;
    if m >= 0 {
      Floor(h, 0x4_0000, q);
    } else {
      Floor(h, 0x4_0000, -q - 1);
    }
  }

  /** Adding the factor back undoes its being negative as a 32-bit number. */
  lemma Added28(m: Word)
    ensures var k := High(-1840700269 * m) + m; k * RADIX <= 2454267027 * m < (k + 1) * RADIX && Int32(k) == k
  {
    var h := High(-1840700269 * m);
    assert h * RADIX <= -1840700269 * m < (h + 1) * RADIX;
    assert (h + m) * RADIX <= 2454267027 * m < (h + m + 1) * RADIX;
  }

  lemma By28IsExact(n: Word)
    ensures By28(n) == Quot(n, 28)
  {
    var m: int := n;
    var a: nat := if m >= 0 then m else -m;
    var q, r := a / 28, a % 28;
    var k := High(-1840700269 * n) + n;
    Added28(n);
    assert 2454267027 * a == 0x10_0000_0000 * q + 20 * q + 2454267027 * r;
    if n >= 0 {
      Floor(k, 16, q);
    } else {
      Floor(k, 16, -q - 1);
    }
  }

  // ---------------------------------------------------------------- volume

  /** A volume setting in millionths of the maximum. */
  function Level(volume: int): int {
    var setvol := Int32(10000 * volume);
    if setvol <= 299999 then TwoThirds(Int32(setvol + 10000))
    else if setvol <= 599999 then Int32(Int32(setvol - 89088) - 912)
    else Int32(Int32(50000 * volume) - 950000) / 4
  }

  function SetVolume(volume: int, max: int): int { ByMillion(Level(volume) * max) }

  /** Three straight pieces: 1/150, 1/100 and 1/80 of the maximum a step. */
  function Curve(volume: Byte): (l: nat)
    ensures 0 < l <= 2950000
  {
    if volume < 30 then 20000 * (volume + 1) / 3
    else if volume < 60 then 10000 * (volume - 9)
    else 12500 * (volume - 19)
  }

  lemma LevelInPieces(volume: Byte)
    ensures Level(volume) == Curve(volume)
  {
    if volume < 30 {
      TwoThirdsIsExact(10000 * volume + 10000);
    }
  }

  lemma Product(a: nat, m: nat, x: nat, y: nat)
    requires x <= a && y <= m
    ensures 0 <= x * y <= a * m
  {
    assert a * m - x * y == a * (m - y) + (a - x) * y;
    assert a * (m - y) >= 0 && (a - x) * y >= 0 && x * y >= 0;
  }

  /** No step overflows, and the result is the curve's share of the maximum, rounded down. */
  lemma SetVolumeIsShare(volume: Byte, max: Byte)
    ensures SetVolume(volume, max) == Curve(volume) * max / 1000000
    ensures Curve(volume) == if volume < 30 then (20000 * volume + 20000) / 3
                             else if volume < 60 then 10000 * volume - 90000
                             else 12500 * volume - 237500
  {
    LevelInPieces(volume);
    Product(2950000, 255, Curve(volume), max);
    ByMillionIsExact(Curve(volume) * max);
  }

  lemma CurveRises(v: Byte, w: Byte)
    requires v <= w
    ensures Curve(v) <= Curve(w)
  {
  }

  lemma ShareRises(x: nat, y: nat, max: nat, max': nat)
    requires x <= y && max <= max'
    ensures x * max / 1000000 <= y * max' / 1000000
  {
    Product(y, max', x, max);
  }

  /** Louder settings are never quieter, whatever the maximum; nor is a higher maximum. */
  lemma VolumeIsMonotone(v: Byte, w: Byte, max: Byte, max': Byte)
    requires v <= w && max <= max'
    ensures SetVolume(v, max) <= SetVolume(w, max')
  {
    SetVolumeIsShare(v, max);
    SetVolumeIsShare(w, max');
    CurveRises(v, w);
    ShareRises(Curve(v), Curve(w), max, max');
  }

  lemma TopShares(max: Byte)
    ensures 1000000 * max / 1000000 == max
    ensures 1012500 * max / 1000000 <= max <==> max < 80
  {
  }

  lemma TopSettings(max: Byte)
    ensures SetVolume(99, max) == max
    ensures SetVolume(100, max) <= max <==> max < 80
  {
    TopShares(max);
    assert Curve(99) == 1000000 && Curve(100) == 1012500;
    SetVolumeIsShare(99, max);
    SetVolumeIsShare(100, max);
  }

  /** Setting 99 is the maximum, and up to 100 nothing is above it exactly when it is below 80. */
  lemma VolumeWithinMaximum(max: Byte)
    ensures SetVolume(99, max) == max
    ensures (forall v: Byte :: v <= 100 ==> SetVolume(v, max) <= max) <==> max < 80
  {
    TopSettings(max);
    forall v: Byte | v <= 100
      ensures SetVolume(v, max) <= SetVolume(100, max)
    {
      VolumeIsMonotone(v, 100, max, max);
    }
  }

  // ---------------------------------------------------------------- balance

  /** The byte for one setting: 14 times its successor, divided by 28. */
  method OldByte(o: Byte) returns (b: Byte)
    ensures b == (o + 1) / 2
  {
    var v := 2 * (7 * (o + 1));
    By28IsExact(v);
    b := By28(v) % 256;
  }

  /** The two bytes sent to an old MCU: half the setting, rounded up. */
  method OldBalance(ob1: Byte, ob2: Byte) returns (buf: array<Byte>)
    ensures fresh(buf) && buf[..] == [(ob1 + 1) / 2, (ob2 + 1) / 2]
  {
    buf := new Byte[2](_ => 0);
    buf[0] := OldByte(ob1);
    buf[1] := OldByte(ob2);
  }
}

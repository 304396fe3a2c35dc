/** Frames per second of a display from its timings and the pixel period in picoseconds. */
module Fps {
  import opened Bytes
  import opened Options
  import opened Powers

  datatype Screen = Screen(xRes: nat, left: nat, right: nat, hsync: nat,
                           yRes: nat, upper: nat, lower: nat, vsync: nat)
  {
    function Total(): nat { (xRes + left + right + hsync) * (yRes + upper + lower + vsync) }
  }

  /** Each of the eight timings counts: one more pixel in a line adds a pixel to every line, and
      one more line adds a whole line. */
  lemma EachTimingCounts(s: Screen, d: nat)
    ensures var lines := s.yRes + s.upper + s.lower + s.vsync;
            && s.(xRes := s.xRes + d).Total() == s.Total() + d * lines
            && s.(left := s.left + d).Total() == s.Total() + d * lines
            && s.(right := s.right + d).Total() == s.Total() + d * lines
            && s.(hsync := s.hsync + d).Total() == s.Total() + d * lines
    ensures var pixels := s.xRes + s.left + s.right + s.hsync;
            && s.(yRes := s.yRes + d).Total() == s.Total() + d * pixels
            && s.(upper := s.upper + d).Total() == s.Total() + d * pixels
            && s.(lower := s.lower + d).Total() == s.Total() + d * pixels
            && s.(vsync := s.vsync + d).Total() == s.Total() + d * pixels
    ensures Screen(0, 0, 0, 0, 0, 0, 0, 0).Total() == 0
  {
    var lines, pixels := s.yRes + s.upper + s.lower + s.vsync, s.xRes + s.left + s.right + s.hsync;
    Spreads(pixels, d, lines);
    Spreads(lines, d, pixels);
  }

  lemma Spreads(a: nat, d: nat, b: nat)
    ensures (a + d) * b == a * b + d * b
  {
  }

  const TERA: nat := 1000000000000

  /** A quotient rounded to nearest. */
  function Rounded(a: nat, d: nat): nat
    requires d > 0
  {
    (a + d / 2) / d
  }

  function Whole(total: nat, period: nat): nat
    requires total > 0 && period > 0
  {
    Rounded(Rounded(TERA, total), period)
  }

  function Calc(screen: Option<Screen>, period: nat): int
    requires screen.Some? ==> screen.value.Total() > 0 && period > 0
  {
    match screen
    case None => 0
    case Some(s) => Int32(Whole(s.Total(), period))
  }

  function Abs(x: int): nat { if x < 0 then -x else x }

  /** The rounded quotient is the only number within half a divisor, ties going up. */
  lemma Nearest(a: nat, d: nat, q: nat)
    requires d > 0
    ensures q == Rounded(a, d) <==> (2 * q - 1) * d <= 2 * a < (2 * q + 1) * d
  {
    var p := Rounded(a, d);
    var h := d / 2;
    assert a + h == p * d + (a + h) % d;
    assert p * d <= a + h < p * d + d;
    assert (2 * p - 1) * d == 2 * (p * d) - d;
    assert (2 * p + 1) * d == 2 * (p * d) + d;
    if q < p {
      TimesGrows(2 * q + 1, 2 * p - 1, d);
    } else if p < q {
      TimesGrows(2 * p + 1, 2 * q - 1, d);
    }
  }

  lemma Within(a: nat, d: nat)
    requires d > 0
    ensures Abs(2 * (Rounded(a, d) * d) - 2 * a) <= d
  {
    var p := Rounded(a, d);
    Nearest(a, d, p);
    assert (2 * p - 1) * d == 2 * (p * d) - d;
    assert (2 * p + 1) * d == 2 * (p * d) + d;
  }

  /** The two roundings together: off by at most half a pixel clock tick a frame, and half a
      frame. */
  lemma WholeIsClose(total: nat, period: nat)
    requires total > 0 && period > 0
    ensures Abs(2 * (Whole(total, period) * (total * period)) - 2 * TERA) <= total * period + total
  {
    var h := Rounded(TERA, total);
    Within(TERA, total);
    Within(h, period);
    Chain(TERA, h, Rounded(h, period), total, period);
  }

  lemma Chain(a: nat, h: nat, f: nat, total: nat, period: nat)
    requires Abs(2 * (h * total) - 2 * a) <= total
    requires Abs(2 * (f * period) - 2 * h) <= period
    ensures Abs(2 * (f * (total * period)) - 2 * a) <= total * period + total
  {
    var fp := f * period;
    Regroup(f, total, period);
    Spread(fp, h, total, period);
  }

  lemma Regroup(f: nat, t: nat, p: nat)
    ensures f * (t * p) == f * p * t
  {
  }

  lemma Spread(x: nat, h: nat, t: nat, p: nat)
    requires Abs(2 * x - 2 * h) <= p
    ensures Abs(2 * (x * t) - 2 * (h * t)) <= t * p
  {
    TimesGrows(0 - p, 2 * x - 2 * h, t);
    TimesGrows(2 * x - 2 * h, p, t);
    assert (2 * x - 2 * h) * t == 2 * (x * t) - 2 * (h * t);
    assert (0 - p) * t == -(p * t);
  }

  /** The rate fits in an int, told from the frame total and the pixel period alone. */
  predicate Fits(total: nat, period: nat) {
    TERA + total / 2 < total * (0x8000_0000 * period - period / 2)
  }

  lemma Below(a: int, d: nat, b: int)
    requires d > 0
    ensures a / d < b <==> a < d * b
  {
    var q := a / d;
    assert a == d * q + a % d;
    if q < b {
      TimesGrows(q + 1, b, d);
    } else {
      TimesGrows(b, q, d);
    }
  }

  lemma FitsIsBelow(total: nat, period: nat)
    requires total > 0 && period > 0
    ensures Fits(total, period) <==> Whole(total, period) < 0x8000_0000
  {
    var h := Rounded(TERA, total);
    Below(h + period / 2, period, 0x8000_0000);
    Below(TERA + total / 2, total, 0x8000_0000 * period - period / 2);
  }

  /** The int returned is the exact rate, and keeps its bound, exactly when the rate fits. */
  lemma CalcIsClose(s: Screen, period: nat)
    requires s.Total() > 0 && period > 0
    ensures Calc(Some(s), period) == Whole(s.Total(), period) <==> Fits(s.Total(), period)
    ensures var t := s.Total();
            Abs(2 * (Calc(Some(s), period) * (t * period)) - 2 * TERA) <= t * period + t <==> Fits(t, period)
  {
    var t := s.Total();
    var f := Whole(t, period);
    WholeIsClose(t, period);
    FitsIsBelow(t, period);
    Cast(f);
    if f >= 0x8000_0000 {
      TooFar(f, Int32(f), t, period);
    }
  }

  lemma Cast(x: nat)
    ensures Int32(x) == x <==> x < 0x8000_0000
    ensures x >= 0x8000_0000 ==> x - Int32(x) >= 0x1_0000_0000
    ensures 0x8000_0000 <= x < 0x1_0000_0000 ==> Int32(x) < 0
  {
  }

  lemma TooFar(f: nat, g: int, t: nat, period: nat)
    requires t > 0 && period > 0 && f - g >= 0x1_0000_0000
    requires Abs(2 * (f * (t * period)) - 2 * TERA) <= t * period + t
    ensures Abs(2 * (g * (t * period)) - 2 * TERA) > t * period + t
  {
    var n := t * period;
    TimesGrows(1, period, t);
    TimesGrows(0x1_0000_0000, f - g, n);
    assert g * n == f * n - (f - g) * n;
  }

  lemma RoundedFalls(a: nat, b: nat, d: nat, e: nat)
    requires 0 < d <= e && b <= a
    ensures Rounded(b, e) <= Rounded(a, d)
  {
    var p, q := Rounded(a, d), Rounded(b, e);
    Nearest(a, d, p);
    Nearest(b, e, q);
    Ordered(a, b, d, e, p, q);
  }

  lemma Ordered(a: nat, b: nat, d: nat, e: nat, p: nat, q: nat)
    requires 0 < d <= e && b <= a
    requires 2 * a < (2 * p + 1) * d && (2 * q - 1) * e <= 2 * b
    ensures q <= p
  {
    if p < q {
      TimesGrows(2 * p + 1, 2 * q - 1, d);
      TimesGrows(d, e, 2 * q - 1);
    }
  }

  /** A display whose frame is no smaller and whose pixels are no faster. */
  predicate Slower(s: Screen, period: nat, s': Screen, period': nat) {
    0 < s.Total() <= s'.Total() && 0 < period <= period'
  }

  lemma WholeFalls(t: nat, t': nat, period: nat, period': nat)
    requires 0 < t <= t' && 0 < period <= period'
    ensures Whole(t', period') <= Whole(t, period)
  {
    RoundedFalls(TERA, TERA, t, t');
    RoundedFalls(Rounded(TERA, t), Rounded(TERA, t'), period, period');
  }

  /** From a quotient that does not fit, longer periods lead through one that is negative as
      an int. */
  lemma {:induction false} NegativeLater(h: nat, period: nat) returns (p: nat)
    requires period > 0 && Rounded(h, period) >= 0x8000_0000
    ensures p >= period && 0x8000_0000 <= Rounded(h, p) < 0x1_0000_0000
    decreases if period <= 2 * h then 2 * h - period else 0
  {
    p := period;
    if Rounded(h, period) >= 0x1_0000_0000 {
      Nearest(h, period, Rounded(h, period));
      TimesGrows(0x1_FFFF_FFFF, 2 * Rounded(h, period) - 1, period);
      StillBig(h, period);
      p := NegativeLater(h, period + 1);
    }
  }

  lemma StillBig(h: nat, period: nat)
    requires period > 0 && 0x1_FFFF_FFFF * period <= 2 * h
    ensures Rounded(h, period + 1) >= 0x8000_0000
  {
    var p := period + 1;
    var q := Rounded(h, p);
    Nearest(h, p, q);
    assert 0xFFFF_FFFF * p <= 2 * h;
    if q < 0x8000_0000 {
      TimesGrows(2 * q + 1, 0xFFFF_FFFF, p);
    }
  }

  /** No slower display gets a higher or a negative rate exactly when this one's rate fits. */
  lemma CalcFalls(s: Screen, period: nat)
    requires s.Total() > 0 && period > 0
    ensures (forall s', period' {:trigger Slower(s, period, s', period')} :: Slower(s, period, s', period') ==>
               0 <= Calc(Some(s'), period') <= Calc(Some(s), period))
            <==> Fits(s.Total(), period)
  {
    FitsIsBelow(s.Total(), period);
    Cast(Whole(s.Total(), period));
    if Fits(s.Total(), period) {
      forall s', period' | Slower(s, period, s', period')
        ensures 0 <= Calc(Some(s'), period') <= Calc(Some(s), period)
      {
        WholeFalls(s.Total(), s'.Total(), period, period');
        Cast(Whole(s'.Total(), period'));
      }
    } else {
      var p := NegativeLater(Rounded(TERA, s.Total()), period);
      Cast(Whole(s.Total(), p));
      assert Slower(s, period, s, p) && Calc(Some(s), p) < 0;
    }
  }

  lemma NoScreenNoRate(period: nat)
    ensures Calc(None, period) == 0
  {
  }

  /** One pixel a frame and one picosecond a pixel: the rate is 10^12, and what is left of it
      in 32 bits is negative. */
  lemma RateTooHigh()
    ensures Calc(Some(Screen(1, 0, 0, 0, 1, 0, 0, 0)), 1) == -727379968
  {
  }
}

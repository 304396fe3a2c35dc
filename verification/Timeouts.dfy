/**
 Timeouts measured with the microsecond field of the clock alone, which wraps every second:
 the DVD driver allows 50 ms and the MCU link 250 ms.
 */
module Timeouts {

  const SECOND: nat := 1000000
  const DVD_MOST: nat := 49999
  const MCU_MOST: nat := 249999

  /** The microsecond field at time t. */
  function Usec(t: nat): nat { t % SECOND }

  /** Given the field kept at the start and the field now. */
  predicate CheckTimeOut(timeout: nat, usec: nat, most: nat) {
    (if usec < timeout then usec + SECOND else usec) - timeout > most
  }

  lemma Wraps(t0: nat, d: nat)
    ensures (if Usec(t0 + d) < Usec(t0) then Usec(t0 + d) + SECOND else Usec(t0 + d)) - Usec(t0) == d % SECOND
  {
    assert t0 + d == (t0 / SECOND + d / SECOND) * SECOND + (t0 % SECOND + d % SECOND);
  }

  /** What is compared is the true elapsed time modulo one second. */
  lemma TimesOutModuloSecond(t0: nat, t: nat, most: nat)
    requires t0 <= t
    ensures CheckTimeOut(Usec(t0), Usec(t), most) <==> (t - t0) % SECOND > most
  {
    Wraps(t0, t - t0);
  }

  /** It never fires early. */
  lemma NeverEarly(t0: nat, t: nat, most: nat)
    requires t0 <= t && CheckTimeOut(Usec(t0), Usec(t), most)
    ensures t - t0 > most
  {
    TimesOutModuloSecond(t0, t, most);
    assert (t - t0) % SECOND <= t - t0;
  }

  /** Within a second of the start it is exact. */
  lemma ExactWithinASecond(t0: nat, t: nat, most: nat)
    requires t0 <= t < t0 + SECOND
    ensures CheckTimeOut(Usec(t0), Usec(t), most) <==> t - t0 > most
  {
    TimesOutModuloSecond(t0, t, most);
  }

  // ---------------------------------------------------------------- polling

  /** Times of the polls of a loop: increasing, and never more than gap apart. */
  ghost predicate Polls(at: nat -> nat, gap: nat) {
    forall i: nat :: at(i) < at(i + 1) <= at(i) + gap
  }

  /** Poll i is the first to find the awaited level, or the time to be up. */
  ghost predicate FirstEnd(t0: nat, at: nat -> nat, ready: nat -> bool, most: nat, i: nat) {
    && (ready(i) || at(i) > t0 + most)
    && (forall j: nat :: j < i ==> !ready(j) && at(j) <= t0 + most)
  }

  /** Every waiting loop of both drivers; t0 may lie before the loop, where one clock reading
      serves two loops. With polls close enough together it ends at the first poll past the
      limit, if the level did not come before. */
  method WaitFor(t0: nat, at: nat -> nat, ready: nat -> bool, most: nat) returns (i: nat, ok: bool)
    requires most < SECOND && t0 <= at(0) < t0 + SECOND && Polls(at, SECOND - 1 - most)
    ensures FirstEnd(t0, at, ready, most, i) && ok == ready(i)
    ensures !ok ==> t0 + most < at(i) < t0 + SECOND
  {
    var timeout := Usec(t0);
    i := 0;
    ExactWithinASecond(t0, at(0), most);
    while !ready(i) && !CheckTimeOut(timeout, Usec(at(i)), most)
      invariant t0 <= at(i) < t0 + SECOND
      invariant CheckTimeOut(timeout, Usec(at(i)), most) <==> at(i) > t0 + most
      invariant forall j: nat :: j < i ==> !ready(j) && at(j) <= t0 + most
      decreases t0 + SECOND - at(i)
    {
      assert at(i) < at(i + 1) <= at(i) + SECOND - 1 - most;
      ExactWithinASecond(t0, at(i + 1), most);
      i := i + 1;
    }
    ok := ready(i);
  }

  /** A wait of the DVD driver polled at least every 0.95 s ends at the first poll that finds
      the level or 50 ms gone. */
  method DvdWait(t0: nat, at: nat -> nat, ready: nat -> bool) returns (i: nat, ok: bool)
    requires t0 <= at(0) < t0 + SECOND && Polls(at, 950000)
    ensures FirstEnd(t0, at, ready, DVD_MOST, i) && ok == ready(i)
    ensures !ok ==> t0 + 50000 <= at(i) < t0 + SECOND
  {
    i, ok := WaitFor(t0, at, ready, DVD_MOST);
  }

  /** A wait of the MCU link polled at least every 0.75 s, with 250 ms. */
  method McuWait(t0: nat, at: nat -> nat, ready: nat -> bool) returns (i: nat, ok: bool)
    requires t0 <= at(0) < t0 + SECOND && Polls(at, 750000)
    ensures FirstEnd(t0, at, ready, MCU_MOST, i) && ok == ready(i)
    ensures !ok ==> t0 + 250000 <= at(i) < t0 + SECOND
  {
    i, ok := WaitFor(t0, at, ready, MCU_MOST);
  }

  /** One poll finds time left, e after the start; the next, gap later, is past the limit and
      does not notice. */
  predicate Missed(e: nat, gap: nat, most: nat) {
    e <= most < e + gap && (e + gap) % SECOND <= most
  }

  /** The limit can never be passed unnoticed with polls so far apart. */
  ghost predicate Safe(gap: nat, most: nat) { forall e: nat :: !Missed(e, gap, most) }

  lemma Whole(e: nat, gap: nat)
    ensures (e + gap) % SECOND == (e + gap % SECOND) % SECOND
  {
    assert e + gap == gap / SECOND * SECOND + (e + gap % SECOND);
  }

  /** Exactly these gaps are safe: less than a second short of the limit, or such that what
      exceeds whole seconds is further than the limit from both ends of a second. */
  lemma SafeGaps(gap: nat, most: nat)
    requires most < SECOND
    ensures Safe(gap, most) <==> gap < SECOND - most || most < gap % SECOND < SECOND - most
  {
    var r := gap % SECOND;
    if gap < SECOND - most || most < r < SECOND - most {
      forall e: nat
        ensures !Missed(e, gap, most)
      {
        Whole(e, gap);
      }
    } else {
      var e := if r + most >= SECOND then SECOND - r else 0;
      Whole(e, gap);
      assert Missed(e, gap, most);
    }
  }

  /** The gaps between polls that either driver can afford. */
  lemma DriverGaps(gap: nat)
    ensures Safe(gap, DVD_MOST) <==> gap <= 950000 || 50000 <= gap % SECOND <= 950000
    ensures Safe(gap, MCU_MOST) <==> gap <= 750000 || 250000 <= gap % SECOND <= 750000
  {
    SafeGaps(gap, DVD_MOST);
    SafeGaps(gap, MCU_MOST);
  }

  /** With a gap that is not safe, a loop can go past the limit without noticing. */
  lemma LateUnnoticed(t0: nat, gap: nat, most: nat) returns (t: nat)
    requires most < SECOND && !(gap < SECOND - most || most < gap % SECOND < SECOND - most)
    ensures t0 <= t <= t0 + most < t + gap
    ensures !CheckTimeOut(Usec(t0), Usec(t + gap), most)
  {
    SafeGaps(gap, most);
    var e: nat :| Missed(e, gap, most);
    t := t0 + e;
    TimesOutModuloSecond(t0, t + gap, most);
  }
}

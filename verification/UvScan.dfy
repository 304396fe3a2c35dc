/**
 Automatic U/V calibration of the video decoder: two scans over twelve settings
 of one register each, keeping the setting whose reading is nearest to 2048.
 */
module UvScan {
  import opened Bytes

  /** What one scan will see: whether poll j of candidate k finds the measurement
      complete, and the 16-bit value measured for candidate k. */
  datatype Samples = Samples(sync: (nat, nat) -> bool, low: nat -> int, high: nat -> int)

  function Reading(s: Samples, k: nat): (v: int)
    ensures 0 <= v < 0x1_0000
  {
    LowByte(s.low(k)) + 256 * LowByte(s.high(k))
  }

  /** Distance of a measured value from the target. */
  function Off(v: int): nat { if v < 2048 then 2048 - v else v - 2048 }

  const CANDIDATES: nat := 12
  const POLLS: nat := 24
  const START: int := 0x7FFF

  function Setting(k: nat): int { 96 + 4 * k }

  /** Candidate k completes within the polls allowed for it. */
  ghost predicate Completes(s: Samples, k: nat) { exists j: nat :: j < POLLS && s.sync(k, j) }

  /** Every candidate does. */
  ghost predicate AllComplete(s: Samples) { forall k: nat :: k < CANDIDATES ==> Completes(s, k) }

  /** No reading among the first n is nearer to the target than the scan's start value. */
  ghost predicate NoneNear(s: Samples, n: nat) {
    forall i: nat :: i < n ==> Off(Reading(s, i)) >= Off(START)
  }

  /** k is the earliest of the first n candidates whose reading is nearest to the target. */
  ghost predicate Nearest(s: Samples, n: nat, k: nat) {
    && k < n && Off(Reading(s, k)) < Off(START)
    && (forall i: nat :: i < n ==> Off(Reading(s, k)) <= Off(Reading(s, i)))
    && (forall i: nat :: i < k ==> Off(Reading(s, k)) < Off(Reading(s, i)))
  }

  /** The result the scan promises after n candidates. */
  ghost predicate Chosen(s: Samples, n: nat, u: int) {
    if NoneNear(s, n) then u == 0 else exists k: nat :: Nearest(s, n, k) && u == Setting(k)
  }

  /** The first n candidates, each measured under its own setting. */
  function Measured(s: Samples, n: nat): seq<(int, int)> {
    if n == 0 then [] else Measured(s, n - 1) + [(Setting(n - 1), Reading(s, n - 1))]
  }

  /** The promise determines the result. */
  lemma ChosenIsUnique(s: Samples, n: nat, u: int, w: int)
    requires Chosen(s, n, u) && Chosen(s, n, w)
    ensures u == w
  {
    if !NoneNear(s, n) {
      var i: nat :| Nearest(s, n, i) && u == Setting(i);
      var j: nat :| Nearest(s, n, j) && w == Setting(j);
      assert !(i < j) && !(j < i);
    }
  }

  /** The setting and the reading kept after n candidates. */
  function Kept(s: Samples, n: nat): (int, int) {
    if n == 0 then (0, START)
    else
      var (best, value) := Kept(s, n - 1);
      if Off(Reading(s, n - 1)) < Off(value) then (Setting(n - 1), Reading(s, n - 1)) else (best, value)
  }

  /** Keeping the strictly nearer reading keeps the earliest nearest one, candidate k. */
  lemma {:induction false} KeptIsNearest(s: Samples, n: nat) returns (k: nat)
    ensures if NoneNear(s, n) then Kept(s, n) == (0, START)
            else Nearest(s, n, k) && Kept(s, n) == (Setting(k), Reading(s, k))
  {
    k := 0;
    if n > 0 {
      k := KeptIsNearest(s, n - 1);
      var nearer := Off(Reading(s, n - 1)) < Off(Kept(s, n - 1).1);
      if NoneNear(s, n - 1) {
        if nearer {
          k := n - 1;
          assert Nearest(s, n, k);
        }
      } else {
        if nearer {
          k := n - 1;
        }
        assert Nearest(s, n, k);
      }
    }
  }

  /** What the scan keeps is the one result the promise allows. */
  lemma KeptIsChosen(s: Samples, n: nat, u: int)
    ensures Chosen(s, n, u) <==> u == Kept(s, n).0
  {
    var k := KeptIsNearest(s, n);
    assert Chosen(s, n, Kept(s, n).0);
    if Chosen(s, n, u) {
      ChosenIsUnique(s, n, u, Kept(s, n).0);
    }
  }

  /** The measured value is the low byte and 256 times the high byte read. */
  lemma ReadingBytes(s: Samples, k: nat)
    requires 0 <= s.low(k) < 256 && 0 <= s.high(k) < 256
    ensures Reading(s, k) % 256 == s.low(k) && Reading(s, k) / 256 == s.high(k)
  {
  }

  lemma CompletesIn24(s: Samples, k: nat)
    ensures Completes(s, k) <==> exists j: nat :: j < 24 && s.sync(k, j)
  {
  }

  function Abs(x: int): nat { if x < 0 then -x else x }

  /** The result of a scan in numbers: of the settings 96, 100, .. 140 the first whose value is
      nearest to 2048, or 0 when none is nearer than 30719. */
  lemma ScanInNumbers(s: Samples)
    ensures var u := Kept(s, CANDIDATES).0;
            if forall k: nat :: k < 12 ==> Abs(Reading(s, k) - 2048) >= 30719 then u == 0
            else exists k: nat :: && k < 12 && u == 96 + 4 * k && Abs(Reading(s, k) - 2048) < 30719
                   && (forall i: nat :: i < 12 ==> Abs(Reading(s, k) - 2048) <= Abs(Reading(s, i) - 2048))
                   && (forall i: nat :: i < k ==> Abs(Reading(s, k) - 2048) < Abs(Reading(s, i) - 2048))
  {
    var k := KeptIsNearest(s, CANDIDATES);
    assert forall i: nat :: Abs(Reading(s, i) - 2048) == Off(Reading(s, i));
    if forall i: nat :: i < 12 ==> Abs(Reading(s, i) - 2048) >= 30719 {
      assert NoneNear(s, CANDIDATES);
    } else {
      assert !NoneNear(s, CANDIDATES);
    }
  }

  class Calibrator {
    // registers 12 (U) and 10 (V) of the decoder
    var regU: int
    var regV: int
    // car status and stored configuration
    var uValue: int
    var vValue: int
    var uvCal: int
    var offU: int
    var offV: int
    // the setting in force and the value, for every measurement taken
    ghost var log: seq<(int, int)>
    // the largest number of polls spent on one candidate
    ghost var polls: nat

    constructor (offU: int, offV: int)
      ensures this.offU == LowByte(offU) && this.offV == LowByte(offV) && log == [] && polls == 0
    {
      this.offU, this.offV := LowByte(offU), LowByte(offV);
      regU, regV, uValue, vValue, uvCal := 0, 0, 0, 0, 0;
      log, polls := [], 0;
    }

    method Write(isU: bool, value: int)
      modifies `regU, `regV
      ensures regU == if isU then LowByte(value) else old(regU)
      ensures regV == if isU then old(regV) else LowByte(value)
    {
      if isU { regU := LowByte(value); } else { regV := LowByte(value); }
    }

    /** Wait for candidate k, giving up after the last allowed poll. */
    method Wait(s: Samples, k: nat) returns (ok: bool)
      modifies `polls
      ensures ok <==> Completes(s, k)
      ensures polls <= if old(polls) < POLLS then POLLS else old(polls)
    {
      var left := POLLS;
      while !s.sync(k, POLLS - left)
        invariant 1 <= left <= POLLS
        invariant forall j: nat :: j < POLLS - left ==> !s.sync(k, j)
        decreases left
      {
        left := left - 1;
        if left == 0 {
          polls := if polls < POLLS then POLLS else polls;
          return false;
        }
      }
      ghost var used := POLLS - left + 1;
      polls := if polls < used then used else polls;
      assert s.sync(k, POLLS - left);
      return true;
    }

    /** One scan.  The register named by `isU` holds the first candidate on entry. */
    method Scan(isU: bool, s: Samples) returns (ok: bool, best: int)
      requires (if isU then regU else regV) == Setting(0) && polls <= POLLS
      modifies `regU, `regV, `polls, `log
      ensures ok <==> AllComplete(s)
      ensures ok ==> best == Kept(s, CANDIDATES).0 && 0 <= best < 256
      ensures ok ==> log == old(log) + Measured(s, CANDIDATES)
      ensures if isU then regV == old(regV) else regU == old(regU)
      ensures polls <= POLLS
    {
      var pos, value := 96, START;
      best := 0;
      var k: nat := 0;
      while true
        invariant k < CANDIDATES && pos == Setting(k) == (if isU then regU else regV)
        invariant forall i: nat :: i < k ==> Completes(s, i)
        invariant (best, value) == Kept(s, k) && 0 <= best < 256
        invariant log == old(log) + Measured(s, k)
        invariant if isU then regV == old(regV) else regU == old(regU)
        invariant polls <= POLLS
        decreases CANDIDATES - k
      {
        ok := Wait(s, k);
        if !ok { return; }
        var v := Reading(s, k);
        log := log + [(if isU then regU else regV, v)];
        if Off(v) < Off(value) {
          best, value := pos, v;
        }
        pos := pos + 4;
        Write(isU, pos);
        k := k + 1;
        if pos == 144 { break; }
      }
    }

    /** Go back to the stored calibration. */
    method UvSet()
      modifies `uValue, `vValue, `regU, `regV
      ensures uValue == regU == LowByte(offU + 112) && vValue == regV == LowByte(offV - 124)
    {
      uValue := LowByte(offU + 112);
      vValue := LowByte(offV - 124);
      Write(true, uValue);
      Write(false, vValue);
    }

    /** Store the current calibration. */
    method UvSave()
      modifies `offU, `offV
      ensures offU == LowByte(uValue - 112) && offV == LowByte(vValue + 124)
    {
      offU := LowByte(uValue - 112);
      offV := LowByte(vValue + 124);
    }

    /** A successful calibration. */
    method Adopt(best: int, bestV: int)
      requires 0 <= best < 256 && 0 <= bestV < 256
      modifies `uValue, `vValue, `regU, `regV, `uvCal
      ensures uValue == regU == best && vValue == regV == bestV && uvCal == 3
    {
      uValue, vValue := best, bestV;
      Write(true, best);
      Write(false, bestV);
      uvCal := 3;
    }

    /** Scan U, then V; on a missing measurement fall back to the stored calibration. */
    method Calibrate(u: Samples, v: Samples)
      requires polls <= POLLS
      modifies `uValue, `vValue, `regU, `regV, `uvCal, `polls, `log
      ensures var all := AllComplete(u) && AllComplete(v);
              && uvCal == (if all then 3 else 2)
              && (all ==> uValue == Kept(u, CANDIDATES).0 && vValue == Kept(v, CANDIDATES).0)
              && (!all ==> uValue == LowByte(offU + 112) && vValue == LowByte(offV - 124))
      ensures regU == uValue && regV == vValue && polls <= POLLS && polls <= 24
      ensures uvCal == 3 ==> log == old(log) + Measured(u, CANDIDATES) + Measured(v, CANDIDATES)
    {
      Write(false, 96);
      Write(true, 96);
      var ok, best := Scan(true, u);
      if ok {
        var okV, bestV := Scan(false, v);
        if okV {
          Adopt(best, bestV);
          return;
        }
      }
      uvCal := 2;
      UvSet();
    }

    /** Message 50; `active` says that the composite source is shown on this decoder. */
    method OnMessage(cmd2: int, active: bool, u: Samples, v: Samples)
      requires polls <= POLLS
      modifies this
      ensures !active || cmd2 < 0 || cmd2 > 2 ==> unchanged(this)
      ensures active && cmd2 == 0 ==> uvCal == if AllComplete(u) && AllComplete(v) then 3 else 2
      ensures active && cmd2 == 0 && uvCal == 3 ==>
                Chosen(u, CANDIDATES, uValue) && Chosen(v, CANDIDATES, vValue)
      ensures active && cmd2 == 0 && uvCal == 2 ==> uValue == LowByte(offU + 112) && vValue == LowByte(offV - 124)
      ensures active && cmd2 == 1 ==> offU == LowByte(uValue - 112) && offV == LowByte(vValue + 124)
      ensures active && cmd2 == 2 ==> uValue == LowByte(offU + 112) && vValue == LowByte(offV - 124)
      ensures active && (cmd2 == 0 || cmd2 == 2) ==>
                regU == uValue && regV == vValue && offU == old(offU) && offV == old(offV)
      ensures active && cmd2 == 1 ==>
                uValue == old(uValue) && vValue == old(vValue) && regU == old(regU) && regV == old(regV)
      ensures cmd2 != 0 ==> uvCal == old(uvCal)
    {
      if !active { return; }
      if cmd2 == 1 {
        UvSave();
      } else if cmd2 == 2 {
        UvSet();
      } else if cmd2 == 0 {
        Calibrate(u, v);
        KeptIsChosen(u, CANDIDATES, Kept(u, CANDIDATES).0);
        KeptIsChosen(v, CANDIDATES, Kept(v, CANDIDATES).0);
      }
    }

    /** Storing a calibration and setting it again changes neither value nor register. */
    method SaveAndSet()
      requires uValue == regU == LowByte(uValue) && vValue == regV == LowByte(vValue)
      modifies this
      ensures uValue == old(uValue) == regU && vValue == old(vValue) == regV
    {
      UvSave();
      UvSet();
    }
  }
}

/**
 The power reference count: phone calls and the AJX input each hold the power
 while they last; the car's power messages overwrite the count.
 */
module PowerCount {
  import opened Bytes

  datatype Power = Power(count: int, chMode: int, ajx: bool, active: bool)

  datatype Command =
    | Phone(mode: int)    // audio command 0x0D
    | AjxIn | AjxOut      // audio commands 0x16 and 0x17
    | Activate            // audio command 0x14
    | On | Off | AccOff   // car messages 42, 43 and 45

  function One(b: bool): (n: nat)
    ensures n <= 1
  {
    if b then 1 else 0
  }

  /** What the phone and the AJX input hold. */
  function Held(p: Power): nat { One(p.chMode != 0) + One(p.ajx) }

  /** Car message 29: one more holder. */
  function Hold(p: Power): Power {
    var n := LowByte(p.count + 1);
    p.(count := n, active := p.active || n != 0)
  }

  /** Car message 30: one holder fewer; the last one switches the audio off. */
  function Release(p: Power): Power {
    if p.count == 0 then p
    else if p.count > 1 || !p.active then p.(count := p.count - 1)
    else p.(count := 0, active := false, chMode := 0)
  }

  function Next(p: Power, c: Command): Power {
    match c
    case Phone(m) =>
      if m == p.chMode then p
      else if p.chMode != 0 && m == 0 then Release(p.(chMode := 0))
      else if p.chMode == 0 then Hold(p).(chMode := LowByte(m))
      else p.(chMode := LowByte(m))
    case AjxIn => if p.ajx then p else Hold(p).(ajx := true)
    case AjxOut => if p.ajx then Release(p.(ajx := false)) else p
    case Activate => p.(active := true)
    case On => p.(count := 1)
    case Off => p.(count := 0)
    case AccOff => p.(count := 0)
  }

  predicate Resets(c: Command) { c.On? || c.Off? || c.AccOff? }

  /** A phone mode whose low byte, all that the audio code keeps, is zero though the mode is not. */
  predicate Vanishes(c: Command) { c.Phone? && c.mode != 0 && LowByte(c.mode) == 0 }

  // ----- without resets -----

  /** The count is the base plus what is held, and the audio is on while anything is held. */
  predicate Balanced(p: Power, base: nat) {
    && 0 <= p.chMode < 256
    && p.count == base + Held(p)
    && (Held(p) > 0 ==> p.active)
  }

  lemma HoldAdds(p: Power)
    requires 0 <= p.count < 255
    ensures Hold(p) == p.(count := p.count + 1, active := true)
  {
  }

  /** One holder fewer restores the balance after a call or AJX has ended. */
  lemma ReleaseBalances(p: Power, base: nat)
    requires 0 <= p.chMode < 256 && p.count == base + Held(p) + 1 && p.active
    ensures Balanced(Release(p), base)
  {
  }

  /** A phone or AJX command keeps the balance exactly when its mode does not vanish. */
  lemma NextKeepsBalance(p: Power, c: Command, base: nat)
    requires Balanced(p, base) && base <= 253 && !Resets(c)
    ensures Balanced(Next(p, c), base) <==> !Vanishes(c)
  {
    if p.count < 255 { HoldAdds(p); }
    match c
    case Phone(m) => PhoneKeepsBalance(p, m, base);
    case AjxIn =>
    case AjxOut =>
      if p.ajx {
        ReleaseBalances(p.(ajx := false), base);
      }
    case Activate =>
  }

  lemma PhoneKeepsBalance(p: Power, m: int, base: nat)
    requires Balanced(p, base) && base <= 253
    ensures Balanced(Next(p, Phone(m)), base) <==> !Vanishes(Phone(m))
  {
    if p.count < 255 { HoldAdds(p); }
    var b := LowByte(m);
    if m == p.chMode {
      assert b == m;
    } else if p.chMode != 0 && m == 0 {
      ReleaseBalances(p.(chMode := 0), base);
    } else if p.chMode == 0 {
      assert Next(p, Phone(m)) == p.(count := p.count + 1, active := true, chMode := b);
    } else {
      assert Next(p, Phone(m)) == p.(chMode := b);
    }
  }

  function Run(p: Power, cs: seq<Command>): Power
    decreases |cs|
  {
    if cs == [] then p else Run(Next(p, cs[0]), cs[1..])
  }

  ghost predicate BalancedThroughout(p: Power, cs: seq<Command>, base: nat)
    decreases |cs|
  {
    Balanced(p, base) && (cs != [] ==> BalancedThroughout(Next(p, cs[0]), cs[1..], base))
  }

  /** Over every run of phone and AJX commands the count is the base plus one for a call
      plus one for AJX, at every command boundary, exactly when no mode vanishes. */
  lemma {:induction false} RunsKeepBalance(p: Power, cs: seq<Command>, base: nat)
    requires Balanced(p, base) && base <= 253
    requires forall i :: 0 <= i < |cs| ==> !Resets(cs[i])
    ensures BalancedThroughout(p, cs, base) <==> forall i :: 0 <= i < |cs| ==> !Vanishes(cs[i])
    decreases |cs|
  {
    if cs != [] {
      NextKeepsBalance(p, cs[0], base);
      if Vanishes(cs[0]) {
        assert !Balanced(Next(p, cs[0]), base);
      } else {
        RunsKeepBalance(Next(p, cs[0]), cs[1..], base);
        assert forall i :: 0 < i < |cs| ==> cs[i] == cs[1..][i - 1];
        assert forall i :: 0 <= i < |cs| - 1 ==> cs[1..][i] == cs[i + 1];
      }
    }
  }

  /** Phone and AJX commands whose modes do not vanish. */
  predicate Steady(cs: seq<Command>)
    decreases |cs|
  {
    cs != [] ==> !Resets(cs[0]) && !Vanishes(cs[0]) && Steady(cs[1..])
  }

  /** The low byte of the last phone mode. */
  function LastMode(cs: seq<Command>, before: int): int
    decreases |cs|
  {
    if cs == [] then before else LastMode(cs[1..], if cs[0].Phone? then cs[0].mode % 256 else before)
  }

  function LastAjx(cs: seq<Command>, before: bool): bool
    decreases |cs|
  {
    if cs == [] then before else LastAjx(cs[1..], cs[0].AjxIn? || (before && !cs[0].AjxOut?))
  }

  ghost predicate Follows(p: Power, c: Command, q: Power) {
    && q.chMode == (if c.Phone? then c.mode % 256 else p.chMode)
    && q.ajx == (c.AjxIn? || (p.ajx && !c.AjxOut?))
    && (c.Activate? ==> q.active && q.count == p.count)
  }

  /** The audio is on exactly while somebody holds the power. */
  predicate Awake(p: Power) { p.active <==> p.count > 0 }

  lemma NextFollows(p: Power, c: Command, base: nat)
    requires Balanced(p, base) && base <= 253 && !Resets(c) && !Vanishes(c)
    ensures Follows(p, c, Next(p, c))
    ensures base == 0 && !c.Activate? && Awake(p) ==> Awake(Next(p, c))
  {
    match c
    case Phone(m) => PhoneFollows(p, m, base);
    case AjxIn => if p.count < 255 { HoldAdds(p); }
    case AjxOut => if p.ajx { ReleaseFollows(p.(ajx := false), base); }
    case Activate =>
  }

  /** The release that ends a call or AJX resets the call state only when it has ended. */
  lemma ReleaseFollows(p: Power, base: nat)
    requires 0 <= p.chMode < 256 && p.count == base + Held(p) + 1 && p.active
    ensures var q := Release(p);
            q.chMode == p.chMode && q.ajx == p.ajx && (base == 0 ==> Awake(q))
  {
  }

  lemma PhoneFollows(p: Power, m: int, base: nat)
    requires Balanced(p, base) && base <= 253 && !Vanishes(Phone(m))
    ensures Follows(p, Phone(m), Next(p, Phone(m)))
    ensures base == 0 && Awake(p) ==> Awake(Next(p, Phone(m)))
  {
    if p.count < 255 { HoldAdds(p); }
    var b := LowByte(m);
    if m == p.chMode {
      assert b == m;
    } else if p.chMode != 0 && m == 0 {
      ReleaseFollows(p.(chMode := 0), base);
    } else if p.chMode == 0 {
      assert Next(p, Phone(m)) == p.(count := p.count + 1, active := true, chMode := b);
    } else {
      assert Next(p, Phone(m)) == p.(chMode := b);
    }
  }

  /** Over every such run the call state is the last phone command's and AJX that of the last AJX
      command, so the count is determined by those two. */
  lemma {:induction false} RunsFollowCommands(p: Power, cs: seq<Command>, base: nat)
    requires Balanced(p, base) && base <= 253 && Steady(cs)
    ensures var q := Run(p, cs);
            && q.chMode == LastMode(cs, p.chMode) && q.ajx == LastAjx(cs, p.ajx)
            && q.count == base + (if LastMode(cs, p.chMode) != 0 then 1 else 0) + (if LastAjx(cs, p.ajx) then 1 else 0)
    decreases |cs|
  {
    if cs != [] {
      NextKeepsBalance(p, cs[0], base);
      NextFollows(p, cs[0], base);
      RunsFollowCommands(Next(p, cs[0]), cs[1..], base);
    }
  }

  predicate NoActivation(cs: seq<Command>)
    decreases |cs|
  {
    cs != [] ==> !cs[0].Activate? && NoActivation(cs[1..])
  }

  /** Without holders of another kind and without the activation command, the audio is on exactly
      while somebody holds the power. */
  lemma {:induction false} AwakeWhileHeld(p: Power, cs: seq<Command>)
    requires Balanced(p, 0) && Steady(cs) && NoActivation(cs) && Awake(p)
    ensures Awake(Run(p, cs))
    decreases |cs|
  {
    if cs != [] {
      NextKeepsBalance(p, cs[0], 0);
      NextFollows(p, cs[0], 0);
      AwakeWhileHeld(Next(p, cs[0]), cs[1..]);
    }
  }

  /** After the car is switched on with nothing else held the count is one more than call plus AJX,
      after it is switched off just those. */
  lemma AfterPowerMessage(p: Power, c: Command, cs: seq<Command>)
    requires p.chMode == 0 && !p.ajx && Resets(c) && Steady(cs)
    ensures Next(p, c) == p.(count := if c.On? then 1 else 0)
    ensures Run(Next(p, c), cs).count == (if c.On? then 1 else 0)
                                         + (if LastMode(cs, 0) != 0 then 1 else 0)
                                         + (if LastAjx(cs, false) then 1 else 0)
  {
    RunsFollowCommands(Next(p, c), cs, if c.On? then 1 else 0);
  }

  // ----- with resets -----

  predicate Bounded(p: Power) { 0 <= p.chMode < 256 && 0 <= p.count <= 1 + Held(p) }

  lemma NextKeepsBound(p: Power, c: Command)
    requires Bounded(p) && !Vanishes(c)
    ensures Bounded(Next(p, c))
  {
    HoldAdds(p);
    match c
    case Phone(m) => PhoneKeepsBound(p, m);
    case AjxOut =>
      if p.ajx {
        ReleaseKeepsBound(p.(ajx := false));
      }
    case AjxIn =>
    case Activate =>
    case On =>
    case Off =>
    case AccOff =>
  }

  lemma PhoneKeepsBound(p: Power, m: int)
    requires Bounded(p) && !Vanishes(Phone(m))
    ensures Bounded(Next(p, Phone(m)))
  {
    HoldAdds(p);
    var b := LowByte(m);
    if m == p.chMode {
      assert b == m;
    } else if p.chMode != 0 && m == 0 {
      ReleaseKeepsBound(p.(chMode := 0));
    } else if p.chMode == 0 {
      assert Next(p, Phone(m)) == p.(count := p.count + 1, active := true, chMode := b);
    } else {
      assert Next(p, Phone(m)) == p.(chMode := b);
    }
  }

  /** One holder fewer restores the bound after a call or AJX has ended. */
  lemma ReleaseKeepsBound(p: Power)
    requires 0 <= p.chMode < 256 && 0 <= p.count <= 2 + Held(p)
    ensures Bounded(Release(p))
  {
  }

  /** With power messages interleaved anywhere the count stays between zero and one more
      than what is held, so it never wraps. */
  lemma {:induction false} RunsKeepBound(p: Power, cs: seq<Command>)
    requires Bounded(p) && forall i :: 0 <= i < |cs| ==> !Vanishes(cs[i])
    ensures Bounded(Run(p, cs)) && Run(p, cs).count <= 3
    decreases |cs|
  {
    if cs != [] {
      NextKeepsBound(p, cs[0]);
      RunsKeepBound(Next(p, cs[0]), cs[1..]);
    }
  }

  /** What a vanishing mode does: the call is over for the audio code but the power stays held. */
  lemma VanishingLeaks(p: Power, base: nat, m: int)
    requires Balanced(p, base) && base <= 253 && m != 0 && LowByte(m) == 0
    ensures var q := Next(p, Phone(m)); q.chMode == 0 && q.count == base + Held(q) + 1
  {
  }

  // ----- the driver's code -----

  class Unit {
    var powerRefcnt: int
    var chMode: int
    var ajxActive: bool
    var audioActive: bool

    constructor (base: nat)
      requires base < 256
      ensures State() == Power(base, 0, false, false)
    {
      powerRefcnt, chMode, ajxActive, audioActive := base, 0, false, false;
    }

    ghost function State(): Power
      reads this
    {
      Power(powerRefcnt, chMode, ajxActive, audioActive)
    }

    method CarHold()
      modifies this
      ensures State() == Hold(old(State()))
    {
      powerRefcnt := LowByte(powerRefcnt + 1);
      if powerRefcnt != 0 {
        audioActive := true;
      }
    }

    method AudioDeactive()
      modifies this
      ensures powerRefcnt == old(powerRefcnt) && ajxActive == old(ajxActive) && !audioActive
      ensures chMode == if old(audioActive) then 0 else old(chMode)
    {
      if audioActive {
        audioActive := false;
        chMode := 0;
      }
    }

    method CarRelease()
      requires 0 <= powerRefcnt
      modifies this
      ensures State() == Release(old(State()))
    {
      if powerRefcnt == 0 { return; }
      powerRefcnt := powerRefcnt - 1;
      if powerRefcnt != 0 { return; }
      AudioDeactive();
    }

    method PhoneChannel(mode: int)
      modifies `chMode
      ensures chMode == LowByte(mode)
    {
      if ajxActive {
        chMode := LowByte(mode);
      } else if mode != 0 {
        chMode := LowByte(mode);
      } else {
        chMode := 0;
      }
    }

    method Work(c: Command)
      requires 0 <= powerRefcnt < 256
      modifies this
      ensures State() == Next(old(State()), c) && 0 <= powerRefcnt < 256
    {
      match c
      case Phone(m) =>
        if m == chMode { return; }
        if chMode != 0 {
          if m != 0 {
            chMode := LowByte(m);
          } else {
            PhoneChannel(0);
            CarRelease();
          }
        } else {
          CarHold();
          PhoneChannel(LowByte(m));
        }
      case AjxIn =>
        if !ajxActive {
          CarHold();
          ajxActive := true;
        }
      case AjxOut =>
        if ajxActive {
          ajxActive := false;
          CarRelease();
        }
      case Activate => audioActive := true;
      case On => powerRefcnt := 1;
      case Off => powerRefcnt := 0;
      case AccOff =>
        if powerRefcnt != 0 {
          powerRefcnt := 0;
        }
    }

    /** Any run of commands. */
    method Serve(cs: seq<Command>)
      requires 0 <= powerRefcnt < 256
      modifies this
      ensures State() == Run(old(State()), cs)
    {
      var i := 0;
      assert cs[0..] == cs;
      while i < |cs|
        invariant 0 <= i <= |cs| && 0 <= powerRefcnt < 256
        invariant Run(State(), cs[i..]) == Run(old(State()), cs)
      {
        assert cs[i..][0] == cs[i] && cs[i..][1..] == cs[i + 1..];
        Work(cs[i]);
        i := i + 1;
      }
    }
  }
}

/**
 The three-wire link to the DVD unit: the sending routine composed with the
 receiving one over DATA, STB and ACK.

 Every gpio call of either routine is one step, and so is every poll.  The wires
 are pulled up: a wire nobody drives reads high.  Both ends use the same bit
 count n.
 */
module DvdLink {
  import opened Interleave
  import opened Powers
  import opened Wires

  datatype Drive = Drive(data: Wire, stb: Wire, ack: Wire)

  const RELEASED := Drive(Free, Free, Free)

  datatype Levels = Levels(data: bool, stb: bool, ack: bool)

  function Seen(a: Drive, b: Drive): Levels {
    Levels(Level(a.data, b.data), Level(a.stb, b.stb), Level(a.ack, b.ack))
  }

  // ----- words -----

  /** Bit k of a 24-bit word, most significant first. */
  function Bit(cmd: nat, k: nat): bool
    requires k < 24
  {
    cmd / Pow2(23 - k) % 2 == 1
  }

  /** The top k bits of the 24-bit word. */
  function Top(cmd: nat, k: nat): nat
    requires k <= 24
  {
    cmd / Pow2(24 - k) % Pow2(k)
  }

  lemma TopGrows(cmd: nat, k: nat)
    requires k < 24
    ensures Top(cmd, k + 1) == 2 * Top(cmd, k) + (if Bit(cmd, k) then 1 else 0)
  {
    var d, p := Pow2(23 - k), Pow2(k);
    var q := cmd / d;
    DivTwice(cmd, d);
    assert cmd / Pow2(24 - k) == q / 2;
    ModTwice(q, p);
  }

  // ----- the sending routine -----

  datatype SendPc =
    | Request | AwaitGrant | Lift | AwaitReady
    | PutBit | StrobeLow | AwaitTaken | StrobeHigh | AwaitNext
    | FreeData | FreeStrobe | OfferAck | AwaitTurn | RaiseAck | AwaitEnd | FreeAck
    | Sent | SendFailed

  datatype Sender = Sender(pc: SendPc, bit: nat, drive: Drive)

  /** One step of cmd_send; `late` is the answer of the timeout test after a failed poll. */
  function SendStep(cmd: nat, n: nat, s: Sender, lv: Levels, late: bool): Sender {
    var d := s.drive;
    match s.pc
    case Request => s.(pc := AwaitGrant, drive := d.(data := Low))
    case AwaitGrant =>
      if !lv.ack then s.(pc := Lift) else if late then s.(pc := SendFailed, drive := d.(data := Free)) else s
    case Lift => s.(pc := AwaitReady, drive := d.(data := High))
    case AwaitReady =>
      if lv.ack then s.(pc := if n > 0 then PutBit else FreeData)
      else if late then s.(pc := SendFailed, drive := d.(data := Free)) else s
    case PutBit =>
      s.(pc := StrobeLow, drive := d.(data := if s.bit < 24 && Bit(cmd, s.bit) then High else Low))
    case StrobeLow => s.(pc := AwaitTaken, drive := d.(stb := Low))
    case AwaitTaken =>
      if !lv.ack then s.(pc := StrobeHigh)
      else if late then s.(pc := SendFailed, drive := d.(stb := Free, data := Free)) else s
    case StrobeHigh => s.(pc := AwaitNext, drive := d.(stb := High))
    case AwaitNext =>
      if lv.ack then s.(pc := if s.bit + 1 < n then PutBit else FreeData, bit := s.bit + 1)
      else if late then s.(pc := SendFailed, drive := d.(stb := Free, data := Free)) else s
    case FreeData => s.(pc := FreeStrobe, drive := d.(data := Free))
    case FreeStrobe => s.(pc := OfferAck, drive := d.(stb := Free))
    case OfferAck => s.(pc := AwaitTurn, drive := d.(ack := Low))
    case AwaitTurn =>
      if !lv.stb then s.(pc := RaiseAck) else if late then s.(pc := SendFailed, drive := d.(ack := Free)) else s
    case RaiseAck => s.(pc := AwaitEnd, drive := d.(ack := High))
    case AwaitEnd =>
      if lv.stb then s.(pc := FreeAck) else if late then s.(pc := SendFailed, drive := d.(ack := Free)) else s
    case FreeAck => s.(pc := Sent, drive := d.(ack := Free))
    case Sent => s
    case SendFailed => s
  }

  // ----- the receiving routine -----

  datatype RevPc =
    | Idle | Grant | AwaitLift
    | Ready | AwaitStrobe | Sample | Take | AwaitStrobeEnd
    | ReleaseAck | AwaitOffer | PullStrobe | AwaitRelease | ReleaseStrobe | Deliver
    | Received | RevFailed

  datatype Receiver = Receiver(pc: RevPc, bit: nat, word: nat, drive: Drive, out: seq<nat>)

  /** One step of dvd_rev_part_2, from the interrupt that DATA low raises. */
  function RevStep(n: nat, r: Receiver, lv: Levels, late: bool): Receiver {
    var d := r.drive;
    match r.pc
    case Idle => if lv.data then r else r.(pc := Grant)
    case Grant => r.(pc := AwaitLift, drive := d.(ack := Low))
    case AwaitLift =>
      if lv.data then r.(pc := Ready, word := 0, bit := 0)
      else if late then r.(pc := RevFailed, drive := d.(ack := Free)) else r
    case Ready => r.(pc := AwaitStrobe, drive := d.(ack := High))
    case AwaitStrobe =>
      if !lv.stb then r.(pc := Sample) else if late then r.(pc := RevFailed, drive := d.(ack := Free)) else r
    case Sample => r.(pc := Take, word := 2 * r.word % 0x1_0000_0000 + (if lv.data then 1 else 0))
    case Take => r.(pc := AwaitStrobeEnd, drive := d.(ack := Low))
    case AwaitStrobeEnd =>
      if lv.stb then r.(pc := if r.bit + 1 != n then Ready else ReleaseAck, bit := r.bit + 1)
      else if late then r.(pc := RevFailed, drive := d.(ack := Free)) else r
    case ReleaseAck => r.(pc := AwaitOffer, drive := d.(ack := Free))
    case AwaitOffer => if !lv.ack then r.(pc := PullStrobe) else if late then r.(pc := RevFailed) else r
    case PullStrobe => r.(pc := AwaitRelease, drive := d.(stb := Low))
    case AwaitRelease =>
      if lv.ack then r.(pc := ReleaseStrobe) else if late then r.(pc := RevFailed, drive := d.(stb := Free)) else r
    case ReleaseStrobe => r.(pc := Deliver, drive := d.(stb := Free))
    case Deliver => r.(pc := if lv.data then Received else Idle, out := r.out + [r.word])
    case Received => r
    case RevFailed => r
  }

  // ----- one side against any environment -----

  datatype Input = Input(lv: Levels, late: bool)

  function SendRun(cmd: nat, n: nat, s: Sender, env: seq<Input>): Sender
    decreases |env|
  {
    if env == [] then s else SendRun(cmd, n, SendStep(cmd, n, s, env[0].lv, env[0].late), env[1..])
  }

  function RevRun(n: nat, r: Receiver, env: seq<Input>): Receiver
    decreases |env|
  {
    if env == [] then r else RevRun(n, RevStep(n, r, env[0].lv, env[0].late), env[1..])
  }

  const SEND_START := Sender(Request, 0, RELEASED)
  const REV_START := Receiver(Idle, 0, 0, RELEASED, [])

  /** Which wires the sender may be driving at each point. */
  predicate SendHolds(s: Sender) {
    var d := s.drive;
    match s.pc
    case Request => d == RELEASED
    case AwaitGrant => d == Drive(Low, Free, Free)
    case Lift => d == Drive(Low, Free, Free)
    case AwaitReady => d == Drive(High, Free, Free)
    case PutBit => d.ack == Free && d.data != Free && d.stb != Low
    case StrobeLow => d.ack == Free && d.data != Free && d.stb != Low
    case AwaitTaken => d.ack == Free && d.data != Free && d.stb == Low
    case StrobeHigh => d.ack == Free && d.data != Free && d.stb == Low
    case AwaitNext => d.ack == Free && d.data != Free && d.stb == High
    case FreeData => d.ack == Free && d.stb != Low
    case FreeStrobe => d.ack == d.data == Free
    case OfferAck => d == RELEASED
    case AwaitTurn => d == Drive(Free, Free, Low)
    case RaiseAck => d == Drive(Free, Free, Low)
    case AwaitEnd => d == Drive(Free, Free, High)
    case FreeAck => d == Drive(Free, Free, High)
    case Sent => d == RELEASED
    case SendFailed => d == RELEASED
  }

  predicate RevHolds(r: Receiver) {
    var d := r.drive;
    match r.pc
    case Idle => d == RELEASED
    case Grant => d == RELEASED
    case AwaitLift => d == Drive(Free, Free, Low)
    case Ready => d == Drive(Free, Free, Low)
    case AwaitStrobe => d == Drive(Free, Free, High)
    case Sample => d == Drive(Free, Free, High)
    case Take => d == Drive(Free, Free, High)
    case AwaitStrobeEnd => d == Drive(Free, Free, Low)
    case ReleaseAck => d == Drive(Free, Free, Low)
    case AwaitOffer => d == RELEASED
    case PullStrobe => d == RELEASED
    case AwaitRelease => d == Drive(Free, Low, Free)
    case ReleaseStrobe => d == Drive(Free, Low, Free)
    case Deliver => d == RELEASED
    case Received => d == RELEASED
    case RevFailed => d == RELEASED
  }

  /** However the other end behaves and whichever polls time out, the sending routine
      returns with all three wires released. */
  lemma {:induction false} SenderExitsReleased(cmd: nat, n: nat, s: Sender, env: seq<Input>)
    requires SendHolds(s)
    ensures var t := SendRun(cmd, n, s, env);
            SendHolds(t) && ((t.pc.Sent? || t.pc.SendFailed?) ==> t.drive == RELEASED)
    decreases |env|
  {
    if env != [] {
      SenderExitsReleased(cmd, n, SendStep(cmd, n, s, env[0].lv, env[0].late), env[1..]);
    }
  }

  /** So does the receiving routine, including when it goes back to waiting. */
  lemma {:induction false} ReceiverExitsReleased(n: nat, r: Receiver, env: seq<Input>)
    requires RevHolds(r)
    ensures var t := RevRun(n, r, env);
            RevHolds(t) && ((t.pc.Idle? || t.pc.Received? || t.pc.RevFailed?) ==> t.drive == RELEASED)
    decreases |env|
  {
    if env != [] {
      ReceiverExitsReleased(n, RevStep(n, r, env[0].lv, env[0].late), env[1..]);
    }
  }

  /** How many inputs would answer a failed poll with a timeout. */
  function Lates(env: seq<Input>): nat
    decreases |env|
  {
    if env == [] then 0 else Lates(env[1..]) + (if env[0].late then 1 else 0)
  }

  predicate SendCounts(n: nat, s: Sender) {
    (Bitwise(s.pc) ==> s.bit < n) && (SendOpens(s.pc) ==> s.bit == 0)
  }

  predicate RevCounts(n: nat, r: Receiver) { RevBitwise(r.pc) ==> r.bit < n }

  /** However the other end behaves, the sender returns once polls time out often enough. */
  lemma {:induction false} SenderReturns(cmd: nat, n: nat, s: Sender, env: seq<Input>)
    requires SendCounts(n, s) && Lates(env) >= SendLeft(n, s)
    ensures var t := SendRun(cmd, n, s, env); t.pc.Sent? || t.pc.SendFailed?
    decreases |env|
  {
    if env != [] {
      SendLowersRank(cmd, n, s, env[0].lv, env[0].late);
      SenderReturns(cmd, n, SendStep(cmd, n, s, env[0].lv, env[0].late), env[1..]);
    }
  }

  /** So does the receiver: some part of the run takes it back to waiting for a request, to the
      end of the transfer, or to a timeout. */
  lemma {:induction false} ReceiverReturns(n: nat, r: Receiver, env: seq<Input>) returns (k: nat)
    requires n > 0 && RevCounts(n, r) && Lates(env) >= RevLeft(n, r)
    ensures k <= |env|
    ensures var t := RevRun(n, r, env[..k]); t.pc.Idle? || t.pc.Received? || t.pc.RevFailed?
    decreases |env|
  {
    k := 0;
    if env == [] || r.pc.Idle? || r.pc.Received? || r.pc.RevFailed? {
      assert env[..0] == [];
    } else {
      var t := RevStep(n, r, env[0].lv, env[0].late);
      if t.pc.Idle? {
        k := 1;
        assert env[..1][0] == env[0] && env[..1][1..] == [];
        assert RevRun(n, t, []) == t;
      } else {
        RevLowersRank(n, r, env[0].lv, env[0].late);
        k := ReceiverReturns(n, t, env[1..]);
        assert env[..k + 1][1..] == env[1..][..k];
        k := k + 1;
      }
    }
  }

  // ----- both sides together, without timeouts -----

  datatype Link = Link(cmd: nat, n: nat, s: Sender, r: Receiver)

  function Start(cmd: nat, n: nat): Link { Link(cmd, n, SEND_START, REV_START) }

  function SendMove(l: Link): Link {
    l.(s := SendStep(l.cmd, l.n, l.s, Seen(l.s.drive, l.r.drive), false))
  }

  function RevMove(l: Link): Link {
    l.(r := RevStep(l.n, l.r, Seen(l.s.drive, l.r.drive), false))
  }

  predicate Finished(l: Link) { l.s.pc == Sent && l.r.pc == Received }

  predicate NoClash(l: Link) {
    && !Clash(l.s.drive.data, l.r.drive.data)
    && !Clash(l.s.drive.stb, l.r.drive.stb)
    && !Clash(l.s.drive.ack, l.r.drive.ack)
  }

  /** How many bits the receiver has sampled. */
  function Sampled(r: Receiver): nat {
    r.bit + (if (r.pc.Take? || r.pc.AwaitStrobeEnd?) then 1 else 0)
  }

  /** Where the receiver can be while the sender is at `s`. */
  predicate Meets(s: Sender, r: Receiver, n: nat) {
    match s.pc
    case Request => r.pc == Idle
    case AwaitGrant => (r.pc.Idle? || r.pc.Grant? || r.pc.AwaitLift?)
    case Lift => r.pc == AwaitLift
    case AwaitReady => r.pc == AwaitLift || ((r.pc.Ready? || r.pc.AwaitStrobe?) && r.bit == 0)
    case PutBit => r.pc == AwaitStrobe && r.bit == s.bit
    case StrobeLow => r.pc == AwaitStrobe && r.bit == s.bit
    case AwaitTaken => (r.pc.AwaitStrobe? || r.pc.Sample? || r.pc.Take? || r.pc.AwaitStrobeEnd?) && r.bit == s.bit
    case StrobeHigh => r.pc == AwaitStrobeEnd && r.bit == s.bit
    case AwaitNext =>
      || (r.pc == AwaitStrobeEnd && r.bit == s.bit)
      || ((r.pc.Ready? || r.pc.AwaitStrobe?) && r.bit == s.bit + 1 < n)
      || ((r.pc.ReleaseAck? || r.pc.AwaitOffer?) && r.bit == s.bit + 1 == n)
    case FreeData => r.pc == AwaitOffer && r.bit == n
    case FreeStrobe => r.pc == AwaitOffer && r.bit == n
    case OfferAck => r.pc == AwaitOffer && r.bit == n
    case AwaitTurn => (r.pc.AwaitOffer? || r.pc.PullStrobe? || r.pc.AwaitRelease?) && r.bit == n
    case RaiseAck => r.pc == AwaitRelease && r.bit == n
    case AwaitEnd => (r.pc.AwaitRelease? || r.pc.ReleaseStrobe? || r.pc.Deliver? || r.pc.Received?) && r.bit == n
    case FreeAck => (r.pc.Deliver? || r.pc.Received?) && r.bit == n
    case Sent => (r.pc.Deliver? || r.pc.Received?) && r.bit == n
    case SendFailed => false
  }

  predicate Bitwise(pc: SendPc) { (pc.PutBit? || pc.StrobeLow? || pc.AwaitTaken? || pc.StrobeHigh? || pc.AwaitNext?) }

  /** The strobe is low or has just gone high: DATA carries the current bit. */
  predicate Carries(pc: SendPc) { (pc.StrobeLow? || pc.AwaitTaken? || pc.StrobeHigh? || pc.AwaitNext?) }

  predicate Words(l: Link)
    requires l.n <= 24
  {
    && ((l.r.pc.Idle? || l.r.pc.Grant? || l.r.pc.AwaitLift?)
        || (Sampled(l.r) <= l.n && l.r.word == Top(l.cmd, Sampled(l.r))))
    && l.r.out == (if l.r.pc == Received then [Top(l.cmd, l.n)] else [])
  }

  predicate Inv(l: Link) {
    && 1 <= l.n <= 24
    && SendHolds(l.s) && RevHolds(l.r) && Meets(l.s, l.r, l.n)
    && (Bitwise(l.s.pc) ==> l.s.bit < l.n)
    && ((l.s.pc.Request? || l.s.pc.AwaitGrant? || l.s.pc.Lift? || l.s.pc.AwaitReady?) ==> l.s.bit == 0)
    && (Carries(l.s.pc) ==> (l.s.drive.data == High) == Bit(l.cmd, l.s.bit))
    && Words(l)
  }

  function SendLeft(n: nat, s: Sender): nat {
    var bits := if s.bit <= n then 5 * (n - s.bit) else 0;
    match s.pc
    case Request => 11 + bits
    case AwaitGrant => 10 + bits
    case Lift => 9 + bits
    case AwaitReady => 8 + bits
    case PutBit => 7 + bits
    case StrobeLow => 6 + bits
    case AwaitTaken => 5 + bits
    case StrobeHigh => 4 + bits
    case AwaitNext => 3 + bits
    case FreeData => 7
    case FreeStrobe => 6
    case OfferAck => 5
    case AwaitTurn => 4
    case RaiseAck => 3
    case AwaitEnd => 2
    case FreeAck => 1
    case Sent => 0
    case SendFailed => 0
  }

  function RevLeft(n: nat, r: Receiver): nat {
    var bits := if r.bit <= n then 5 * (n - r.bit) else 0;
    match r.pc
    case Idle => 9 + 5 * n
    case Grant => 8 + 5 * n
    case AwaitLift => 7 + 5 * n
    case Ready => 6 + bits
    case AwaitStrobe => 5 + bits
    case Sample => 4 + bits
    case Take => 3 + bits
    case AwaitStrobeEnd => 2 + bits
    case ReleaseAck => 6
    case AwaitOffer => 5
    case PullStrobe => 4
    case AwaitRelease => 3
    case ReleaseStrobe => 2
    case Deliver => 1
    case Received => 0
    case RevFailed => 0
  }

  /** An upper bound on the moves left. */
  function Rank(l: Link): nat { SendLeft(l.n, l.s) + RevLeft(l.n, l.r) }

  predicate SendOpens(pc: SendPc) { pc.Request? || pc.AwaitGrant? || pc.Lift? || pc.AwaitReady? }

  predicate RevOpens(pc: RevPc) { pc.Idle? || pc.Grant? || pc.AwaitLift? }

  predicate RevBitwise(pc: RevPc) { pc.Ready? || pc.AwaitStrobe? || pc.Sample? || pc.Take? || pc.AwaitStrobeEnd? }

  lemma SendKeepsInv(l: Link)
    requires Inv(l)
    ensures Inv(SendMove(l))
  {
    if SendOpens(l.s.pc) {
      SendOpening(l);
    } else if Bitwise(l.s.pc) {
      SendBits(l);
    } else {
      SendClosing(l);
    }
  }

  lemma SendOpening(l: Link)
    requires Inv(l) && SendOpens(l.s.pc)
    ensures Inv(SendMove(l))
  {
  }

  lemma SendBits(l: Link)
    requires Inv(l) && Bitwise(l.s.pc)
    ensures Inv(SendMove(l))
  {
  }

  lemma SendClosing(l: Link)
    requires Inv(l) && !SendOpens(l.s.pc) && !Bitwise(l.s.pc)
    ensures Inv(SendMove(l))
  {
  }

  lemma RevKeepsInv(l: Link)
    requires Inv(l)
    ensures Inv(RevMove(l))
  {
    if RevOpens(l.r.pc) {
      RevOpening(l);
    } else if RevBitwise(l.r.pc) {
      RevBits(l);
    } else {
      RevClosing(l);
    }
  }

  lemma RevOpening(l: Link)
    requires Inv(l) && RevOpens(l.r.pc)
    ensures Inv(RevMove(l))
  {
  }

  lemma RevBits(l: Link)
    requires Inv(l) && RevBitwise(l.r.pc)
    ensures Inv(RevMove(l))
  {
    if l.r.pc == Sample {
      RevSample(l);
    } else if l.r.pc == AwaitStrobeEnd {
      RevNextBit(l);
    }
  }

  /** The sample is taken while DATA carries the bit it is meant to be. */
  lemma RevSample(l: Link)
    requires Inv(l) && l.r.pc == Sample
    ensures Inv(RevMove(l))
  {
    assert l.s.pc == AwaitTaken && Seen(l.s.drive, l.r.drive).data == Bit(l.cmd, l.r.bit);
    TakesBit(l.cmd, l.r.bit, l.r.word, Bit(l.cmd, l.r.bit));
  }

  lemma TakesBit(cmd: nat, k: nat, word: nat, bit: bool)
    requires k < 24 && word == Top(cmd, k) && bit == Bit(cmd, k)
    ensures 2 * word % 0x1_0000_0000 + (if bit then 1 else 0) == Top(cmd, k + 1)
  {
    TopGrows(cmd, k);
    TopBound(cmd, k);
  }

  lemma RevNextBit(l: Link)
    requires Inv(l) && l.r.pc == AwaitStrobeEnd
    ensures Inv(RevMove(l))
  {
  }

  lemma RevClosing(l: Link)
    requires Inv(l) && !RevOpens(l.r.pc) && !RevBitwise(l.r.pc)
    ensures Inv(RevMove(l))
  {
  }

  lemma MovesLowerRank(l: Link)
    requires Inv(l)
    ensures SendMove(l) == l || Rank(SendMove(l)) < Rank(l)
    ensures RevMove(l) == l || Rank(RevMove(l)) < Rank(l)
  {
    SendLowersRank(l.cmd, l.n, l.s, Seen(l.s.drive, l.r.drive), false);
    RevLowersRank(l.n, l.r, Seen(l.s.drive, l.r.drive), false);
  }

  /** A step that changes anything lowers the moves left, and one that may time out always
      changes something. */
  lemma SendLowersRank(cmd: nat, n: nat, s: Sender, lv: Levels, late: bool)
    requires SendCounts(n, s)
    ensures var t := SendStep(cmd, n, s, lv, late);
            && SendCounts(n, t)
            && (t == s || SendLeft(n, t) < SendLeft(n, s))
            && (late && SendLeft(n, s) > 0 ==> t != s)
  {
  }

  lemma RevLowersRank(n: nat, r: Receiver, lv: Levels, late: bool)
    requires n > 0 && RevCounts(n, r) && (r.pc == Deliver ==> lv.data)
    ensures var t := RevStep(n, r, lv, late);
            && RevCounts(n, t)
            && (t == r || RevLeft(n, t) < RevLeft(n, r))
            && (late && RevLeft(n, r) > 0 && !r.pc.Idle? ==> t != r)
  {
  }

  lemma TopBound(cmd: nat, k: nat)
    requires k < 24
    ensures Top(cmd, k) < 0x80_0000
  {
    Pow2Grows(k, 23);
    assert Pow2(23) == 256 * Pow2(15) && Pow2(15) == 128 * Pow2(8) && Pow2(8) == 256;
  }

  /** Some side can move until both routines have returned. */
  lemma NeverStuck(l: Link)
    requires Inv(l)
    ensures Finished(l) <==> SendMove(l) == l && RevMove(l) == l
  {
  }

  lemma StepsKeepInv()
    ensures Inductive(SendMove, RevMove, Inv)
  {
    forall l | Inv(l)
      ensures Inv(SendMove(l))
    {
      SendKeepsInv(l);
    }
    forall l | Inv(l)
      ensures Inv(RevMove(l))
    {
      RevKeepsInv(l);
    }
  }

  lemma StepsLowerRank()
    ensures Ranked(SendMove, RevMove, Inv, Rank)
  {
    forall l | Inv(l)
      ensures SendMove(l) == l || Rank(SendMove(l)) < Rank(l)
    {
      MovesLowerRank(l);
    }
    forall l | Inv(l)
      ensures RevMove(l) == l || Rank(RevMove(l)) < Rank(l)
    {
      MovesLowerRank(l);
    }
  }

  lemma StepsEnd()
    ensures Live(SendMove, RevMove, Inv, Finished)
  {
    forall l | Inv(l)
      ensures Finished(l) <==> SendMove(l) == l && RevMove(l) == l
    {
      NeverStuck(l);
    }
  }

  /** After any schedule no wire is driven from both ends, the bits sampled so far are
      the top bits of the word, and nothing but the whole word is delivered. */
  lemma EverySchedule(cmd: nat, n: nat, sched: seq<bool>)
    requires 1 <= n <= 24
    ensures var l := Run(SendMove, RevMove, Start(cmd, n), sched);
            && NoClash(l)
            && ((l.r.pc.Idle? || l.r.pc.Grant? || l.r.pc.AwaitLift?)
                || (Sampled(l.r) <= n && l.r.word == Top(cmd, Sampled(l.r))))
            && l.r.out == (if l.r.pc == Received then [Top(cmd, n)] else [])
            && (Finished(l) ==> l.s.drive == l.r.drive == RELEASED)
  {
    StepsKeepInv();
    RunKeeps(SendMove, RevMove, Inv, Start(cmd, n), sched);
    SameWord(cmd, n, Start(cmd, n), sched);
  }

  lemma {:induction false} SameWord(cmd: nat, n: nat, l: Link, sched: seq<bool>)
    requires l.cmd == cmd && l.n == n
    ensures Run(SendMove, RevMove, l, sched).cmd == cmd && Run(SendMove, RevMove, l, sched).n == n
    decreases |sched|
  {
    if sched != [] {
      SameWord(cmd, n, Move(SendMove, RevMove, l, sched[0]), sched[1..]);
    }
  }

  /** Any schedule with 10n + 20 rounds delivers the word once and releases every wire. */
  lemma FairSchedulesDeliver(cmd: nat, n: nat, sched: seq<bool>)
    requires 1 <= n <= 24 && Fair(sched, 10 * n + 20)
    ensures var l := Run(SendMove, RevMove, Start(cmd, n), sched);
            && Finished(l) && l.r.out == [cmd / Pow2(24 - n) % Pow2(n)]
            && l.s.drive == l.r.drive == RELEASED
  {
    StepsKeepInv();
    StepsLowerRank();
    StepsEnd();
    assert Rank(Start(cmd, n)) == 10 * n + 20;
    FairRunsEnd(SendMove, RevMove, Inv, Rank, Finished, Start(cmd, n), sched, 10 * n + 20);
    EverySchedule(cmd, n, sched);
  }

  /** Schedules with enough rounds exist: taking turns is one. */
  lemma TakingTurnsDelivers(cmd: nat, n: nat)
    requires 1 <= n <= 24
    ensures var l := Run(SendMove, RevMove, Start(cmd, n), Alternation(10 * n + 20));
            Finished(l) && l.r.out == [cmd / Pow2(24 - n) % Pow2(n)]
  {
    AlternationIsFair(10 * n + 20);
    FairSchedulesDeliver(cmd, n, Alternation(10 * n + 20));
  }

  /** One transfer under a scheduler that may pick any side that can move. */
  method Transfer(cmd: nat, n: nat, prefer: nat -> bool) returns (word: nat)
    requires 1 <= n <= 24
    ensures word == cmd / Pow2(24 - n) % Pow2(n)
  {
    var l, turn := Start(cmd, n), 0;
    while !Finished(l)
      invariant Inv(l) && l.cmd == cmd && l.n == n
      decreases Rank(l)
    {
      NeverStuck(l);
      SendKeepsInv(l);
      RevKeepsInv(l);
      MovesLowerRank(l);
      var side := prefer(turn);
      if Move(SendMove, RevMove, l, side) == l {
        side := !side;
      }
      l := Move(SendMove, RevMove, l, side);
      turn := turn + 1;
    }
    word := l.r.out[0];
  }
}

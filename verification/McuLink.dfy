/**
 The serial link to the MCU: the firmware-update branch of the multi-byte send,
 with its acknowledgement, composed with the routines that receive bytes and
 acknowledge them.

 Each end's DOUT is the other end's DIN; CLK is one pulled-up wire both may
 drive.  Every gpio call and every poll is one step.
 */
module McuLink {
  import opened Bytes
  import opened Interleave
  import opened Powers
  import opened Wires

  // ----- the sending end -----

  datatype SendPc =
    | AwaitReady | PutBit | ClkLow | AwaitTaken | ClkHigh | RestData | RestClk
    | FreeClk | AwaitIdle | CallAck | AwaitGrant | EndCall | AwaitEnd
    | Sent | SendFailed

  datatype Sender = Sender(pc: SendPc, pos: nat, left: nat, reg: Byte, dout: bool, clk: Wire)

  /** The state in which sending the command word leaves the wires. */
  function SendStart(data: seq<Byte>): Sender {
    if data == [] then Sender(FreeClk, 0, 8, 0, true, High)
    else Sender(AwaitReady, 0, 8, data[0], true, High)
  }

  function SendStep(data: seq<Byte>, s: Sender, clk: bool, din: bool, late: bool): Sender {
    match s.pc
    case AwaitReady => if din then s.(pc := PutBit) else s
    case PutBit => s.(pc := ClkLow, dout := s.reg >= 128, reg := 2 * s.reg % 256)
    case ClkLow => s.(pc := AwaitTaken, clk := Low)
    case AwaitTaken =>
      if din then s
      else if s.left == 1 then s.(pc := RestData)
      else s.(pc := ClkHigh, left := if s.left > 0 then s.left - 1 else 0)
    case ClkHigh => s.(pc := AwaitReady, clk := High)
    case RestData => s.(pc := RestClk, dout := true)
    case RestClk =>
      if s.pos + 1 < |data| then s.(pc := AwaitReady, clk := High, pos := s.pos + 1, left := 8, reg := data[s.pos + 1])
      else s.(pc := FreeClk, clk := High, pos := s.pos + 1, left := 8)
    case FreeClk => s.(pc := AwaitIdle, clk := Free)
    case AwaitIdle => if din then s.(pc := CallAck) else if late then s.(pc := SendFailed, dout := true) else s
    case CallAck => s.(pc := AwaitGrant, dout := false)
    case AwaitGrant => if !clk then s.(pc := EndCall) else if late then s.(pc := SendFailed, dout := true) else s
    case EndCall => s.(pc := AwaitEnd, dout := true)
    case AwaitEnd => if clk then s.(pc := Sent) else if late then s.(pc := SendFailed, dout := true) else s
    case Sent => s
    case SendFailed => s
  }

  // ----- the receiving end -----

  datatype RevPc =
    | ListenClk | AwaitClkLow | Sample | Take | AwaitClkHigh | Rest
    | AwaitCall | GrantClk | AwaitCallEnd | ReleaseClk
    | Received | RevFailed

  datatype Receiver = Receiver(pc: RevPc, bit: nat, reg: Byte, buf: seq<Byte>, dout: bool, clk: Wire)

  function RevStart(count: nat): Receiver {
    Receiver(if count == 0 then AwaitCall else ListenClk, 0, 0, [], true, Free)
  }

  function RevStep(count: nat, r: Receiver, clk: bool, din: bool, late: bool): Receiver {
    match r.pc
    case ListenClk => r.(pc := AwaitClkLow, clk := Free)
    case AwaitClkLow => if !clk then r.(pc := Sample) else if late then r.(pc := RevFailed, dout := true) else r
    case Sample => r.(pc := Take, reg := (2 * r.reg + (if din then 1 else 0)) % 256)
    case Take => r.(pc := AwaitClkHigh, dout := false)
    case AwaitClkHigh => if clk then r.(pc := Rest) else if late then r.(pc := RevFailed, dout := true) else r
    case Rest =>
      if r.bit + 1 != 8 then r.(pc := AwaitClkLow, dout := true, bit := r.bit + 1)
      else r.(pc := if |r.buf| + 1 == count then AwaitCall else ListenClk,
              dout := true, bit := 0, reg := 0, buf := r.buf + [r.reg])
    case AwaitCall => if !din then r.(pc := GrantClk) else if late then r.(pc := RevFailed, clk := Free) else r
    case GrantClk => r.(pc := AwaitCallEnd, clk := Low)
    case AwaitCallEnd => if din then r.(pc := ReleaseClk) else if late then r.(pc := RevFailed, clk := Free) else r
    case ReleaseClk => r.(pc := Received, clk := Free)
    case Received => r
    case RevFailed => r
  }

  // ----- one end against any environment -----

  datatype Input = Input(clk: bool, din: bool, late: bool)

  function SendRun(data: seq<Byte>, s: Sender, env: seq<Input>): Sender
    decreases |env|
  {
    if env == [] then s else SendRun(data, SendStep(data, s, env[0].clk, env[0].din, env[0].late), env[1..])
  }

  function RevRun(count: nat, r: Receiver, env: seq<Input>): Receiver
    decreases |env|
  {
    if env == [] then r else RevRun(count, RevStep(count, r, env[0].clk, env[0].din, env[0].late), env[1..])
  }

  /** How the sender holds CLK, and when DOUT rests high. */
  predicate SendHolds(s: Sender) {
    && (s.pc.AwaitReady? || s.pc.PutBit? || s.pc.ClkLow? || s.pc.FreeClk? ==> s.clk == High)
    && (s.pc.AwaitTaken? || s.pc.ClkHigh? || s.pc.RestData? || s.pc.RestClk? ==> s.clk == Low)
    && (Acks(s.pc) || s.pc.Sent? || s.pc.SendFailed? ==> s.clk == Free)
    && (s.pc.AwaitGrant? || s.pc.EndCall? ==> !s.dout)
    && ((s.pc.RestClk? || s.pc.FreeClk? || s.pc.AwaitIdle? || s.pc.CallAck? || s.pc.AwaitEnd?
        || s.pc.Sent? || s.pc.SendFailed?) ==> s.dout)
  }

  predicate Acks(pc: SendPc) {
    pc.AwaitIdle? || pc.CallAck? || pc.AwaitGrant? || pc.EndCall? || pc.AwaitEnd?
  }

  predicate RevHolds(r: Receiver) {
    && r.dout == !(r.pc.AwaitClkHigh? || r.pc.Rest?)
    && r.clk == (if r.pc.AwaitCallEnd? || r.pc.ReleaseClk? then Low else Free)
  }

  /** However the other end behaves, every exit leaves CLK released and DOUT high. */
  lemma {:induction false} SenderExitsReleased(data: seq<Byte>, s: Sender, env: seq<Input>)
    requires SendHolds(s)
    ensures var t := SendRun(data, s, env);
            SendHolds(t) && (t.pc.Sent? || t.pc.SendFailed? ==> t.dout && t.clk == Free)
    decreases |env|
  {
    if env != [] {
      SenderExitsReleased(data, SendStep(data, s, env[0].clk, env[0].din, env[0].late), env[1..]);
    }
  }

  lemma {:induction false} ReceiverExitsReleased(count: nat, r: Receiver, env: seq<Input>)
    requires RevHolds(r)
    ensures var t := RevRun(count, r, env);
            RevHolds(t) && (t.pc.Received? || t.pc.RevFailed? ==> t.dout && t.clk == Free)
    decreases |env|
  {
    if env != [] {
      ReceiverExitsReleased(count, RevStep(count, r, env[0].clk, env[0].din, env[0].late), env[1..]);
    }
  }

  /** How many inputs would answer a failed poll with a timeout. */
  function Lates(env: seq<Input>): nat
    decreases |env|
  {
    if env == [] then 0 else Lates(env[1..]) + (if env[0].late then 1 else 0)
  }

  predicate RevCounts(count: nat, r: Receiver) { RevBitwise(r.pc) ==> |r.buf| < count && r.bit < 8 }

  /** However the other end behaves, the receiver returns once polls time out often enough. */
  lemma {:induction false} ReceiverReturns(count: nat, r: Receiver, env: seq<Input>)
    requires RevCounts(count, r) && Lates(env) >= RevLeft(count, r)
    ensures var t := RevRun(count, r, env); t.pc.Received? || t.pc.RevFailed?
    decreases |env|
  {
    if env != [] {
      RevLowersRank(count, r, env[0].clk, env[0].din, env[0].late);
      ReceiverReturns(count, RevStep(count, r, env[0].clk, env[0].din, env[0].late), env[1..]);
    }
  }

  /** The sender's acknowledgement returns likewise; its byte loop polls without a timeout. */
  lemma {:induction false} AckReturns(data: seq<Byte>, s: Sender, env: seq<Input>)
    requires !Bitwise(s.pc) && Lates(env) >= SendLeft(|data|, s)
    ensures var t := SendRun(data, s, env); t.pc.Sent? || t.pc.SendFailed?
    decreases |env|
  {
    if env != [] {
      AckReturns(data, SendStep(data, s, env[0].clk, env[0].din, env[0].late), env[1..]);
    }
  }

  /** In the byte loop a partner that keeps DIN low holds the sender for ever. */
  lemma {:induction false} ByteLoopWaits(data: seq<Byte>, s: Sender, env: seq<Input>)
    requires s.pc.AwaitReady? && forall i :: 0 <= i < |env| ==> !env[i].din
    ensures SendRun(data, s, env) == s
    decreases |env|
  {
    if env != [] {
      ByteLoopWaits(data, s, env[1..]);
    }
  }

  // ----- both ends together -----

  datatype Link = Link(data: seq<Byte>, s: Sender, r: Receiver)

  function Start(data: seq<Byte>): Link { Link(data, SendStart(data), RevStart(|data|)) }

  function Clk(l: Link): bool { Level(l.s.clk, l.r.clk) }

  function SendMove(l: Link): Link { l.(s := SendStep(l.data, l.s, Clk(l), l.r.dout, false)) }

  function RevMove(l: Link): Link { l.(r := RevStep(|l.data|, l.r, Clk(l), l.s.dout, false)) }

  predicate Finished(l: Link) { l.s.pc.Sent? && l.r.pc.Received? }

  /** Position of a bit in the whole transfer. */
  function SendBit(s: Sender): int { 8 * s.pos + 8 - s.left }

  function RevBit(r: Receiver): nat { 8 * |r.buf| + r.bit }

  /** Bits of the current byte the receiver has sampled. */
  function Sampled(r: Receiver): nat {
    r.bit + (if r.pc.Take? || r.pc.AwaitClkHigh? || r.pc.Rest? then 1 else 0)
  }

  predicate RevBitwise(pc: RevPc) {
    pc.ListenClk? || pc.AwaitClkLow? || pc.Sample? || pc.Take? || pc.AwaitClkHigh? || pc.Rest?
  }

  predicate Bitwise(pc: SendPc) {
    pc.AwaitReady? || pc.PutBit? || pc.ClkLow? || pc.AwaitTaken? || pc.ClkHigh? || pc.RestData? || pc.RestClk?
  }

  /** The receiver is ready for the next bit. */
  predicate Listens(r: Receiver) { r.pc.ListenClk? || r.pc.AwaitClkLow? }

  /** The receiver has yet to see CLK rise, or to take its answer back. */
  predicate Finishes(r: Receiver) { r.pc.AwaitClkHigh? || r.pc.Rest? }

  /** Where the receiver can be while the sender is at `s`. */
  predicate Meets(l: Link) {
    var g, h, n := SendBit(l.s), RevBit(l.r), 8 * |l.data|;
    match l.s.pc
    case AwaitReady => (Listens(l.r) && h == g) || (Finishes(l.r) && h + 1 == g)
    case PutBit => Listens(l.r) && h == g
    case ClkLow => Listens(l.r) && h == g
    case AwaitTaken => RevBitwise(l.r.pc) && !l.r.pc.Rest? && h == g
    case ClkHigh => l.r.pc.AwaitClkHigh? && h + 1 == g
    case RestData => l.r.pc.AwaitClkHigh? && h == g
    case RestClk => l.r.pc.AwaitClkHigh? && h == g
    case FreeClk => l.r.pc.AwaitCall? || (Finishes(l.r) && h + 1 == n)
    case AwaitIdle => l.r.pc.AwaitCall? || (Finishes(l.r) && h + 1 == n)
    case CallAck => l.r.pc.AwaitCall?
    case AwaitGrant => l.r.pc.AwaitCall? || l.r.pc.GrantClk? || l.r.pc.AwaitCallEnd?
    case EndCall => l.r.pc.AwaitCallEnd?
    case AwaitEnd => l.r.pc.AwaitCallEnd? || l.r.pc.ReleaseClk? || l.r.pc.Received?
    case Sent => l.r.pc.Received?
    case SendFailed => false
  }

  /** The most significant bits of a byte. */
  function TopBits(b: Byte, k: nat): int
    requires k <= 8
  {
    b / Pow2(8 - k)
  }

  /** Bit k of a byte, most significant first. */
  function Bit(b: Byte, k: nat): bool
    requires k < 8
  {
    b / Pow2(7 - k) % 2 == 1
  }

  predicate SendData(data: seq<Byte>, s: Sender) {
    if Bitwise(s.pc) then
      && s.pos < |data| && 1 <= s.left <= 8
      && (s.pc.ClkHigh? ==> s.left < 8)
      && (s.pc.RestData? || s.pc.RestClk? ==> s.left == 1)
      && (s.pc.AwaitReady? || s.pc.PutBit? || s.pc.ClkHigh? ==> s.reg == data[s.pos] * Pow2(8 - s.left) % 256)
      && (s.pc.ClkLow? || s.pc.AwaitTaken? ==>
            && s.dout == Bit(data[s.pos], 8 - s.left)
            && s.reg == data[s.pos] * Pow2(9 - s.left) % 256)
    else s.pos == |data|
  }

  predicate RevData(data: seq<Byte>, r: Receiver) {
    if RevBitwise(r.pc) then
      && |r.buf| < |data| && r.bit < 8 && r.buf == data[..|r.buf|]
      && (r.pc.ListenClk? ==> r.bit == 0)
      && r.reg == TopBits(data[|r.buf|], Sampled(r))
    else r.buf == data
  }

  predicate Inv(l: Link) {
    SendHolds(l.s) && RevHolds(l.r) && SendData(l.data, l.s) && RevData(l.data, l.r) && Meets(l)
  }

  // ----- shift registers -----

  lemma Pow2Table()
    ensures Pow2(0) == 1 && Pow2(1) == 2 && Pow2(2) == 4 && Pow2(3) == 8 && Pow2(4) == 16
    ensures Pow2(5) == 32 && Pow2(6) == 64 && Pow2(7) == 128 && Pow2(8) == 256
  {
    assert Pow2(2) == 4;
    assert Pow2(4) == 16;
    assert Pow2(6) == 64;
  }

  /** The top bit of the shifted-out register is the bit the receiver expects. */
  lemma ShiftedOut(b: Byte, k: nat)
    requires k < 8
    ensures (b * Pow2(k) % 256 >= 128) == Bit(b, k)
  {
    Pow2Table();
    assert Pow2(7 - k) * Pow2(k) == 128;
    TopOfByte(b, Pow2(7 - k), Pow2(k));
  }

  lemma TopOfByte(b: nat, d: nat, m: nat)
    requires d > 0 && m > 0 && d * m == 128
    ensures (b * m % 256 >= 128) == (b / d % 2 == 1)
  {
    var q, r := b / d, b % d;
    var v := r * m;
    assert b * m == 128 * q + v by {
      assert b == q * d + r;
      assert q * d * m == q * (d * m);
    }
    assert v < 128 by { TimesGrows(r + 1, d, m); }
    EighthBit(q, v);
  }

  lemma EighthBit(q: nat, v: nat)
    requires v < 128
    ensures ((128 * q + v) % 256 >= 128) == (q % 2 == 1)
  {
    Quotient(128 * q + v, 256, q / 2, 128 * (q % 2) + v);
  }

  lemma ShiftAgain(b: Byte, k: nat)
    requires k < 8
    ensures 2 * (b * Pow2(k) % 256) % 256 == b * Pow2(k + 1) % 256
  {
    Doubled(b, Pow2(k));
    DoubleModulo(b * Pow2(k));
  }

  lemma Doubled(b: nat, p: nat)
    ensures b * (2 * p) == 2 * (b * p)
  {
  }

  lemma DoubleModulo(x: nat)
    ensures 2 * (x % 256) % 256 == 2 * x % 256
  {
    var q, r := x / 256, x % 256;
    if r < 128 {
      Quotient(2 * x, 256, 2 * q, 2 * r);
    } else {
      Quotient(2 * x, 256, 2 * q + 1, 2 * r - 256);
    }
  }

  /** Shifting the expected bit in extends the top bits by one. */
  lemma ShiftedIn(b: Byte, k: nat)
    requires k < 8
    ensures TopBits(b, k + 1) == 2 * TopBits(b, k) + (if Bit(b, k) then 1 else 0)
    ensures 0 <= TopBits(b, k + 1) < 256 && TopBits(b, 8) == b && TopBits(b, 0) == 0
  {
    Pow2Table();
    var d := Pow2(7 - k);
    DivTwice(b, d);
    assert Pow2(8 - k) == 2 * d;
    assert b / d <= b;
  }

  // ----- the joint invariant -----

  lemma SendKeepsInv(l: Link)
    requires Inv(l)
    ensures Inv(SendMove(l))
  {
    if l.s.pc.PutBit? {
      SendPuts(l);
    } else if l.s.pc.AwaitTaken? || l.s.pc.ClkHigh? {
      SendNextBit(l);
    } else if l.s.pc.RestClk? {
      SendNextByte(l);
    } else if Bitwise(l.s.pc) {
      SendBits(l);
    } else {
      SendClosing(l);
    }
  }

  lemma SendPuts(l: Link)
    requires Inv(l) && l.s.pc.PutBit?
    ensures Inv(SendMove(l))
  {
    ShiftedOut(l.data[l.s.pos], 8 - l.s.left);
    ShiftAgain(l.data[l.s.pos], 8 - l.s.left);
  }

  lemma SendNextBit(l: Link)
    requires Inv(l) && (l.s.pc.AwaitTaken? || l.s.pc.ClkHigh?)
    ensures Inv(SendMove(l))
  {
  }

  lemma SendNextByte(l: Link)
    requires Inv(l) && l.s.pc.RestClk?
    ensures Inv(SendMove(l))
  {
    assert Pow2(0) == 1;
  }

  lemma SendBits(l: Link)
    requires Inv(l) && Bitwise(l.s.pc) && !l.s.pc.PutBit? && !l.s.pc.AwaitTaken? && !l.s.pc.ClkHigh? && !l.s.pc.RestClk?
    ensures Inv(SendMove(l))
  {
  }

  lemma SendClosing(l: Link)
    requires Inv(l) && !Bitwise(l.s.pc)
    ensures Inv(SendMove(l))
  {
  }

  lemma RevKeepsInv(l: Link)
    requires Inv(l)
    ensures Inv(RevMove(l))
  {
    if l.r.pc.Sample? {
      RevSample(l);
    } else if l.r.pc.Rest? {
      RevNextBit(l);
    } else if RevBitwise(l.r.pc) {
      RevBits(l);
    } else {
      RevClosing(l);
    }
  }

  /** The sample is taken while DOUT carries the bit it is meant to be. */
  lemma RevSample(l: Link)
    requires Inv(l) && l.r.pc.Sample?
    ensures Inv(RevMove(l))
  {
    assert l.s.pc.AwaitTaken?;
    SamePlace(l);
    TakesBit(l.data[l.s.pos], l.r.bit, l.r.reg, l.s.dout);
  }

  lemma TakesBit(b: Byte, k: nat, reg: Byte, din: bool)
    requires k < 8 && reg == TopBits(b, k) && din == Bit(b, k)
    ensures (2 * reg + (if din then 1 else 0)) % 256 == TopBits(b, k + 1)
  {
    ShiftedIn(b, k);
  }

  /** Equal positions mean equal bytes and equal bits. */
  lemma SamePlace(l: Link)
    requires Inv(l) && Bitwise(l.s.pc) && RevBitwise(l.r.pc) && SendBit(l.s) == RevBit(l.r)
    ensures l.s.pos == |l.r.buf| && 8 - l.s.left == l.r.bit
  {
  }

  lemma RevNextBit(l: Link)
    requires Inv(l) && l.r.pc.Rest?
    ensures Inv(RevMove(l))
  {
    var b := l.data[|l.r.buf|];
    ShiftedIn(b, l.r.bit);
    if l.r.bit + 1 == 8 {
      assert RevMove(l).r.buf == l.data[..|l.r.buf| + 1];
      if |l.r.buf| + 1 < |l.data| {
        ShiftedIn(l.data[|l.r.buf| + 1], 0);
      }
    }
  }

  lemma RevBits(l: Link)
    requires Inv(l) && RevBitwise(l.r.pc) && !l.r.pc.Sample? && !l.r.pc.Rest?
    ensures Inv(RevMove(l))
  {
  }

  lemma RevClosing(l: Link)
    requires Inv(l) && !RevBitwise(l.r.pc)
    ensures Inv(RevMove(l))
  {
  }

  // ----- progress -----

  function SendLeft(n: nat, s: Sender): nat {
    var bits := if SendBit(s) <= 8 * n then 7 * (8 * n - SendBit(s)) else 0;
    match s.pc
    case AwaitReady => 7 + bits
    case PutBit => 6 + bits
    case ClkLow => 5 + bits
    case AwaitTaken => 4 + bits
    case RestData => 3 + bits
    case RestClk => 2 + bits
    case ClkHigh => 8 + bits
    case FreeClk => 7
    case AwaitIdle => 6
    case CallAck => 5
    case AwaitGrant => 4
    case EndCall => 3
    case AwaitEnd => 2
    case Sent => 0
    case SendFailed => 0
  }

  function RevLeft(n: nat, r: Receiver): nat {
    var bits := if RevBit(r) <= 8 * n then 6 * (8 * n - RevBit(r)) else 0;
    match r.pc
    case ListenClk => 6 + bits
    case AwaitClkLow => 5 + bits
    case Sample => 4 + bits
    case Take => 3 + bits
    case AwaitClkHigh => 2 + bits
    case Rest => 1 + bits
    case AwaitCall => 4
    case GrantClk => 3
    case AwaitCallEnd => 2
    case ReleaseClk => 1
    case Received => 0
    case RevFailed => 0
  }

  /** An upper bound on the moves left. */
  function Rank(l: Link): nat { SendLeft(|l.data|, l.s) + RevLeft(|l.data|, l.r) }

  lemma SendLowersRank(data: seq<Byte>, s: Sender, clk: bool, din: bool)
    requires SendData(data, s)
    ensures var t := SendStep(data, s, clk, din, false); t == s || SendLeft(|data|, t) < SendLeft(|data|, s)
  {
  }

  /** A step that changes anything lowers the moves left, and one that may time out always
      changes something. */
  lemma RevLowersRank(count: nat, r: Receiver, clk: bool, din: bool, late: bool)
    requires RevCounts(count, r)
    ensures var t := RevStep(count, r, clk, din, late);
            && RevCounts(count, t)
            && (t == r || RevLeft(count, t) < RevLeft(count, r))
            && (late && RevLeft(count, r) > 0 ==> t != r)
  {
  }

  lemma MovesLowerRank(l: Link)
    requires Inv(l)
    ensures SendMove(l) == l || Rank(SendMove(l)) < Rank(l)
    ensures RevMove(l) == l || Rank(RevMove(l)) < Rank(l)
  {
    SendLowersRank(l.data, l.s, Clk(l), l.r.dout);
    RevLowersRank(|l.data|, l.r, Clk(l), l.s.dout, false);
  }

  /** Some end can move until both routines have returned. */
  lemma NeverStuck(l: Link)
    requires Inv(l)
    ensures Finished(l) <==> SendMove(l) == l && RevMove(l) == l
  {
  }

  lemma StepsKeepInv()
    ensures Inductive(SendMove, RevMove, Inv)
  {
    forall l | Inv(l)
      ensures Inv(SendMove(l))
    {
      SendKeepsInv(l);
    }
    forall l | Inv(l)
      ensures Inv(RevMove(l))
    {
      RevKeepsInv(l);
    }
  }

  lemma StepsLowerRank()
    ensures Ranked(SendMove, RevMove, Inv, Rank)
  {
    forall l | Inv(l)
      ensures SendMove(l) == l || Rank(SendMove(l)) < Rank(l)
    {
      MovesLowerRank(l);
    }
    forall l | Inv(l)
      ensures RevMove(l) == l || Rank(RevMove(l)) < Rank(l)
    {
      MovesLowerRank(l);
    }
  }

  lemma StepsEnd()
    ensures Live(SendMove, RevMove, Inv, Finished)
  {
    forall l | Inv(l)
      ensures Finished(l) <==> SendMove(l) == l && RevMove(l) == l
    {
      NeverStuck(l);
    }
  }

  lemma StartIsGood(data: seq<Byte>)
    ensures Inv(Start(data))
  {
    if data != [] {
      assert Pow2(0) == 1;
      ShiftedIn(data[0], 0);
    }
  }

  lemma {:induction false} SameData(data: seq<Byte>, l: Link, sched: seq<bool>)
    requires l.data == data
    ensures Run(SendMove, RevMove, l, sched).data == data
    decreases |sched|
  {
    if sched != [] {
      SameData(data, Move(SendMove, RevMove, l, sched[0]), sched[1..]);
    }
  }

  /** After any schedule CLK is not driven from both ends, the received bytes are a prefix
      of the sent ones and the byte being received a prefix of the next. */
  lemma EverySchedule(data: seq<Byte>, sched: seq<bool>)
    ensures var l := Run(SendMove, RevMove, Start(data), sched);
            && !Clash(l.s.clk, l.r.clk)
            && l.r.buf <= data
            && (RevBitwise(l.r.pc) ==>
                  && |l.r.buf| < |data| && Sampled(l.r) <= 8
                  && l.r.reg == TopBits(data[|l.r.buf|], Sampled(l.r)))
            && (Finished(l) ==> l.r.buf == data && l.s.clk == l.r.clk == Free && l.s.dout && l.r.dout)
  {
    StartIsGood(data);
    StepsKeepInv();
    RunKeeps(SendMove, RevMove, Inv, Start(data), sched);
    SameData(data, Start(data), sched);
  }

  /** Any schedule with enough rounds delivers every byte and returns both ends to rest. */
  lemma FairSchedulesDeliver(data: seq<Byte>, sched: seq<bool>)
    requires Fair(sched, 104 * |data| + 24)
    ensures var l := Run(SendMove, RevMove, Start(data), sched);
            Finished(l) && l.r.buf == data && l.s.clk == l.r.clk == Free && l.s.dout && l.r.dout
  {
    StartIsGood(data);
    StepsKeepInv();
    StepsLowerRank();
    StepsEnd();
    FairRunsEnd(SendMove, RevMove, Inv, Rank, Finished, Start(data), sched, 104 * |data| + 24);
    EverySchedule(data, sched);
  }

  /** Schedules with enough rounds exist: taking turns is one. */
  lemma TakingTurnsDelivers(data: seq<Byte>)
    ensures var l := Run(SendMove, RevMove, Start(data), Alternation(104 * |data| + 24));
            Finished(l) && l.r.buf == data
  {
    AlternationIsFair(104 * |data| + 24);
    FairSchedulesDeliver(data, Alternation(104 * |data| + 24));
  }

  /** One transfer under a scheduler that may pick any end that can move. */
  method Transfer(data: seq<Byte>, prefer: nat -> bool) returns (buf: seq<Byte>)
    ensures buf == data
  {
    var l, turn := Start(data), 0;
    StartIsGood(data);
    while !Finished(l)
      invariant Inv(l) && l.data == data
      decreases Rank(l)
    {
      NeverStuck(l);
      SendKeepsInv(l);
      RevKeepsInv(l);
      MovesLowerRank(l);
      var side := prefer(turn);
      if Move(SendMove, RevMove, l, side) == l {
        side := !side;
      }
      l := Move(SendMove, RevMove, l, side);
      turn := turn + 1;
    }
    buf := l.r.buf;
  }
}

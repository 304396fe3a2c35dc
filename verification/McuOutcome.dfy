/**
 When each routine of the MCU link succeeds, when it fails, and which bytes it takes in, told
 from the levels it polls alone, whatever the other end does.
 */
module McuOutcome {
  import opened Bytes
  import opened McuLink
  import opened Scripts

  function Late(i: Input): bool { i.late }
  function ClkLow(i: Input): bool { !i.clk }
  function ClkHigh(i: Input): bool { i.clk }
  function DinLow(i: Input): bool { !i.din }
  function DinHigh(i: Input): bool { i.din }
  function Never(i: Input): bool { false }

  // ----- the sender -----

  /** The bytes left, then the acknowledgement. */
  function SendBytes(count: nat): Script<Input>
    decreases count, 10
  {
    if count == 0 then SendAck() else SendBits(8, count)
  }

  /** For every bit DIN high and low, without a timeout. */
  function SendBits(left: nat, count: nat): Script<Input>
    requires left > 0 && count > 0
    decreases count, left
  {
    Await(DinHigh, Act(Act(Await(DinLow,
      Act(if left == 1 then Act(SendBytes(count - 1)) else SendBits(left - 1, count))))))
  }

  /** DIN high, CLK low, CLK high. */
  function SendAck(): Script<Input> { Act(Poll(DinHigh, Act(Poll(ClkLow, Act(Poll(ClkHigh, Done)))))) }

  predicate SendCounts(data: seq<Byte>, s: Sender) {
    if Bitwise(s.pc) then
      && s.pos < |data| && 1 <= s.left <= 8
      && (s.pc.ClkHigh? ==> s.left < 8)
      && (s.pc.RestData? || s.pc.RestClk? ==> s.left == 1)
    else s.pos <= |data|
  }

  function SendRest(data: seq<Byte>, s: Sender): Script<Input>
    requires SendCounts(data, s) && !s.pc.SendFailed?
  {
    match s.pc
    case AwaitReady => SendBits(s.left, |data| - s.pos)
    case PutBit => SendBits(s.left, |data| - s.pos).next
    case ClkLow => SendBits(s.left, |data| - s.pos).next.next
    case AwaitTaken => SendBits(s.left, |data| - s.pos).next.next.next
    case ClkHigh => SendBits(s.left + 1, |data| - s.pos).next.next.next.next
    case RestData => SendBits(1, |data| - s.pos).next.next.next.next
    case RestClk => SendBits(1, |data| - s.pos).next.next.next.next.next
    case FreeClk => SendAck()
    case AwaitIdle => SendAck().next
    case CallAck => SendAck().next.next
    case AwaitGrant => SendAck().next.next.next
    case EndCall => SendAck().next.next.next.next
    case AwaitEnd => SendAck().next.next.next.next.next
    case Sent => Done
  }

  /** The send reports success exactly when every level was found in order, and failure exactly
      when one of the acknowledgement's was missing at a late poll. */
  lemma SenderOutcome(data: seq<Byte>, env: seq<Input>)
    ensures var o, t := Verdict(Done, Point(SendBytes(|data|), []), Late, env), SendRun(data, SendStart(data), env);
            && (t.pc.Sent? <==> o.status.Succeeded?)
            && (t.pc.SendFailed? <==> o.status.Failed?)
  {
    assert SendRest(data, SendStart(data)) == SendBytes(|data|);
    SendFollows(data, SendStart(data), env);
  }

  /** An acknowledgement that no one grants fails, whatever else happens. */
  lemma AckNeedsGrant(env: seq<Input>)
    requires forall i :: 0 <= i < |env| ==> env[i].clk
    ensures !SendRun([], SendStart([]), env).pc.Sent?
  {
    SenderOutcome([], env);
    NoGrant(SendBytes(0), env);
  }

  lemma {:induction false} NoGrant(cur: Script<Input>, env: seq<Input>)
    requires forall i :: 0 <= i < |env| ==> env[i].clk
    requires cur == SendAck() || cur == SendAck().next || cur == SendAck().next.next || cur == SendAck().next.next.next
    ensures !Verdict(Done, Point(cur, []), Late, env).status.Succeeded?
    decreases |env|
  {
    if env != [] && Advance(Done, Point(cur, []), env[0], env[0].late).Go? {
      NoGrant(Advance(Done, Point(cur, []), env[0], env[0].late).to.cur, env[1..]);
    }
  }

  lemma {:induction false} SendFollows(data: seq<Byte>, s: Sender, env: seq<Input>)
    requires SendCounts(data, s) && !s.pc.SendFailed?
    ensures var o, t := Verdict(Done, Point(SendRest(data, s), []), Late, env), SendRun(data, s, env);
            && (t.pc.Sent? <==> o.status.Succeeded?)
            && (t.pc.SendFailed? <==> o.status.Failed?)
    decreases |env|
  {
    if env != [] {
      var t := SendStep(data, s, env[0].clk, env[0].din, env[0].late);
      SendAligned(data, s, env[0]);
      if t.pc.SendFailed? {
        SendFailedStays(data, t, env[1..]);
      } else {
        SendFollows(data, t, env[1..]);
      }
    }
  }

  lemma {:induction false} SendFailedStays(data: seq<Byte>, s: Sender, env: seq<Input>)
    requires s.pc.SendFailed?
    ensures SendRun(data, s, env) == s
    decreases |env|
  {
    if env != [] {
      SendFailedStays(data, s, env[1..]);
    }
  }

  ghost predicate SendGoes(data: seq<Byte>, s: Sender, t: Sender, i: Input)
    requires SendCounts(data, s) && !s.pc.SendFailed?
  {
    && SendCounts(data, t)
    && Advance(Done, Point(SendRest(data, s), []), i, i.late) ==
       if t.pc.SendFailed? then Fail else Go(Point(SendRest(data, t), []), [])
  }

  lemma SendAligned(data: seq<Byte>, s: Sender, i: Input)
    requires SendCounts(data, s) && !s.pc.SendFailed?
    ensures SendGoes(data, s, SendStep(data, s, i.clk, i.din, i.late), i)
  {
    if s.pc.RestClk? {
      NextByteAligned(data, s, i);
    } else if s.pc.ClkHigh? || s.pc.AwaitTaken? {
      NextBitAligned(data, s, i);
    } else if Bitwise(s.pc) {
      BitsAligned(data, s, i);
    } else {
      EndAligned(data, s, i);
    }
  }

  lemma NextByteAligned(data: seq<Byte>, s: Sender, i: Input)
    requires SendCounts(data, s) && s.pc.RestClk?
    ensures SendGoes(data, s, SendStep(data, s, i.clk, i.din, i.late), i)
  {
    var count := |data| - s.pos;
    assert SendBits(1, count).next.next.next.next.next.next == SendBytes(count - 1);
  }

  lemma NextBitAligned(data: seq<Byte>, s: Sender, i: Input)
    requires SendCounts(data, s) && (s.pc.ClkHigh? || s.pc.AwaitTaken?)
    ensures SendGoes(data, s, SendStep(data, s, i.clk, i.din, i.late), i)
  {
    var count := |data| - s.pos;
    if s.pc.ClkHigh? {
      assert SendBits(s.left + 1, count).next.next.next.next.next == SendBits(s.left, count);
    }
  }

  lemma BitsAligned(data: seq<Byte>, s: Sender, i: Input)
    requires SendCounts(data, s) && Bitwise(s.pc) && !s.pc.RestClk? && !s.pc.ClkHigh? && !s.pc.AwaitTaken?
    ensures SendGoes(data, s, SendStep(data, s, i.clk, i.din, i.late), i)
  {
  }

  lemma EndAligned(data: seq<Byte>, s: Sender, i: Input)
    requires SendCounts(data, s) && !Bitwise(s.pc) && !s.pc.SendFailed?
    ensures SendGoes(data, s, SendStep(data, s, i.clk, i.din, i.late), i)
  {
  }

  // ----- the receiver -----

  function RevBytes(count: nat): Script<Input>
    decreases count, 10
  {
    if count == 0 then RevAck() else Act(RevBits(8, count))
  }

  /** For every bit CLK low, the sample, CLK high; the eighth hands the byte on. */
  function RevBits(left: nat, count: nat): Script<Input>
    requires left > 0 && count > 0
    decreases count, left
  {
    Poll(ClkLow, Read(DinHigh, Act(Poll(ClkHigh,
      if left == 1 then Emit(Never, RevBytes(count - 1)) else Act(RevBits(left - 1, count))))))
  }

  /** DIN low and high. */
  function RevAck(): Script<Input> { Poll(DinLow, Act(Poll(DinHigh, Act(Done)))) }

  function RevRest(count: nat, r: Receiver): Script<Input>
    requires RevCounts(count, r) && !r.pc.RevFailed?
  {
    match r.pc
    case ListenClk => RevBytes(count - |r.buf|)
    case AwaitClkLow => RevBits(8 - r.bit, count - |r.buf|)
    case Sample => RevBits(8 - r.bit, count - |r.buf|).next
    case Take => RevBits(8 - r.bit, count - |r.buf|).next.next
    case AwaitClkHigh => RevBits(8 - r.bit, count - |r.buf|).next.next.next
    case Rest => RevBits(8 - r.bit, count - |r.buf|).next.next.next.next
    case AwaitCall => RevAck()
    case GrantClk => RevAck().next
    case AwaitCallEnd => RevAck().next.next
    case ReleaseClk => RevAck().next.next.next
    case Received => Done
  }

  /** The byte a group of bits makes, most significant first. */
  function Value(bits: seq<bool>): Byte {
    if bits == [] then 0
    else (2 * Value(bits[..|bits| - 1]) + (if bits[|bits| - 1] then 1 else 0)) % 256
  }

  function Values(groups: seq<seq<bool>>): seq<Byte> { seq(|groups|, i requires 0 <= i < |groups| => Value(groups[i])) }

  lemma ValuesJoin(a: seq<seq<bool>>, b: seq<seq<bool>>)
    ensures Values(a + b) == Values(a) + Values(b)
  {
  }

  ghost predicate Ready(count: nat, r: Receiver, bits: seq<bool>) {
    && RevCounts(count, r) && !r.pc.RevFailed?
    && (if RevBitwise(r.pc) then r.reg == Value(bits) && |bits| == Sampled(r) else bits == [])
    && (r.pc.ListenClk? ==> r.bit == 0)
  }

  ghost predicate Whole(groups: seq<seq<bool>>) { forall g <- groups :: |g| == 8 }

  ghost predicate Agrees(r: Receiver, t: Receiver, o: Outcome) {
    && (t.pc.Received? <==> o.status.Succeeded?)
    && (t.pc.RevFailed? <==> o.status.Failed?)
    && t.buf == r.buf + Values(o.groups) && Whole(o.groups)
  }

  /** Against any inputs: the receiver returns success exactly when every level was found in order,
      failure exactly when one was missing at a late poll, and its buffer holds one byte for each
      eight levels sampled. */
  lemma ReceiverOutcome(count: nat, env: seq<Input>)
    ensures var o, t := Verdict(Done, Point(RevBytes(count), []), Late, env), RevRun(count, RevStart(count), env);
            && (t.pc.Received? <==> o.status.Succeeded?)
            && (t.pc.RevFailed? <==> o.status.Failed?)
            && t.buf == Values(o.groups) && forall g <- o.groups :: |g| == 8
  {
    assert RevRest(count, RevStart(count)) == RevBytes(count);
    RevFollows(count, RevStart(count), [], env);
  }

  lemma {:induction false} RevFollows(count: nat, r: Receiver, bits: seq<bool>, env: seq<Input>)
    requires Ready(count, r, bits)
    ensures Agrees(r, RevRun(count, r, env), Verdict(Done, Point(RevRest(count, r), bits), Late, env))
    decreases |env|
  {
    assert Values([]) == [];
    if r.pc.Received? {
      RevEndStays(count, r, env);
    } else if env != [] {
      var t := RevStep(count, r, env[0].clk, env[0].din, env[0].late);
      var m := Advance(Done, Point(RevRest(count, r), bits), env[0], env[0].late);
      RevAligned(count, r, bits, env[0]);
      assert !RevRest(count, r).Done?;
      if t.pc.RevFailed? {
        RevEndStays(count, t, env[1..]);
      } else {
        RevFollows(count, t, m.to.bits, env[1..]);
        var o := Verdict(Done, m.to, Late, env[1..]);
        AgreesBefore(r, t, RevRun(count, t, env[1..]), m.groups, o);
      }
    }
  }

  lemma AgreesBefore(r: Receiver, t: Receiver, u: Receiver, groups: seq<seq<bool>>, o: Outcome)
    requires t.buf == r.buf + Values(groups) && Whole(groups) && Agrees(t, u, o)
    ensures Agrees(r, u, Outcome(o.status, groups + o.groups))
  {
    ValuesJoin(groups, o.groups);
  }

  lemma {:induction false} RevEndStays(count: nat, r: Receiver, env: seq<Input>)
    requires r.pc.Received? || r.pc.RevFailed?
    ensures RevRun(count, r, env) == r
    decreases |env|
  {
    if env != [] {
      RevEndStays(count, r, env[1..]);
    }
  }

  ghost predicate Aligned(count: nat, r: Receiver, t: Receiver, m: Move<Input>) {
    match m
    case Fail => t.pc.RevFailed? && t.buf == r.buf
    case Go(to, groups) =>
      && Ready(count, t, to.bits) && to.cur == RevRest(count, t)
      && t.buf == r.buf + Values(groups) && Whole(groups)
  }

  lemma RevAligned(count: nat, r: Receiver, bits: seq<bool>, i: Input)
    requires Ready(count, r, bits) && !r.pc.Received?
    ensures Aligned(count, r, RevStep(count, r, i.clk, i.din, i.late),
                    Advance(Done, Point(RevRest(count, r), bits), i, i.late))
  {
    if r.pc.Sample? {
      SampleAligned(count, r, bits, i);
    } else if r.pc.Rest? {
      RestAligned(count, r, bits, i);
    } else if RevBitwise(r.pc) {
      BitAligned(count, r, bits, i);
    } else {
      AckAligned(count, r, bits, i);
    }
  }

  lemma SampleAligned(count: nat, r: Receiver, bits: seq<bool>, i: Input)
    requires Ready(count, r, bits) && r.pc.Sample?
    ensures Aligned(count, r, RevStep(count, r, i.clk, i.din, i.late),
                    Advance(Done, Point(RevRest(count, r), bits), i, i.late))
  {
    assert (bits + [i.din])[..|bits|] == bits;
    assert Values([]) == [];
  }

  lemma RestAligned(count: nat, r: Receiver, bits: seq<bool>, i: Input)
    requires Ready(count, r, bits) && r.pc.Rest?
    ensures Aligned(count, r, RevStep(count, r, i.clk, i.din, i.late),
                    Advance(Done, Point(RevRest(count, r), bits), i, i.late))
  {
    assert Values([]) == [] && Values([bits]) == [Value(bits)];
    assert RevBytes(0) == RevAck();
    assert RevRest(count, r) == if r.bit == 7 then Emit(Never, RevBytes(count - |r.buf| - 1))
                                else Act(RevBits(7 - r.bit, count - |r.buf|));
  }

  lemma BitAligned(count: nat, r: Receiver, bits: seq<bool>, i: Input)
    requires Ready(count, r, bits) && RevBitwise(r.pc) && !r.pc.Sample? && !r.pc.Rest?
    ensures Aligned(count, r, RevStep(count, r, i.clk, i.din, i.late),
                    Advance(Done, Point(RevRest(count, r), bits), i, i.late))
  {
    assert Values([]) == [];
  }

  lemma AckAligned(count: nat, r: Receiver, bits: seq<bool>, i: Input)
    requires Ready(count, r, bits) && !RevBitwise(r.pc) && !r.pc.Received?
    ensures Aligned(count, r, RevStep(count, r, i.clk, i.din, i.late),
                    Advance(Done, Point(RevRest(count, r), bits), i, i.late))
  {
    assert Values([]) == [];
  }
}

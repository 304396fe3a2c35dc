/**
 When each routine of the DVD link succeeds, when it fails, and what it delivers, told from the
 levels it polls alone, whatever the other end does.
 */
module DvdOutcome {
  import opened DvdLink
  import opened Scripts

  function Late(i: Input): bool { i.late }
  function AckLow(i: Input): bool { !i.lv.ack }
  function AckHigh(i: Input): bool { i.lv.ack }
  function StbLow(i: Input): bool { !i.lv.stb }
  function StbHigh(i: Input): bool { i.lv.stb }
  function DataLow(i: Input): bool { !i.lv.data }
  function DataHigh(i: Input): bool { i.lv.data }

  // ----- the sender -----

  /** ACK low and high again, then for every bit, then STB low and high. */
  function SendScript(n: nat): Script<Input> { Act(Poll(AckLow, Act(Poll(AckHigh, SendBits(n))))) }

  function SendBits(left: nat): Script<Input> {
    if left == 0 then SendEnd()
    else Act(Act(Poll(AckLow, Act(Poll(AckHigh, SendBits(left - 1))))))
  }

  function SendEnd(): Script<Input> { Act(Act(Act(Poll(StbLow, Act(Poll(StbHigh, Act(Done))))))) }

  /** The part of the script the sender still has before it. */
  function SendRest(n: nat, s: Sender): Script<Input>
    requires SendCounts(n, s) && !s.pc.SendFailed?
  {
    match s.pc
    case Request => SendScript(n)
    case AwaitGrant => SendScript(n).next
    case Lift => SendScript(n).next.next
    case AwaitReady => SendScript(n).next.next.next
    case PutBit => SendBits(n - s.bit)
    case StrobeLow => SendBits(n - s.bit).next
    case AwaitTaken => SendBits(n - s.bit).next.next
    case StrobeHigh => SendBits(n - s.bit).next.next.next
    case AwaitNext => SendBits(n - s.bit).next.next.next.next
    case FreeData => SendEnd()
    case FreeStrobe => SendEnd().next
    case OfferAck => SendEnd().next.next
    case AwaitTurn => SendEnd().next.next.next
    case RaiseAck => SendEnd().next.next.next.next
    case AwaitEnd => SendEnd().next.next.next.next.next
    case FreeAck => SendEnd().next.next.next.next.next.next
    case Sent => Done
  }

  /** The sender is Sent exactly when every level was found in order, and SendFailed exactly when
      one was missing at a late poll. */
  lemma SenderOutcome(cmd: nat, n: nat, env: seq<Input>)
    ensures var o, t := Verdict(Done, Point(SendScript(n), []), Late, env), SendRun(cmd, n, SEND_START, env);
            && (t.pc.Sent? <==> o.status.Succeeded?)
            && (t.pc.SendFailed? <==> o.status.Failed?)
  {
    SendFollows(cmd, n, SEND_START, env);
  }

  lemma {:induction false} SendFollows(cmd: nat, n: nat, s: Sender, env: seq<Input>)
    requires SendCounts(n, s) && !s.pc.SendFailed?
    ensures var o, t := Verdict(Done, Point(SendRest(n, s), []), Late, env), SendRun(cmd, n, s, env);
            && (t.pc.Sent? <==> o.status.Succeeded?)
            && (t.pc.SendFailed? <==> o.status.Failed?)
    decreases |env|
  {
    if env != [] {
      var t := SendStep(cmd, n, s, env[0].lv, env[0].late);
      SendLowersRank(cmd, n, s, env[0].lv, env[0].late);
      SendAligned(cmd, n, s, env[0]);
      if t.pc.SendFailed? {
        SendFailedStays(cmd, n, t, env[1..]);
      } else {
        SendFollows(cmd, n, t, env[1..]);
      }
    }
  }

  lemma {:induction false} SendFailedStays(cmd: nat, n: nat, s: Sender, env: seq<Input>)
    requires s.pc.SendFailed?
    ensures SendRun(cmd, n, s, env) == s
    decreases |env|
  {
    if env != [] {
      SendFailedStays(cmd, n, s, env[1..]);
    }
  }

  lemma SendAligned(cmd: nat, n: nat, s: Sender, i: Input)
    requires SendCounts(n, s) && !s.pc.SendFailed?
    ensures var t := SendStep(cmd, n, s, i.lv, i.late);
            && SendCounts(n, t)
            && Advance(Done, Point(SendRest(n, s), []), i, i.late) ==
               if t.pc.SendFailed? then Fail else Go(Point(SendRest(n, t), []), [])
  {
    assert SendBits(0) == SendEnd();
    if s.pc.AwaitNext? {
      var left := n - s.bit;
      assert SendBits(left).next.next.next.next.next == SendBits(left - 1);
      assert s.bit + 1 == n ==> left - 1 == 0;
    }
  }

  // ----- the receiver -----

  /** DATA low and high again, then for every bit STB low, the sample, and STB high; then ACK low
      and high.  The word is handed on, and DATA low again starts the next one. */
  function RevScript(n: nat): Script<Input> { Await(DataLow, Act(Poll(DataHigh, RevBits(n)))) }

  function RevBits(left: nat): Script<Input> {
    if left == 0 then RevEnd()
    else Act(Poll(StbLow, Read(DataHigh, Act(Poll(StbHigh, RevBits(left - 1))))))
  }

  function RevEnd(): Script<Input> { Act(Poll(AckLow, Act(Poll(AckHigh, Act(Emit(DataLow, Done)))))) }

  function RevRest(n: nat, r: Receiver): Script<Input>
    requires n > 0 && RevCounts(n, r) && !r.pc.RevFailed?
  {
    match r.pc
    case Idle => RevScript(n)
    case Grant => RevScript(n).next
    case AwaitLift => RevScript(n).next.next
    case Ready => RevBits(n - r.bit)
    case AwaitStrobe => RevBits(n - r.bit).next
    case Sample => RevBits(n - r.bit).next.next
    case Take => RevBits(n - r.bit).next.next.next
    case AwaitStrobeEnd => RevBits(n - r.bit).next.next.next.next
    case ReleaseAck => RevEnd()
    case AwaitOffer => RevEnd().next
    case PullStrobe => RevEnd().next.next
    case AwaitRelease => RevEnd().next.next.next
    case ReleaseStrobe => RevEnd().next.next.next.next
    case Deliver => RevEnd().next.next.next.next.next
    case Received => Done
  }

  /** The 32-bit word a group of bits makes, most significant first. */
  function Value(bits: seq<bool>): nat {
    if bits == [] then 0
    else 2 * Value(bits[..|bits| - 1]) % 0x1_0000_0000 + (if bits[|bits| - 1] then 1 else 0)
  }

  function Values(groups: seq<seq<bool>>): seq<nat> { seq(|groups|, i requires 0 <= i < |groups| => Value(groups[i])) }

  lemma ValuesJoin(a: seq<seq<bool>>, b: seq<seq<bool>>)
    ensures Values(a + b) == Values(a) + Values(b)
  {
  }

  /** The accumulator is the value of the bits read for this word. */
  ghost predicate Collects(n: nat, r: Receiver, bits: seq<bool>) {
    if RevOpens(r.pc) || r.pc.Received? then bits == []
    else r.word == Value(bits) && |bits| == Sampled(r) && (RevBitwise(r.pc) || |bits| == n)
  }

  ghost predicate Ready(n: nat, r: Receiver, bits: seq<bool>) {
    RevCounts(n, r) && !r.pc.RevFailed? && Collects(n, r, bits)
  }

  ghost predicate Whole(n: nat, groups: seq<seq<bool>>) { forall g <- groups :: |g| == n }

  /** The receiver t, after starting as r, and the outcome say the same. */
  ghost predicate Agrees(n: nat, r: Receiver, t: Receiver, o: Outcome) {
    && (t.pc.Received? <==> o.status.Succeeded?)
    && (t.pc.RevFailed? <==> o.status.Failed?)
    && t.out == r.out + Values(o.groups) && Whole(n, o.groups)
  }

  /** Against any inputs: the receiver returns with Received exactly when every level was found in
      order, with RevFailed exactly when one was missing at a late poll, and it delivers one word
      for each time the script hands one on, made of the n levels sampled for it, and no other. */
  lemma ReceiverOutcome(n: nat, env: seq<Input>)
    requires n > 0
    ensures var o, t := Verdict(RevScript(n), Point(RevScript(n), []), Late, env), RevRun(n, REV_START, env);
            && (t.pc.Received? <==> o.status.Succeeded?)
            && (t.pc.RevFailed? <==> o.status.Failed?)
            && t.out == Values(o.groups) && forall g <- o.groups :: |g| == n
  {
    RevFollows(n, REV_START, [], env);
    assert RevRest(n, REV_START) == RevScript(n);
  }

  lemma {:induction false} RevFollows(n: nat, r: Receiver, bits: seq<bool>, env: seq<Input>)
    requires n > 0 && Ready(n, r, bits)
    ensures Agrees(n, r, RevRun(n, r, env), Verdict(RevScript(n), Point(RevRest(n, r), bits), Late, env))
    decreases |env|
  {
    assert Values([]) == [];
    if r.pc.Received? {
      RevEndStays(n, r, env);
    } else if env != [] {
      var t := RevStep(n, r, env[0].lv, env[0].late);
      var m := Advance(RevScript(n), Point(RevRest(n, r), bits), env[0], env[0].late);
      RevAligned(n, r, bits, env[0]);
      assert !RevRest(n, r).Done?;
      if t.pc.RevFailed? {
        RevEndStays(n, t, env[1..]);
      } else {
        RevFollows(n, t, m.to.bits, env[1..]);
        var o := Verdict(RevScript(n), m.to, Late, env[1..]);
        AgreesBefore(n, r, t, RevRun(n, t, env[1..]), m.groups, o);
      }
    }
  }

  lemma AgreesBefore(n: nat, r: Receiver, t: Receiver, u: Receiver, groups: seq<seq<bool>>, o: Outcome)
    requires t.out == r.out + Values(groups) && Whole(n, groups) && Agrees(n, t, u, o)
    ensures Agrees(n, r, u, Outcome(o.status, groups + o.groups))
  {
    ValuesJoin(groups, o.groups);
  }

  lemma {:induction false} RevEndStays(n: nat, r: Receiver, env: seq<Input>)
    requires r.pc.Received? || r.pc.RevFailed?
    ensures RevRun(n, r, env) == r
    decreases |env|
  {
    if env != [] {
      RevEndStays(n, r, env[1..]);
    }
  }

  ghost predicate Aligned(n: nat, r: Receiver, t: Receiver, m: Move<Input>) {
    match m
    case Fail => t.pc.RevFailed? && t.out == r.out
    case Go(to, groups) =>
      && Ready(n, t, to.bits) && n > 0 && to.cur == RevRest(n, t)
      && t.out == r.out + Values(groups) && Whole(n, groups)
  }

  lemma RevAligned(n: nat, r: Receiver, bits: seq<bool>, i: Input)
    requires n > 0 && Ready(n, r, bits) && !r.pc.Received?
    ensures Aligned(n, r, RevStep(n, r, i.lv, i.late), Advance(RevScript(n), Point(RevRest(n, r), bits), i, i.late))
  {
    if r.pc.Sample? {
      SampleAligned(n, r, bits, i);
    } else if r.pc.AwaitStrobeEnd? {
      NextBitAligned(n, r, bits, i);
    } else if RevBitwise(r.pc) {
      BitAligned(n, r, bits, i);
    } else if RevOpens(r.pc) {
      OpeningAligned(n, r, bits, i);
    } else {
      ClosingAligned(n, r, bits, i);
    }
  }

  lemma OpeningAligned(n: nat, r: Receiver, bits: seq<bool>, i: Input)
    requires n > 0 && Ready(n, r, bits) && RevOpens(r.pc)
    ensures Aligned(n, r, RevStep(n, r, i.lv, i.late), Advance(RevScript(n), Point(RevRest(n, r), bits), i, i.late))
  {
    assert Values([]) == [];
  }

  lemma SampleAligned(n: nat, r: Receiver, bits: seq<bool>, i: Input)
    requires n > 0 && Ready(n, r, bits) && r.pc.Sample?
    ensures Aligned(n, r, RevStep(n, r, i.lv, i.late), Advance(RevScript(n), Point(RevRest(n, r), bits), i, i.late))
  {
    assert (bits + [i.lv.data])[..|bits|] == bits;
    assert Values([]) == [];
  }

  lemma NextBitAligned(n: nat, r: Receiver, bits: seq<bool>, i: Input)
    requires n > 0 && Ready(n, r, bits) && r.pc.AwaitStrobeEnd?
    ensures Aligned(n, r, RevStep(n, r, i.lv, i.late), Advance(RevScript(n), Point(RevRest(n, r), bits), i, i.late))
  {
    var left := n - r.bit;
    assert RevBits(left).next.next.next.next.next == RevBits(left - 1);
    assert RevBits(0) == RevEnd();
    assert Values([]) == [];
  }

  lemma BitAligned(n: nat, r: Receiver, bits: seq<bool>, i: Input)
    requires n > 0 && Ready(n, r, bits) && (r.pc.Ready? || r.pc.AwaitStrobe? || r.pc.Take?)
    ensures Aligned(n, r, RevStep(n, r, i.lv, i.late), Advance(RevScript(n), Point(RevRest(n, r), bits), i, i.late))
  {
    assert Values([]) == [];
  }

  lemma ClosingAligned(n: nat, r: Receiver, bits: seq<bool>, i: Input)
    requires n > 0 && Ready(n, r, bits) && !RevOpens(r.pc) && !RevBitwise(r.pc) && !r.pc.Received?
    ensures Aligned(n, r, RevStep(n, r, i.lv, i.late), Advance(RevScript(n), Point(RevRest(n, r), bits), i, i.late))
  {
    assert Values([]) == [];
    if r.pc.Deliver? {
      assert Values([bits]) == [Value(bits)];
    }
  }
}

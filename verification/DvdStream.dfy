/**
 Words sent one after the other over the DVD link.  The sending routine is called again after
 every word, and may pull DATA low for the next one before the receiving routine has handed the
 last one on: then that routine goes round, else it returns and is called again by the interrupt.
 */
module DvdStream {
  import opened Powers
  import opened Wires
  import Interleave
  import opened DvdLink

  /** The words before `done` have been sent; between words the sender is Sent. */
  datatype Stream = Stream(words: seq<nat>, n: nat, done: nat, s: Sender, r: Receiver)

  const RESTING := Receiver(Received, 0, 0, RELEASED, [])

  function Begin(words: seq<nat>, n: nat): Stream { Stream(words, n, 0, Sender(Sent, 0, RELEASED), RESTING) }

  function Word(c: Stream): nat { if c.done < |c.words| then c.words[c.done] else 0 }

  function SendNext(c: Stream): Stream {
    if c.s.pc.Sent? then (if c.done < |c.words| then c.(s := SEND_START) else c)
    else
      var s := SendStep(Word(c), c.n, c.s, Seen(c.s.drive, c.r.drive), false);
      c.(s := s, done := c.done + if s.pc.Sent? then 1 else 0)
  }

  /** A receiver that has returned listens again when the interrupt finds DATA low. */
  function Listening(r: Receiver): Receiver { if r.pc.Received? then r.(pc := Idle) else r }

  function RevNext(c: Stream): Stream {
    var lv := Seen(c.s.drive, c.r.drive);
    if c.r.pc.Received? && lv.data then c else c.(r := RevStep(c.n, Listening(c.r), lv, false))
  }

  predicate AllDone(c: Stream) { c.s.pc.Sent? && c.done == |c.words| && c.r.pc.Received? }

  function Tops(words: seq<nat>, n: nat): seq<nat>
    requires n <= 24
  {
    seq(|words|, i requires 0 <= i < |words| => Top(words[i], n))
  }

  // ----- the stream is a chain of single transfers -----

  /** The sender has not yet been answered. */
  predicate Asks(pc: SendPc) { pc.Request? || pc.AwaitGrant? }

  /** The transfer in progress, without the words delivered before it. */
  function Current(c: Stream): Link
    requires c.done <= |c.r.out|
  {
    Link(Word(c), c.n, c.s, (if Asks(c.s.pc) then Listening(c.r) else c.r).(out := c.r.out[c.done..]))
  }

  /** A word has been sent whole and waits to be handed on. */
  predicate Overlaps(c: Stream) { c.r.pc.Deliver? && (c.s.pc.Sent? || Asks(c.s.pc)) }

  predicate Transferring(c: Stream) {
    !c.s.pc.Sent? && !Overlaps(c) && c.done < |c.words| && c.done <= |c.r.out| && Inv(Current(c))
  }

  predicate Pending(c: Stream)
    requires c.n <= 24
  {
    && Overlaps(c) && 0 < c.done == |c.r.out| + 1 && c.done <= |c.words|
    && RevHolds(c.r) && c.r.word == Top(c.words[c.done - 1], c.n)
    && Waiting(c)
  }

  predicate Between(c: Stream) {
    && c.s.pc.Sent? && c.r.pc.Received? && c.done == |c.r.out| && c.done <= |c.words|
    && RevHolds(c.r) && SendHolds(c.s)
  }

  /** The sender is between words or asks for the next one. */
  predicate Waiting(c: Stream) {
    SendHolds(c.s) && (!c.s.pc.Sent? ==> c.done < |c.words| && c.s.bit == 0)
  }

  ghost predicate StreamInv(c: Stream) {
    && 1 <= c.n <= 24 && |c.r.out| <= |c.words|
    && c.r.out == Tops(c.words[..|c.r.out|], c.n)
    && (Transferring(c) || Pending(c) || Between(c))
  }

  lemma TopsGrow(words: seq<nat>, n: nat, k: nat)
    requires n <= 24 && k < |words|
    ensures Tops(words[..k + 1], n) == Tops(words[..k], n) + [Top(words[k], n)]
  {
  }

  lemma SendNextKeepsInv(c: Stream)
    requires StreamInv(c)
    ensures StreamInv(SendNext(c))
  {
    if Transferring(c) {
      SendInTransfer(c);
    } else if Pending(c) {
    } else {
      StartsWord(c);
    }
  }

  lemma StartsWord(c: Stream)
    requires StreamInv(c) && Between(c)
    ensures StreamInv(SendNext(c))
  {
    if c.done < |c.words| {
      var d := SendNext(c);
      assert d.r.out[d.done..] == [];
      AskingIsGood(Word(d), d.n, d.s, Current(d).r);
    }
  }

  /** A request to a listening receiver is a transfer that can go on. */
  lemma AskingIsGood(cmd: nat, n: nat, s: Sender, r: Receiver)
    requires 1 <= n <= 24 && Asks(s.pc) && SendHolds(s) && s.bit == 0
    requires r.pc.Idle? && r.drive == RELEASED && r.out == []
    ensures Inv(Link(cmd, n, s, r))
  {
  }

  lemma SendInTransfer(c: Stream)
    requires StreamInv(c) && Transferring(c)
    ensures StreamInv(SendNext(c))
  {
    var l, d := Current(c), SendNext(c);
    SendKeepsInv(l);
    assert SendMove(l).s == d.s;
    if d.s.pc.Sent? {
      assert c.s.pc.FreeAck?;
      if d.r.pc.Deliver? {
        assert Pending(d);
      } else {
        assert |c.r.out[c.done..]| == 1;
        assert Between(d);
      }
    } else {
      assert Current(d) == SendMove(l);
    }
  }

  lemma RevNextKeepsInv(c: Stream)
    requires StreamInv(c)
    ensures StreamInv(RevNext(c))
  {
    if Transferring(c) {
      RevInTransfer(c);
    } else if Pending(c) {
      HandsOn(c);
    }
  }

  lemma HandsOn(c: Stream)
    requires StreamInv(c) && Pending(c)
    ensures StreamInv(RevNext(c))
    ensures RevNext(c).r.out == c.r.out + [Top(c.words[c.done - 1], c.n)]
  {
    var d := RevNext(c);
    Hands(c);
    TopsGrow(c.words, c.n, c.done - 1);
    if c.s.pc.Sent? {
      assert Between(d);
    } else {
      assert d.r.out[d.done..] == [];
      AskingIsGood(Word(d), d.n, d.s, Current(d).r);
      assert Transferring(d);
    }
  }

  /** The word is handed on whether or not DATA is low again. */
  lemma Hands(c: Stream)
    requires 1 <= c.n <= 24 && Pending(c)
    ensures var pc := if c.s.pc.AwaitGrant? then Idle else Received;
            RevNext(c) == c.(r := c.r.(pc := pc, out := c.r.out + [Top(c.words[c.done - 1], c.n)]))
  {
  }

  lemma RevInTransfer(c: Stream)
    requires StreamInv(c) && Transferring(c)
    ensures StreamInv(RevNext(c))
  {
    RevMoves(c);
    if c.r.pc.Deliver? {
      assert c.r.out == c.r.out[..c.done];
      TopsGrow(c.words, c.n, c.done);
    }
  }

  /** The receiver's move in the stream is its move in the transfer in progress. */
  lemma RevMoves(c: Stream)
    requires StreamInv(c) && Transferring(c)
    ensures var d := RevNext(c);
            && Current(d) == RevMove(Current(c)) && Transferring(d)
            && (if c.r.pc.Deliver? then |c.r.out| == c.done && d.r.out == c.r.out + [Top(Word(c), c.n)]
                else d.r.out == c.r.out)
  {
    var l, d := Current(c), RevNext(c);
    RevKeepsInv(l);
    if c.r.pc.Deliver? {
      assert c.r.out[c.done..] == [];
      assert d.r.out[d.done..] == [Top(Word(c), c.n)];
    } else {
      assert d.r.out == c.r.out;
    }
    assert Current(d) == RevMove(l);
  }

  lemma RevChanges(c: Stream)
    requires StreamInv(c) && Transferring(c) && RevNext(c) != c
    ensures RevMove(Current(c)) != Current(c)
  {
  }

  // ----- progress -----

  /** Moves for this many whole words. */
  function Budget(words: nat, each: nat): nat {
    if words == 0 then 0 else each + Budget(words - 1, each)
  }

  function StreamRank(c: Stream): nat {
    var each, left := 10 * c.n + 22, if c.done <= |c.words| then |c.words| - c.done else 0;
    (if c.s.pc.Sent? then Budget(left, each)
     else Budget(if left > 0 then left - 1 else 0, each)
          + (if Overlaps(c) then SendLeft(c.n, c.s) + 9 + 5 * c.n
             else SendLeft(c.n, c.s) + RevLeft(c.n, if Asks(c.s.pc) then Listening(c.r) else c.r)))
    + (if Overlaps(c) then 1 else 0)
  }

  lemma RankIsCurrent(c: Stream)
    requires Transferring(c)
    ensures StreamRank(c) == Budget(|c.words| - c.done - 1, 10 * c.n + 22) + Rank(Current(c))
  {
  }

  lemma SendNextLowersRank(c: Stream)
    requires StreamInv(c)
    ensures SendNext(c) == c || StreamRank(SendNext(c)) < StreamRank(c)
  {
    if Transferring(c) {
      SendLowersStream(c);
    } else if Pending(c) {
      PendingSendLowers(c);
    }
  }

  lemma PendingSendLowers(c: Stream)
    requires StreamInv(c) && Pending(c)
    ensures SendNext(c) == c || StreamRank(SendNext(c)) < StreamRank(c)
  {
  }

  lemma SendLowersStream(c: Stream)
    requires StreamInv(c) && Transferring(c)
    ensures SendNext(c) == c || StreamRank(SendNext(c)) < StreamRank(c)
  {
    var l, d := Current(c), SendNext(c);
    MovesLowerRank(l);
    RankIsCurrent(c);
    assert SendMove(l).s == d.s;
    if d.s.pc.Sent? {
      EndsWord(c);
    } else if d != c {
      SendInTransfer(c);
      assert Current(d) == SendMove(l);
      RankIsCurrent(d);
    }
  }

  lemma EndsWord(c: Stream)
    requires StreamInv(c) && Transferring(c) && SendNext(c).s.pc.Sent?
    ensures StreamRank(SendNext(c)) < StreamRank(c)
  {
  }

  lemma RevNextLowersRank(c: Stream)
    requires StreamInv(c)
    ensures RevNext(c) == c || StreamRank(RevNext(c)) < StreamRank(c)
  {
    if Transferring(c) {
      RevLowersStream(c);
    } else if Pending(c) {
      Hands(c);
    }
  }

  lemma RevLowersStream(c: Stream)
    requires StreamInv(c) && Transferring(c)
    ensures RevNext(c) == c || StreamRank(RevNext(c)) < StreamRank(c)
  {
    var d := RevNext(c);
    RevMoves(c);
    if d != c {
      MovesLowerRank(Current(c));
      RankIsCurrent(c);
      RankIsCurrent(d);
      assert RevMove(Current(c)) != Current(c) by { RevChanges(c); }
    }
  }

  /** Some side can move until every word has been handed on. */
  lemma StreamNeverStuck(c: Stream)
    requires StreamInv(c)
    ensures AllDone(c) <==> SendNext(c) == c && RevNext(c) == c
  {
    if Transferring(c) {
      NeverStuck(Current(c));
    }
  }

  // ----- every schedule -----

  predicate NoWireClash(c: Stream) {
    && !Clash(c.s.drive.data, c.r.drive.data)
    && !Clash(c.s.drive.stb, c.r.drive.stb)
    && !Clash(c.s.drive.ack, c.r.drive.ack)
  }

  lemma BeginIsGood(words: seq<nat>, n: nat)
    requires 1 <= n <= 24
    ensures StreamInv(Begin(words, n)) && StreamRank(Begin(words, n)) == Budget(|words|, 10 * n + 22)
  {
    assert Begin(words, n).r.out == Tops(words[..0], n);
  }

  lemma StreamNeverClashes(c: Stream)
    requires StreamInv(c)
    ensures NoWireClash(c)
    ensures AllDone(c) ==> c.s.drive == c.r.drive == RELEASED
  {
  }

  lemma StreamStepsKeep()
    ensures Interleave.Inductive(SendNext, RevNext, StreamInv)
  {
    forall c | StreamInv(c)
      ensures StreamInv(SendNext(c))
    {
      SendNextKeepsInv(c);
    }
    forall c | StreamInv(c)
      ensures StreamInv(RevNext(c))
    {
      RevNextKeepsInv(c);
    }
  }

  lemma StreamStepsLower()
    ensures Interleave.Ranked(SendNext, RevNext, StreamInv, StreamRank)
  {
    forall c | StreamInv(c)
      ensures SendNext(c) == c || StreamRank(SendNext(c)) < StreamRank(c)
    {
      SendNextLowersRank(c);
    }
    forall c | StreamInv(c)
      ensures RevNext(c) == c || StreamRank(RevNext(c)) < StreamRank(c)
    {
      RevNextLowersRank(c);
    }
  }

  lemma StreamStepsEnd()
    ensures Interleave.Live(SendNext, RevNext, StreamInv, AllDone)
  {
    forall c | StreamInv(c)
      ensures AllDone(c) <==> SendNext(c) == c && RevNext(c) == c
    {
      StreamNeverStuck(c);
    }
  }

  lemma {:induction false} SameStream(c: Stream, sched: seq<bool>)
    ensures var d := Interleave.Run(SendNext, RevNext, c, sched); d.words == c.words && d.n == c.n
    decreases |sched|
  {
    if sched != [] {
      SameStream(Interleave.Move(SendNext, RevNext, c, sched[0]), sched[1..]);
    }
  }

  /** After any schedule no wire is driven from both ends, and the words delivered are the first
      of those sent; once both sides rest they are all of them, each delivered once. */
  lemma EveryStream(words: seq<nat>, n: nat, sched: seq<bool>)
    requires 1 <= n <= 24
    ensures var c := Interleave.Run(SendNext, RevNext, Begin(words, n), sched);
            && NoWireClash(c)
            && |c.r.out| <= |words| && c.r.out == Tops(words, n)[..|c.r.out|]
            && (AllDone(c) ==> c.r.out == Tops(words, n) && c.s.drive == c.r.drive == RELEASED)
  {
    var c := Interleave.Run(SendNext, RevNext, Begin(words, n), sched);
    BeginIsGood(words, n);
    StreamStepsKeep();
    Interleave.RunKeeps(SendNext, RevNext, StreamInv, Begin(words, n), sched);
    SameStream(Begin(words, n), sched);
    StreamNeverClashes(c);
    assert Tops(words[..|c.r.out|], n) == Tops(words, n)[..|c.r.out|];
    if AllDone(c) {
      assert Between(c);
      assert Tops(words, n)[..|words|] == Tops(words, n);
    }
  }

  lemma {:induction false} BudgetIsProduct(words: nat, each: nat)
    ensures Budget(words, each) == words * each
  {
    if words > 0 {
      BudgetIsProduct(words - 1, each);
    }
  }

  /** Any schedule with 10n + 22 rounds for each word delivers every word once, in order. */
  lemma FairStreamsDeliver(words: seq<nat>, n: nat, sched: seq<bool>)
    requires 1 <= n <= 24 && Interleave.Fair(sched, |words| * (10 * n + 22))
    ensures var c := Interleave.Run(SendNext, RevNext, Begin(words, n), sched);
            && AllDone(c) && |c.r.out| == |words|
            && forall i :: 0 <= i < |words| ==> c.r.out[i] == words[i] / Pow2(24 - n) % Pow2(n)
  {
    BeginIsGood(words, n);
    BudgetIsProduct(|words|, 10 * n + 22);
    StreamStepsKeep();
    StreamStepsLower();
    StreamStepsEnd();
    Interleave.FairRunsEnd(SendNext, RevNext, StreamInv, StreamRank, AllDone, Begin(words, n), sched,
                           |words| * (10 * n + 22));
    EveryStream(words, n, sched);
  }
}

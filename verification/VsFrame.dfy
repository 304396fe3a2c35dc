/**
 Frames sent to the virtual serial port: how a frame is built and checked, how its bytes
 reach the terminal in chunks of sixteen, and what a reader of the stream recovers.
 */
module VsFrame {
  import opened Bytes
  import opened Options

  datatype Command = Command(cmd: Byte, payload: seq<Byte>)

  const HEADER: Byte := 0x2E

  function Sum(s: seq<Byte>): nat {
    if s == [] then 0 else Sum(s[..|s| - 1]) + s[|s| - 1]
  }

  /** The complement of the 8-bit sum of count, command and payload. */
  function Check(c: Command): Byte {
    255 - (|c.payload| + c.cmd + Sum(c.payload)) % 256
  }

  /** The count byte is the low byte of the length. */
  function Frame(c: Command): seq<Byte> {
    [HEADER, c.cmd, |c.payload| % 256] + c.payload + [Check(c)]
  }

  /** Where everything is in a frame. */
  lemma FrameLayout(c: Command)
    ensures var f, n := Frame(c), |c.payload|;
            && |f| == n + 4 && f[0] == 0x2E && f[1] == c.cmd && f[2] == n % 256
            && (forall i :: 0 <= i < n ==> f[i + 3] == c.payload[i])
  {
  }

  function Stream(cs: seq<Command>): seq<Byte> {
    if cs == [] then [] else Frame(cs[0]) + Stream(cs[1..])
  }

  // ---------------------------------------------------------------- reading

  /** A reader that trusts the count and wants everything after the header to add up to 0xFF. */
  predicate Starts(s: seq<Byte>) {
    |s| >= 4 && s[0] == HEADER && |s| >= s[2] as int + 4 && Sum(s[1..s[2] as int + 4]) % 256 == 0xFF
  }

  function Read(s: seq<Byte>): Option<seq<Command>> {
    if s == [] then Some([])
    else if !Starts(s) then None
    else match Read(s[s[2] + 4..])
      case None => None
      case Some(cs) => Some([Command(s[1], s[3..s[2] + 3])] + cs)
  }

  predicate Fits(cs: seq<Command>) { forall c <- cs :: |c.payload| < 256 }

  lemma {:induction false} SumJoins(s: seq<Byte>, t: seq<Byte>)
    ensures Sum(s + t) == Sum(s) + Sum(t)
  {
    if t == [] {
      assert s + t == s;
    } else {
      var u := t[..|t| - 1];
      SumJoins(s, u);
      assert (s + t)[..|s + t| - 1] == s + u;
    }
  }

  lemma SumUpdates(s: seq<Byte>, i: nat, b: Byte)
    requires i < |s|
    ensures Sum(s[i := b]) == Sum(s) - s[i] + b
  {
    SumJoins(s[..i] + [s[i]], s[i + 1..]);
    SumJoins(s[..i], [s[i]]);
    SumJoins(s[..i] + [b], s[i + 1..]);
    SumJoins(s[..i], [b]);
    assert s == s[..i] + [s[i]] + s[i + 1..];
    assert s[i := b] == s[..i] + [b] + s[i + 1..];
  }

  lemma SumOfParts(x: Byte, y: Byte, p: seq<Byte>, z: Byte)
    ensures Sum([x, y] + p + [z]) == x + y + Sum(p) + z
  {
    SumJoins([x, y] + p, [z]);
    SumJoins([x, y], p);
    SumJoins([x], [y]);
    assert [x, y] == [x] + [y];
  }

  lemma Complement(n: nat, m: nat, z: Byte)
    ensures (n % 256 + m + z) % 256 == 255 <==> z == 255 - (n + m) % 256
  {
    ModAdds(n, m + z);
    ModAdds(n + m, z);
  }

  lemma ModAdds(a: nat, b: nat)
    ensures (a % 256 + b) % 256 == (a + b) % 256
  {
  }

  /** Every frame, of whatever length, adds up to 0xFF after its header. */
  lemma FrameSumsTo255(c: Command)
    ensures Sum(Frame(c)[1..]) % 256 == 0xFF
  {
    var n := |c.payload|;
    assert Frame(c)[1..] == [c.cmd, n % 256] + c.payload + [Check(c)];
    SumOfParts(c.cmd, n % 256, c.payload, Check(c));
    Complement(n, c.cmd + Sum(c.payload), Check(c));
  }

  /** The last byte is the only one that completes the sum. */
  lemma CheckIsUnique(c: Command, b: Byte)
    requires |c.payload| < 256
    ensures Sum([c.cmd, |c.payload|] + c.payload + [b]) % 256 == 0xFF <==> b == Check(c)
  {
    SumOfParts(c.cmd, |c.payload|, c.payload, b);
    Complement(|c.payload|, c.cmd + Sum(c.payload), b);
  }

  /** One frame in front of anything is read as its command, and the rest is read next. */
  lemma FrontIsRead(c: Command, rest: seq<Byte>)
    requires |c.payload| < 256
    ensures Starts(Frame(c) + rest)
    ensures Read(Frame(c) + rest) ==
            match Read(rest) { case None => None case Some(cs) => Some([c] + cs) }
  {
    var s := Frame(c) + rest;
    FrameSumsTo255(c);
    assert s[1..s[2] + 4] == Frame(c)[1..];
    assert s[s[2] + 4..] == rest;
    assert s[3..s[2] + 3] == c.payload;
  }

  /** Whatever the reader accepts is the frame of the command it reports. */
  lemma FrontIsFrame(s: seq<Byte>)
    requires Starts(s)
    ensures s == Frame(Command(s[1], s[3..s[2] + 3])) + s[s[2] + 4..]
  {
    var n := s[2];
    var c := Command(s[1], s[3..n + 3]);
    assert s[1..n + 4] == [c.cmd, n] + c.payload + [s[n + 3]];
    CheckIsUnique(c, s[n + 3]);
    assert s == s[..n + 4] + s[n + 4..];
    assert s[..n + 4] == Frame(c);
  }

  /** The reader recovers the commands sent exactly when every count fits its byte. */
  lemma ReaderRecovers(cs: seq<Command>)
    ensures Read(Stream(cs)) == Some(cs) <==> Fits(cs)
  {
    if Fits(cs) {
      FitsIsRead(cs);
    }
    if Read(Stream(cs)) == Some(cs) {
      ReadIsSent(Stream(cs), cs);
    }
  }

  /** 256 zero bytes: the count wraps to 0 and the reader takes the first one for the check. */
  lemma LongPayloadIsLost()
    ensures Read(Stream([Command(0, seq(256, _ => 0))])) == None
  {
    var c := Command(0, seq(256, _ => 0));
    var s := Stream([c]);
    assert s == Frame(c) + [] && Frame(c) + [] == Frame(c);
    assert s[1..4] == [0, 0] + [] + [0];
    SumOfParts(0, 0, [], 0);
  }

  lemma {:induction false} FitsIsRead(cs: seq<Command>)
    requires Fits(cs)
    ensures Read(Stream(cs)) == Some(cs)
  {
    if cs != [] {
      FitsIsRead(cs[1..]);
      FrontIsRead(cs[0], Stream(cs[1..]));
      assert [cs[0]] + cs[1..] == cs;
    }
  }

  /** The only bytes read as a list of commands are the ones sent for it. */
  lemma {:induction false} ReadIsSent(s: seq<Byte>, cs: seq<Command>)
    requires Read(s) == Some(cs)
    ensures s == Stream(cs) && Fits(cs)
  {
    if s != [] {
      var c := Command(s[1], s[3..s[2] + 3]);
      ReadIsSent(s[s[2] + 4..], cs[1..]);
      FrontIsFrame(s);
      assert cs[0] == c;
    }
  }

  /** A frame with one byte other than its count replaced is accepted only if nothing changed. */
  lemma OneByteIsNoticed(c: Command, rest: seq<Byte>, i: nat, b: Byte)
    requires |c.payload| < 256 && i < |Frame(c)| && i != 2
    ensures Starts(Frame(c)[i := b] + rest) <==> b == Frame(c)[i]
  {
    var f := Frame(c);
    var s := f[i := b] + rest;
    FrameSumsTo255(c);
    assert s[1..s[2] + 4] == f[i := b][1..];
    if i == 0 {
      assert f[i := b][1..] == f[1..];
    } else {
      assert f[i := b][1..] == f[1..][i - 1 := b];
      SumUpdates(f[1..], i - 1, b);
      OneOff(Sum(f[1..]), f[i], b);
    }
  }

  lemma OneOff(sum: nat, was: Byte, now: Byte)
    requires sum >= was && sum % 256 == 255
    ensures (sum - was + now) % 256 == 255 <==> was == now
  {
  }

  // ---------------------------------------------------------------- sending

  /** The terminal: bytes handed over, bytes inserted but not handed over, and hand-overs. */
  datatype Line = Line(delivered: seq<Byte>, pending: seq<Byte>, pushes: nat)

  function Insert(l: Line, b: Byte): Line { l.(pending := l.pending + [b]) }

  function Push(l: Line): Line { Line(l.delivered + l.pending, [], l.pushes + 1) }

  /** After the first k bytes of f, handing over after every sixteenth. */
  function Fed(l: Line, f: seq<Byte>, k: nat): Line
    requires k <= |f|
  {
    if k == 0 then l
    else
      var m := Insert(Fed(l, f, k - 1), f[k - 1]);
      if k % 16 == 0 then Push(m) else m
  }

  /** After a send that got through k bytes; only a whole frame has its tail handed over. */
  function Sent(l: Line, f: seq<Byte>, k: nat): Line
    requires k <= |f|
  {
    if k == |f| && k % 16 != 0 then Push(Fed(l, f, k)) else Fed(l, f, k)
  }

  /** How far a frame of n bytes gets: up to the first byte for which the port is closed. */
  function Reach(rx: nat -> bool, n: nat): (k: nat)
    ensures k <= n && (k < n ==> !rx(k)) && forall j: nat :: j < k ==> rx(j)
  {
    if n == 0 then 0
    else
      var k := Reach(rx, n - 1);
      if k == n - 1 && rx(k) then n else k
  }

  /** After k bytes in chunks, of what was pending and f together: the whole chunks are
      handed over, the rest is pending. */
  function Chunked(l: Line, f: seq<Byte>, k: nat): Line
    requires k <= |f|
  {
    var all := l.pending + f;
    var cut := if k < 16 then 0 else |l.pending| + k - k % 16;
    Line(l.delivered + all[..cut], all[cut..|l.pending| + k], l.pushes + k / 16)
  }

  /** Inserting in chunks loses and reorders nothing, and hands over whole chunks only. */
  lemma {:induction false} FedInChunks(l: Line, f: seq<Byte>, k: nat)
    requires k <= |f|
    ensures Fed(l, f, k) == Chunked(l, f, k)
  {
    if k == 0 {
      assert (l.pending + f)[0..|l.pending|] == l.pending;
    } else {
      FedInChunks(l, f, k - 1);
      ChunkGrows(l, f, k - 1);
    }
  }

  lemma ChunkGrows(l: Line, f: seq<Byte>, k: nat)
    requires k < |f|
    ensures var m := Insert(Chunked(l, f, k), f[k]);
            Chunked(l, f, k + 1) == if (k + 1) % 16 == 0 then Push(m) else m
  {
    var all, p := l.pending + f, |l.pending|;
    var cut := if k < 16 then 0 else p + k - k % 16;
    assert all[p + k] == f[k];
    assert all[cut..p + k] + [f[k]] == all[cut..p + k + 1];
    Tick(k);
    if (k + 1) % 16 == 0 {
      assert l.delivered + all[..cut] + all[cut..p + k + 1] == l.delivered + all[..p + k + 1];
    }
  }

  lemma Tick(k: nat)
    ensures (k + 1) % 16 == (if k % 16 == 15 then 0 else k % 16 + 1)
    ensures (k + 1) / 16 == (if k % 16 == 15 then k / 16 + 1 else k / 16)
  {
  }

  /** A whole frame is handed over, after whatever an earlier send had left behind. */
  lemma WholeFrameArrives(l: Line, f: seq<Byte>)
    requires f != []
    ensures Sent(l, f, |f|) == Line(l.delivered + l.pending + f, [], l.pushes + (|f| + 15) / 16)
  {
    var n, all := |f|, l.pending + f;
    FedInChunks(l, f, n);
    Rejoin(l.delivered, all, if n < 16 then 0 else |l.pending| + n - n % 16, |all|);
    assert all[..|all|] == all;
    assert l.delivered + all == l.delivered + l.pending + f;
  }

  lemma Rejoin(a: seq<Byte>, all: seq<Byte>, cut: nat, m: nat)
    requires cut <= m <= |all|
    ensures a + all[..cut] + all[cut..m] == a + all[..m]
  {
    assert all[..cut] + all[cut..m] == all[..m];
  }

  /** A send leaves bytes behind exactly when it is cut short inside a chunk. */
  lemma NothingLeftBehind(l: Line, f: seq<Byte>, k: nat)
    requires k <= |f| && f != [] && l.pending == []
    ensures Sent(l, f, k).pending == [] <==> k == |f| || k % 16 == 0
    ensures Sent(l, f, k).delivered + Sent(l, f, k).pending == l.delivered + f[..k]
    ensures |Sent(l, f, k).pending| < 16
  {
    if k == |f| {
      WholeFrameArrives(l, f);
      assert f[..k] == f;
    } else {
      CutShort(l, f, k);
    }
  }

  lemma CutShort(l: Line, f: seq<Byte>, k: nat)
    requires k <= |f| && l.pending == []
    ensures |Fed(l, f, k).pending| == k % 16
    ensures Fed(l, f, k).delivered + Fed(l, f, k).pending == l.delivered + f[..k]
  {
    FedInChunks(l, f, k);
    ChunkedFromEmpty(l, f, k);
    Rejoin(l.delivered, f, k - k % 16, k);
  }

  lemma ChunkedFromEmpty(l: Line, f: seq<Byte>, k: nat)
    requires k <= |f| && l.pending == []
    ensures Chunked(l, f, k) == Line(l.delivered + f[..k - k % 16], f[k - k % 16..k], l.pushes + k / 16)
  {
    assert l.pending + f == f;
  }

  function AllSent(l: Line, cs: seq<Command>): Line
    decreases cs
  {
    if cs == [] then l else AllSent(Sent(l, Frame(cs[0]), |Frame(cs[0])|), cs[1..])
  }

  lemma {:induction false} AllArrive(l: Line, cs: seq<Command>)
    requires l.pending == []
    ensures AllSent(l, cs).delivered == l.delivered + Stream(cs) && AllSent(l, cs).pending == []
    decreases cs
  {
    if cs == [] {
    } else {
      var f := Frame(cs[0]);
      WholeFrameArrives(l, f);
      AllArrive(Sent(l, f, |f|), cs[1..]);
      assert l.delivered + [] + f + Stream(cs[1..]) == l.delivered + (f + Stream(cs[1..]));
    }
  }

  /** End to end: a reader of the terminal recovers exactly the commands sent, if they fit. */
  lemma SentIsRead(cs: seq<Command>)
    ensures Read(AllSent(Line([], [], 0), cs).delivered) == Some(cs) <==> Fits(cs)
  {
    AllArrive(Line([], [], 0), cs);
    assert [] + Stream(cs) == Stream(cs);
    ReaderRecovers(cs);
  }

  /** The 8-bit checksum after i payload bytes. */
  function Running(c: Command, i: nat): Byte
    requires i <= |c.payload|
  {
    if i == 0 then (|c.payload| + c.cmd) % 256
    else (Running(c, i - 1) as int + c.payload[i - 1] as int) % 256
  }

  /** Adding up byte by byte in 8 bits loses nothing of the sum. */
  lemma {:induction false} RunningIsSum(c: Command, i: nat)
    requires i <= |c.payload|
    ensures Running(c, i) == (|c.payload| + c.cmd + Sum(c.payload[..i])) % 256
  {
    if i > 0 {
      RunningIsSum(c, i - 1);
      assert c.payload[..i][..i - 1] == c.payload[..i - 1];
      ModAdds(|c.payload| + c.cmd + Sum(c.payload[..i - 1]), c.payload[i - 1]);
    }
  }

  lemma LastByte(c: Command)
    ensures Check(c) == 255 - Running(c, |c.payload|)
  {
    RunningIsSum(c, |c.payload|);
    assert c.payload[..|c.payload|] == c.payload;
  }

  class Port {
    var delivered: seq<Byte>
    var pending: seq<Byte>
    var pushes: nat

    constructor ()
      ensures View() == Line([], [], 0)
    {
      delivered, pending, pushes := [], [], 0;
    }

    ghost function View(): Line
      reads this
    {
      Line(delivered, pending, pushes)
    }

    method FlipPush()
      modifies this
      ensures View() == Push(old(View()))
    {
      delivered, pending, pushes := delivered + pending, [], pushes + 1;
    }

    /** The frame in a buffer of its own, with a running 8-bit checksum. */
    method Build(c: Command) returns (data: array<Byte>)
      ensures fresh(data) && data[..] == Frame(c)
    {
      var count := |c.payload|;
      data := new Byte[count + 4](_ => 0);
      var checksum := Running(c, 0);
      data[1], data[0], data[2] := c.cmd, HEADER, count % 256;
      var i := 0;
      while i < count
        invariant 0 <= i <= count
        invariant data[..3 + i] == [HEADER, c.cmd, count % 256] + c.payload[..i]
        invariant checksum == Running(c, i)
      {
        data[3 + i] := c.payload[i];
        checksum := (checksum as int + c.payload[i] as int) % 256;
        i := i + 1;
      }
      assert c.payload[..count] == c.payload;
      LastByte(c);
      data[3 + count] := 255 - checksum;
    }

    /** rx(j) says whether the port is open when byte j is about to be inserted. */
    method Feed(data: array<Byte>, rx: nat -> bool)
      requires data.Length > 0
      modifies this
      ensures View() == Sent(old(View()), data[..], Reach(rx, data.Length))
    {
      var i := 0;
      ghost var f := data[..];
      var flipped := false;
      ReachStops(rx, 0, data.Length);
      while i < data.Length && rx(i)
        invariant 0 <= i <= data.Length
        invariant data[..] == f && View() == Fed(old(View()), f, i)
        invariant i > 0 ==> flipped == (i % 16 == 0)
        invariant forall j: nat :: j < i ==> rx(j)
      {
        pending := pending + [data[i]];
        flipped := i % 16 == 15;
        if flipped {
          FlipPush();
        }
        i := i + 1;
      }
      ReachStops(rx, i, data.Length);
      if i == data.Length && !flipped {
        FlipPush();
      }
    }

    /** ready stands for the two global flags; open, and rx, for the port being open. */
    method Send(c: Command, ready: bool, open: bool, rx: nat -> bool)
      modifies this
      ensures View() == if ready && open
                        then Sent(old(View()), Frame(c), Reach(rx, |Frame(c)|)) else old(View())
    {
      if ready && open {
        var data := Build(c);
        Feed(data, rx);
      }
    }

    /** Any list of commands sent while the port stays open. */
    method SendAll(cs: seq<Command>)
      requires View() == Line([], [], 0)
      modifies this
      ensures View() == AllSent(Line([], [], 0), cs)
      ensures Read(delivered) == Some(cs) <==> Fits(cs)
      ensures pending == []
    {
      var i := 0;
      while i < |cs|
        invariant 0 <= i <= |cs|
        invariant AllSent(View(), cs[i..]) == AllSent(Line([], [], 0), cs)
      {
        var n := |cs[i].payload| + 4;
        ReachStops(_ => true, n, n);
        Send(cs[i], true, true, _ => true);
        assert cs[i..][1..] == cs[i + 1..];
        i := i + 1;
      }
      AllArrive(Line([], [], 0), cs);
      SentIsRead(cs);
    }
  }

  /** The reach is the first index at which the port is found closed. */
  lemma ReachStops(rx: nat -> bool, k: nat, n: nat)
    requires k <= n && forall j: nat :: j < k ==> rx(j)
    ensures Reach(rx, n) >= k
    ensures k < n && !rx(k) ==> Reach(rx, n) == k
  {
  }
}

/**
 The list of alternative frequencies a station announces over RDS (AF method A, section
 3.2.1.6.3 of EN 50067:1998): a length byte, then up to 25 codes, then zeros.
 */
module RdsAf {
  import opened Bytes

  const MOST: nat := 25

  /** What the buffer says: its length byte, and the codes before the first zero. */
  datatype List = List(len: nat, codes: seq<Byte>)

  /** The list after one more code.  Zero, a listed and a surplus code are dropped; of a new
      one only the low byte is stored, and where that is zero the codes end as before. */
  function Add(l: List, af: int): List {
    if af == 0 || af in l.codes || |l.codes| >= MOST then l
    else List(|l.codes| + 1, if af % 256 == 0 then l.codes else l.codes + [af % 256])
  }

  ghost predicate Valid(l: List) { |l.codes| <= MOST && l.len <= MOST && 0 !in l.codes }

  /** The length byte is right and no code is repeated. */
  ghost predicate Proper(l: List) {
    && Valid(l)
    && l.len == |l.codes|
    && (forall i, j :: 0 <= i < j < |l.codes| ==> l.codes[i] != l.codes[j])
  }

  /** The buffer holds the list, and zeros up to index 25. */
  ghost predicate Holds(b: seq<Byte>, l: List) {
    && Valid(l) && MOST < |b|
    && b[0] == l.len
    && b[1..|l.codes| + 1] == l.codes
    && (forall k :: |l.codes| < k <= MOST ==> b[k] == 0)
  }

  /** The code is dropped, or what is stored of it is not zero and not listed yet. */
  predicate Clean(l: List, af: int) {
    || af == 0 || af in l.codes || |l.codes| >= MOST
    || (af % 256 != 0 && af % 256 !in l.codes)
  }

  /** A call keeps a proper list proper exactly when its code is clean. */
  lemma AddKeepsProper(l: List, af: int)
    requires Proper(l)
    ensures Proper(Add(l, af)) <==> Clean(l, af)
  {
    var m := Add(l, af);
    if m != l && af % 256 in l.codes {
      var i :| 0 <= i < |l.codes| && l.codes[i] == af % 256;
      assert m.codes[i] == m.codes[|l.codes|];
    }
  }

  /** Byte codes are always clean. */
  lemma BytesAreClean(l: List, af: Byte)
    ensures Clean(l, af)
  {
  }

  const EMPTY := List(0, [])

  function Added(codes: seq<int>): List {
    if codes == [] then EMPTY else Add(Added(codes[..|codes| - 1]), codes[|codes| - 1])
  }

  /** The list is proper after each of the calls. */
  ghost predicate ProperThroughout(codes: seq<int>) {
    Proper(Added(codes)) && (codes != [] ==> ProperThroughout(codes[..|codes| - 1]))
  }

  /** Each code is clean for the list it meets. */
  predicate CleanThroughout(codes: seq<int>) {
    codes != [] ==>
      && CleanThroughout(codes[..|codes| - 1])
      && Clean(Added(codes[..|codes| - 1]), codes[|codes| - 1])
  }

  /** Over every run of codes of whatever size: the list is proper after every call exactly
      when every code is clean for the list it meets. */
  lemma {:induction false} RunsKeepProper(codes: seq<int>)
    ensures ProperThroughout(codes) <==> CleanThroughout(codes)
  {
    if codes != [] {
      var front := codes[..|codes| - 1];
      RunsKeepProper(front);
      if ProperThroughout(front) {
        AddKeepsProper(Added(front), codes[|codes| - 1]);
      }
    }
  }

  /** A frequency word whose high byte is not masked off repeats a code. */
  lemma WordRepeatsCode()
    ensures Added([5, 0x105]) == List(2, [5, 5]) && !ProperThroughout([5, 0x105])
  {
    assert [5, 0x105][..1] == [5] && [5][..0] == [];
    assert Added([5]) == List(1, [5]);
    assert [5, 0x105][..2] == [5, 0x105];
    assert [5, 5][0] == [5, 5][1];
  }

  // ---------------------------------------------------------------- first arrivals

  /** The distinct non-zero codes in the order they first arrive, without a limit. */
  function Firsts(codes: seq<Byte>): seq<Byte> {
    if codes == [] then []
    else
      var l, c := Firsts(codes[..|codes| - 1]), codes[|codes| - 1];
      if c == 0 || c in l then l else l + [c]
  }

  /** l has every non-zero code, once, and nothing else. */
  ghost predicate Lists(codes: seq<Byte>, l: seq<Byte>) {
    && (forall c: Byte :: c in l <==> c in codes && c != 0)
    && (forall i, j :: 0 <= i < j < |l| ==> l[i] != l[j])
  }

  lemma {:induction false} FirstsLists(codes: seq<Byte>)
    ensures Lists(codes, Firsts(codes))
  {
    if codes != [] {
      var n := |codes| - 1;
      FirstsLists(codes[..n]);
      assert codes == codes[..n] + [codes[n]];
    }
  }

  /** Order of arrival: what has arrived earlier comes first. */
  lemma {:induction false} FirstsGrow(codes: seq<Byte>, n: nat)
    requires n <= |codes|
    ensures Firsts(codes[..n]) <= Firsts(codes)
  {
    if n == |codes| {
      assert codes[..n] == codes;
    } else {
      var front := codes[..|codes| - 1];
      FirstsGrow(front, n);
      assert front[..n] == codes[..n];
    }
  }

  /** There is no other way to list every prefix of the codes in order of arrival. */
  lemma {:induction false} OrderIsUnique(codes: seq<Byte>, f: nat -> seq<Byte>)
    requires forall n: nat :: n <= |codes| ==> Lists(codes[..n], f(n))
    requires forall n: nat :: n < |codes| ==> f(n) <= f(n + 1)
    ensures f(|codes|) == Firsts(codes)
  {
    var n := |codes|;
    assert codes[..n] == codes;
    if n == 0 {
      FirstIsIn(f(0));
    } else {
      var front, c := codes[..n - 1], codes[n - 1];
      forall k: nat | k <= n - 1
        ensures Lists(front[..k], f(k))
      {
        assert front[..k] == codes[..k];
      }
      OrderIsUnique(front, f);
      assert codes == front + [c] && Lists(codes, f(n)) && Lists(front, f(n - 1));
      OneMore(front, c, f(n - 1), f(n));
    }
  }

  lemma OneMore(front: seq<Byte>, c: Byte, l: seq<Byte>, m: seq<Byte>)
    requires Lists(front, l) && Lists(front + [c], m) && l <= m
    ensures m == if c == 0 || c in l then l else l + [c]
  {
    forall k | |l| <= k < |m|
      ensures m[k] == c && k == |l|
    {
      assert m[k] in m && m[|l|] in m;
      assert forall i :: 0 <= i < |l| ==> m[i] == l[i];
    }
    assert c in front + [c];
    if |l| < |m| {
      assert m[|m| - 1] == c && m[|m| - 1] in m;
      assert m == l + [c];
    } else {
      assert m == l;
    }
  }

  lemma FirstIsIn(l: seq<Byte>)
    ensures l == [] || l[0] in l
  {
  }

  /** Over every run of bytes: the list is the first 25 of the distinct codes in order of
      arrival, with its length. */
  lemma {:induction false} AddedAreFirst(codes: seq<Byte>)
    ensures Proper(Added(codes))
    ensures var l := Firsts(codes); Added(codes).codes == if |l| <= 25 then l else l[..25]
  {
    FirstsLists(codes);
    if codes != [] {
      AddedAreFirst(codes[..|codes| - 1]);
      BytesAreClean(Added(codes[..|codes| - 1]), codes[|codes| - 1]);
      AddKeepsProper(Added(codes[..|codes| - 1]), codes[|codes| - 1]);
    }
  }

  // ---------------------------------------------------------------- the buffer

  /** The scan for the first zero, in place; nothing past index 25 is read or written. */
  method AfAdd(buf: array<Byte>, af: int, ghost l: List)
    requires Holds(buf[..], l)
    modifies buf
    ensures Holds(buf[..], Add(l, af))
    ensures buf[26..] == old(buf[26..])
  {
    if af != 0 {
      var pos := 0;
      assert forall k :: 0 <= k < |l.codes| ==> buf[..][1..|l.codes| + 1][k] == l.codes[k];
      while buf[pos + 1] != 0
        invariant 0 <= pos < MOST && pos <= |l.codes|
        invariant af !in l.codes[..pos]
        invariant forall k :: 0 <= k < |l.codes| ==> buf[k + 1] == l.codes[k]
        decreases MOST - pos
      {
        pos := pos + 1;
        if af == buf[pos] || pos == MOST {
          assert l.codes[pos - 1] == buf[pos];
          return;
        }
      }
      assert pos == |l.codes|;
      pos := pos + 1;
      buf[pos] := af % 256;
      buf[0] := pos;
      assert buf[..][1..|l.codes| + 2] == l.codes + [af % 256];
      assert buf[..][1..|l.codes| + 1] == l.codes;
    }
  }

  /** A station's codes, one call each, into an empty list. */
  method AfAddAll(buf: array<Byte>, codes: seq<int>)
    requires Holds(buf[..], EMPTY)
    modifies buf
    ensures Holds(buf[..], Added(codes))
    ensures CleanThroughout(codes) ==> Proper(Added(codes))
    ensures (forall i :: 0 <= i < |codes| ==> 0 <= codes[i] < 256) ==>
              var l := Firsts(codes);
              Proper(Added(codes)) && Added(codes).codes == if |l| <= 25 then l else l[..25]
  {
    var i := 0;
    while i < |codes|
      invariant 0 <= i <= |codes|
      invariant Holds(buf[..], Added(codes[..i]))
    {
      AfAdd(buf, codes[i], Added(codes[..i]));
      assert codes[..i + 1][..i] == codes[..i];
      i := i + 1;
    }
    assert codes[..i] == codes;
    RunsKeepProper(codes);
    if forall i :: 0 <= i < |codes| ==> 0 <= codes[i] < 256 {
      AddedAreFirst(codes);
    }
  }
}

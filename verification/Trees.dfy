/** Source trees, patches, and what applying patches does to a tree. */
module Trees {
  import opened Options

  type Path = string
  type Content = seq<char>
  type Tree = map<Path, Content>

  function Get(t: Tree, p: Path): Option<Content> { if p in t then Some(t[p]) else None }

  /** The content of one path is replaced; `was` is None for a new file. */
  datatype Patch = Patch(path: Path, was: Option<Content>, now: Content)

  /** A patch applies when the path still has the content it was made from. */
  function Apply(t: Tree, p: Patch): Option<Tree> {
    if Get(t, p.path) == p.was then Some(t[p.path := p.now]) else None
  }

  function ApplyAll(t: Tree, ps: seq<Patch>): Option<Tree>
    decreases |ps|
  {
    if ps == [] then Some(t)
    else
      match Apply(t, ps[0])
      case None => None
      case Some(u) => ApplyAll(u, ps[1..])
  }

  ghost predicate Touches(ps: seq<Patch>, q: Path) { exists i :: 0 <= i < |ps| && ps[i].path == q }

  ghost predicate Distinct(ps: seq<Patch>) {
    forall i, j :: 0 <= i < j < |ps| ==> ps[i].path != ps[j].path
  }

  /** Every patch was made from this tree. */
  ghost predicate MadeFrom(t: Tree, ps: seq<Patch>) {
    forall i :: 0 <= i < |ps| ==> ps[i].was == Get(t, ps[i].path)
  }

  /** The content the last patch of a path gives it. */
  function Last(ps: seq<Patch>, q: Path): Option<Content>
    decreases |ps|
  {
    if ps == [] then None
    else if ps[|ps| - 1].path == q then Some(ps[|ps| - 1].now)
    else Last(ps[..|ps| - 1], q)
  }

  /** The result has the last patch's content on every touched path and the old tree elsewhere. */
  ghost predicate Patched(t: Tree, ps: seq<Patch>, r: Tree) {
    forall q :: Get(r, q) == if Last(ps, q).Some? then Last(ps, q) else Get(t, q)
  }

  /** The content the i-th patch meets. */
  function Before(t: Tree, ps: seq<Patch>, i: nat): Option<Content>
    requires i < |ps|
  {
    var l := Last(ps[..i], ps[i].path);
    if l.Some? then l else Get(t, ps[i].path)
  }

  /** The patches apply exactly when each meets the content it was made from. */
  lemma {:induction false} AppliesExactly(t: Tree, ps: seq<Patch>)
    ensures ApplyAll(t, ps).Some? <==> forall i :: 0 <= i < |ps| ==> ps[i].was == Before(t, ps, i)
    decreases |ps|
  {
    if ps != [] {
      var u := t[ps[0].path := ps[0].now];
      AppliesExactly(u, ps[1..]);
      assert Last(ps[..0], ps[0].path) == None;
      forall i | 0 <= i < |ps| - 1
        ensures Before(u, ps[1..], i) == Before(t, ps, i + 1) && ps[1..][i] == ps[i + 1]
      {
        LastOfRest(ps[..i + 1], ps[i + 1].path);
        assert ps[..i + 1][1..] == ps[1..][..i];
      }
      if ps[0].was == Before(t, ps, 0) {
        assert Apply(t, ps[0]) == Some(u);
        assert forall i :: 0 < i < |ps| ==> ps[i] == ps[1..][i - 1];
      }
    }
  }

  lemma {:induction false} LastTouches(ps: seq<Patch>, q: Path)
    ensures Last(ps, q).Some? <==> Touches(ps, q)
    ensures Last(ps, q).Some? ==> exists i :: 0 <= i < |ps| && ps[i].path == q && ps[i].now == Last(ps, q).value
    decreases |ps|
  {
    if ps != [] {
      var w, p := ps[..|ps| - 1], ps[|ps| - 1];
      LastTouches(w, q);
      assert forall i :: 0 <= i < |w| ==> w[i] == ps[i];
    }
  }

  lemma {:induction false} LastOfRest(ps: seq<Patch>, q: Path)
    requires ps != []
    ensures Last(ps, q) == if Last(ps[1..], q).Some? then Last(ps[1..], q)
                           else if ps[0].path == q then Some(ps[0].now) else None
    decreases |ps|
  {
    var w, rest := ps[..|ps| - 1], ps[1..];
    if |ps| == 1 {
      assert Last(w, q) == None;
    } else {
      LastOfRest(w, q);
      assert w[1..] == rest[..|rest| - 1];
    }
  }

  /** On a path with one patch the last one is that patch. */
  lemma LastIsOnly(ps: seq<Patch>, i: nat)
    requires Distinct(ps) && i < |ps|
    ensures Last(ps, ps[i].path) == Some(ps[i].now)
  {
    LastTouches(ps, ps[i].path);
    var j :| 0 <= j < |ps| && ps[j].path == ps[i].path && ps[j].now == Last(ps, ps[i].path).value;
    assert !(i < j) && !(j < i);
  }

  /** Applying patches one after the other: the last patch of a path wins. */
  lemma {:induction false} ApplyAllPatches(t: Tree, ps: seq<Patch>)
    requires ApplyAll(t, ps).Some?
    ensures Patched(t, ps, ApplyAll(t, ps).value)
    decreases |ps|
  {
    if ps != [] {
      var u := t[ps[0].path := ps[0].now];
      ApplyAllPatches(u, ps[1..]);
      forall q
        ensures Get(ApplyAll(t, ps).value, q) == if Last(ps, q).Some? then Last(ps, q) else Get(t, q)
      {
        LastOfRest(ps, q);
      }
    }
  }

  /** Patches made from one tree, one per path, all apply. */
  lemma {:induction false} OwnPatchesApply(t: Tree, ps: seq<Patch>)
    requires Distinct(ps) && MadeFrom(t, ps)
    ensures ApplyAll(t, ps).Some?
    decreases |ps|
  {
    if ps != [] {
      var u := t[ps[0].path := ps[0].now];
      assert Apply(t, ps[0]) == Some(u);
      forall i | 0 <= i < |ps[1..]|
        ensures ps[1..][i].was == Get(u, ps[1..][i].path)
      {
        assert ps[1..][i] == ps[i + 1];
      }
      OwnPatchesApply(u, ps[1..]);
    }
  }

  /** The same patches in another order. */
  ghost predicate Reordered(ps: seq<Patch>, qs: seq<Patch>) { multiset(ps) == multiset(qs) }

  /** Patches made from one tree, one per path, give the same tree in every order. */
  lemma OrderIsImmaterial(t: Tree, ps: seq<Patch>, qs: seq<Patch>)
    requires Distinct(ps) && MadeFrom(t, ps) && Reordered(ps, qs)
    ensures ApplyAll(t, ps).Some? && ApplyAll(t, qs) == ApplyAll(t, ps)
  {
    SameMembers(ps, qs);
    ReorderedDistinct(ps, qs);
    forall i | 0 <= i < |qs|
      ensures qs[i].was == Get(t, qs[i].path)
    {
      assert qs[i] in ps;
    }
    OwnPatchesApply(t, ps);
    OwnPatchesApply(t, qs);
    ApplyAllPatches(t, ps);
    ApplyAllPatches(t, qs);
    var a, b := ApplyAll(t, ps).value, ApplyAll(t, qs).value;
    forall q
      ensures Get(a, q) == Get(b, q)
    {
      SameTouches(ps, qs, q);
      LastTouches(ps, q);
      LastTouches(qs, q);
      if Touches(ps, q) {
        var i :| 0 <= i < |ps| && ps[i].path == q;
        assert ps[i] in qs;
        var j :| 0 <= j < |qs| && qs[j] == ps[i];
        LastIsOnly(ps, i);
        LastIsOnly(qs, j);
      }
    }
    SameTree(a, b);
  }

  lemma ReorderedDistinct(ps: seq<Patch>, qs: seq<Patch>)
    requires Distinct(ps) && Reordered(ps, qs)
    ensures Distinct(qs)
  {
    SameMembers(ps, qs);
    forall i, j | 0 <= i < j < |qs|
      ensures qs[i].path != qs[j].path
    {
      assert qs[i] in ps && qs[j] in ps;
      OccursOnce(ps, qs[i]);
      OccursTwice(qs, i, j);
    }
  }

  lemma OccursTwice(qs: seq<Patch>, i: nat, j: nat)
    requires i < j < |qs|
    ensures qs[i] == qs[j] ==> multiset(qs)[qs[i]] >= 2
  {
    assert qs == qs[..j] + [qs[j]] + qs[j + 1..];
    assert qs[i] in qs[..j];
    assert qs[i] in multiset(qs[..j]);
  }

  lemma {:induction false} OccursOnce(ps: seq<Patch>, p: Patch)
    requires Distinct(ps)
    ensures multiset(ps)[p] <= 1
    decreases |ps|
  {
    if ps != [] {
      assert ps == [ps[0]] + ps[1..];
      OccursOnce(ps[1..], p);
      if p == ps[0] {
        assert p !in ps[1..];
        assert p !in multiset(ps[1..]);
      }
    }
  }

  lemma SameMembers(ps: seq<Patch>, qs: seq<Patch>)
    requires Reordered(ps, qs)
    ensures forall p :: p in ps <==> p in qs
  {
    forall p
      ensures p in ps <==> p in qs
    {
      assert p in ps <==> p in multiset(ps);
      assert p in qs <==> p in multiset(qs);
    }
  }

  lemma SameTouches(ps: seq<Patch>, qs: seq<Patch>, q: Path)
    requires forall p :: p in ps <==> p in qs
    ensures Touches(ps, q) <==> Touches(qs, q)
  {
    if Touches(ps, q) {
      var i :| 0 <= i < |ps| && ps[i].path == q;
      assert ps[i] in qs;
    }
    if Touches(qs, q) {
      var i :| 0 <= i < |qs| && qs[i].path == q;
      assert qs[i] in ps;
    }
  }

  lemma SameTree(a: Tree, b: Tree)
    requires forall q :: Get(a, q) == Get(b, q)
    ensures a == b
  {
    assert forall q :: q in a <==> Get(a, q).Some?;
    assert forall q :: q in b <==> Get(b, q).Some?;
    assert a.Keys == b.Keys;
    forall q | q in a
      ensures a[q] == b[q]
    {
      assert Get(a, q) == Get(b, q);
    }
  }
}

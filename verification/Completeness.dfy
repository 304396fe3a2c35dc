/**
 Two ways to find what the reconstruction of T9 lacks: the fast scan, which
 looks at names and base content only, and the full check, which rebuilds the
 tree and compares every file.
 */
module Completeness {
  import opened Options
  import opened Trees
  import GenPatches

  datatype Recon = Recon(base: Tree, t9: Tree, patches: seq<Patch>, src: Tree)

  datatype Reason = Differs | New

  datatype Gap = Gap(path: Path, reason: Reason)

  /** The paths some patch names. */
  function PatchRels(ps: seq<Patch>): set<Path> { set i | 0 <= i < |ps| :: ps[i].path }

  /** The scan takes a path on trust when the overlay or a patch names it. */
  predicate Covered(x: Recon, p: Path) { p in x.src || p in PatchRels(x.patches) }

  predicate IsGap(x: Recon, p: Path) { !Covered(x, p) && Get(x.base, p) != Get(x.t9, p) }

  function Gaps(x: Recon, files: seq<Path>): seq<Gap>
    requires forall p :: p in files ==> p in x.t9
    decreases |files|
  {
    if files == [] then []
    else
      var p := files[|files| - 1];
      Gaps(x, files[..|files| - 1])
      + (if IsGap(x, p) then [Gap(p, if p in x.base then Differs else New)] else [])
  }

  /** The paths of the gaps with one reason, in order. */
  function Because(gs: seq<Gap>, why: Reason): seq<Path>
    decreases |gs|
  {
    if gs == [] then []
    else Because(gs[..|gs| - 1], why) + (if gs[|gs| - 1].reason == why then [gs[|gs| - 1].path] else [])
  }

  /** The fast scan over the source files of T9. */
  method DoScan(x: Recon, files: seq<Path>) returns (gaps: seq<Gap>)
    requires forall p :: p in files ==> p in x.t9
    ensures gaps == Gaps(x, files)
  {
    var pr := PatchRels(x.patches);
    gaps := [];
    for i := 0 to |files|
      invariant gaps == Gaps(x, files[..i])
    {
      var rel := files[i];
      assert files[..i + 1][..i] == files[..i];
      if rel in x.src { continue; }
      if rel in pr { continue; }
      if rel in x.base {
        if x.t9[rel] != x.base[rel] {
          gaps := gaps + [Gap(rel, Differs)];
        }
      } else {
        gaps := gaps + [Gap(rel, New)];
      }
    }
    assert files[..|files|] == files;
  }

  // ----- the full check -----

  /** Apply the patches one after the other; stop at the first that fails. */
  method ApplyLoop(base: Tree, ps: seq<Patch>) returns (r: Option<Tree>)
    ensures r == ApplyAll(base, ps)
  {
    var t := base;
    for i := 0 to |ps|
      invariant ApplyAll(t, ps[i..]) == ApplyAll(base, ps)
    {
      assert ps[i..][0] == ps[i] && ps[i..][1..] == ps[i + 1..];
      var u := Apply(t, ps[i]);
      if u.None? { return None; }
      t := u.value;
    }
    return Some(t);
  }

  /** The rebuilt tree: base, patches, then the overlay on top. */
  function Rebuilt(x: Recon): Option<Tree> {
    match ApplyAll(x.base, x.patches)
    case None => None
    case Some(t) => Some(t + x.src)
  }

  function Missing(r: Tree, files: seq<Path>): seq<Path>
    decreases |files|
  {
    if files == [] then []
    else
      var p := files[|files| - 1];
      Missing(r, files[..|files| - 1]) + (if p !in r then [p] else [])
  }

  function Different(x: Recon, r: Tree, files: seq<Path>): seq<Path>
    requires forall p :: p in files ==> p in x.t9
    decreases |files|
  {
    if files == [] then []
    else
      var p := files[|files| - 1];
      Different(x, r, files[..|files| - 1]) + (if p in r && x.t9[p] != r[p] then [p] else [])
  }

  /** The lists of the full check: the files not there, and those there with other content. */
  lemma {:induction false} CheckListsMean(x: Recon, r: Tree, files: seq<Path>, p: Path)
    requires forall q :: q in files ==> q in x.t9
    ensures p in Missing(r, files) <==> p in files && p !in r
    ensures p in Different(x, r, files) <==> p in files && p in r && r[p] != x.t9[p]
    decreases |files|
  {
    if files != [] {
      var w := files[..|files| - 1];
      CheckListsMean(x, r, w, p);
      assert files == w + [files[|files| - 1]];
    }
  }

  /** Rebuild and compare; None when a patch does not apply. */
  method DoFull(x: Recon, files: seq<Path>) returns (lists: Option<(seq<Path>, seq<Path>)>)
    requires forall p :: p in files ==> p in x.t9
    ensures lists == match Rebuilt(x)
                     case None => None
                     case Some(r) => Some((Missing(r, files), Different(x, r, files)))
  {
    var t := ApplyLoop(x.base, x.patches);
    if t.None? { return None; }
    var r := t.value + x.src;
    var missing, diff := [], [];
    for i := 0 to |files|
      invariant missing == Missing(r, files[..i]) && diff == Different(x, r, files[..i])
    {
      var rel := files[i];
      assert files[..i + 1][..i] == files[..i];
      if rel !in r {
        missing := missing + [rel];
        continue;
      }
      if x.t9[rel] != r[rel] {
        diff := diff + [rel];
      }
    }
    assert files[..|files|] == files;
    return Some((missing, diff));
  }

  // ----- the scan agrees with the check -----

  /** What the scan trusts: every covered source file is rebuilt as in T9. */
  ghost predicate Trustworthy(x: Recon, r: Tree, files: seq<Path>) {
    forall p :: p in files && Covered(x, p) ==> Get(r, p) == Get(x.t9, p)
  }

  /** The same, told from the overlay and the patches without rebuilding: an overlay file has
      T9's content, and so does the last patch of any other covered file. */
  predicate Carries(x: Recon, p: Path)
    requires p in x.t9
  {
    if p in x.src then x.src[p] == x.t9[p]
    else p in PatchRels(x.patches) ==> Last(x.patches, p) == Some(x.t9[p])
  }

  lemma CarriedIsTrustworthy(x: Recon, files: seq<Path>)
    requires (forall p :: p in files ==> p in x.t9) && Rebuilt(x).Some?
    ensures Trustworthy(x, Rebuilt(x).value, files) <==> forall p :: p in files ==> Carries(x, p)
  {
    ApplyAllPatches(x.base, x.patches);
    forall p | p in files && Covered(x, p)
      ensures Get(Rebuilt(x).value, p) == Get(x.t9, p) <==> Carries(x, p)
    {
      LastTouches(x.patches, p);
      assert p in PatchRels(x.patches) ==> Touches(x.patches, p);
    }
  }

  lemma UncoveredIsBase(x: Recon, p: Path)
    requires Rebuilt(x).Some? && !Covered(x, p)
    ensures Get(Rebuilt(x).value, p) == Get(x.base, p)
  {
    ApplyAllPatches(x.base, x.patches);
    var t := ApplyAll(x.base, x.patches).value;
    LastTouches(x.patches, p);
    assert !Touches(x.patches, p);
    assert Get(t, p) == Get(x.base, p);
  }

  /** The scan's gaps are the missing and the differing files, list for list, exactly when
      the overlay and the last patch of every other covered file have T9's content. */
  lemma ScanIsFullCheck(x: Recon, files: seq<Path>)
    requires (forall p :: p in files ==> p in x.t9) && Rebuilt(x).Some?
    ensures var r, gs := Rebuilt(x).value, Gaps(x, files);
            Because(gs, New) == Missing(r, files) && Because(gs, Differs) == Different(x, r, files)
            <==> forall p :: p in files ==> Carries(x, p)
  {
    var r := Rebuilt(x).value;
    CarriedIsTrustworthy(x, files);
    if Trustworthy(x, r, files) {
      ScanFinds(x, files);
    } else {
      var p :| p in files && Covered(x, p) && Get(r, p) != Get(x.t9, p);
      ScanOverlooks(x, files, p);
    }
  }

  /** A stale overlay file: the scan finds nothing, the full check one difference. */
  lemma StaleOverlay()
    ensures var t9 := map["Makefile" := "all:"];
            var x := Recon(t9, t9, [], map["Makefile" := "none:"]);
            && Gaps(x, ["Makefile"]) == [] && Rebuilt(x).Some?
            && Different(x, Rebuilt(x).value, ["Makefile"]) == ["Makefile"]
  {
    var t9 := map["Makefile" := "all:"];
    var x := Recon(t9, t9, [], map["Makefile" := "none:"]);
    assert ["Makefile"][..0] == [];
    assert "all:"[0] != "none:"[0];
    assert Rebuilt(x) == Some(t9 + x.src);
  }

  lemma {:induction false} ScanFinds(x: Recon, files: seq<Path>)
    requires (forall p :: p in files ==> p in x.t9) && Rebuilt(x).Some? && Trustworthy(x, Rebuilt(x).value, files)
    ensures var r, gs := Rebuilt(x).value, Gaps(x, files);
            Because(gs, New) == Missing(r, files) && Because(gs, Differs) == Different(x, r, files)
    decreases |files|
  {
    if files != [] {
      var w, p := files[..|files| - 1], files[|files| - 1];
      ScanFinds(x, w);
      if Covered(x, p) {
        assert Get(Rebuilt(x).value, p) == Get(x.t9, p);
      } else {
        UncoveredIsBase(x, p);
      }
      var g := if IsGap(x, p) then [Gap(p, if p in x.base then Differs else New)] else [];
      assert Gaps(x, files) == Gaps(x, w) + g;
      if g != [] {
        assert Gaps(x, files)[..|Gaps(x, files)| - 1] == Gaps(x, w);
      } else {
        assert Gaps(x, files) == Gaps(x, w);
      }
    }
  }

  /** A covered file that is not rebuilt as in T9 is on one of the check's lists and on
      neither of the scan's. */
  lemma ScanOverlooks(x: Recon, files: seq<Path>, p: Path)
    requires (forall q :: q in files ==> q in x.t9) && Rebuilt(x).Some?
    requires p in files && Covered(x, p) && Get(Rebuilt(x).value, p) != Get(x.t9, p)
    ensures var r, gs := Rebuilt(x).value, Gaps(x, files);
            && p !in Because(gs, New) && p !in Because(gs, Differs)
            && (p in Missing(r, files) || p in Different(x, r, files))
  {
    GapsAreUncovered(x, files, p);
    BecauseOfGaps(Gaps(x, files), New, p);
    BecauseOfGaps(Gaps(x, files), Differs, p);
    Listed(x, Rebuilt(x).value, files, p);
  }

  lemma {:induction false} GapsAreUncovered(x: Recon, files: seq<Path>, p: Path)
    requires (forall q :: q in files ==> q in x.t9) && Covered(x, p)
    ensures forall i :: 0 <= i < |Gaps(x, files)| ==> Gaps(x, files)[i].path != p
    decreases |files|
  {
    if files != [] {
      GapsAreUncovered(x, files[..|files| - 1], p);
    }
  }

  lemma {:induction false} BecauseOfGaps(gs: seq<Gap>, why: Reason, p: Path)
    requires forall i :: 0 <= i < |gs| ==> gs[i].path != p
    ensures p !in Because(gs, why)
    decreases |gs|
  {
    if gs != [] {
      BecauseOfGaps(gs[..|gs| - 1], why, p);
    }
  }

  lemma {:induction false} Listed(x: Recon, r: Tree, files: seq<Path>, p: Path)
    requires (forall q :: q in files ==> q in x.t9) && p in files && Get(r, p) != Get(x.t9, p)
    ensures p in Missing(r, files) || p in Different(x, r, files)
    decreases |files|
  {
    if files[|files| - 1] != p {
      var w := files[..|files| - 1];
      assert files == w + [files[|files| - 1]];
      Listed(x, r, w, p);
    }
  }

  /** It is enough that every patch carries T9's content and the overlay equals T9. */
  lemma AllCarried(x: Recon, files: seq<Path>)
    requires forall i :: 0 <= i < |x.patches| ==> Get(x.t9, x.patches[i].path) == Some(x.patches[i].now)
    requires forall p :: p in x.src && p in x.t9 ==> x.src[p] == x.t9[p]
    requires forall p :: p in files ==> p in x.t9
    ensures forall p :: p in files ==> Carries(x, p)
  {
    forall p | p in files
      ensures Carries(x, p)
    {
      LastTouches(x.patches, p);
      assert p in PatchRels(x.patches) ==> Touches(x.patches, p);
    }
  }

  /** The generated patches carry T9's content, in whatever order. */
  lemma GeneratedCarries(g: GenPatches.Inputs, u: seq<Path>, order: seq<Patch>)
    requires Reordered(GenPatches.Generated(g, u), order)
    ensures forall i :: 0 <= i < |order| ==> Get(g.t9, order[i].path) == Some(order[i].now)
  {
    var ps := GenPatches.Generated(g, u);
    GenPatches.SelectedInT9(g, u);
    SameMembers(ps, order);
    forall i | 0 <= i < |order|
      ensures Get(g.t9, order[i].path) == Some(order[i].now)
    {
      assert order[i] in ps;
      var j :| 0 <= j < |ps| && ps[j] == order[i];
      assert ps[j] == GenPatches.PatchOf(g, GenPatches.Selected(g, u)[j]);
    }
  }

  /** With the generated patches a gap is a path that differs from the base and is neither in
      the manifest nor reported as text. */
  lemma GapIsUnpatched(g: GenPatches.Inputs, u: seq<Path>, order: seq<Patch>, src: Tree, p: Path)
    requires Reordered(GenPatches.Generated(g, u), order) && src.Keys == g.manifest && p in g.t9
    ensures IsGap(Recon(g.base, g.t9, order, src), p)
            <==> p !in g.manifest && Get(g.base, p) != Get(g.t9, p) && !(p in u && !GenPatches.Binary(g.t9[p]))
  {
    var ps := GenPatches.Generated(g, u);
    SameMembers(ps, order);
    SameTouches(ps, order, p);
    GenPatches.GeneratedTouches(g, u, p);
    GenPatches.SelectedInT9(g, u);
    assert p in PatchRels(order) <==> Touches(order, p);
  }

  /** The generated patches in any order, with the manifest files as overlay: the scan finds
      exactly what a rebuild would, and nothing is lacking exactly when every source file
      outside the manifest that differs from the base was reported and is not binary. */
  lemma GeneratedSetIsComplete(g: GenPatches.Inputs, u: seq<Path>, order: seq<Patch>, src: Tree, files: seq<Path>)
    requires GenPatches.Reported(g, u) && Reordered(GenPatches.Generated(g, u), order)
    requires src.Keys == g.manifest && forall p :: p in src && p in g.t9 ==> src[p] == g.t9[p]
    requires forall p :: p in files ==> p in g.t9
    ensures var x := Recon(g.base, g.t9, order, src);
            && Rebuilt(x).Some?
            && Because(Gaps(x, files), New) == Missing(Rebuilt(x).value, files)
            && Because(Gaps(x, files), Differs) == Different(x, Rebuilt(x).value, files)
            && (Gaps(x, files) == [] <==> forall p :: p in files ==>
                  p in g.manifest || Get(g.base, p) == Get(g.t9, p) || (p in u && !GenPatches.Binary(g.t9[p])))
  {
    var x := Recon(g.base, g.t9, order, src);
    GenPatches.GeneratedIsOwn(g, u);
    OrderIsImmaterial(g.base, GenPatches.Generated(g, u), order);
    GeneratedCarries(g, u, order);
    AllCarried(x, files);
    ScanIsFullCheck(x, files);
    forall p | p in files
      ensures IsGap(x, p) <==>
              !(p in g.manifest || Get(g.base, p) == Get(g.t9, p) || (p in u && !GenPatches.Binary(g.t9[p])))
    {
      GapIsUnpatched(g, u, order, src, p);
    }
    NoGaps(x, files);
  }

  lemma {:induction false} NoGaps(x: Recon, files: seq<Path>)
    requires forall p :: p in files ==> p in x.t9
    ensures Gaps(x, files) == [] <==> forall p :: p in files ==> !IsGap(x, p)
    decreases |files|
  {
    if files != [] {
      var w := files[..|files| - 1];
      NoGaps(x, w);
      assert files == w + [files[|files| - 1]];
    }
  }
}

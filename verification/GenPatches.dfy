/**
 Turning the differences between three trees into patches: the base tree, the
 vendor SDK, and the tree T9 that is known to build.
 */
module GenPatches {
  import opened Options
  import opened Trees

  datatype Inputs = Inputs(base: Tree, sdk: Tree, t9: Tree, manifest: set<Path>)

  /** A NUL among the first 8192 bytes. */
  predicate Binary(c: Content) { '\0' in (if |c| <= 8192 then c else c[..8192]) }

  /** What happens to a differing path.  Kept is a path whose T9 form is the base form. */
  datatype Class = Overlay | Built | Vendor | Local | Candidate | Kept

  function ClassOf(g: Inputs, p: Path): Class {
    if p in g.manifest then Overlay
    else if p in g.t9 && Binary(g.t9[p]) then Built
    else if p in g.t9 && p in g.sdk && g.t9[p] == g.sdk[p] then Vendor
    else if p in g.t9 && (p !in g.base || g.t9[p] != g.base[p]) then Local
    else if p in g.sdk && p !in g.t9 then Candidate
    else Kept
  }

  /** The members of one class, in order. */
  function Select(g: Inputs, u: seq<Path>, k: Class): seq<Path>
    decreases |u|
  {
    if u == [] then []
    else Select(g, u[..|u| - 1], k) + (if ClassOf(g, u[|u| - 1]) == k then [u[|u| - 1]] else [])
  }

  /** What the tree comparison promises: only paths whose content differs from the base in
      the SDK or in T9 are reported. */
  ghost predicate Reported(g: Inputs, u: seq<Path>) {
    && (forall p :: p in u ==> Get(g.base, p) != Get(g.sdk, p) || Get(g.base, p) != Get(g.t9, p))
    && (forall i, j :: 0 <= i < j < |u| ==> u[i] != u[j])
  }

  lemma {:induction false} InSelect(g: Inputs, u: seq<Path>, k: Class, p: Path)
    ensures p in Select(g, u, k) <==> p in u && ClassOf(g, p) == k
    decreases |u|
  {
    if u != [] {
      InSelect(g, u[..|u| - 1], k, p);
      assert u == u[..|u| - 1] + [u[|u| - 1]];
    }
  }

  /** No list repeats a path. */
  lemma {:induction false} SelectDistinct(g: Inputs, u: seq<Path>, k: Class)
    requires forall i, j :: 0 <= i < j < |u| ==> u[i] != u[j]
    ensures var s := Select(g, u, k); forall i, j :: 0 <= i < j < |s| ==> s[i] != s[j]
    decreases |u|
  {
    if u != [] {
      var w, p := u[..|u| - 1], u[|u| - 1];
      SelectDistinct(g, w, k);
      InSelect(g, w, k, p);
      assert p !in w;
    }
  }

  /** A text file of T9, outside the manifest, that is the SDK's file word for word. */
  predicate IsVendor(g: Inputs, p: Path) {
    && p !in g.manifest
    && p in g.t9 && p in g.sdk && g.t9[p] == g.sdk[p]
    && (forall i :: 0 <= i < |g.t9[p]| && i < 8192 ==> g.t9[p][i] != '\0')
  }

  /** A text file of T9, outside the manifest, that is neither the SDK's nor the base's. */
  predicate IsLocal(g: Inputs, p: Path) {
    && p !in g.manifest
    && p in g.t9 && (p in g.sdk ==> g.sdk[p] != g.t9[p]) && (p in g.base ==> g.base[p] != g.t9[p])
    && (forall i :: 0 <= i < |g.t9[p]| && i < 8192 ==> g.t9[p][i] != '\0')
  }

  lemma TextHasNoNul(c: Content)
    ensures Binary(c) <==> exists i :: 0 <= i < |c| && i < 8192 && c[i] == '\0'
  {
    var head := if |c| <= 8192 then c else c[..8192];
    assert forall i :: 0 <= i < |head| ==> head[i] == c[i];
    if i :| 0 <= i < |c| && i < 8192 && c[i] == '\0' {
      assert head[i] == '\0';
    }
  }

  /** Which list a path is on, told from the trees alone. */
  lemma ListsByTrees(g: Inputs, u: seq<Path>, p: Path)
    ensures p in Select(g, u, Vendor) <==> p in u && IsVendor(g, p)
    ensures p in Select(g, u, Local) <==> p in u && IsLocal(g, p)
    ensures p in Select(g, u, Candidate) <==> p in u && p !in g.manifest && p in g.sdk && p !in g.t9
  {
    InSelect(g, u, Vendor, p);
    InSelect(g, u, Local, p);
    InSelect(g, u, Candidate, p);
    if p in g.t9 {
      TextHasNoNul(g.t9[p]);
    }
  }

  /** Each list keeps the order of the paths reported. */
  lemma {:induction false} SelectInOrder(g: Inputs, u: seq<Path>, k: Class, i: nat, j: nat) returns (a: nat, b: nat)
    requires i < j < |Select(g, u, k)|
    ensures a < b < |u| && Select(g, u, k)[i] == u[a] && Select(g, u, k)[j] == u[b]
    decreases |u|
  {
    var w := u[..|u| - 1];
    if j < |Select(g, w, k)| {
      a, b := SelectInOrder(g, w, k, i, j);
    } else {
      a := SelectedAt(g, w, k, i);
      b := |u| - 1;
    }
  }

  lemma {:induction false} SelectedAt(g: Inputs, u: seq<Path>, k: Class, i: nat) returns (a: nat)
    requires i < |Select(g, u, k)|
    ensures a < |u| && Select(g, u, k)[i] == u[a]
    decreases |u|
  {
    var w := u[..|u| - 1];
    if i < |Select(g, w, k)| {
      a := SelectedAt(g, w, k, i);
    } else {
      a := |u| - 1;
    }
  }

  /** The four lists the generator works with. */
  method Classify(g: Inputs, u: seq<Path>)
    returns (vendor: seq<Path>, local: seq<Path>, skip: seq<Path>, overlay: set<Path>)
    ensures vendor == Select(g, u, Vendor)
    ensures local == Select(g, u, Local)
    ensures skip == Select(g, u, Candidate)
    ensures overlay == set p | p in u && ClassOf(g, p) == Overlay
    ensures forall p :: p in vendor <==> p in u && IsVendor(g, p)
    ensures forall p :: p in local <==> p in u && IsLocal(g, p)
    ensures forall p :: p in skip <==> p in u && p !in g.manifest && p in g.sdk && p !in g.t9
    ensures forall p :: p in overlay <==> p in u && p in g.manifest
  {
    vendor, local, skip := [], [], [];
    for i := 0 to |u|
      invariant vendor == Select(g, u[..i], Vendor)
      invariant local == Select(g, u[..i], Local)
      invariant skip == Select(g, u[..i], Candidate)
    {
      var p := u[i];
      assert u[..i + 1][..i] == u[..i];
      if p in g.manifest { continue; }
      if p in g.t9 && Binary(g.t9[p]) { continue; }
      if p in g.t9 && p in g.sdk && g.t9[p] == g.sdk[p] {
        vendor := vendor + [p];
      } else if p in g.t9 && (p !in g.base || g.t9[p] != g.base[p]) {
        local := local + [p];
      } else if p in g.sdk && p !in g.t9 {
        skip := skip + [p];
      }
    }
    assert u[..|u|] == u;
    overlay := set p | p in u && p in g.manifest;
    forall p
      ensures p in vendor <==> p in u && IsVendor(g, p)
      ensures p in local <==> p in u && IsLocal(g, p)
      ensures p in skip <==> p in u && p !in g.manifest && p in g.sdk && p !in g.t9
    {
      ListsByTrees(g, u, p);
    }
  }

  /** The overlap test of the generator can never fail: the lists are disjoint, and none
      contains a path of the manifest. */
  lemma NoOverlap(g: Inputs, u: seq<Path>, p: Path)
    ensures var v, l, s := p in Select(g, u, Vendor), p in Select(g, u, Local), p in Select(g, u, Candidate);
            && !(v && l) && !(v && s) && !(l && s)
            && (v || l || s ==> p !in g.manifest && p in u)
  {
    InSelect(g, u, Vendor, p);
    InSelect(g, u, Local, p);
    InSelect(g, u, Candidate, p);
  }

  // ----- making patches -----

  datatype Error = BinaryFile(path: Path) | EmptyDiff(path: Path)

  datatype Result<+T> = Ok(value: T) | Err(error: Error)

  /** The difference between the base and new content; a missing file compares as empty. */
  function MakePatch(g: Inputs, p: Path, now: Content): Result<Patch> {
    var was := Get(g.base, p);
    if was.Some? && Binary(was.value) then Err(BinaryFile(p))
    else if Binary(now) then Err(BinaryFile(p))
    else if (if was.Some? then was.value else []) == now then Err(EmptyDiff(p))
    else Ok(Patch(p, was, now))
  }

  /** The patch of a path succeeds. */
  predicate Makes(g: Inputs, p: Path) { p in g.t9 && MakePatch(g, p, g.t9[p]).Ok? }

  /** The two things that stop the generator on a path it has selected: a binary base
      file, and a new file without content. */
  predicate Stops(g: Inputs, p: Path) {
    || (p in g.base && Binary(g.base[p]))
    || (p !in g.base && p in g.t9 && g.t9[p] == [])
  }

  /** A reported path that is selected for a patch gets one, and not an empty one, exactly
      when neither stop applies. */
  lemma PatchIsMade(g: Inputs, u: seq<Path>, p: Path)
    requires Reported(g, u) && p in u && (ClassOf(g, p) == Vendor || ClassOf(g, p) == Local)
    ensures p in g.t9 && Get(g.base, p) != Some(g.t9[p])
    ensures ClassOf(g, p) == Vendor ==> p in g.sdk && g.sdk[p] == g.t9[p]
    ensures Makes(g, p) <==> !Stops(g, p)
  {
  }

  /** What the generator reports: a NUL among the first 8192 bytes of either file, else no change. */
  lemma WhyNoPatch(g: Inputs, p: Path, now: Content)
    ensures var nul := (p in g.base && Binary(g.base[p])) || Binary(now);
            && (MakePatch(g, p, now) == Err(BinaryFile(p)) <==> nul)
            && (MakePatch(g, p, now) == Err(EmptyDiff(p)) <==>
                  !nul && now == if p in g.base then g.base[p] else [])
            && (MakePatch(g, p, now).Ok? ==> MakePatch(g, p, now).value == Patch(p, Get(g.base, p), now))
  {
  }

  lemma SelectOne(g: Inputs, p: Path, k: Class)
    ensures Select(g, [p], k) == if ClassOf(g, p) == k then [p] else []
  {
    assert [p][..0] == [];
  }

  /** A new empty file stops the generator. */
  lemma EmptyFileStops()
    ensures var g := Inputs(map[], map[], map["empty.h" := ""], {});
            && Reported(g, ["empty.h"]) && Selected(g, ["empty.h"]) == ["empty.h"]
            && MakePatch(g, "empty.h", "") == Err(EmptyDiff("empty.h"))
  {
    var g := Inputs(map[], map[], map["empty.h" := ""], {});
    assert ClassOf(g, "empty.h") == Local;
    SelectOne(g, "empty.h", Vendor);
    SelectOne(g, "empty.h", Local);
  }

  function PatchOf(g: Inputs, p: Path): Patch
    requires p in g.t9
  {
    Patch(p, Get(g.base, p), g.t9[p])
  }

  function PatchesOf(g: Inputs, ps: seq<Path>): (r: seq<Patch>)
    requires forall p :: p in ps ==> p in g.t9
    ensures |r| == |ps| && forall i :: 0 <= i < |ps| ==> r[i] == PatchOf(g, ps[i])
  {
    seq(|ps|, i requires 0 <= i < |ps| => PatchOf(g, ps[i]))
  }

  // ----- naming patches -----

  function Digits(n: nat): string {
    if n < 10 then [(n as char) + '0'] else Digits(n / 10) + [((n % 10) as char) + '0']
  }

  /** At least four decimal digits. */
  function Number(n: nat): string { Pad(Digits(n)) }

  function Pad(d: string): string
    decreases 4 - |d|
  {
    if |d| >= 4 then d else Pad("0" + d)
  }

  predicate Plain(c: char) { 'A' <= c <= 'Z' || 'a' <= c <= 'z' || '0' <= c <= '9' }

  /** Runs of other characters become one hyphen. */
  function Hyphenate(s: string): string
    decreases |s|
  {
    if s == [] then []
    else if Plain(s[0]) then [s[0]] + Hyphenate(s[1..])
    else
      var rest := Hyphenate(s[1..]);
      if rest != [] && rest[0] == '-' then rest else ['-'] + rest
  }

  function Strip(s: string): string
    decreases |s|
  {
    if s == [] then []
    else if s[0] == '-' then Strip(s[1..])
    else if s[|s| - 1] == '-' then Strip(s[..|s| - 1])
    else s
  }

  function Slug(p: Path): string {
    var s := Strip(Hyphenate(p));
    var t := if |s| <= 60 then s else s[..60];
    if t == [] then "unnamed" else t
  }

  function Name(n: nat, p: Path): string { Number(n) + "-" + Slug(p) + ".patch" }

  /** The number in front of the first hyphen. */
  function Read(s: string, acc: nat): nat
    decreases |s|
  {
    if s == [] || s[0] < '0' || s[0] > '9' then acc else Read(s[1..], 10 * acc + (s[0] as int - '0' as int))
  }

  predicate AllDigits(s: string) { forall i :: 0 <= i < |s| ==> '0' <= s[i] <= '9' }

  lemma {:induction false} ReadSplit(s: string, c: char, rest: string, acc: nat)
    requires AllDigits(s) && '0' <= c <= '9' && rest != [] && rest[0] == '-'
    ensures Read(s + [c] + rest, acc) == 10 * Read(s + rest, acc) + (c as int - '0' as int)
    decreases |s|
  {
    if s == [] {
      assert s + [c] + rest == [c] + rest && s + rest == rest;
      assert ([c] + rest)[1..] == rest;
    } else {
      assert (s + [c] + rest)[1..] == s[1..] + [c] + rest;
      assert (s + rest)[1..] == s[1..] + rest;
      ReadSplit(s[1..], c, rest, 10 * acc + (s[0] as int - '0' as int));
    }
  }

  lemma {:induction false} DigitsRead(n: nat, rest: string)
    requires rest != [] && rest[0] == '-'
    ensures AllDigits(Digits(n)) && Read(Digits(n) + rest, 0) == n
    decreases n
  {
    var c := ((n % 10) as char) + '0';
    if n < 10 {
      assert Digits(n) + rest == [c] + rest && ([c] + rest)[1..] == rest;
    } else {
      DigitsRead(n / 10, rest);
      ReadSplit(Digits(n / 10), c, rest, 0);
    }
  }

  lemma {:induction false} PadRead(d: string, rest: string)
    ensures Read(Pad(d) + rest, 0) == Read(d + rest, 0)
    decreases 4 - |d|
  {
    if |d| < 4 {
      PadRead("0" + d, rest);
      assert ("0" + d) + rest == "0" + (d + rest) && ("0" + (d + rest))[1..] == d + rest;
    }
  }

  /** A patch name tells its number, so the names of different patches differ. */
  lemma NameTellsNumber(n: nat, p: Path)
    ensures Read(Name(n, p), 0) == n
  {
    var rest := "-" + (Slug(p) + ".patch");
    DigitsRead(n, rest);
    PadRead(Digits(n), rest);
    assert Name(n, p) == Number(n) + rest;
  }

  lemma {:induction false} PadLength(d: string)
    ensures |Pad(d)| == (if |d| < 4 then 4 else |d|) && (AllDigits(d) ==> AllDigits(Pad(d)))
    decreases 4 - |d|
  {
    if |d| < 4 {
      PadLength("0" + d);
    }
  }

  lemma {:induction false} DigitsAreShort(n: nat)
    ensures AllDigits(Digits(n)) && Digits(n) != [] && (n >= 10 ==> Digits(n)[0] != '0')
    decreases n
  {
    if n >= 10 {
      DigitsAreShort(n / 10);
    }
  }

  /** The plain characters of a string. */
  function Plains(s: string): string
    decreases |s|
  {
    if s == [] then [] else (if Plain(s[0]) then [s[0]] else []) + Plains(s[1..])
  }

  /** Only plain characters and single hyphens. */
  predicate Tidy(s: string) {
    && (forall i :: 0 <= i < |s| ==> Plain(s[i]) || s[i] == '-')
    && (forall i :: 0 <= i < |s| - 1 ==> !(s[i] == '-' && s[i + 1] == '-'))
  }

  lemma {:induction false} HyphenateTidies(s: string)
    ensures Tidy(Hyphenate(s)) && Plains(Hyphenate(s)) == Plains(s)
    decreases |s|
  {
    if s != [] {
      HyphenateTidies(s[1..]);
      var rest := Hyphenate(s[1..]);
      if Plain(s[0]) {
        assert ([s[0]] + rest)[1..] == rest;
      } else {
        assert (['-'] + rest)[1..] == rest;
      }
    }
  }

  lemma {:induction false} PlainsJoin(s: string, t: string)
    ensures Plains(s + t) == Plains(s) + Plains(t)
    decreases |s|
  {
    if s == [] {
      assert s + t == t;
    } else {
      PlainsJoin(s[1..], t);
      assert (s + t)[1..] == s[1..] + t;
      var first := if Plain(s[0]) then [s[0]] else [];
      assert Plains(s + t) == first + Plains(s[1..] + t);
    }
  }

  lemma {:induction false} StripTrims(s: string)
    requires Tidy(s)
    ensures var t := Strip(s);
            && Tidy(t) && Plains(t) == Plains(s)
            && (t != [] ==> t[0] != '-' && t[|t| - 1] != '-')
    decreases |s|
  {
    if s == [] {
    } else if s[0] == '-' {
      StripTrims(s[1..]);
    } else if s[|s| - 1] == '-' {
      var w := s[..|s| - 1];
      StripTrims(w);
      assert s == w + ['-'];
      PlainsJoin(w, ['-']);
      assert Plains(['-']) == [] by { assert ['-'][1..] == []; }
    }
  }

  /** The number of a patch file has at least four digits, and no more zeros in front than that. */
  lemma NumberShape(n: nat)
    ensures AllDigits(Number(n)) && |Number(n)| >= 4 && (|Number(n)| > 4 ==> Number(n)[0] != '0')
  {
    DigitsAreShort(n);
    PadLength(Digits(n));
  }

  lemma NameParts(n: nat, p: Path)
    ensures var a, b, name := |Number(n)|, |Slug(p)|, Name(n, p);
            && |name| == a + b + 7
            && name[..a] == Number(n) && name[a] == '-' && name[a + 1..a + 1 + b] == Slug(p)
            && name[a + 1 + b..] == ".patch"
  {
  }

  /** Its slug is up to 60 plain characters and single hyphens, those of the path in order. */
  lemma SlugShape(p: Path)
    ensures Tidy(Slug(p)) && 1 <= |Slug(p)| <= 60 && Slug(p)[0] != '-'
    ensures if Plains(p) == [] then Slug(p) == "unnamed" else Plains(Slug(p)) <= Plains(p)
    ensures Plains(p) != [] && |Strip(Hyphenate(p))| <= 60 ==> Plains(Slug(p)) == Plains(p)
  {
    HyphenateTidies(p);
    StripTrims(Hyphenate(p));
    var s := Strip(Hyphenate(p));
    if s == [] {
      assert Plains(p) == [];
    } else {
      FirstIsPlain(s);
      if |s| > 60 {
        CutIsTidy(s);
      }
    }
  }

  lemma FirstIsPlain(s: string)
    requires Tidy(s) && s != [] && s[0] != '-'
    ensures Plains(s) != []
  {
  }

  lemma CutIsTidy(s: string)
    requires Tidy(s) && |s| > 60
    ensures Tidy(s[..60]) && Plains(s[..60]) <= Plains(s)
  {
    assert s == s[..60] + s[60..];
    PlainsJoin(s[..60], s[60..]);
  }

  datatype File = File(name: string, patch: Patch)

  /** The files of one list of paths, numbered from 1, with content from `source`. */
  function Files(g: Inputs, rels: seq<Path>, source: Tree): (fs: seq<File>)
    requires forall p :: p in rels ==> p in source
    ensures |fs| == |rels|
    decreases |rels|
  {
    if rels == [] then []
    else
      var p := rels[|rels| - 1];
      Files(g, rels[..|rels| - 1], source) + [File(Name(|rels|, p), Patch(p, Get(g.base, p), source[p]))]
  }

  lemma {:induction false} FileAt(g: Inputs, rels: seq<Path>, source: Tree, i: nat)
    requires (forall p :: p in rels ==> p in source) && i < |rels|
    ensures Files(g, rels, source)[i] ==
            File(Name(i + 1, rels[i]), Patch(rels[i], Get(g.base, rels[i]), source[rels[i]]))
    decreases |rels|
  {
    if i < |rels| - 1 {
      FileAt(g, rels[..|rels| - 1], source, i);
    }
  }

  /** No two files of a list have the same name. */
  lemma FileNamesDiffer(g: Inputs, rels: seq<Path>, source: Tree, i: nat, j: nat)
    requires (forall p :: p in rels ==> p in source) && i < j < |rels|
    ensures Files(g, rels, source)[i].name != Files(g, rels, source)[j].name
  {
    FileAt(g, rels, source, i);
    FileAt(g, rels, source, j);
    NameTellsNumber(i + 1, rels[i]);
    NameTellsNumber(j + 1, rels[j]);
  }

  /** Every path of the list gets a patch. */
  predicate AllMade(g: Inputs, rels: seq<Path>, source: Tree)
    requires forall p :: p in rels ==> p in source
    decreases |rels|
  {
    rels == [] || (AllMade(g, rels[..|rels| - 1], source)
                   && MakePatch(g, rels[|rels| - 1], source[rels[|rels| - 1]]).Ok?)
  }

  lemma {:induction false} AllMadeMeans(g: Inputs, rels: seq<Path>, source: Tree)
    requires forall p :: p in rels ==> p in source
    ensures AllMade(g, rels, source) <==> forall p :: p in rels ==> MakePatch(g, p, source[p]).Ok?
    decreases |rels|
  {
    if rels != [] {
      var w := rels[..|rels| - 1];
      AllMadeMeans(g, w, source);
      assert rels == w + [rels[|rels| - 1]];
    }
  }

  /** Choose the name and make the patch of the n-th path of a list.  Names already used
      have smaller numbers, so the generator's fallback for a repeated name is never needed. */
  method Write(g: Inputs, n: nat, p: Path, now: Content, used: set<string>) returns (r: Result<File>)
    requires forall s :: s in used ==> Read(s, 0) < n
    ensures r.Ok? <==> MakePatch(g, p, now).Ok?
    ensures r.Ok? ==> r.value == File(Name(n, p), Patch(p, Get(g.base, p), now)) && Read(r.value.name, 0) == n
    ensures Name(n, p) !in used
  {
    NameTellsNumber(n, p);
    var patch := MakePatch(g, p, now);
    if patch.Err? { return Err(patch.error); }
    return Ok(File(Name(n, p), patch.value));
  }

  /** Write the patches of one list. */
  method Emit(g: Inputs, rels: seq<Path>, source: Tree) returns (r: Result<seq<File>>)
    requires forall p :: p in rels ==> p in source
    ensures r.Ok? <==> AllMade(g, rels, source)
    ensures r.Ok? ==> r.value == Files(g, rels, source)
  {
    var files: seq<File>, used: set<string> := [], {};
    for i := 0 to |rels|
      invariant files == Files(g, rels[..i], source) && AllMade(g, rels[..i], source)
      invariant forall s :: s in used ==> Read(s, 0) <= i
    {
      var file := Write(g, i + 1, rels[i], source[rels[i]], used);
      if file.Err? {
        AllMadeMeans(g, rels, source);
        return Err(file.error);
      }
      used := used + {file.value.name};
      assert rels[..i + 1][..i] == rels[..i];
      files := files + [file.value];
    }
    assert rels[..|rels|] == rels;
    return Ok(files);
  }

  // ----- the generated set rebuilds T9 -----

  /** Everything the generator patches, vendor list first. */
  function Selected(g: Inputs, u: seq<Path>): seq<Path> { Select(g, u, Vendor) + Select(g, u, Local) }

  lemma SelectedInT9(g: Inputs, u: seq<Path>)
    ensures forall p :: p in Selected(g, u) <==> p in u && (ClassOf(g, p) == Vendor || ClassOf(g, p) == Local)
    ensures forall p :: p in Selected(g, u) ==> p in g.t9
  {
    forall p
      ensures p in Selected(g, u) <==> p in u && (ClassOf(g, p) == Vendor || ClassOf(g, p) == Local)
    {
      InSelect(g, u, Vendor, p);
      InSelect(g, u, Local, p);
    }
  }

  /** The patches of both lists. */
  function Generated(g: Inputs, u: seq<Path>): seq<Patch> {
    SelectedInT9(g, u);
    PatchesOf(g, Selected(g, u))
  }

  lemma GeneratedIsOwn(g: Inputs, u: seq<Path>)
    requires Reported(g, u)
    ensures Distinct(Generated(g, u)) && MadeFrom(g.base, Generated(g, u))
  {
    SelectedInT9(g, u);
    SelectDistinct(g, u, Vendor);
    SelectDistinct(g, u, Local);
    var v, l := Select(g, u, Vendor), Select(g, u, Local);
    forall i, j | 0 <= i < j < |v + l|
      ensures (v + l)[i] != (v + l)[j]
    {
      NoOverlap(g, u, (v + l)[i]);
      if i < |v| <= j {
        assert (v + l)[i] in v && (v + l)[j] in l;
      }
    }
  }

  lemma GeneratedTouches(g: Inputs, u: seq<Path>, p: Path)
    ensures Touches(Generated(g, u), p) <==> p in Selected(g, u)
  {
    SelectedInT9(g, u);
    var ps := Selected(g, u);
    if p in ps {
      var i :| 0 <= i < |ps| && ps[i] == p;
      assert Generated(g, u)[i].path == p;
    }
    if Touches(Generated(g, u), p) {
      var i :| 0 <= i < |Generated(g, u)| && Generated(g, u)[i].path == p;
      assert ps[i] == p;
    }
  }

  /** The generator succeeds exactly when no selected path is a binary base file or a new
      file without content. */
  lemma GeneratorSucceeds(g: Inputs, u: seq<Path>)
    requires Reported(g, u)
    ensures forall p :: p in Select(g, u, Vendor) ==> p in g.sdk
    ensures forall p :: p in Select(g, u, Local) ==> p in g.t9
    ensures AllMade(g, Select(g, u, Vendor), g.sdk) && AllMade(g, Select(g, u, Local), g.t9)
            <==> forall p :: p in Selected(g, u) ==> !Stops(g, p)
  {
    var v, l := Select(g, u, Vendor), Select(g, u, Local);
    SelectedInT9(g, u);
    forall p | p in Selected(g, u)
      ensures p in v ==> p in g.sdk && g.sdk[p] == g.t9[p]
      ensures Makes(g, p) <==> !Stops(g, p)
    {
      InSelect(g, u, Vendor, p);
      PatchIsMade(g, u, p);
    }
    assert forall p :: p in v ==> p in Selected(g, u);
    AllMadeMeans(g, v, g.sdk);
    AllMadeMeans(g, l, g.t9);
  }

  lemma FilesCarry(g: Inputs, rels: seq<Path>, source: Tree)
    requires forall p :: p in rels ==> p in source && p in g.t9 && source[p] == g.t9[p]
    ensures forall i :: 0 <= i < |rels| ==> Files(g, rels, source)[i].patch == PatchesOf(g, rels)[i]
  {
    forall i | 0 <= i < |rels|
      ensures Files(g, rels, source)[i].patch == PatchesOf(g, rels)[i]
    {
      FileAt(g, rels, source, i);
      assert rels[i] in rels;
    }
  }

  /** The whole generator: the vendor list from the SDK, the local list from T9. */
  method Generate(g: Inputs, u: seq<Path>) returns (r: Result<seq<File>>)
    requires Reported(g, u)
    ensures r.Ok? <==> forall p :: p in Selected(g, u) ==> !Stops(g, p)
    ensures r.Ok? ==> |r.value| == |Generated(g, u)|
    ensures r.Ok? ==> forall i :: 0 <= i < |r.value| ==> r.value[i].patch == Generated(g, u)[i]
  {
    GeneratorSucceeds(g, u);
    SelectedInT9(g, u);
    var vendor, local, _, _ := Classify(g, u);
    var v := Emit(g, vendor, g.sdk);
    if v.Err? { return v; }
    var l := Emit(g, local, g.t9);
    if l.Err? { return l; }
    forall p | p in vendor
      ensures p in g.t9 && g.sdk[p] == g.t9[p]
    {
      InSelect(g, u, Vendor, p);
    }
    FilesCarry(g, vendor, g.sdk);
    FilesCarry(g, local, g.t9);
    return Ok(v.value + l.value);
  }

  /** The patches apply in every order and rebuild a path of T9 that is neither binary nor
      in the manifest exactly when the comparison reported it or it never differed. */
  lemma PatchesRebuildT9(g: Inputs, u: seq<Path>, order: seq<Patch>, p: Path)
    requires Reported(g, u) && Reordered(Generated(g, u), order)
    requires p in g.t9 && p !in g.manifest && !Binary(g.t9[p])
    ensures ApplyAll(g.base, order).Some?
    ensures Get(ApplyAll(g.base, order).value, p) == Some(g.t9[p]) <==> p in u || Get(g.base, p) == Some(g.t9[p])
  {
    var ps := Generated(g, u);
    GeneratedIsOwn(g, u);
    OrderIsImmaterial(g.base, ps, order);
    ApplyAllPatches(g.base, ps);
    GeneratedTouches(g, u, p);
    SelectedInT9(g, u);
    var r := ApplyAll(g.base, ps).value;
    LastTouches(ps, p);
    if p in Selected(g, u) {
      var i :| 0 <= i < |ps| && ps[i].path == p;
      assert ps[i] == PatchOf(g, p);
      LastIsOnly(ps, i);
    } else {
      assert Get(r, p) == Get(g.base, p);
    }
  }
}

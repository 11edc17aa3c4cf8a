/** The in-memory directory tree that the filesystem helpers of
    filepathx/file.go and filepathx/dir.go act on. A path is the list of
    segments of a cleaned absolute path (`[]` is "/"); the tree maps each
    existing path to a file with its content or to a directory. This module
    holds the pure effect of each primitive and of the recursive copy and
    move, with the lemmas about them. */
module FsTree {
  import opened Errors

  type Path = seq<string>

  datatype Node = File(content: string) | Dir

  type Tree = map<Path, Node>

  datatype ReadResult = Read(content: string) | ReadFailed(error: Error)

  /** q is p itself or lies inside p. */
  predicate Under(q: Path, p: Path)
  {
    |p| <= |q| && q[..|p|] == p
  }

  /** Neither path lies inside the other. */
  predicate Disjoint(p: Path, q: Path)
  {
    !Under(p, q) && !Under(q, p)
  }

  /** A real directory tree: the root is a directory and every other entry
      sits in a directory. */
  ghost predicate Wf(t: Tree)
  {
    && [] in t && t[[]] == Dir
    && forall q {:trigger DirOf(q)} :: q in t && q != [] ==> IsDirAt(t, DirOf(q))
  }

  predicate IsDirAt(t: Tree, p: Path)
  {
    p in t && t[p] == Dir
  }

  predicate IsFileAt(t: Tree, p: Path)
  {
    p in t && t[p].File?
  }

  /** The directory a file path lives in (filepath.Dir; "/" for "/"). */
  function DirOf(p: Path): Path
  {
    if p == [] then [] else p[..|p| - 1]
  }

  // ---------------------------------------------------------------------
  // Pure effects of the primitive operations.

  /** os.MkdirAll succeeds unless p or one of its ancestors is a file. */
  predicate MkdirAllOk(t: Tree, p: Path)
  {
    forall i :: 0 <= i <= |p| && p[..i] in t ==> t[p[..i]] == Dir
  }

  function MkdirAll(t: Tree, p: Path): (r: Tree)
    ensures forall q :: q in t ==> q in r && r[q] == t[q]
    ensures forall i :: 0 <= i <= |p| ==> p[..i] in r
    ensures forall q :: q in r && q !in t ==> r[q] == Dir && Under(p, q)
  {
    var prefixes := set i | 0 <= i <= |p| :: p[..i];
    map q | q in t.Keys + prefixes :: if q in t then t[q] else Dir
  }

  /** os.WriteFile and os.Create succeed on an existing file, or on a missing
      entry whose directory exists. */
  predicate CanCreate(t: Tree, p: Path)
  {
    IsFileAt(t, p) || (p !in t && p != [] && IsDirAt(t, DirOf(p)))
  }

  /** os.RemoveAll: p and everything inside it disappears (the root
      directory itself stays). */
  function RemoveAll(t: Tree, p: Path): (r: Tree)
    ensures forall q :: q in r <==> q in t && (!Under(q, p) || q == [])
    ensures forall q :: q in r ==> r[q] == t[q]
  {
    map q | q in t && (!Under(q, p) || q == []) :: t[q]
  }

  function ReadTree(t: Tree, p: Path): ReadResult
  {
    if IsFileAt(t, p) then Read(t[p].content) else ReadFailed(FsFailed("read"))
  }

  // ---------------------------------------------------------------------
  // Shape lemmas.

  lemma MkdirAllWf(t: Tree, p: Path)
    requires Wf(t) && MkdirAllOk(t, p)
    ensures Wf(MkdirAll(t, p))
    ensures forall i :: 0 <= i <= |p| ==> IsDirAt(MkdirAll(t, p), p[..i])
  {
    var r := MkdirAll(t, p);
    forall i | 0 <= i <= |p|
      ensures IsDirAt(r, p[..i])
    {
      if p[..i] !in t {
        assert r[p[..i]] == Dir;
      }
    }
    forall q | q in r && q != []
      ensures IsDirAt(r, DirOf(q))
    {
      if q !in t {
        assert Under(p, q);
        assert q[..|q| - 1] == p[..|q| - 1];
      }
    }
  }

  lemma WriteWf(t: Tree, p: Path, s: string)
    requires Wf(t) && CanCreate(t, p)
    ensures Wf(t[p := File(s)])
  {
  }

  lemma RemoveAllWf(t: Tree, p: Path)
    requires Wf(t)
    ensures Wf(RemoveAll(t, p))
  {
  }

  /** A file has nothing inside it. */
  lemma FileIsLeaf(t: Tree, f: Path, q: Path)
    requires Wf(t) && IsFileAt(t, f) && q in t && Under(q, f)
    ensures q == f
    decreases |q|
  {
    if q != f {
      var d := DirOf(q);
      assert Under(d, f);
      FileIsLeaf(t, f, d);
    }
  }

  // ---------------------------------------------------------------------
  // Recursive copy, as a function of the tree.

  /** Where a path inside src lands inside dst. */
  function Image(q: Path, src: Path, dst: Path): (r: Path)
    requires Under(q, src)
    ensures Under(r, dst) && src + r[|dst|..] == q
  {
    assert (dst + q[|src|..])[|dst|..] == q[|src|..];
    assert src + q[|src|..] == q;
    dst + q[|src|..]
  }

  /** Every entry at or inside p. */
  function Subtree(t: Tree, p: Path): (r: set<Path>)
    ensures forall q :: q in r <==> q in t && Under(q, p)
  {
    set q | q in t && Under(q, p)
  }

  /** The entries inside src reached through the child names in done,
      and src itself. */
  function Covered(t: Tree, src: Path, done: set<string>): (r: set<Path>)
    ensures forall q :: q in r <==> q in t && Under(q, src) && (q == src || q[|src|] in done)
  {
    set q | q in t && Under(q, src) && (q == src || q[|src|] in done)
  }

  /** base with the node of t at every path in S (all inside src) placed at
      the matching path inside dst. */
  function Graft(base: Tree, t: Tree, src: Path, dst: Path, S: set<Path>): (r: Tree)
    requires forall q :: q in S ==> q in t && Under(q, src)
  {
    var images := set q | q in S :: Image(q, src, dst);
    assert forall q :: q in images ==> Under(q, dst) && src + q[|dst|..] in S;
    map q | q in base.Keys + images ::
      if Under(q, dst) && src + q[|dst|..] in S then t[src + q[|dst|..]] else base[q]
  }

  /** The tree after a successful `DirPath.Copy(src, dst)`: dst and its
      ancestors exist, every entry inside src has a copy inside dst, and
      whatever dst held that src does not have stays. */
  function CopyTree(t: Tree, src: Path, dst: Path): Tree
    requires MkdirAllOk(t, dst)
  {
    Graft(MkdirAll(t, dst), t, src, dst, Subtree(t, src))
  }

  /** `DirPath.Copy` cannot fail: src is a directory, dst can be created,
      and no entry inside src meets an entry of the other kind at its place
      inside dst. */
  predicate Copyable(t: Tree, src: Path, dst: Path)
  {
    && IsDirAt(t, src)
    && MkdirAllOk(t, dst)
    && forall q :: q in t && Under(q, src) && Image(q, src, dst) in t ==>
         (t[Image(q, src, dst)] == Dir <==> t[q] == Dir)
  }

  /** Nothing outside dst changed, and only dst's ancestors and entries
      inside dst are new. */
  ghost predicate OnlyInside(t: Tree, r: Tree, dst: Path)
  {
    && (forall q :: q in t && !Under(q, dst) ==> q in r && r[q] == t[q])
    && (forall q :: q in r && q !in t ==> Under(q, dst) || Under(dst, q))
  }

  /** Every entry of a directory other than itself sits under one of its
      children. */
  lemma ChildOf(t: Tree, src: Path, q: Path)
    requires Wf(t) && q in t && Under(q, src) && q != src
    ensures src + [q[|src|]] in t
    decreases |q|
  {
    if |q| > |src| + 1 {
      var d := DirOf(q);
      assert Under(d, src) && d[|src|] == q[|src|];
      ChildOf(t, src, d);
    } else {
      assert q == src + [q[|src|]];
    }
  }

  /** Two paths that share a descendant are nested. */
  lemma Nested(q: Path, a: Path, b: Path)
    requires Under(q, a) && Under(q, b) && |a| <= |b|
    ensures Under(b, a)
  {
    assert b[..|a|] == q[..|b|][..|a|] == q[..|a|];
  }

  /** Between two disjoint directories, the copy built so far agrees with
      the original tree everywhere except inside dst and on dst's
      ancestors. */
  lemma GraftAway(t: Tree, src: Path, dst: Path, C: set<Path>, q: Path)
    requires MkdirAllOk(t, dst)
    requires forall p :: p in C ==> p in t && Under(p, src)
    requires !Under(q, dst) && !Under(dst, q)
    ensures var x := Graft(MkdirAll(t, dst), t, src, dst, C);
      (q in x <==> q in t) && (q in t ==> x[q] == t[q])
  {
  }

  /** Entries inside src are left alone by a copy into a disjoint dst. */
  lemma GraftKeepsSource(t: Tree, src: Path, dst: Path, C: set<Path>, q: Path)
    requires MkdirAllOk(t, dst) && Disjoint(src, dst)
    requires forall p :: p in C ==> p in t && Under(p, src)
    requires Under(q, src)
    ensures var x := Graft(MkdirAll(t, dst), t, src, dst, C);
      (q in x <==> q in t) && (q in t ==> x[q] == t[q])
  {
    if Under(q, dst) {
      if |src| <= |dst| { Nested(q, src, dst); } else { Nested(q, dst, src); }
    }
    GraftAway(t, src, dst, C, q);
  }

  /** Graft at one path. */
  lemma GraftAt(base: Tree, t: Tree, src: Path, dst: Path, S: set<Path>, q: Path)
    requires forall p :: p in S ==> p in t && Under(p, src)
    ensures var r := Graft(base, t, src, dst, S);
      var hit := Under(q, dst) && src + q[|dst|..] in S;
      && (q in r <==> q in base || hit)
      && (q in r ==> r[q] == if hit then t[src + q[|dst|..]] else base[q])
  {
    if Under(q, dst) && src + q[|dst|..] in S {
      var p := src + q[|dst|..];
      assert p[|src|..] == q[|dst|..];
      assert dst + q[|dst|..] == q;
      assert Image(p, src, dst) == q;
    }
  }

  /** MkdirAll at one path. */
  lemma MkdirAllAt(t: Tree, p: Path, q: Path)
    ensures var r := MkdirAll(t, p);
      && (q in r <==> q in t || Under(p, q))
      && (q in r ==> r[q] == if q in t then t[q] else Dir)
  {
    if Under(p, q) {
      assert p[..|q|] == q;
    }
  }

  /** The place inside src that a path inside dst mirrors. */
  lemma Mirror(q: Path, src: Path, dst: Path, n: string)
    requires Under(q, dst)
    ensures var p := src + q[|dst|..];
      && Under(p, src) && p[|src|..] == q[|dst|..]
      && (Under(q, dst + [n]) <==> Under(p, src + [n]))
      && (q == dst + [n] <==> p == src + [n])
      && (q == dst <==> p == src)
  {
    var p := src + q[|dst|..];
    assert p[|src|..] == q[|dst|..];
    assert q == dst + q[|dst|..];
    if Under(q, dst + [n]) {
      assert p[..|src| + 1] == src + [n];
    }
    if Under(p, src + [n]) {
      assert q[..|dst| + 1] == dst + [n];
    }
  }

  lemma UnderBoth(a: Path, b: Path)
    requires Under(a, b) && Under(b, a)
    ensures a == b
  {
  }

  /** What every step of the copy loop may rely on. */
  ghost predicate StepReady(t: Tree, src: Path, dst: Path, done: set<string>, n: string)
  {
    Wf(t) && Disjoint(src, dst) && IsDirAt(t, src) && MkdirAllOk(t, dst) && n !in done
  }

  /** The copy so far, when the children in done are finished. */
  function Partial(t: Tree, src: Path, dst: Path, done: set<string>): Tree
    requires MkdirAllOk(t, dst)
  {
    Graft(MkdirAll(t, dst), t, src, dst, Covered(t, src, done))
  }

  /** Both trees hold the same thing at q. */
  predicate Same(a: Tree, b: Tree, q: Path)
  {
    (q in a <==> q in b) && (q in a ==> a[q] == b[q])
  }

  /** x agrees with the copy built so far everywhere outside src, and with
      the original tree inside the pending child src/n. A copy's own
      partial tree is like this; so is a move's. */
  ghost predicate Like(x: Tree, t: Tree, src: Path, dst: Path, done: set<string>, n: string)
    requires MkdirAllOk(t, dst)
  {
    && (forall q :: !Under(q, src) ==> Same(x, Partial(t, src, dst, done), q))
    && (forall q :: Under(q, src + [n]) ==> Same(x, t, q))
  }

  /** A path inside the other of two disjoint directories is neither inside
      nor above a child of the first. */
  lemma AwayFromChild(src: Path, dst: Path, n: string, q: Path)
    requires Disjoint(src, dst) && Under(q, src)
    ensures !Under(q, dst + [n]) && !Under(dst + [n], q) && !Under(q, dst)
  {
    if Under(q, dst) {
      if |src| <= |dst| { Nested(q, src, dst); } else { Nested(q, dst, src); }
    }
  }

  lemma DirStepAway(t: Tree, src: Path, dst: Path, done: set<string>, n: string, x: Tree, q: Path)
    requires StepReady(t, src, dst, done, n) && Like(x, t, src, dst, done, n)
    requires MkdirAllOk(x, dst + [n])
    requires !Under(q, dst) && !Under(q, src)
    ensures Same(CopyTree(x, src + [n], dst + [n]), Partial(t, src, dst, done + {n}), q)
  {
    var s, d := src + [n], dst + [n];
    var base := MkdirAll(t, dst);
    assert Same(x, Partial(t, src, dst, done), q);
    assert !Under(q, d);
    GraftAt(MkdirAll(x, d), x, s, d, Subtree(x, s), q);
    MkdirAllAt(x, d, q);
    GraftAt(base, t, src, dst, Covered(t, src, done), q);
    GraftAt(base, t, src, dst, Covered(t, src, done + {n}), q);
    if Under(d, q) {
      assert Under(dst, q);
      MkdirAllAt(t, dst, q);
    }
  }

  lemma DirStepInside(t: Tree, src: Path, dst: Path, done: set<string>, n: string, x: Tree, q: Path)
    requires StepReady(t, src, dst, done, n) && Like(x, t, src, dst, done, n)
    requires MkdirAllOk(x, dst + [n])
    requires IsDirAt(t, src + [n]) && Under(q, dst + [n])
    ensures Same(CopyTree(x, src + [n], dst + [n]), Partial(t, src, dst, done + {n}), q)
  {
    var s, d := src + [n], dst + [n];
    var base := MkdirAll(t, dst);
    assert Under(q, dst);
    var p := src + q[|dst|..];
    Mirror(q, src, dst, n);
    assert s + q[|d|..] == p;
    assert p[|src|] == n;
    assert Same(x, t, p);
    GraftAt(MkdirAll(x, d), x, s, d, Subtree(x, s), q);
    GraftKeepsSource(t, src, dst, Covered(t, src, done), p);
    GraftAt(base, t, src, dst, Covered(t, src, done + {n}), q);
    if p !in t {
      if Under(q, src) {
        AwayFromChild(src, dst, n, q);
      }
      assert Same(x, Partial(t, src, dst, done), q);
      MkdirAllAt(x, d, q);
      GraftAt(base, t, src, dst, Covered(t, src, done), q);
      if Under(d, q) {
        UnderBoth(q, d);
        assert false;
      }
    }
  }

  lemma DirStepBeside(t: Tree, src: Path, dst: Path, done: set<string>, n: string, x: Tree, q: Path)
    requires StepReady(t, src, dst, done, n) && Like(x, t, src, dst, done, n)
    requires MkdirAllOk(x, dst + [n])
    requires IsDirAt(t, src + [n]) && Under(q, dst) && !Under(q, dst + [n])
    ensures Same(CopyTree(x, src + [n], dst + [n]), Partial(t, src, dst, done + {n}), q)
  {
    var s, d := src + [n], dst + [n];
    var base := MkdirAll(t, dst);
    var p := src + q[|dst|..];
    Mirror(q, src, dst, n);
    if Under(q, src) {
      AwayFromChild(src, dst, n, q);
    }
    assert Same(x, Partial(t, src, dst, done), q);
    assert p in Covered(t, src, done) <==> p in Covered(t, src, done + {n});
    GraftAt(MkdirAll(x, d), x, s, d, Subtree(x, s), q);
    MkdirAllAt(x, d, q);
    GraftAt(base, t, src, dst, Covered(t, src, done), q);
    GraftAt(base, t, src, dst, Covered(t, src, done + {n}), q);
    if Under(d, q) {
      assert |q| <= |dst|;
      UnderBoth(q, dst);
    }
  }

  /** Outside src, copying the child directory src/n into dst/n from a tree
      like the partial copy gives the partial copy with that child done. */
  lemma DirStepOutside(t: Tree, src: Path, dst: Path, done: set<string>, n: string, x: Tree, q: Path)
    requires StepReady(t, src, dst, done, n) && Like(x, t, src, dst, done, n)
    requires MkdirAllOk(x, dst + [n])
    requires IsDirAt(t, src + [n]) && !Under(q, src)
    ensures Same(CopyTree(x, src + [n], dst + [n]), Partial(t, src, dst, done + {n}), q)
  {
    if !Under(q, dst) {
      DirStepAway(t, src, dst, done, n, x, q);
    } else if Under(q, dst + [n]) {
      DirStepInside(t, src, dst, done, n, x, q);
    } else {
      DirStepBeside(t, src, dst, done, n, x, q);
    }
  }

  /** The copy built so far is like itself. */
  lemma PartialLike(t: Tree, src: Path, dst: Path, done: set<string>, n: string)
    requires StepReady(t, src, dst, done, n)
    ensures Like(Partial(t, src, dst, done), t, src, dst, done, n)
  {
    forall q | Under(q, src + [n])
      ensures Same(Partial(t, src, dst, done), t, q)
    {
      assert Under(q, src);
      GraftKeepsSource(t, src, dst, Covered(t, src, done), q);
    }
  }

  /** Inside src, copying a child directory out changes nothing. */
  lemma DirStepSource(t: Tree, src: Path, dst: Path, done: set<string>, n: string, q: Path)
    requires StepReady(t, src, dst, done, n) && Under(q, src)
    requires MkdirAllOk(Partial(t, src, dst, done), dst + [n])
    ensures Same(CopyTree(Partial(t, src, dst, done), src + [n], dst + [n]), Partial(t, src, dst, done + {n}), q)
  {
    var x := Partial(t, src, dst, done);
    AwayFromChild(src, dst, n, q);
    GraftAway(x, src + [n], dst + [n], Subtree(x, src + [n]), q);
    GraftKeepsSource(t, src, dst, Covered(t, src, done), q);
    GraftKeepsSource(t, src, dst, Covered(t, src, done + {n}), q);
  }

  /** Copying the child directory src/n into dst/n extends the copy built
      so far by that child's whole subtree. */
  lemma DirStep(t: Tree, src: Path, dst: Path, done: set<string>, n: string)
    requires StepReady(t, src, dst, done, n) && IsDirAt(t, src + [n])
    requires MkdirAllOk(Partial(t, src, dst, done), dst + [n])
    ensures CopyTree(Partial(t, src, dst, done), src + [n], dst + [n]) == Partial(t, src, dst, done + {n})
  {
    var x := Partial(t, src, dst, done);
    var y := CopyTree(x, src + [n], dst + [n]);
    var z := Partial(t, src, dst, done + {n});
    forall q
      ensures (q in y <==> q in z) && (q in y ==> y[q] == z[q])
    {
      if Under(q, src) {
        DirStepSource(t, src, dst, done, n, q);
      } else {
        PartialLike(t, src, dst, done, n);
        DirStepOutside(t, src, dst, done, n, x, q);
      }
    }
  }

  /** Copying the child file src/n to dst/n extends the copy built so far
      by that one file. */
  lemma FileStep(t: Tree, src: Path, dst: Path, done: set<string>, n: string)
    requires StepReady(t, src, dst, done, n) && IsFileAt(t, src + [n])
    ensures Partial(t, src, dst, done)[dst + [n] := t[src + [n]]] == Partial(t, src, dst, done + {n})
  {
    var s, d := src + [n], dst + [n];
    var base := MkdirAll(t, dst);
    var y := Partial(t, src, dst, done)[d := t[s]];
    var z := Partial(t, src, dst, done + {n});
    forall q
      ensures (q in y <==> q in z) && (q in y ==> y[q] == z[q])
    {
      GraftAt(base, t, src, dst, Covered(t, src, done), q);
      GraftAt(base, t, src, dst, Covered(t, src, done + {n}), q);
      if Under(q, dst) {
        var p := src + q[|dst|..];
        Mirror(q, src, dst, n);
        if Under(p, s) && p in t {
          FileIsLeaf(t, s, p);
        }
      }
    }
  }

  /** Before any child is copied, the copy is just dst made. */
  lemma PartialStart(t: Tree, src: Path, dst: Path)
    requires Wf(t) && IsDirAt(t, src) && MkdirAllOk(t, dst)
    ensures Partial(t, src, dst, {}) == MkdirAll(t, dst)
  {
    var base := MkdirAll(t, dst);
    var x := Partial(t, src, dst, {});
    forall q
      ensures (q in x <==> q in base) && (q in x ==> x[q] == base[q])
    {
      GraftAt(base, t, src, dst, Covered(t, src, {}), q);
      if Under(q, dst) {
        Mirror(q, src, dst, "");
        MkdirAllAt(t, dst, q);
      }
    }
  }

  /** Once every child is copied, the copy is complete. */
  lemma PartialEnd(t: Tree, src: Path, dst: Path, names: set<string>)
    requires Wf(t) && MkdirAllOk(t, dst)
    requires forall n :: src + [n] in t ==> n in names
    ensures Covered(t, src, names) == Subtree(t, src)
    ensures Partial(t, src, dst, names) == CopyTree(t, src, dst)
  {
    forall q | q in t && Under(q, src) && q != src
      ensures q[|src|] in names
    {
      ChildOf(t, src, q);
    }
    assert Covered(t, src, names) == Subtree(t, src);
  }

  /** A path inside dst/n that mirrors a not yet copied entry still holds
      what the original tree had there. */
  lemma PendingAt(t: Tree, src: Path, dst: Path, done: set<string>, n: string, w: Path)
    requires StepReady(t, src, dst, done, n) && Under(w, dst + [n])
    ensures var x := Partial(t, src, dst, done);
      (w in x <==> w in t) && (w in x ==> x[w] == t[w])
  {
    var base := MkdirAll(t, dst);
    assert Under(w, dst);
    Mirror(w, src, dst, n);
    var p := src + w[|dst|..];
    assert p[|src|] == n;
    GraftAt(base, t, src, dst, Covered(t, src, done), w);
    MkdirAllAt(t, dst, w);
  }

  /** dst is a directory in every partial copy. */
  lemma PartialDst(t: Tree, src: Path, dst: Path, done: set<string>)
    requires Wf(t) && IsDirAt(t, src) && MkdirAllOk(t, dst)
    ensures IsDirAt(Partial(t, src, dst, done), dst)
    ensures forall i :: 0 <= i <= |dst| && dst[..i] in Partial(t, src, dst, done) ==>
      Partial(t, src, dst, done)[dst[..i]] == Dir
  {
    var base := MkdirAll(t, dst);
    var x := Partial(t, src, dst, done);
    GraftAt(base, t, src, dst, Covered(t, src, done), dst);
    Mirror(dst, src, dst, "");
    forall i | 0 <= i < |dst| && dst[..i] in x
      ensures x[dst[..i]] == Dir
    {
      var a := dst[..i];
      GraftAt(base, t, src, dst, Covered(t, src, done), a);
      MkdirAllAt(t, dst, a);
    }
    assert dst[..|dst|] == dst;
  }

  /** Whatever lies inside dst or above it is outside a disjoint src. */
  lemma OutsideSrc(src: Path, dst: Path, a: Path)
    requires Disjoint(src, dst) && (Under(a, dst) || Under(dst, a))
    ensures !Under(a, src)
  {
    if Under(a, src) && Under(a, dst) {
      if |src| <= |dst| { Nested(a, src, dst); } else { Nested(a, dst, src); }
    }
  }

  /** While src is copyable into dst, each pending child directory is
      copyable into its place. */
  lemma CopyableDirStep(t: Tree, src: Path, dst: Path, done: set<string>, n: string, x: Tree)
    requires StepReady(t, src, dst, done, n) && Like(x, t, src, dst, done, n)
    requires Copyable(t, src, dst) && IsDirAt(t, src + [n])
    ensures Copyable(x, src + [n], dst + [n])
  {
    var s, d := src + [n], dst + [n];
    var p0 := Partial(t, src, dst, done);
    assert Same(x, t, s);
    PendingAt(t, src, dst, done, n, d);
    OutsideSrc(src, dst, d);
    assert Same(x, p0, d);
    assert Image(s, src, dst) == d;
    PartialDst(t, src, dst, done);
    forall i | 0 <= i <= |d| && d[..i] in x
      ensures x[d[..i]] == Dir
    {
      if i <= |dst| {
        assert d[..i] == dst[..i];
        OutsideSrc(src, dst, dst[..i]);
        assert Same(x, p0, dst[..i]);
      } else {
        assert d[..i] == d;
      }
    }
    forall q | q in x && Under(q, s) && Image(q, s, d) in x
      ensures x[Image(q, s, d)] == Dir <==> x[q] == Dir
    {
      var w := Image(q, s, d);
      assert Under(q, src);
      assert w == Image(q, src, dst);
      assert Same(x, t, q);
      PendingAt(t, src, dst, done, n, w);
      OutsideSrc(src, dst, w);
      assert Same(x, p0, w);
    }
  }

  /** While src is copyable into dst, each pending child file can be
      created at its place. */
  lemma CopyableFileStep(t: Tree, src: Path, dst: Path, done: set<string>, n: string, x: Tree)
    requires StepReady(t, src, dst, done, n) && Like(x, t, src, dst, done, n)
    requires Copyable(t, src, dst) && IsFileAt(t, src + [n])
    ensures CanCreate(x, dst + [n])
  {
    var s, d := src + [n], dst + [n];
    var p0 := Partial(t, src, dst, done);
    PendingAt(t, src, dst, done, n, d);
    OutsideSrc(src, dst, d);
    OutsideSrc(src, dst, dst);
    assert Same(x, p0, d) && Same(x, p0, dst);
    assert Image(s, src, dst) == d;
    PartialDst(t, src, dst, done);
    assert DirOf(d) == dst;
  }

  /** A partial copy changes nothing outside dst. */
  lemma PartialOnlyInside(t: Tree, src: Path, dst: Path, done: set<string>)
    requires MkdirAllOk(t, dst)
    ensures OnlyInside(t, Partial(t, src, dst, done), dst)
  {
    var base := MkdirAll(t, dst);
    var x := Partial(t, src, dst, done);
    forall q | (q in t && !Under(q, dst)) || (q in x && q !in t)
      ensures q in t && !Under(q, dst) ==> q in x && x[q] == t[q]
      ensures q in x && q !in t ==> Under(q, dst) || Under(dst, q)
    {
      GraftAt(base, t, src, dst, Covered(t, src, done), q);
      MkdirAllAt(t, dst, q);
    }
  }

  /** Changes confined to dst/n are confined to dst. */
  lemma OnlyInsideChild(t: Tree, x: Tree, y: Tree, dst: Path, n: string)
    requires OnlyInside(t, x, dst) && OnlyInside(x, y, dst + [n])
    ensures OnlyInside(t, y, dst)
  {
    forall q | q in y && q !in t
      ensures Under(q, dst) || Under(dst, q)
    {
      if q !in x {
        if Under(dst + [n], q) && |q| <= |dst| {
          assert q == dst[..|q|];
        }
      }
    }
  }

  /** The names listed in directory p (os.File.Readdir). */
  function ChildNames(t: Tree, p: Path): (r: set<string>)
    ensures forall n :: n in r <==> p + [n] in t
  {
    var r := set q | q in t && Under(q, p) && |q| == |p| + 1 :: q[|p|];
    assert forall n :: p + [n] in t ==> (p + [n])[|p|] == n;
    assert forall q :: q in t && Under(q, p) && |q| == |p| + 1 ==> q == p + [q[|p|]];
    r
  }

  lemma Overwrite(t: Tree, p: Path, a: Node, b: Node)
    ensures t[p := a][p := b] == t[p := b]
  {
  }

  /** Children of disjoint directories are disjoint. */
  lemma DisjointChildren(src: Path, dst: Path, n: string)
    requires Disjoint(src, dst)
    ensures Disjoint(src + [n], dst + [n])
  {
    if Under(src + [n], dst + [n]) {
      ChildUnder(src, dst, n);
    }
    if Under(dst + [n], src + [n]) {
      ChildUnder(dst, src, n);
    }
  }

  lemma ChildUnder(a: Path, b: Path, n: string)
    requires Under(a + [n], b + [n])
    ensures Under(a, b)
  {
    assert a[..|b|] == (a + [n])[..|b|];
  }

  /** A child directory's entries, while it is still pending, are fewer than
      its parent's. */
  lemma SubtreeShrinks(t: Tree, src: Path, dst: Path, done: set<string>, n: string, x: Tree)
    requires StepReady(t, src, dst, done, n) && Like(x, t, src, dst, done, n)
    ensures Subtree(x, src + [n]) < Subtree(t, src)
  {
    forall q | q in x && Under(q, src + [n])
      ensures q in t && Under(q, src)
    {
      assert Same(x, t, q);
    }
    assert src in Subtree(t, src);
  }

  // ---------------------------------------------------------------------
  // Recursive move, as a function of the tree.

  /** r without the files at the paths in S. */
  function Strip(r: Tree, S: set<Path>): Tree
  {
    map q | q in r && !(q in S && r[q].File?) :: r[q]
  }

  /** The tree after a successful `DirPath.Move(src, dst)`: the copy, with
      every file inside src gone; the directories inside src stay behind,
      empty. */
  function MoveTree(t: Tree, src: Path, dst: Path): Tree
    requires MkdirAllOk(t, dst)
  {
    Strip(CopyTree(t, src, dst), Subtree(t, src))
  }

  /** The move so far, when the children in done are finished. */
  function PartialMove(t: Tree, src: Path, dst: Path, done: set<string>): Tree
    requires MkdirAllOk(t, dst)
  {
    Strip(Partial(t, src, dst, done), Covered(t, src, done))
  }

  /** Outside dst and src nothing changed, nothing new appeared except
      inside dst or above it, and inside src entries only disappeared. */
  ghost predicate Confined(t: Tree, r: Tree, src: Path, dst: Path)
  {
    && (forall q :: q in t && !Under(q, dst) && !Under(q, src) ==> q in r && r[q] == t[q])
    && (forall q :: q in r && q !in t ==> Under(q, dst) || Under(dst, q))
    && (forall q :: q in r && Under(q, src) ==> q in t && r[q] == t[q])
  }

  /** The move built so far is like the copy built so far. */
  lemma MoveLike(t: Tree, src: Path, dst: Path, done: set<string>, n: string)
    requires StepReady(t, src, dst, done, n)
    ensures Like(PartialMove(t, src, dst, done), t, src, dst, done, n)
  {
    var p := Partial(t, src, dst, done);
    var c := Covered(t, src, done);
    var x := Strip(p, c);
    PartialLike(t, src, dst, done, n);
    forall q | !Under(q, src)
      ensures Same(x, p, q)
    {
      assert q !in c;
    }
    forall q | Under(q, src + [n])
      ensures Same(x, t, q)
    {
      CoveredStep(t, src, done, n, q);
      assert Same(p, t, q);
    }
  }

  /** Inside src, moving a child directory out removes the files inside
      it. */
  lemma MoveDirStepSource(t: Tree, src: Path, dst: Path, done: set<string>, n: string, q: Path)
    requires StepReady(t, src, dst, done, n) && Under(q, src)
    requires MkdirAllOk(PartialMove(t, src, dst, done), dst + [n])
    ensures Same(MoveTree(PartialMove(t, src, dst, done), src + [n], dst + [n]), PartialMove(t, src, dst, done + {n}), q)
  {
    var s, d := src + [n], dst + [n];
    var p0, p1 := Partial(t, src, dst, done), Partial(t, src, dst, done + {n});
    var c0, c1 := Covered(t, src, done), Covered(t, src, done + {n});
    var x := Strip(p0, c0);
    var c := CopyTree(x, s, d);
    AwayFromChild(src, dst, n, q);
    GraftAway(x, s, d, Subtree(x, s), q);
    assert Same(c, x, q);
    GraftKeepsSource(t, src, dst, c0, q);
    GraftKeepsSource(t, src, dst, c1, q);
    assert Same(p0, t, q) && Same(p1, t, q);
    CoveredStep(t, src, done, n, q);
  }

  /** Finishing child n covers exactly that child's entries besides. */
  lemma CoveredStep(t: Tree, src: Path, done: set<string>, n: string, q: Path)
    requires n !in done && Under(q, src)
    ensures Under(q, src + [n]) ==> q !in Covered(t, src, done) && (q in Covered(t, src, done + {n}) <==> q in t)
    ensures !Under(q, src + [n]) ==> (q in Covered(t, src, done + {n}) <==> q in Covered(t, src, done))
  {
    if Under(q, src + [n]) {
      assert q[|src|] == n;
    }
  }

  /** Moving the child directory src/n into dst/n extends the move built
      so far by that child. */
  lemma MoveDirStep(t: Tree, src: Path, dst: Path, done: set<string>, n: string)
    requires StepReady(t, src, dst, done, n) && IsDirAt(t, src + [n])
    requires MkdirAllOk(PartialMove(t, src, dst, done), dst + [n])
    ensures MoveTree(PartialMove(t, src, dst, done), src + [n], dst + [n]) == PartialMove(t, src, dst, done + {n})
  {
    var x := PartialMove(t, src, dst, done);
    var y := MoveTree(x, src + [n], dst + [n]);
    var z := PartialMove(t, src, dst, done + {n});
    forall q
      ensures (q in y <==> q in z) && (q in y ==> y[q] == z[q])
    {
      if Under(q, src) {
        MoveDirStepSource(t, src, dst, done, n, q);
      } else {
        MoveLike(t, src, dst, done, n);
        DirStepOutside(t, src, dst, done, n, x, q);
      }
    }
  }

  /** Moving the child file src/n to dst/n extends the move built so far
      by that one file. */
  lemma MoveFileStep(t: Tree, src: Path, dst: Path, done: set<string>, n: string)
    requires StepReady(t, src, dst, done, n) && IsFileAt(t, src + [n])
    ensures var x := PartialMove(t, src, dst, done);
      (x - {src + [n]})[dst + [n] := t[src + [n]]] == PartialMove(t, src, dst, done + {n})
  {
    var s, d := src + [n], dst + [n];
    var p0 := Partial(t, src, dst, done);
    var x := PartialMove(t, src, dst, done);
    var y := (x - {s})[d := t[s]];
    var z := PartialMove(t, src, dst, done + {n});
    FileStep(t, src, dst, done, n);
    DisjointChildren(src, dst, n);
    forall q
      ensures (q in y <==> q in z) && (q in y ==> y[q] == z[q])
    {
      if Under(q, src) {
        GraftKeepsSource(t, src, dst, Covered(t, src, done), q);
        AwayFromChild(src, dst, n, q);
        if Under(q, s) && q in t {
          FileIsLeaf(t, s, q);
        }
      }
    }
  }

  /** Before any child is moved, the move is just dst made. */
  lemma MoveStart(t: Tree, src: Path, dst: Path)
    requires Wf(t) && IsDirAt(t, src) && MkdirAllOk(t, dst) && Disjoint(src, dst)
    ensures PartialMove(t, src, dst, {}) == MkdirAll(t, dst)
  {
    PartialStart(t, src, dst);
    GraftKeepsSource(t, src, dst, Covered(t, src, {}), src);
  }

  /** Once every child is moved, the move is complete. */
  lemma MoveEnd(t: Tree, src: Path, dst: Path, names: set<string>)
    requires Wf(t) && MkdirAllOk(t, dst)
    requires forall n :: src + [n] in t ==> n in names
    ensures PartialMove(t, src, dst, names) == MoveTree(t, src, dst)
  {
    PartialEnd(t, src, dst, names);
  }

  /** A partial move stays confined to src and dst. */
  lemma MoveConfined(t: Tree, src: Path, dst: Path, done: set<string>)
    requires MkdirAllOk(t, dst) && Disjoint(src, dst)
    ensures Confined(t, PartialMove(t, src, dst, done), src, dst)
  {
    PartialOnlyInside(t, src, dst, done);
    forall q | q in PartialMove(t, src, dst, done) && Under(q, src)
      ensures q in t && PartialMove(t, src, dst, done)[q] == t[q]
    {
      GraftKeepsSource(t, src, dst, Covered(t, src, done), q);
    }
  }

  /** Changes confined to src/n and dst/n are confined to src and dst. */
  lemma ConfinedChild(t: Tree, x: Tree, y: Tree, src: Path, dst: Path, n: string)
    requires Disjoint(src, dst)
    requires Confined(t, x, src, dst) && Confined(x, y, src + [n], dst + [n])
    ensures Confined(t, y, src, dst)
  {
    forall q | q in y && q !in t
      ensures Under(q, dst) || Under(dst, q)
    {
      if q !in x {
        if Under(dst + [n], q) && |q| <= |dst| {
          assert q == dst[..|q|];
        }
      }
    }
    forall q | q in y && Under(q, src)
      ensures q in t && y[q] == t[q]
    {
      if !Under(q, src + [n]) {
        AwayFromChild(src, dst, n, q);
      }
    }
  }

  // ---------------------------------------------------------------------
  // Rename.

  /** Everything above an entry exists. */
  lemma AncestorIn(t: Tree, q: Path, a: Path)
    requires Wf(t) && q in t && Under(q, a)
    ensures a in t && (a != q ==> t[a] == Dir)
    decreases |q|
  {
    if a != q {
      var d := DirOf(q);
      assert IsDirAt(t, d);
      assert Under(d, a);
      AncestorIn(t, d, a);
    }
  }

  /** os.Rename, which the repository calls through Path.Rename without
      defining it: src exists and is not the root, dst's directory exists,
      dst is not inside src, and dst is either absent or, like src, a
      file. */
  predicate CanRename(t: Tree, src: Path, dst: Path)
  {
    && src in t && src != [] && dst != []
    && IsDirAt(t, DirOf(dst)) && !Under(dst, src)
    && (dst !in t || (IsFileAt(t, src) && IsFileAt(t, dst)))
  }

  /** The tree after a successful rename: src and everything inside it now
      sit at the matching places under dst. */
  function RenameTree(t: Tree, src: Path, dst: Path): Tree
  {
    Graft(RemoveAll(t, src), t, src, dst, Subtree(t, src))
  }

  lemma RenameWf(t: Tree, src: Path, dst: Path)
    requires Wf(t) && CanRename(t, src, dst)
    ensures Wf(RenameTree(t, src, dst))
  {
    var base := RemoveAll(t, src);
    var S := Subtree(t, src);
    var r := RenameTree(t, src, dst);
    GraftAt(base, t, src, dst, S, []);
    forall q | q in r && q != []
      ensures IsDirAt(r, DirOf(q))
    {
      RenameParent(t, src, dst, q);
    }
  }

  lemma RenameParent(t: Tree, src: Path, dst: Path, q: Path)
    requires Wf(t) && CanRename(t, src, dst)
    requires q in RenameTree(t, src, dst) && q != []
    ensures IsDirAt(RenameTree(t, src, dst), DirOf(q))
  {
    var base := RemoveAll(t, src);
    var S := Subtree(t, src);
    var d := DirOf(q);
    GraftAt(base, t, src, dst, S, q);
    GraftAt(base, t, src, dst, S, d);
    if Under(q, dst) && src + q[|dst|..] in S {
      var p := src + q[|dst|..];
      if q == dst {
        assert !Under(d, dst);
      } else {
        assert p != src;
        assert Under(d, dst);
        assert src + d[|dst|..] == DirOf(p);
        assert IsDirAt(t, DirOf(p));
      }
    } else {
      assert IsDirAt(t, d);
      if Under(d, dst) {
        AncestorIn(t, q, dst);
        if dst != q {
          assert false;
        }
      }
    }
  }

  /** Renaming to a fresh name and back gives the original tree. */
  lemma RenameBack(t: Tree, o: Path, b: Path)
    requires Wf(t) && CanRename(t, o, b) && b !in t
    ensures CanRename(RenameTree(t, o, b), b, o)
    ensures RenameTree(RenameTree(t, o, b), b, o) == t
  {
    var r := RenameTree(t, o, b);
    var y := RenameTree(r, b, o);
    RenameBackParent(t, o, b);
    forall q
      ensures (q in y <==> q in t) && (q in y ==> y[q] == t[q])
    {
      RenameBackAt(t, o, b, q);
    }
  }

  lemma RenameBackParent(t: Tree, o: Path, b: Path)
    requires Wf(t) && CanRename(t, o, b) && b !in t
    ensures CanRename(RenameTree(t, o, b), b, o)
  {
    var r := RenameTree(t, o, b);
    GraftAt(RemoveAll(t, o), t, o, b, Subtree(t, o), b);
    GraftAt(RemoveAll(t, o), t, o, b, Subtree(t, o), o);
    GraftAt(RemoveAll(t, o), t, o, b, Subtree(t, o), DirOf(o));
    assert o[..|o|] == o && b[|b|..] == [] && o + [] == o;
    AncestorIn(t, o, DirOf(o));
    if Under(DirOf(o), b) {
      AncestorIn(t, DirOf(o), b);
    }
    if Under(o, b) {
      AncestorIn(t, o, b);
    }
  }

  lemma RenameBackAt(t: Tree, o: Path, b: Path, q: Path)
    requires Wf(t) && CanRename(t, o, b) && b !in t
    ensures var y := RenameTree(RenameTree(t, o, b), b, o);
      (q in y <==> q in t) && (q in y ==> y[q] == t[q])
  {
    var r := RenameTree(t, o, b);
    GraftAt(RemoveAll(r, b), r, b, o, Subtree(r, b), q);
    GraftAt(RemoveAll(t, o), t, o, b, Subtree(t, o), q);
    if Under(q, o) {
      var p := b + q[|o|..];
      assert o + p[|b|..] == q;
      GraftAt(RemoveAll(t, o), t, o, b, Subtree(t, o), p);
      if p in t {
        AncestorIn(t, p, b);
      }
      if Under(q, b) {
        if |o| <= |b| { Nested(q, o, b); } else { Nested(q, b, o); AncestorIn(t, o, b); }
      }
    } else if Under(q, b) && q in t {
      AncestorIn(t, q, b);
    }
  }
}

/** Path strings (filepathx/path.go). Every Path the program builds comes
    from filepath.Abs, so it is a clean absolute path: "/" or "/" followed
    by plain names separated by single slashes. Such a path and the list of
    its names, which the file tree uses, determine each other; Join, Parent
    and Tail are proved to act on that list. */
module Paths {
  import opened Text
  import FsTree

  /** A name that can stand between two slashes of a clean path. */
  predicate PlainName(s: string)
  {
    s != "" && s != "." && s != ".." && '/' !in s
  }

  predicate PlainNames(segs: seq<string>)
  {
    forall i :: 0 <= i < |segs| ==> PlainName(segs[i])
  }

  /** The clean absolute path of a list of names. */
  function Render(segs: seq<string>): string
  {
    if segs == [] then "/" else JoinWith([""] + segs, '/')
  }

  predicate IsCleanAbs(p: string)
  {
    p == "/" || (var xs := Split(p, '/'); |xs| >= 2 && xs[0] == "" && PlainNames(xs[1..]))
  }

  /** The names a clean absolute path lists. */
  function Segments(p: string): seq<string>
    requires IsCleanAbs(p)
  {
    if p == "/" then [] else Split(p, '/')[1..]
  }

  lemma SplitRoot()
    ensures Split("/", '/') == ["", ""]
  {
    assert IndexOf("/", '/') == 0;
    assert IndexOf("", '/') == 0;
  }

  /** A list of plain names renders to a clean path that lists them. */
  lemma RenderSegments(segs: seq<string>)
    requires PlainNames(segs)
    ensures IsCleanAbs(Render(segs)) && Segments(Render(segs)) == segs
  {
    if segs != [] {
      var parts := [""] + segs;
      SplitJoin(parts, '/');
      assert parts[1..] == segs;
      assert PlainName(segs[0]);
      assert |JoinWith(segs, '/')| >= |segs[0]| > 0;
      assert Render(segs) == "/" + JoinWith(segs, '/');
    }
  }

  /** A clean path renders back from its names. */
  lemma SegmentsRender(p: string)
    requires IsCleanAbs(p)
    ensures PlainNames(Segments(p)) && Render(Segments(p)) == p
  {
    if p != "/" {
      var xs := Split(p, '/');
      JoinSplit(p, '/');
      assert [""] + xs[1..] == xs;
    }
  }

  /** A relative path of plain names: filepath.IsLocal accepts it and
      filepath.Join leaves it as it is. */
  predicate IsPlainRel(rel: string)
  {
    PlainNames(Split(rel, '/'))
  }

  /** Path.Join: a local path is appended; an empty or absolute one is not
      local and leaves the path as it is. */
  function Join(p: string, rel: string): string
    requires IsCleanAbs(p)
    requires rel == "" || rel[0] == '/' || IsPlainRel(rel)
  {
    if rel == "" || rel[0] == '/' then p
    else if p == "/" then "/" + rel
    else p + "/" + rel
  }

  /** A plain relative path is local: it is neither empty nor absolute. */
  lemma RelIsLocal(rel: string)
    requires IsPlainRel(rel)
    ensures rel != "" && rel[0] != '/'
  {
    var names := Split(rel, '/');
    JoinSplit(rel, '/');
    assert names[0] != "";
    if |names| == 1 {
      assert rel == names[0];
    } else {
      assert rel[..|names[0]|] == names[0];
    }
  }

  /** Rendering more names after the root gives a slash and their join. */
  lemma RenderFromRoot(names: seq<string>)
    requires names != []
    ensures Render(names) == "/" + JoinWith(names, '/')
  {
    JoinAppend([""], names, '/');
  }

  /** Rendering more names extends a rendered path by a slash and their
      join. */
  lemma RenderAppend(segs: seq<string>, names: seq<string>)
    requires segs != [] && names != []
    ensures Render(segs + names) == Render(segs) + "/" + JoinWith(names, '/')
  {
    var head := [""] + segs;
    assert [""] + (segs + names) == head + names;
    JoinAppend(head, names, '/');
  }

  /** Joining a local path appends its names to the path's names. */
  lemma {:induction false} JoinSegments(p: string, rel: string)
    requires IsCleanAbs(p) && IsPlainRel(rel)
    ensures rel != "" && rel[0] != '/'
    ensures IsCleanAbs(Join(p, rel)) && Segments(Join(p, rel)) == Segments(p) + Split(rel, '/')
  {
    RelIsLocal(rel);
    var names := Split(rel, '/');
    JoinSplit(rel, '/');
    SegmentsRender(p);
    var segs := Segments(p);
    var whole := segs + names;
    assert PlainNames(whole);
    RenderSegments(whole);
    if segs == [] {
      assert whole == names;
      RenderFromRoot(names);
    } else {
      RenderAppend(segs, names);
    }
    assert Join(p, rel) == Render(whole);
  }

  /** Path.Tail: the last part of strings.Split(p, "/"). */
  function Tail(p: string): string
  {
    var xs := Split(p, '/');
    xs[|xs| - 1]
  }

  /** Tail is what follows the last "/", the whole string when there is no
      "/", and "" after a trailing "/". */
  lemma {:induction false} TailIsLastPart(p: string)
    ensures '/' !in Tail(p)
    ensures |Tail(p)| <= |p| && p[|p| - |Tail(p)|..] == Tail(p)
    ensures |Tail(p)| < |p| ==> p[|p| - |Tail(p)| - 1] == '/'
    ensures '/' !in p ==> Tail(p) == p
    decreases |p|
  {
    var i := IndexOf(p, '/');
    if i < |p| {
      TailIsLastPart(p[i + 1..]);
      assert Tail(p) == Tail(p[i + 1..]);
    }
  }

  /** The tail of a clean path is its last name, "" for the root. */
  lemma TailSegments(p: string)
    requires IsCleanAbs(p)
    ensures Tail(p) == if Segments(p) == [] then "" else Segments(p)[|Segments(p)| - 1]
  {
    if p == "/" {
      SplitRoot();
    }
  }

  /** Path.Parent (filepath.Dir) of a clean absolute path. */
  function Parent(p: string): string
    requires IsCleanAbs(p)
  {
    var xs := Split(p, '/');
    if |xs| <= 2 then "/" else JoinWith(xs[..|xs| - 1], '/')
  }

  /** Parent drops the last name, and keeps the root. */
  lemma {:induction false} ParentSegments(p: string)
    requires IsCleanAbs(p)
    ensures IsCleanAbs(Parent(p)) && Segments(Parent(p)) == FsTree.DirOf(Segments(p))
  {
    var xs := Split(p, '/');
    if p == "/" {
      SplitRoot();
    } else if |xs| > 2 {
      var segs := Segments(p);
      var up := segs[..|segs| - 1];
      assert xs[..|xs| - 1] == [""] + up;
      RenderSegments(up);
    }
  }

  /** filepath.Ext: from the last "." of the last element on, or "". */
  function ExtFrom(p: string, i: nat): string
    requires i <= |p|
    decreases i
  {
    if i == 0 || p[i - 1] == '/' then ""
    else if p[i - 1] == '.' then p[i - 1..]
    else ExtFrom(p, i - 1)
  }

  /** strings.TrimLeft(s, "."). */
  function TrimLeftDots(s: string): string
  {
    if s != [] && s[0] == '.' then TrimLeftDots(s[1..]) else s
  }

  /** Path.Ext: the extension without its dot, and whether there is one. */
  function Ext(p: string): (string, bool)
  {
    var e := ExtFrom(p, |p|);
    if e == "" then ("", false) else (TrimLeftDots(e), true)
  }

  lemma {:induction false} ExtFromSpec(p: string, i: nat)
    requires i <= |p|
    ensures var e := ExtFrom(p, i);
      && (e != "" ==> exists k :: 0 <= k < i && p[k] == '.' && e == p[k..] && (forall j :: k < j < i ==> p[j] != '.' && p[j] != '/'))
      && (e == "" ==> forall k :: 0 <= k < i && p[k] == '.' ==> exists j :: k < j < i && p[j] == '/')
    decreases i
  {
    if i > 0 && p[i - 1] != '/' && p[i - 1] != '.' {
      ExtFromSpec(p, i - 1);
    }
  }

  lemma NoDotTrim(x: string)
    requires '.' !in x
    ensures TrimLeftDots(x) == x
  {
    if x != [] {
      assert x[0] in x;
    }
  }

  /** The suffix after position k, when p[k] is the last dot and no slash
      follows it, is free of dots and slashes. */
  lemma TailAfterDot(p: string, k: nat)
    requires k < |p| && forall j :: k < j < |p| ==> p[j] != '.' && p[j] != '/'
    ensures '.' !in p[k + 1..] && '/' !in p[k + 1..]
  {
    var x := p[k + 1..];
    forall m | 0 <= m < |x|
      ensures x[m] != '.' && x[m] != '/'
    {
      assert x[m] == p[k + 1 + m];
    }
  }

  /** When p[k] is the last dot and no slash follows it, Ext is the rest. */
  lemma ExtAt(p: string, k: nat)
    requires k < |p| && p[k] == '.' && ExtFrom(p, |p|) == p[k..]
    requires forall j :: k < j < |p| ==> p[j] != '.' && p[j] != '/'
    ensures Ext(p) == (p[k + 1..], true)
  {
    var x := p[k + 1..];
    TailAfterDot(p, k);
    assert p[k..][1..] == x;
    NoDotTrim(x);
  }

  lemma ExtSome(p: string)
    requires ExtFrom(p, |p|) != ""
    ensures var x := Ext(p).0;
      && Ext(p).1 && |x| < |p| && p[|p| - |x| - 1] == '.' && p[|p| - |x|..] == x && '.' !in x && '/' !in x
  {
    ExtFromSpec(p, |p|);
    var k :| 0 <= k < |p| && p[k] == '.' && ExtFrom(p, |p|) == p[k..] && (forall j :: k < j < |p| ==> p[j] != '.' && p[j] != '/');
    ExtAt(p, k);
    TailAfterDot(p, k);
  }

  lemma ExtNone(p: string)
    requires ExtFrom(p, |p|) == ""
    ensures Ext(p) == ("", false)
    ensures forall k :: 0 <= k < |p| && p[k] == '.' ==> exists j :: k < j < |p| && p[j] == '/'
  {
    ExtFromSpec(p, |p|);
  }

  /** Ext reports an extension exactly when the last element has a dot,
      and then it is what follows the last dot. */
  lemma ExtSpec(p: string)
    ensures var (x, ok) := Ext(p);
      && (ok ==> |x| < |p| && p[|p| - |x| - 1] == '.' && p[|p| - |x|..] == x && '.' !in x && '/' !in x)
      && (!ok ==> x == "" && forall k :: 0 <= k < |p| && p[k] == '.' ==> exists j :: k < j < |p| && p[j] == '/')
  {
    if ExtFrom(p, |p|) != "" {
      ExtSome(p);
    } else {
      ExtNone(p);
    }
  }

  /** filepath.Abs with the working directory cwd: an absolute path stays,
      the empty path and "." name cwd, and a relative path joins cwd. */
  function NewPath(path: string, cwd: string): (r: string)
    requires IsCleanAbs(cwd)
    requires path == "" || path == "." || IsCleanAbs(path) || IsPlainRel(path)
    ensures IsCleanAbs(r)
  {
    if path == "" then cwd
    else if path[0] == '/' then path
    else if IsPlainRel(path) then JoinSegments(cwd, path); Join(cwd, path)
    else cwd
  }

  /** A relative path names the working directory joined with it. */
  lemma NewPathRelative(rel: string, cwd: string)
    requires IsCleanAbs(cwd) && IsPlainRel(rel)
    ensures NewPath(rel, cwd) == Join(cwd, rel)
    ensures Segments(NewPath(rel, cwd)) == Segments(cwd) + Split(rel, '/')
  {
    JoinSegments(cwd, rel);
  }

  /** Path.DirPath and Path.FilePath: the same string, seen as a directory
      or a file. */
  datatype DirPath = DirPath(path: string)
  datatype FilePath = FilePath(path: string)
}

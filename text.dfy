/** The few string operations of Go's strings package the engine relies
    on, for a one-character separator. */
module Text {

  /** The position of the first c in x, or |x| when there is none. */
  function IndexOf(x: string, c: char): (i: nat)
    ensures i <= |x|
    ensures i < |x| ==> x[i] == c
    ensures forall j :: 0 <= j < i ==> x[j] != c
  {
    if x == [] then 0
    else if x[0] == c then 0
    else 1 + IndexOf(x[1..], c)
  }

  /** strings.Split(s, [c]): the parts between the separators, at least
      one (empty parts included). */
  function Split(s: string, c: char): (r: seq<string>)
    ensures |r| >= 1
    ensures forall i :: 0 <= i < |r| ==> c !in r[i]
    decreases |s|
  {
    var i := IndexOf(s, c);
    if i == |s| then [s] else [s[..i]] + Split(s[i + 1..], c)
  }

  /** strings.Join(parts, [c]). */
  function JoinWith(parts: seq<string>, c: char): string
    requires |parts| >= 1
    decreases |parts|
  {
    if |parts| == 1 then parts[0] else parts[0] + [c] + JoinWith(parts[1..], c)
  }

  /** Joining the parts of a split gives the string back. */
  lemma {:induction false} JoinSplit(s: string, c: char)
    ensures JoinWith(Split(s, c), c) == s
    decreases |s|
  {
    var i := IndexOf(s, c);
    if i < |s| {
      JoinSplit(s[i + 1..], c);
      assert s == s[..i] + [c] + s[i + 1..];
    }
  }

  /** Splitting a join of parts free of the separator gives the parts
      back. */
  lemma {:induction false} SplitJoin(parts: seq<string>, c: char)
    requires |parts| >= 1
    requires forall i :: 0 <= i < |parts| ==> c !in parts[i]
    ensures Split(JoinWith(parts, c), c) == parts
    decreases |parts|
  {
    var s := JoinWith(parts, c);
    var p := parts[0];
    assert s[..|p|] == p;
    if |parts| == 1 {
      assert IndexOf(s, c) == |s|;
    } else {
      var rest := JoinWith(parts[1..], c);
      assert s == p + [c] + rest;
      assert s[|p|] == c;
      assert forall j :: 0 <= j < |p| ==> s[j] == p[j];
      assert IndexOf(s, c) == |p|;
      assert s[|p| + 1..] == rest;
      SplitJoin(parts[1..], c);
    }
  }

  /** Joining two lists joins their joins with one more separator. */
  lemma {:induction false} JoinAppend(xs: seq<string>, ys: seq<string>, c: char)
    requires |xs| >= 1 && |ys| >= 1
    ensures JoinWith(xs + ys, c) == JoinWith(xs, c) + [c] + JoinWith(ys, c)
    decreases |xs|
  {
    if |xs| > 1 {
      assert (xs + ys)[1..] == xs[1..] + ys;
      JoinAppend(xs[1..], ys, c);
    }
  }
}

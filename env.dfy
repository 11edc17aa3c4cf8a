/** execx.Env: a process environment as a string map that is updated in
    place, its conversions from and to the "key=value" list form, and the
    bounded repeated expansion of variable references. os.Expand itself is
    a parameter: a substitution of references by the map's values. */
module Env {
  import opened Errors
  import opened Text

  /** How many extra rounds Expand runs at most (expandMaxAttempts). */
  const ExpandMaxAttempts: nat := 10

  /** strings.SplitN(x, "=", 2) when it yields two parts: the text before
      the first "=" and the rest. */
  function SplitAssign(x: string): (r: Option<(string, string)>)
    ensures r.None? <==> '=' !in x
    ensures r.Some? ==> r.value.0 + "=" + r.value.1 == x && '=' !in r.value.0
  {
    var i := IndexOf(x, '=');
    if i == |x| then None
    else
      assert x[..i] + "=" + x[i + 1..] == x;
      Some((x[..i], x[i + 1..]))
  }

  /** "key=value", as IntoSlice formats an entry. */
  function Assign(k: string, v: string): string
  {
    k + "=" + v
  }

  /** SplitAssign undoes Assign for every key without "=". */
  lemma SplitAssignInverse(k: string, v: string)
    requires '=' !in k
    ensures SplitAssign(Assign(k, v)) == Some((k, v))
  {
    var x := Assign(k, v);
    assert x[|k|] == '=';
    assert forall j :: 0 <= j < |k| ==> x[j] == k[j];
    var r := SplitAssign(x);
    assert IndexOf(x, '=') == |k|;
    assert x[..|k|] == k && x[|k| + 1..] == v;
  }

  /** The map EnvFromSlice builds: entries in order, each one with an "="
      setting its key, so a later entry overrides an earlier one. */
  function FromSlice(s: seq<string>): map<string, string>
  {
    if s == [] then map[]
    else
      var m := FromSlice(s[..|s| - 1]);
      var p := SplitAssign(s[|s| - 1]);
      if p.Some? then m[p.value.0 := p.value.1] else m
  }

  /** The key an entry sets, if any. */
  predicate SetsKey(x: string, k: string)
  {
    SplitAssign(x).Some? && SplitAssign(x).value.0 == k
  }

  /** An entry that sets k and is not followed by another one that sets k
      gives k its value. */
  lemma {:induction false} LastWins(s: seq<string>, i: nat)
    requires i < |s| && SplitAssign(s[i]).Some?
    requires forall j :: i < j < |s| ==> !SetsKey(s[j], SplitAssign(s[i]).value.0)
    ensures var (k, v) := SplitAssign(s[i]).value; k in FromSlice(s) && FromSlice(s)[k] == v
    decreases |s|
  {
    if i < |s| - 1 {
      var init := s[..|s| - 1];
      assert init[i] == s[i];
      assert forall j :: i < j < |init| ==> init[j] == s[j];
      LastWins(init, i);
    }
  }

  /** Every key of the map comes from an entry that sets it. */
  lemma {:induction false} KeyFromEntry(s: seq<string>, k: string)
    requires k in FromSlice(s)
    ensures exists i :: 0 <= i < |s| && SetsKey(s[i], k)
    decreases |s|
  {
    var init := s[..|s| - 1];
    if !SetsKey(s[|s| - 1], k) {
      KeyFromEntry(init, k);
      var i :| 0 <= i < |init| && SetsKey(init[i], k);
      assert s[i] == init[i];
    }
  }

  /** The entries IntoSlice produces for keys listed in order. */
  function Render(keys: seq<string>, m: map<string, string>): (r: seq<string>)
    requires forall k :: k in keys ==> k in m
    ensures |r| == |keys|
    ensures forall i :: 0 <= i < |keys| ==> r[i] == Assign(keys[i], m[keys[i]])
  {
    seq(|keys|, i requires 0 <= i < |keys| => Assign(keys[i], m[keys[i]]))
  }

  /** A list of distinct keys. */
  predicate Distinct(keys: seq<string>)
  {
    forall i, j :: 0 <= i < j < |keys| ==> keys[i] != keys[j]
  }

  /** EnvFromSlice undoes IntoSlice, in whatever order IntoSlice lists the
      keys, provided no key holds "=" (as no environment variable name
      does). */
  lemma {:induction false} FromSliceRender(keys: seq<string>, m: map<string, string>)
    requires Distinct(keys) && (forall k :: k in keys <==> k in m)
    requires forall k :: k in m ==> '=' !in k
    ensures FromSlice(Render(keys, m)) == m
    decreases |keys|
  {
    if keys == [] {
      assert m == map[];
    } else {
      var last := keys[|keys| - 1];
      var m0 := map k | k in m && k != last :: m[k];
      RenderInit(keys, m, m0);
      FromSliceRender(keys[..|keys| - 1], m0);
      RenderStep(keys, m, m0);
    }
  }

  /** The inductive step of FromSliceRender: the last key's entry puts back
      the one key the shorter list left out. */
  lemma RenderStep(keys: seq<string>, m: map<string, string>, m0: map<string, string>)
    requires keys != [] && (forall k :: k in keys <==> k in m)
    requires forall k :: k in m ==> '=' !in k
    requires m0 == map k | k in m && k != keys[|keys| - 1] :: m[k]
    requires forall k :: k in keys[..|keys| - 1] <==> k in m0
    requires Render(keys[..|keys| - 1], m0) == Render(keys, m)[..|keys| - 1]
    requires FromSlice(Render(keys[..|keys| - 1], m0)) == m0
    ensures FromSlice(Render(keys, m)) == m
  {
    var last := keys[|keys| - 1];
    var r := Render(keys, m);
    assert r[|r| - 1] == Assign(last, m[last]);
    SplitAssignInverse(last, m[last]);
    FromSliceSnoc(r, last, m[last]);
    MapRestore(m, last);
  }

  /** One more entry that sets k to v overrides k in the map built so far. */
  lemma FromSliceSnoc(s: seq<string>, k: string, v: string)
    requires s != [] && SplitAssign(s[|s| - 1]) == Some((k, v))
    ensures FromSlice(s) == FromSlice(s[..|s| - 1])[k := v]
  {
  }

  /** Putting back a key that was dropped gives the map back. */
  lemma MapRestore(m: map<string, string>, k: string)
    requires k in m
    ensures (map x | x in m && x != k :: m[x])[k := m[k]] == m
  {
    var r := (map x | x in m && x != k :: m[x])[k := m[k]];
    assert forall x :: x in r <==> x in m;
  }

  /** Dropping the last key of the list and of the map drops the last
      entry. */
  lemma RenderInit(keys: seq<string>, m: map<string, string>, m0: map<string, string>)
    requires keys != [] && Distinct(keys) && (forall k :: k in keys <==> k in m)
    requires m0 == map k | k in m && k != keys[|keys| - 1] :: m[k]
    ensures Distinct(keys[..|keys| - 1])
    ensures forall k :: k in keys[..|keys| - 1] <==> k in m0
    ensures Render(keys[..|keys| - 1], m0) == Render(keys, m)[..|keys| - 1]
  {
    var init := keys[..|keys| - 1];
    forall k | k in init ensures k in m0 {
      var i :| 0 <= i < |init| && init[i] == k;
      assert keys[i] != keys[|keys| - 1];
    }
  }

  /** `os.Expand` applied n times. */
  function Iterate(osExpand: (string, map<string, string>) -> string, m: map<string, string>, s: string, n: nat): string
    decreases n
  {
    if n == 0 then s else Iterate(osExpand, m, osExpand(s, m), n - 1)
  }

  /** The loop of Env.Expand from a state where target has been expanded
      once into result, count rounds ago. */
  function ExpandLoop(osExpand: (string, map<string, string>) -> string, m: map<string, string>,
                      target: string, result: string, count: nat): string
    decreases ExpandMaxAttempts - count
  {
    if result != target && count < ExpandMaxAttempts then
      ExpandLoop(osExpand, m, result, osExpand(result, m), count + 1)
    else result
  }

  /** The value of Env.Expand(target). */
  function Expanded(osExpand: (string, map<string, string>) -> string, m: map<string, string>, target: string): string
  {
    ExpandLoop(osExpand, m, target, osExpand(target, m), 0)
  }

  lemma IterateStep(osExpand: (string, map<string, string>) -> string, m: map<string, string>, s: string, n: nat)
    ensures Iterate(osExpand, m, s, n + 1) == osExpand(Iterate(osExpand, m, s, n), m)
    decreases n
  {
    if n > 0 {
      IterateStep(osExpand, m, osExpand(s, m), n - 1);
    }
  }

  lemma {:induction false} ExpandLoopBounded(osExpand: (string, map<string, string>) -> string, m: map<string, string>,
                                             s: string, count: nat)
    requires count <= ExpandMaxAttempts
    ensures var r := ExpandLoop(osExpand, m, Iterate(osExpand, m, s, count), Iterate(osExpand, m, s, count + 1), count);
      exists n :: count + 1 <= n <= ExpandMaxAttempts + 1 && r == Iterate(osExpand, m, s, n)
        && (n <= ExpandMaxAttempts ==> osExpand(r, m) == r)
    decreases ExpandMaxAttempts - count
  {
    var t := Iterate(osExpand, m, s, count);
    var u := Iterate(osExpand, m, s, count + 1);
    IterateStep(osExpand, m, s, count);
    if u != t && count < ExpandMaxAttempts {
      IterateStep(osExpand, m, s, count + 1);
      ExpandLoopBounded(osExpand, m, s, count + 1);
    } else if u == t {
      assert osExpand(u, m) == u;
    }
  }

  /** Expand applies the substitution between once and eleven times; when
      it stops before the cap, the result is a fixed point of the
      substitution, so no reference it can resolve is left. */
  lemma ExpandBounded(osExpand: (string, map<string, string>) -> string, m: map<string, string>, target: string)
    ensures exists n ::
      && 1 <= n <= ExpandMaxAttempts + 1
      && Expanded(osExpand, m, target) == Iterate(osExpand, m, target, n)
      && (n <= ExpandMaxAttempts ==> osExpand(Expanded(osExpand, m, target), m) == Expanded(osExpand, m, target))
  {
    ExpandLoopBounded(osExpand, m, target, 0);
  }

  /** Once the substitution reaches a fixed point within the cap (a chain
      of references fully resolved), Expand returns exactly that. */
  lemma {:induction false} ExpandResolvesChain(osExpand: (string, map<string, string>) -> string, m: map<string, string>,
                                               target: string, k: nat)
    requires k <= ExpandMaxAttempts
    requires osExpand(Iterate(osExpand, m, target, k), m) == Iterate(osExpand, m, target, k)
    ensures Expanded(osExpand, m, target) == Iterate(osExpand, m, target, k)
  {
    ExpandBounded(osExpand, m, target);
    var n :|
      && 1 <= n <= ExpandMaxAttempts + 1
      && Expanded(osExpand, m, target) == Iterate(osExpand, m, target, n)
      && (n <= ExpandMaxAttempts ==> osExpand(Expanded(osExpand, m, target), m) == Expanded(osExpand, m, target));
    if k <= n {
      IterateFixed(osExpand, m, target, k, n);
    } else {
      IterateFixed(osExpand, m, target, n, k);
    }
  }

  /** From a fixed point on, further rounds change nothing. */
  lemma {:induction false} IterateFixed(osExpand: (string, map<string, string>) -> string, m: map<string, string>,
                                        s: string, k: nat, n: nat)
    requires osExpand(Iterate(osExpand, m, s, k), m) == Iterate(osExpand, m, s, k)
    requires k <= n
    ensures Iterate(osExpand, m, s, n) == Iterate(osExpand, m, s, k)
    decreases n - k
  {
    if k < n {
      IterateFixed(osExpand, m, s, k, n - 1);
      IterateStep(osExpand, m, s, n - 1);
    }
  }

  class Env {
    var vars: map<string, string>

    /** execx.NewEnv. */
    constructor ()
      ensures vars == map[]
    {
      vars := map[];
    }

    /** execx.EnvFromMap: a nil map gives an empty environment. The map is
        copied here, where Go shares it. */
    static method FromMap(m: Option<map<string, string>>) returns (e: Env)
      ensures fresh(e)
      ensures e.vars == if m.None? then map[] else m.value
    {
      e := new Env();
      if m.Some? {
        e.vars := m.value;
      }
    }

    /** execx.EnvFromSlice: each entry with an "=" sets the text before
        its first "=" to the rest; entries without one are skipped. */
    static method FromSliceOf(s: seq<string>) returns (e: Env)
      ensures fresh(e)
      ensures e.vars == FromSlice(s)
    {
      e := new Env();
      var i := 0;
      while i < |s|
        invariant 0 <= i <= |s|
        invariant e.vars == FromSlice(s[..i])
        decreases |s| - i
      {
        assert s[..i + 1][..i] == s[..i];
        var p := SplitAssign(s[i]);
        if p.Some? {
          e.Set(p.value.0, p.value.1);
        }
        i := i + 1;
      }
      assert s[..i] == s;
    }

    /** Env.Get. */
    function Get(key: string): (r: (string, bool))
      reads this
      ensures r.1 <==> key in vars
      ensures r.1 ==> r.0 == vars[key]
      ensures !r.1 ==> r.0 == ""
    {
      if key in vars then (vars[key], true) else ("", false)
    }

    /** Env.Set: in place. */
    method Set(key: string, value: string)
      modifies this
      ensures vars == old(vars)[key := value]
      ensures Get(key) == (value, true)
      ensures forall k :: k != key ==> Get(k) == old(Get(k))
    {
      vars := vars[key := value];
    }

    /** Env.Add: a new environment with every entry of this one, then every
        entry of other, whose values win; neither input changes. */
    method Add(other: Env) returns (r: Env)
      ensures fresh(r)
      ensures forall k :: k in r.vars <==> k in vars || k in other.vars
      ensures forall k :: k in r.vars ==> r.vars[k] == if k in other.vars then other.vars[k] else vars[k]
    {
      var result: map<string, string> := map[];
      var rest := vars.Keys;
      while rest != {}
        invariant rest <= vars.Keys
        invariant forall k :: k in result <==> k in vars && k !in rest
        invariant forall k :: k in result ==> result[k] == vars[k]
        decreases rest
      {
        var k :| k in rest;
        result := result[k := vars[k]];
        rest := rest - {k};
      }
      rest := other.vars.Keys;
      while rest != {}
        invariant rest <= other.vars.Keys
        invariant forall k :: k in result <==> k in vars || (k in other.vars && k !in rest)
        invariant forall k :: k in result ==> result[k] == if k in other.vars && k !in rest then other.vars[k] else vars[k]
        decreases rest
      {
        var k :| k in rest;
        result := result[k := other.vars[k]];
        rest := rest - {k};
      }
      r := new Env();
      r.vars := result;
    }

    /** Env.IntoSlice: one "key=value" entry per key, in the map's
        iteration order, which keys reports. */
    method IntoSlice() returns (r: seq<string>, ghost keys: seq<string>)
      ensures Distinct(keys) && (forall k :: k in keys <==> k in vars)
      ensures r == Render(keys, vars)
    {
      r := [];
      keys := [];
      var rest := vars.Keys;
      while rest != {}
        invariant rest <= vars.Keys
        invariant Distinct(keys)
        invariant forall k :: k in keys <==> k in vars && k !in rest
        invariant r == Render(keys, vars)
        decreases rest
      {
        var k :| k in rest;
        r := r + [Assign(k, vars[k])];
        keys := keys + [k];
        rest := rest - {k};
      }
    }

    /** Env.Expand: expand, and expand the result again while it keeps
        changing, at most ExpandMaxAttempts more times. */
    method Expand(target: string, osExpand: (string, map<string, string>) -> string) returns (result: string)
      ensures result == Expanded(osExpand, vars, target)
    {
      var t := target;
      var count := 0;
      result := osExpand(t, vars);
      while result != t && count < ExpandMaxAttempts
        invariant count <= ExpandMaxAttempts
        invariant ExpandLoop(osExpand, vars, t, result, count) == Expanded(osExpand, vars, target)
        decreases ExpandMaxAttempts - count
      {
        t := result;
        result := osExpand(result, vars);
        count := count + 1;
      }
    }

    /** Env.ExpandStrings: Expand on every element, in place order. */
    method ExpandStrings(target: seq<string>, osExpand: (string, map<string, string>) -> string)
      returns (result: seq<string>)
      ensures |result| == |target|
      ensures forall i :: 0 <= i < |target| ==> result[i] == Expanded(osExpand, vars, target[i])
    {
      result := [];
      var i := 0;
      while i < |target|
        invariant 0 <= i <= |target| && |result| == i
        invariant forall j :: 0 <= j < i ==> result[j] == Expanded(osExpand, vars, target[j])
        decreases |target| - i
      {
        var x := Expand(target[i], osExpand);
        result := result + [x];
        i := i + 1;
      }
    }
  }
}

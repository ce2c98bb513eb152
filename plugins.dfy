/** Which plugin files `_loadPlugins` loads, and in what order: a local plugin
    shadows the system plugin of the same name, excluded names are dropped,
    and every system plugin is loaded before any local one. */
module Plugins {

  /** `_.without(xs, ...ys)`: `xs` in order, with every element of `ys` removed. */
  function Without(xs: seq<string>, ys: seq<string>): (r: seq<string>)
    ensures |r| <= |xs|
    decreases |xs|
  {
    if |xs| == 0 then []
    else (if xs[0] in ys then [] else [xs[0]]) + Without(xs[1..], ys)
  }

  /** What `Without` keeps: exactly the elements of `xs` not in `ys`, never
      more of them than `xs` has. */
  lemma {:induction false} WithoutMembers(xs: seq<string>, ys: seq<string>)
    ensures |Without(xs, ys)| <= |xs|
    ensures forall x :: x in Without(xs, ys) <==> x in xs && x !in ys
    decreases |xs|
  {
    if |xs| > 0 {
      WithoutMembers(xs[1..], ys);
      var head := if xs[0] in ys then [] else [xs[0]];
      assert Without(xs, ys) == head + Without(xs[1..], ys);
      assert xs == [xs[0]] + xs[1..];
    }
  }

  /** A plugin file, by the directory it is loaded from. */
  datatype Plugin = System(file: string) | Local(file: string)

  function AsSystem(files: seq<string>): (r: seq<Plugin>)
    ensures |r| == |files| && forall i :: 0 <= i < |r| ==> r[i] == System(files[i])
  {
    seq(|files|, i requires 0 <= i < |files| => System(files[i]))
  }

  function AsLocal(files: seq<string>): (r: seq<Plugin>)
    ensures |r| == |files| && forall i :: 0 <= i < |r| ==> r[i] == Local(files[i])
  {
    seq(|files|, i requires 0 <= i < |files| => Local(files[i]))
  }

  lemma AsSystemNext(files: seq<string>, i: nat)
    requires i < |files|
    ensures AsSystem(files[..i + 1]) == AsSystem(files[..i]) + [System(files[i])]
  {
  }

  lemma AsLocalNext(loaded: seq<Plugin>, files: seq<string>, i: nat)
    requires i < |files|
    ensures loaded + AsLocal(files[..i + 1]) == loaded + AsLocal(files[..i]) + [Local(files[i])]
  {
    assert AsLocal(files[..i + 1]) == AsLocal(files[..i]) + [Local(files[i])];
  }

  /** The system plugins not shadowed by a local one and not excluded. */
  function SystemToLoad(system: seq<string>, local: seq<string>, excluded: seq<string>): seq<string> {
    Without(Without(system, local), excluded)
  }

  /** The local plugins not excluded. */
  function LocalToLoad(local: seq<string>, excluded: seq<string>): seq<string> {
    Without(local, excluded)
  }

  /** The plugins `_loadPlugins` requires, in order. */
  function LoadOrder(system: seq<string>, local: seq<string>, excluded: seq<string>): seq<Plugin> {
    AsSystem(SystemToLoad(system, local, excluded)) + AsLocal(LocalToLoad(local, excluded))
  }

  /** The loops of `_loadPlugins`: each remaining system file, then each
      remaining local file. */
  method Requires(system: seq<string>, local: seq<string>, excluded: seq<string>) returns (loaded: seq<Plugin>)
    ensures loaded == LoadOrder(system, local, excluded)
  {
    var fromSystem := Without(system, local);
    fromSystem := Without(fromSystem, excluded);
    var fromLocal := Without(local, excluded);
    loaded := [];
    for i := 0 to |fromSystem|
      invariant loaded == AsSystem(fromSystem[..i])
    {
      AsSystemNext(fromSystem, i);
      loaded := loaded + [System(fromSystem[i])];
    }
    assert fromSystem[..|fromSystem|] == fromSystem;
    for i := 0 to |fromLocal|
      invariant loaded == AsSystem(fromSystem) + AsLocal(fromLocal[..i])
    {
      AsLocalNext(AsSystem(fromSystem), fromLocal, i);
      loaded := loaded + [Local(fromLocal[i])];
    }
    assert fromLocal[..|fromLocal|] == fromLocal;
  }

  /** Removing elements keeps the relative order: filtering a concatenation
      filters each part. */
  lemma {:induction false} WithoutConcat(a: seq<string>, b: seq<string>, ys: seq<string>)
    ensures Without(a + b, ys) == Without(a, ys) + Without(b, ys)
    decreases |a|
  {
    if |a| == 0 {
      assert a + b == b;
    } else {
      assert (a + b)[0] == a[0];
      assert (a + b)[1..] == a[1..] + b;
      WithoutConcat(a[1..], b, ys);
    }
  }

  /** Removing one list and then another removes both at once. */
  lemma {:induction false} WithoutTwice(xs: seq<string>, a: seq<string>, b: seq<string>)
    ensures Without(Without(xs, a), b) == Without(xs, a + b)
    decreases |xs|
  {
    if |xs| > 0 {
      WithoutTwice(xs[1..], a, b);
      var head := if xs[0] in a then [] else [xs[0]];
      WithoutConcat(head, Without(xs[1..], a), b);
    }
  }

  /** Removing nothing changes nothing. */
  lemma {:induction false} WithoutNothing(xs: seq<string>)
    ensures Without(xs, []) == xs
    decreases |xs|
  {
    if |xs| > 0 {
      WithoutNothing(xs[1..]);
    }
  }

  /** The system list loaded is the system list with local and excluded names
      removed in one filter, order preserved. */
  lemma SystemList(system: seq<string>, local: seq<string>, excluded: seq<string>)
    ensures SystemToLoad(system, local, excluded) == Without(system, local + excluded)
  {
    WithoutTwice(system, local, excluded);
  }

  lemma InAsSystem(files: seq<string>, p: Plugin)
    ensures p in AsSystem(files) <==> p.System? && p.file in files
  {
    if p.System? && p.file in files {
      var i :| 0 <= i < |files| && files[i] == p.file;
      assert AsSystem(files)[i] == p;
    }
  }

  lemma InAsLocal(files: seq<string>, p: Plugin)
    ensures p in AsLocal(files) <==> p.Local? && p.file in files
  {
    if p.Local? && p.file in files {
      var i :| 0 <= i < |files| && files[i] == p.file;
      assert AsLocal(files)[i] == p;
    }
  }

  /** A system plugin is loaded exactly when no local plugin has its name and
      it is not excluded; a local plugin exactly when it is not excluded. */
  lemma Loaded(system: seq<string>, local: seq<string>, excluded: seq<string>, f: string)
    ensures System(f) in LoadOrder(system, local, excluded) <==> f in system && f !in local && f !in excluded
    ensures Local(f) in LoadOrder(system, local, excluded) <==> f in local && f !in excluded
  {
    var s := SystemToLoad(system, local, excluded);
    var l := LocalToLoad(local, excluded);
    WithoutMembers(system, local);
    WithoutMembers(Without(system, local), excluded);
    WithoutMembers(local, excluded);
    InAsSystem(s, System(f));
    InAsLocal(l, System(f));
    InAsSystem(s, Local(f));
    InAsLocal(l, Local(f));
  }

  /** Every system plugin comes before every local plugin. */
  lemma SystemBeforeLocal(system: seq<string>, local: seq<string>, excluded: seq<string>, i: nat, j: nat)
    requires i < j < |LoadOrder(system, local, excluded)|
    requires LoadOrder(system, local, excluded)[j].System?
    ensures LoadOrder(system, local, excluded)[i].System?
  {
    var s := AsSystem(SystemToLoad(system, local, excluded));
    var l := AsLocal(LocalToLoad(local, excluded));
    assert LoadOrder(system, local, excluded) == s + l;
  }
}

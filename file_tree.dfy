/** The source directory as a tree, and `_getFiles`: the recursive collection
    of file paths below a directory, pruning every path an exclude pattern
    matches. */
module FileTree {
  import opened Paths

  /** A directory entry in `readdir` order. */
  datatype Entry = File(name: string, text: string) | Dir(name: string, children: seq<Entry>)

  /** `shouldExclude`: some pattern matches the path (`minimatch` is `matches`). */
  predicate Excluded(path: string, excludes: seq<string>, matches: (string, string) -> bool) {
    exists i :: 0 <= i < |excludes| && matches(path, excludes[i])
  }

  /** What one entry of directory `dir` adds to the walk: nothing when its
      path is excluded, the path of a file, everything below a directory. */
  function Contribution(dir: string, e: Entry, excludes: seq<string>, matches: (string, string) -> bool): seq<string>
    decreases e
  {
    var path := PathJoin(dir, e.name);
    if Excluded(path, excludes, matches) then []
    else if e.File? then [path]
    else Walk(path, e.children, excludes, matches)
  }

  /** The walk of a directory's entries, in order. The source's loop runs
      while `searchedFiles[i]` is truthy, so it also stops at an entry whose
      name is empty. */
  function Walk(dir: string, es: seq<Entry>, excludes: seq<string>, matches: (string, string) -> bool): seq<string>
    decreases es
  {
    if |es| == 0 || es[0].name == "" then []
    else Contribution(dir, es[0], excludes, matches) + Walk(dir, es[1..], excludes, matches)
  }

  /** The file contents stored below a directory, keyed by path. */
  function Files(dir: string, es: seq<Entry>): map<string, string>
    decreases es
  {
    if |es| == 0 then map[]
    else
      var path := PathJoin(dir, es[0].name);
      var here := if es[0].File? then map[path := es[0].text] else Files(path, es[0].children);
      here + Files(dir, es[1..])
  }

  predicate Named(es: seq<Entry>) {
    forall i :: 0 <= i < |es| ==> es[i].name != ""
  }

  /** `_getFiles(path, excludes)`. */
  method GetFiles(path: string, entries: seq<Entry>, excludes: seq<string>, matches: (string, string) -> bool)
    returns (r: seq<string>)
    ensures r == Walk(path, entries, excludes, matches)
    decreases entries
  {
    r := [];
    var i := 0;
    while i < |entries| && entries[i].name != ""
      invariant 0 <= i <= |entries|
      invariant Walk(path, entries, excludes, matches) == r + Walk(path, entries[i..], excludes, matches)
    {
      WalkStep(path, entries, i, excludes, matches);
      var file := PathJoin(path, entries[i].name);
      var part := [];
      if !Excluded(file, excludes, matches) {
        if entries[i].Dir? {
          part := GetFiles(file, entries[i].children, excludes, matches);
        } else {
          part := [file];
        }
      }
      Regroup(r, part, Walk(path, entries[i + 1..], excludes, matches));
      r := r + part;
      i := i + 1;
    }
  }

  /** One named entry, then the rest. */
  lemma WalkStep(dir: string, es: seq<Entry>, i: nat, excludes: seq<string>, matches: (string, string) -> bool)
    requires i < |es| && es[i].name != ""
    ensures Walk(dir, es[i..], excludes, matches) ==
      Contribution(dir, es[i], excludes, matches) + Walk(dir, es[i + 1..], excludes, matches)
  {
    assert es[i..][0] == es[i] && es[i..][1..] == es[i + 1..];
  }

  lemma Regroup(a: seq<string>, b: seq<string>, c: seq<string>)
    ensures a + (b + c) == a + b + c
  {
  }

  /** Walking two runs of named entries walks one after the other. */
  lemma {:induction false} WalkConcat(dir: string, a: seq<Entry>, b: seq<Entry>, excludes: seq<string>,
                                      matches: (string, string) -> bool)
    requires Named(a)
    ensures Walk(dir, a + b, excludes, matches) == Walk(dir, a, excludes, matches) + Walk(dir, b, excludes, matches)
    decreases |a|
  {
    if |a| == 0 {
      assert a + b == b;
    } else {
      assert (a + b)[0] == a[0] && a[0].name != "";
      assert (a + b)[1..] == a[1..] + b;
      assert Named(a[1..]) by {
        forall i | 0 <= i < |a[1..]| ensures a[1..][i].name != "" {
          assert a[1..][i] == a[i + 1];
        }
      }
      WalkConcat(dir, a[1..], b, excludes, matches);
      assert Walk(dir, a + b, excludes, matches) ==
        Contribution(dir, a[0], excludes, matches) + Walk(dir, a[1..] + b, excludes, matches);
    }
  }

  /** Depth-first `readdir` order: every entry before the first unnamed one
      contributes its paths in place, between those of the entries before it
      and those after it. So an excluded directory contributes nothing, and a
      directory's files appear joined onto the directory's path. */
  lemma WalkAt(dir: string, es: seq<Entry>, i: nat, excludes: seq<string>, matches: (string, string) -> bool)
    requires i < |es| && Named(es[..i + 1])
    ensures Walk(dir, es, excludes, matches) ==
      Walk(dir, es[..i], excludes, matches) + Contribution(dir, es[i], excludes, matches)
        + Walk(dir, es[i + 1..], excludes, matches)
  {
    assert es == es[..i] + es[i..];
    assert es[..i + 1][..i] == es[..i];
    WalkConcat(dir, es[..i], es[i..], excludes, matches);
    assert es[i..][1..] == es[i + 1..];
  }

  /** Every path returned names a file of the tree, never a directory. */
  lemma {:induction false} WalkFindsFiles(dir: string, es: seq<Entry>, excludes: seq<string>,
                                          matches: (string, string) -> bool)
    ensures forall k :: 0 <= k < |Walk(dir, es, excludes, matches)| ==>
      Walk(dir, es, excludes, matches)[k] in Files(dir, es)
    decreases es
  {
    if |es| > 0 && es[0].name != "" {
      var path := PathJoin(dir, es[0].name);
      WalkFindsFiles(dir, es[1..], excludes, matches);
      if es[0].Dir? && !Excluded(path, excludes, matches) {
        WalkFindsFiles(path, es[0].children, excludes, matches);
      }
      var w := Walk(dir, es, excludes, matches);
      var c := Contribution(dir, es[0], excludes, matches);
      forall k | 0 <= k < |w|
        ensures w[k] in Files(dir, es)
      {
        var here := if es[0].File? then map[path := es[0].text] else Files(path, es[0].children);
        assert Files(dir, es) == here + Files(dir, es[1..]);
        if k >= |c| {
          assert w[k] == Walk(dir, es[1..], excludes, matches)[k - |c|];
        } else if es[0].Dir? {
          assert w[k] == c[k] == Walk(path, es[0].children, excludes, matches)[k];
        } else {
          assert w[k] == c[k] == path;
        }
      }
    }
  }

  /** No path the walk returns is excluded: an excluded directory is pruned
      whole. */
  lemma {:induction false} WalkNotExcluded(dir: string, es: seq<Entry>, excludes: seq<string>,
                                           matches: (string, string) -> bool)
    ensures forall k :: 0 <= k < |Walk(dir, es, excludes, matches)| ==>
      !Excluded(Walk(dir, es, excludes, matches)[k], excludes, matches)
    decreases es
  {
    if |es| > 0 && es[0].name != "" {
      var path := PathJoin(dir, es[0].name);
      WalkNotExcluded(dir, es[1..], excludes, matches);
      if es[0].Dir? && !Excluded(path, excludes, matches) {
        WalkNotExcluded(path, es[0].children, excludes, matches);
      }
      var w := Walk(dir, es, excludes, matches);
      var c := Contribution(dir, es[0], excludes, matches);
      forall k | 0 <= k < |w|
        ensures !Excluded(w[k], excludes, matches)
      {
        if k >= |c| {
          assert w[k] == Walk(dir, es[1..], excludes, matches)[k - |c|];
        } else if es[0].Dir? {
          assert w[k] == c[k] == Walk(path, es[0].children, excludes, matches)[k];
        } else {
          assert w[k] == c[k] == path;
        }
      }
    }
  }

  /** Each named file whose path is not excluded is found. */
  lemma FileFound(dir: string, es: seq<Entry>, i: nat, excludes: seq<string>, matches: (string, string) -> bool)
    requires i < |es| && Named(es[..i + 1]) && es[i].File?
    requires !Excluded(PathJoin(dir, es[i].name), excludes, matches)
    ensures PathJoin(dir, es[i].name) in Walk(dir, es, excludes, matches)
  {
    WalkAt(dir, es, i, excludes, matches);
    var w := Walk(dir, es, excludes, matches);
    assert w[|Walk(dir, es[..i], excludes, matches)|] == PathJoin(dir, es[i].name);
  }
  /** A name as `readdir` gives it: one non-empty path segment, not `.`. */
  predicate Segment(name: string) {
    name != "" && name != "." && '/' !in name
  }

  /** Every directory of the tree holds segments with distinct names. */
  predicate WellNamed(es: seq<Entry>)
    decreases es
  {
    && (forall i :: 0 <= i < |es| ==> Segment(es[i].name))
    && (forall i, j :: 0 <= i < j < |es| ==> es[i].name != es[j].name)
    && (forall i :: 0 <= i < |es| && es[i].Dir? ==> WellNamed(es[i].children))
  }

  predicate Distinct(s: seq<string>) {
    forall k, l :: 0 <= k < l < |s| ==> s[k] != s[l]
  }

  lemma DistinctConcat(a: seq<string>, b: seq<string>)
    requires Distinct(a) && Distinct(b)
    requires forall k, l :: 0 <= k < |a| && 0 <= l < |b| ==> a[k] != b[l]
    ensures Distinct(a + b)
  {
    var w := a + b;
    forall k, l | 0 <= k < l < |w| ensures w[k] != w[l] {
      if l < |a| {
        assert w[k] == a[k] && w[l] == a[l];
      } else if k >= |a| {
        assert w[k] == b[k - |a|] && w[l] == b[l - |a|];
      } else {
        assert w[k] == a[k] && w[l] == b[l - |a|];
      }
    }
  }

  /** Every path an entry contributes lies below the entry's own path. */
  lemma {:induction false} ContributionUnder(dir: string, e: Entry, excludes: seq<string>,
                                             matches: (string, string) -> bool)
    requires Segment(e.name) && (e.Dir? ==> WellNamed(e.children))
    ensures forall k :: 0 <= k < |Contribution(dir, e, excludes, matches)| ==>
      Under(Contribution(dir, e, excludes, matches)[k], PathJoin(dir, e.name))
    decreases e, 0
  {
    var path := PathJoin(dir, e.name);
    if e.Dir? && !Excluded(path, excludes, matches) {
      assert path != ".";
      WalkUnder(path, e.children, excludes, matches);
      var w := Walk(path, e.children, excludes, matches);
      forall k | 0 <= k < |w| ensures Under(w[k], path) {
        var i :| 0 <= i < |e.children| && Under(w[k], PathJoin(path, e.children[i].name));
        UnderJoin(w[k], path, e.children[i].name);
      }
    }
  }

  /** Every path a walk returns lies below one of the walked entries. */
  lemma {:induction false} WalkUnder(dir: string, es: seq<Entry>, excludes: seq<string>,
                                     matches: (string, string) -> bool)
    requires WellNamed(es)
    ensures forall k :: 0 <= k < |Walk(dir, es, excludes, matches)| ==>
      exists i :: 0 <= i < |es| && Under(Walk(dir, es, excludes, matches)[k], PathJoin(dir, es[i].name))
    decreases es, 1
  {
    if |es| > 0 {
      WellNamedTail(es);
      ContributionUnder(dir, es[0], excludes, matches);
      WalkUnder(dir, es[1..], excludes, matches);
      var w := Walk(dir, es, excludes, matches);
      var c := Contribution(dir, es[0], excludes, matches);
      var rest := Walk(dir, es[1..], excludes, matches);
      assert w == c + rest;
      forall k | 0 <= k < |w|
        ensures exists i :: 0 <= i < |es| && Under(w[k], PathJoin(dir, es[i].name))
      {
        if k < |c| {
          assert w[k] == c[k] && Under(w[k], PathJoin(dir, es[0].name));
        } else {
          assert w[k] == rest[k - |c|];
          var i :| 0 <= i < |es[1..]| && Under(w[k], PathJoin(dir, es[1..][i].name));
          assert es[1..][i] == es[i + 1];
          assert Under(w[k], PathJoin(dir, es[i + 1].name));
        }
      }
      assert forall k :: 0 <= k < |Walk(dir, es, excludes, matches)| ==>
        exists i :: 0 <= i < |es| && Under(Walk(dir, es, excludes, matches)[k], PathJoin(dir, es[i].name));
    } else {
      assert Walk(dir, es, excludes, matches) == [];
    }
  }

  lemma WellNamedTail(es: seq<Entry>)
    requires WellNamed(es) && |es| > 0
    ensures WellNamed(es[1..])
  {
    assert forall i :: 0 <= i < |es[1..]| ==> es[1..][i] == es[i + 1];
  }

  /** In a tree whose directories hold distinct segment names, the walk
      returns no path twice. */
  lemma {:induction false} WalkDistinct(dir: string, es: seq<Entry>, excludes: seq<string>,
                                        matches: (string, string) -> bool)
    requires WellNamed(es)
    ensures Distinct(Walk(dir, es, excludes, matches))
    decreases es
  {
    if |es| > 0 {
      var path := PathJoin(dir, es[0].name);
      var c := Contribution(dir, es[0], excludes, matches);
      var rest := Walk(dir, es[1..], excludes, matches);
      WellNamedTail(es);
      WalkDistinct(dir, es[1..], excludes, matches);
      if es[0].Dir? && !Excluded(path, excludes, matches) {
        WalkDistinct(path, es[0].children, excludes, matches);
      }
      assert Distinct(c);
      ContributionUnder(dir, es[0], excludes, matches);
      WalkUnder(dir, es[1..], excludes, matches);
      forall k, l | 0 <= k < |c| && 0 <= l < |rest| ensures c[k] != rest[l] {
        var i :| 0 <= i < |es[1..]| && Under(rest[l], PathJoin(dir, es[1..][i].name));
        assert es[1..][i] == es[i + 1];
        if c[k] == rest[l] {
          UnderOne(c[k], dir, es[0].name, es[i + 1].name);
        }
      }
      assert Walk(dir, es, excludes, matches) == c + rest;
      DistinctConcat(c, rest);
    }
  }
}

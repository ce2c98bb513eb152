/** The parts of Node's `path` module the site generator relies on:
    `extname` and `join`, for relative paths without `.` or `..` segments. */
module Paths {

  /** The part of `s` after its last `c`; all of `s` when it has none. */
  function After(s: string, c: char): string
    decreases |s|
  {
    if |s| == 0 then ""
    else if s[|s| - 1] == c then ""
    else After(s[..|s| - 1], c) + [s[|s| - 1]]
  }

  /** The part after the last `c` is a suffix of `s` free of `c`. */
  lemma {:induction false} AfterIsSuffix(s: string, c: char)
    ensures var r := After(s, c); |r| <= |s| && r == s[|s| - |r|..] && c !in r
    decreases |s|
  {
    if |s| > 0 && s[|s| - 1] != c {
      var init, last := s[..|s| - 1], s[|s| - 1];
      AfterIsSuffix(init, c);
      var r := After(init, c);
      assert After(s, c) == r + [last];
      assert s[|s| - |r| - 1..] == init[|init| - |r|..] + [last];
      assert c !in r + [last];
    }
  }

  function Basename(path: string): string {
    After(path, '/')
  }

  /** `path.extname(path).substr(1)`: the text after the last dot of the
      base name, or "" when there is no dot or the only dot opens the name. */
  function Extension(path: string): string {
    var base := Basename(path);
    var ext := After(base, '.');
    if |ext| + 1 < |base| then ext else ""
  }

  /** `path.join(dir, name)`. */
  function PathJoin(dir: string, name: string): string {
    if dir == "." then name else dir + "/" + name
  }

  lemma {:induction false} AfterNone(s: string, c: char)
    requires c !in s
    ensures After(s, c) == s
    decreases |s|
  {
    if |s| > 0 {
      assert s == s[..|s| - 1] + [s[|s| - 1]];
      AfterNone(s[..|s| - 1], c);
    }
  }

  lemma {:induction false} AfterAppend(s: string, t: string, c: char)
    requires c !in t
    ensures After(s + t, c) == After(s, c) + t
    decreases |t|
  {
    if |t| == 0 {
      assert s + t == s;
    } else {
      var u := s + t;
      var init, last := t[..|t| - 1], t[|t| - 1];
      assert u[|u| - 1] == last && last != c;
      assert u[..|u| - 1] == s + init;
      AfterAppend(s, init, c);
      assert After(u, c) == After(s + init, c) + [last];
      assert t == init + [last];
      assert After(s, c) + init + [last] == After(s, c) + t;
    }
  }

  lemma AfterMarker(s: string, t: string, c: char)
    requires c !in t
    ensures After(s + [c] + t, c) == t
  {
    AfterAppend(s + [c], t, c);
  }

  /** A name `prefix.ext` whose base name does not start at the dot has
      extension `ext`. */
  lemma ExtensionOf(prefix: string, ext: string)
    requires '.' !in ext && '/' !in ext
    requires Basename(prefix) != ""
    ensures Extension(prefix + "." + ext) == ext
  {
    AfterAppend(prefix, "." + ext, '/');
    assert prefix + "." + ext == prefix + ("." + ext);
    assert Basename(prefix + "." + ext) == Basename(prefix) + ['.'] + ext;
    AfterMarker(Basename(prefix), ext, '.');
  }

  /** `b + hs` split after the first element of `hs`. */
  lemma SplitFirst(b: string, hs: string)
    requires |hs| > 0
    ensures b + hs == b + [hs[0]] + hs[1..]
  {
    assert hs == [hs[0]] + hs[1..];
  }

  /** A suffix made of a dot and a run without dots or slashes is the
      extension, unless the dot opens the base name. */
  lemma DotSuffix(stem: string, hs: string)
    requires |hs| > 0 && hs[0] == '.' && '/' !in hs && '.' !in hs[1..]
    ensures Extension(stem + hs) == "" || Extension(stem + hs) == hs[1..]
  {
    var base := Basename(stem);
    AfterAppend(stem, hs, '/');
    SplitFirst(base, hs);
    AfterMarker(base, hs[1..], '.');
  }

  /** A base name without a dot has no extension. */
  lemma NoDotNoExtension(path: string)
    requires '.' !in Basename(path)
    ensures Extension(path) == ""
  {
    AfterNone(Basename(path), '.');
  }

  /** Joining onto a fixed directory never maps two names to one path. */
  lemma PathJoinInjective(dir: string, a: string, b: string)
    requires PathJoin(dir, a) == PathJoin(dir, b)
    ensures a == b
  {
    if dir != "." {
      var n := |dir| + 1;
      assert a == PathJoin(dir, a)[n..];
      assert b == PathJoin(dir, b)[n..];
    }
  }
  /** `p` is `a` itself or a path below `a`. */
  predicate Under(p: string, a: string) {
    p == a || (|a| < |p| && p[..|a|] == a && p[|a|] == '/')
  }

  /** A path below `dir/a/b` is below `dir/a`. */
  lemma UnderJoin(p: string, dir: string, name: string)
    requires dir != "." && Under(p, PathJoin(dir, name))
    ensures Under(p, dir)
  {
    var a := PathJoin(dir, name);
    assert a[..|dir|] == dir && a[|dir|] == '/';
    if p != a {
      assert p[..|dir|] == p[..|a|][..|dir|];
    }
  }

  /** A path lies below at most one single-segment name in a directory. */
  lemma UnderOne(p: string, dir: string, a: string, b: string)
    requires '/' !in a && '/' !in b
    requires Under(p, PathJoin(dir, a)) && Under(p, PathJoin(dir, b))
    ensures a == b
  {
    if dir == "." {
      UnderNames(p, a, b);
    } else {
      var n := |dir| + 1;
      var pa, pb := PathJoin(dir, a), PathJoin(dir, b);
      assert pa[n..] == a && pb[n..] == b;
      assert Under(p[n..], a) by {
        if p != pa { assert p[n..][..|a|] == p[..|pa|][n..]; assert p[n..][|a|] == p[|pa|]; }
      }
      assert Under(p[n..], b) by {
        if p != pb { assert p[n..][..|b|] == p[..|pb|][n..]; assert p[n..][|b|] == p[|pb|]; }
      }
      UnderNames(p[n..], a, b);
    }
  }

  lemma UnderNames(p: string, a: string, b: string)
    requires '/' !in a && '/' !in b && Under(p, a) && Under(p, b)
    ensures a == b
  {
    if |a| == |b| {
      assert a == p[..|a|] == b;
    }
  }
}

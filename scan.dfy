/** What a build finds before it renders: the taxonomy placeholders, the posts
    and pages made from the post-type directories, the split of the remaining
    files into pages and plain files, and the copies of the plain files. */
module Scans {
  import opened Wrappers
  import opened Metadata
  import opened Paths
  import opened Configs
  import opened Templates
  import opened FileTree

  /** `new Post(file, postType)`. */
  datatype Post = Post(template: Template, postType: string)

  /** `new Page(...)`: a page made from a post or from a file with data. */
  datatype Page = PostPage(post: Post) | FilePage(template: Template)

  /** What the build reads and the foreign functions it calls. */
  datatype Env = Env(
    root: seq<Entry>,                    // the working directory
    glob: string -> seq<string>,         // `glob.sync`
    matches: (string, string) -> bool,   // `minimatch(path, pattern)`
    pluralize: string -> string,         // `inflector.pluralize`
    parseJson: string -> Option<Meta>,   // `JSON.parse`, failing on malformed text
    systemPlugins: seq<string>,          // the scripts below the bundled plugin directory
    localPlugins: seq<string>)           // the scripts below `config.pluginDirectory`

  /** The files of the working directory, keyed by path. */
  function Disk(env: Env): map<string, string> {
    Files(".", env.root)
  }

  /** `_createPlaceholders`: one empty list per pluralized taxonomy type. */
  function Placeholders(types: seq<string>, pluralize: string -> string): (r: map<string, seq<Post>>)
    ensures forall i :: 0 <= i < |types| ==> pluralize(types[i]) in r
    ensures forall k :: k in r ==> r[k] == [] && exists i :: 0 <= i < |types| && pluralize(types[i]) == k
    decreases |types|
  {
    if |types| == 0 then map[]
    else
      var n := |types| - 1;
      var r := Placeholders(types[..n], pluralize)[pluralize(types[n]) := []];
      assert forall i :: 0 <= i < n ==> types[..n][i] == types[i];
      r
  }

  /** A file visited by `_walkPosts`, with the post type whose directory it is in. */
  datatype Candidate = Candidate(postType: string, filename: string)

  /** The pattern `_walkPosts` globs for a post type: the pluralized type's
      directory, prefixed with an underscore. */
  function PostGlob(postType: string, pluralize: string -> string): string {
    "_" + pluralize(postType) + "/*"
  }

  function Tagged(postType: string, files: seq<string>): (r: seq<Candidate>)
    ensures |r| == |files| && forall i :: 0 <= i < |r| ==> r[i] == Candidate(postType, files[i])
  {
    seq(|files|, i requires 0 <= i < |files| => Candidate(postType, files[i]))
  }

  lemma TaggedNext(postType: string, files: seq<string>, i: nat)
    requires i < |files|
    ensures Tagged(postType, files[..i + 1]) == Tagged(postType, files[..i]) + [Candidate(postType, files[i])]
  {
  }

  lemma TakeNext(names: seq<string>, i: nat)
    requires i < |names|
    ensures names[..i + 1] == names[..i] + [names[i]]
  {
  }

  /** The files `_walkPosts` visits, in order: each post type's directory in turn. */
  function PostCandidates(postTypes: seq<string>, env: Env): seq<Candidate>
    decreases |postTypes|
  {
    if |postTypes| == 0 then []
    else
      var n := |postTypes| - 1;
      PostCandidates(postTypes[..n], env) + Tagged(postTypes[n], env.glob(PostGlob(postTypes[n], env.pluralize)))
  }

  function Names(cs: seq<Candidate>): (r: seq<string>)
    ensures |r| == |cs| && forall j :: 0 <= j < |cs| ==> r[j] == cs[j].filename
  {
    seq(|cs|, j requires 0 <= j < |cs| => cs[j].filename)
  }

  lemma NamesNext(cs: seq<Candidate>, c: Candidate)
    ensures Names(cs + [c]) == Names(cs) + [c.filename]
  {
  }

  /** A draft is skipped unless drafts are included. */
  predicate Skipped(data: Meta, includeDrafts: bool) {
    Has(data, "draft") && !includeDrafts
  }

  /** The posts made from the visited files `cs`, whose templates are `ts`
      and whose data was `seen`. */
  function KeptPosts(cs: seq<Candidate>, ts: seq<Template>, seen: seq<Meta>, includeDrafts: bool): seq<Post>
    requires |cs| == |ts| == |seen|
    decreases |cs|
  {
    if |cs| == 0 then []
    else
      var n := |cs| - 1;
      KeptPosts(cs[..n], ts[..n], seen[..n], includeDrafts)
        + (if Skipped(seen[n], includeDrafts) then [] else [Post(ts[n], cs[n].postType)])
  }

  /** The pages made from those posts: one for each post with a layout. */
  function PostPages(cs: seq<Candidate>, ts: seq<Template>, seen: seq<Meta>, includeDrafts: bool): seq<Page>
    requires |cs| == |ts| == |seen|
    decreases |cs|
  {
    if |cs| == 0 then []
    else
      var n := |cs| - 1;
      PostPages(cs[..n], ts[..n], seen[..n], includeDrafts)
        + (if Skipped(seen[n], includeDrafts) || !Has(seen[n], "layout") then []
           else [PostPage(Post(ts[n], cs[n].postType))])
  }

  lemma NextPost(cs: seq<Candidate>, ts: seq<Template>, seen: seq<Meta>, includeDrafts: bool,
                  c: Candidate, t: Template, d: Meta)
    requires |cs| == |ts| == |seen|
    ensures KeptPosts(cs + [c], ts + [t], seen + [d], includeDrafts) ==
      KeptPosts(cs, ts, seen, includeDrafts) + (if Skipped(d, includeDrafts) then [] else [Post(t, c.postType)])
    ensures PostPages(cs + [c], ts + [t], seen + [d], includeDrafts) ==
      PostPages(cs, ts, seen, includeDrafts)
        + (if Skipped(d, includeDrafts) || !Has(d, "layout") then [] else [PostPage(Post(t, c.postType))])
  {
    assert (cs + [c])[..|cs|] == cs && (ts + [t])[..|ts|] == ts && (seen + [d])[..|seen|] == seen;
  }

  /** Visiting two runs of files one after the other keeps the posts of the
      first run before those of the second. */
  lemma {:induction false} KeptConcat(cs1: seq<Candidate>, ts1: seq<Template>, seen1: seq<Meta>,
                                      cs2: seq<Candidate>, ts2: seq<Template>, seen2: seq<Meta>, includeDrafts: bool)
    requires |cs1| == |ts1| == |seen1| && |cs2| == |ts2| == |seen2|
    ensures KeptPosts(cs1 + cs2, ts1 + ts2, seen1 + seen2, includeDrafts) ==
      KeptPosts(cs1, ts1, seen1, includeDrafts) + KeptPosts(cs2, ts2, seen2, includeDrafts)
    decreases |cs2|
  {
    if |cs2| == 0 {
      assert cs1 + cs2 == cs1 && ts1 + ts2 == ts1 && seen1 + seen2 == seen1;
    } else {
      var n := |cs2| - 1;
      var m := |cs1| + n;
      var cs, ts, seen := cs1 + cs2, ts1 + ts2, seen1 + seen2;
      KeptConcat(cs1, ts1, seen1, cs2[..n], ts2[..n], seen2[..n], includeDrafts);
      assert cs[..m] == cs1 + cs2[..n] && ts[..m] == ts1 + ts2[..n] && seen[..m] == seen1 + seen2[..n];
      assert cs[m] == cs2[n] && ts[m] == ts2[n] && seen[m] == seen2[n];
      calc {
        KeptPosts(cs, ts, seen, includeDrafts);
        KeptPosts(cs[..m], ts[..m], seen[..m], includeDrafts) + (if Skipped(seen2[n], includeDrafts) then [] else [Post(ts2[n], cs2[n].postType)]);
        KeptPosts(cs1, ts1, seen1, includeDrafts) + KeptPosts(cs2[..n], ts2[..n], seen2[..n], includeDrafts) + (if Skipped(seen2[n], includeDrafts) then [] else [Post(ts2[n], cs2[n].postType)]);
        KeptPosts(cs1, ts1, seen1, includeDrafts) + KeptPosts(cs2, ts2, seen2, includeDrafts);
      }
    }
  }

  /** The same for the pages made from them. */
  lemma {:induction false} PagesConcat(cs1: seq<Candidate>, ts1: seq<Template>, seen1: seq<Meta>,
                                       cs2: seq<Candidate>, ts2: seq<Template>, seen2: seq<Meta>, includeDrafts: bool)
    requires |cs1| == |ts1| == |seen1| && |cs2| == |ts2| == |seen2|
    ensures PostPages(cs1 + cs2, ts1 + ts2, seen1 + seen2, includeDrafts) ==
      PostPages(cs1, ts1, seen1, includeDrafts) + PostPages(cs2, ts2, seen2, includeDrafts)
    decreases |cs2|
  {
    if |cs2| == 0 {
      assert cs1 + cs2 == cs1 && ts1 + ts2 == ts1 && seen1 + seen2 == seen1;
    } else {
      var n := |cs2| - 1;
      var m := |cs1| + n;
      var cs, ts, seen := cs1 + cs2, ts1 + ts2, seen1 + seen2;
      PagesConcat(cs1, ts1, seen1, cs2[..n], ts2[..n], seen2[..n], includeDrafts);
      assert cs[..m] == cs1 + cs2[..n] && ts[..m] == ts1 + ts2[..n] && seen[..m] == seen1 + seen2[..n];
      assert cs[m] == cs2[n] && ts[m] == ts2[n] && seen[m] == seen2[n];
      calc {
        PostPages(cs, ts, seen, includeDrafts);
        PostPages(cs[..m], ts[..m], seen[..m], includeDrafts) + (if Skipped(seen2[n], includeDrafts) || !Has(seen2[n], "layout") then [] else [PostPage(Post(ts2[n], cs2[n].postType))]);
        PostPages(cs1, ts1, seen1, includeDrafts) + PostPages(cs2[..n], ts2[..n], seen2[..n], includeDrafts) + (if Skipped(seen2[n], includeDrafts) || !Has(seen2[n], "layout") then [] else [PostPage(Post(ts2[n], cs2[n].postType))]);
        PostPages(cs1, ts1, seen1, includeDrafts) + PostPages(cs2, ts2, seen2, includeDrafts);
      }
    }
  }

  lemma NamesConcat(a: seq<Candidate>, b: seq<Candidate>)
    ensures Names(a + b) == Names(a) + Names(b)
  {
  }

  lemma PostCandidatesNext(postTypes: seq<string>, env: Env, k: nat)
    requires k < |postTypes|
    ensures PostCandidates(postTypes[..k + 1], env) ==
      PostCandidates(postTypes[..k], env) + Tagged(postTypes[k], env.glob(PostGlob(postTypes[k], env.pluralize)))
  {
    assert postTypes[..k + 1][..k] == postTypes[..k];
  }

  /** A post is made exactly from each visited file that is not a skipped draft. */
  lemma {:induction false} KeptPostsExactly(cs: seq<Candidate>, ts: seq<Template>, seen: seq<Meta>,
                                            includeDrafts: bool, p: Post)
    requires |cs| == |ts| == |seen|
    ensures p in KeptPosts(cs, ts, seen, includeDrafts) <==>
      exists j :: 0 <= j < |cs| && !Skipped(seen[j], includeDrafts) && p == Post(ts[j], cs[j].postType)
    decreases |cs|
  {
    if |cs| > 0 {
      var n := |cs| - 1;
      KeptPostsExactly(cs[..n], ts[..n], seen[..n], includeDrafts, p);
      if exists j :: 0 <= j < |cs| && !Skipped(seen[j], includeDrafts) && p == Post(ts[j], cs[j].postType) {
        var j :| 0 <= j < |cs| && !Skipped(seen[j], includeDrafts) && p == Post(ts[j], cs[j].postType);
        if j < n {
          assert cs[..n][j] == cs[j] && ts[..n][j] == ts[j] && seen[..n][j] == seen[j];
        }
      }
    }
  }

  /** A page is made exactly from each kept post whose data has a layout. */
  lemma {:induction false} PostPagesExactly(cs: seq<Candidate>, ts: seq<Template>, seen: seq<Meta>,
                                            includeDrafts: bool, q: Page)
    requires |cs| == |ts| == |seen|
    ensures q in PostPages(cs, ts, seen, includeDrafts) <==>
      exists j :: 0 <= j < |cs| && !Skipped(seen[j], includeDrafts) && Has(seen[j], "layout")
                  && q == PostPage(Post(ts[j], cs[j].postType))
    decreases |cs|
  {
    if |cs| > 0 {
      var n := |cs| - 1;
      PostPagesExactly(cs[..n], ts[..n], seen[..n], includeDrafts, q);
      if exists j :: 0 <= j < |cs| && !Skipped(seen[j], includeDrafts) && Has(seen[j], "layout")
                     && q == PostPage(Post(ts[j], cs[j].postType)) {
        var j :| 0 <= j < |cs| && !Skipped(seen[j], includeDrafts) && Has(seen[j], "layout")
                 && q == PostPage(Post(ts[j], cs[j].postType));
        if j < n {
          assert cs[..n][j] == cs[j] && ts[..n][j] == ts[j] && seen[..n][j] == seen[j];
        }
      }
    }
  }

  /** With drafts included every visited file becomes a post, in order. */
  lemma {:induction false} AllKeptWithDrafts(cs: seq<Candidate>, ts: seq<Template>, seen: seq<Meta>)
    requires |cs| == |ts| == |seen|
    ensures var ps := KeptPosts(cs, ts, seen, true);
      |ps| == |cs| && forall j :: 0 <= j < |cs| ==> ps[j] == Post(ts[j], cs[j].postType)
    decreases |cs|
  {
    if |cs| > 0 {
      var n := |cs| - 1;
      AllKeptWithDrafts(cs[..n], ts[..n], seen[..n]);
    }
  }

  /** `_walkFiles`' list: the walked files, then `includeFiles`, then the
      entries of `_pages`. */
  function FileList(config: Config, env: Env): seq<string> {
    Walk(".", env.root, config.excludeFiles, env.matches) + config.includeFiles + env.glob("_pages/*")
  }

  /** `if (!file.data.permalink) file.data.permalink = filename`. */
  function DefaultPermalink(data: Meta, filename: string): Meta {
    if Has(data, "permalink") then data else data["permalink" := Str(filename)]
  }

  /** A file's data once `_walkFiles` has seen it: only files with data get a
      default permalink. */
  function Classified(data: Meta, filename: string): Meta {
    if |data| == 0 then data else DefaultPermalink(data, filename)
  }

  /** A page keeps the permalink it has; one without gets its file name, and
      every other key is kept. Classifying twice changes nothing more. */
  lemma PermalinkDefaulted(data: Meta, filename: string)
    ensures var d := Classified(data, filename);
      && (|data| == 0 ==> d == data)
      && (|data| > 0 && Has(data, "permalink") ==> d == data)
      && (|data| > 0 && !Has(data, "permalink") ==>
            d["permalink"] == Str(filename) && d.Keys == data.Keys + {"permalink"}
            && forall k :: k in data && k != "permalink" ==> d[k] == data[k])
      && Classified(d, filename) == d
  {
    var d := Classified(data, filename);
    if |data| > 0 && !Has(data, "permalink") {
      assert "permalink" in d;
      assert |d| > 0;
      if filename == "" {
        assert d["permalink" := Str(filename)] == d;
      }
    }
  }

  /** The plain files among `names`: those whose data was empty, in order. */
  function PlainFiles(names: seq<string>, seen: seq<Meta>): seq<string>
    requires |names| == |seen|
    decreases |names|
  {
    if |names| == 0 then []
    else
      var n := |names| - 1;
      PlainFiles(names[..n], seen[..n]) + (if |seen[n]| == 0 then [names[n]] else [])
  }

  /** The pages among them: one per file whose data was not empty, in order. */
  function DataPages(ts: seq<Template>, seen: seq<Meta>): seq<Page>
    requires |ts| == |seen|
    decreases |ts|
  {
    if |ts| == 0 then []
    else
      var n := |ts| - 1;
      DataPages(ts[..n], seen[..n]) + (if |seen[n]| == 0 then [] else [FilePage(ts[n])])
  }

  lemma NextFile(names: seq<string>, ts: seq<Template>, seen: seq<Meta>, f: string, t: Template, d: Meta)
    requires |names| == |ts| == |seen|
    ensures PlainFiles(names + [f], seen + [d]) == PlainFiles(names, seen) + (if |d| == 0 then [f] else [])
    ensures DataPages(ts + [t], seen + [d]) == DataPages(ts, seen) + (if |d| == 0 then [] else [FilePage(t)])
  {
    assert (names + [f])[..|names|] == names && (ts + [t])[..|ts|] == ts && (seen + [d])[..|seen|] == seen;
  }

  /** Each file goes to exactly one side: a plain file exactly when its data
      is empty, a page exactly when it is not. */
  lemma {:induction false} Partition(names: seq<string>, ts: seq<Template>, seen: seq<Meta>, f: string, q: Page)
    requires |names| == |ts| == |seen|
    ensures |PlainFiles(names, seen)| + |DataPages(ts, seen)| == |names|
    ensures f in PlainFiles(names, seen) <==> exists j :: 0 <= j < |names| && names[j] == f && |seen[j]| == 0
    ensures q in DataPages(ts, seen) <==> exists j :: 0 <= j < |ts| && q == FilePage(ts[j]) && |seen[j]| > 0
    decreases |names|
  {
    if |names| > 0 {
      var n := |names| - 1;
      Partition(names[..n], ts[..n], seen[..n], f, q);
      if exists j :: 0 <= j < |names| && names[j] == f && |seen[j]| == 0 {
        var j :| 0 <= j < |names| && names[j] == f && |seen[j]| == 0;
        if j < n {
          assert names[..n][j] == names[j] && seen[..n][j] == seen[j];
        }
      }
      if exists j :: 0 <= j < |ts| && q == FilePage(ts[j]) && |seen[j]| > 0 {
        var j :| 0 <= j < |ts| && q == FilePage(ts[j]) && |seen[j]| > 0;
        if j < n {
          assert ts[..n][j] == ts[j] && seen[..n][j] == seen[j];
        }
      }
    }
  }

  /** The destination after `_copyFiles` has copied `files` from `disk`. */
  function Copied(out: map<string, string>, destination: string, files: seq<string>, disk: map<string, string>)
    : map<string, string>
    requires forall f :: f in files ==> f in disk
    decreases |files|
  {
    if |files| == 0 then out
    else
      var n := |files| - 1;
      Copied(out, destination, files[..n], disk)[PathJoin(destination, files[n]) := disk[files[n]]]
  }

  /** Every copy is byte for byte the source file, at the source path joined
      onto the destination, and nothing else in the destination changes. */
  lemma {:induction false} CopiesAreExact(out: map<string, string>, destination: string, files: seq<string>,
                                          disk: map<string, string>)
    requires forall f :: f in files ==> f in disk
    ensures var o := Copied(out, destination, files, disk);
      && (forall f :: f in files ==> PathJoin(destination, f) in o && o[PathJoin(destination, f)] == disk[f])
      && (forall p :: p in o ==> p in out || exists f :: f in files && p == PathJoin(destination, f))
      && (forall p :: p in out && (forall f :: f in files ==> p != PathJoin(destination, f)) ==>
            p in o && o[p] == out[p])
    decreases |files|
  {
    if |files| > 0 {
      var n := |files| - 1;
      var prev := files[..n];
      assert forall f :: f in prev ==> f in files;
      CopiesAreExact(out, destination, prev, disk);
      var o := Copied(out, destination, files, disk);
      forall f | f in files
        ensures PathJoin(destination, f) in o && o[PathJoin(destination, f)] == disk[f]
      {
        if f != files[n] {
          assert f in prev by {
            var i :| 0 <= i < |files| && files[i] == f;
            assert prev[i] == f;
          }
          if PathJoin(destination, f) == PathJoin(destination, files[n]) {
            PathJoinInjective(destination, f, files[n]);
          }
        }
      }
      forall p | p in out && (forall f :: f in files ==> p != PathJoin(destination, f))
        ensures p in o && o[p] == out[p]
      {
        assert files[n] in files;
      }
    }
  }
}

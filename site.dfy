/** The site generator: `build` scans the working directory for posts, pages
    and plain files, loads the plugins, renders and copies; `rebuild` first
    drops the plugins' listeners and every cache. */
module Sites {
  import opened Wrappers
  import opened Metadata
  import opened FrontMatter
  import opened Paths
  import opened Configs
  import opened Templates
  import opened FileTree
  import opened Plugins
  import opened Steps
  import opened Scans

  /** What the walks of a build found: the templates each walk looked up, the
      data each had when it was looked up, and the posts, pages and plain
      files made from them. */
  datatype Found = Found(postTs: seq<Template>, postSeen: seq<Meta>, posts: seq<Post>, postPages: seq<Page>,
                         fileTs: seq<Template>, fileSeen: seq<Meta>, plain: seq<string>, filePages: seq<Page>)

  /** `ts[j]` is the registry's template for `names[j]` under `config`. */
  predicate RegisteredIn(m: map<string, Template>, config: Config, names: seq<string>, ts: seq<Template>) {
    |ts| == |names| && forall j :: 0 <= j < |names| ==> names[j] in m && m[names[j]] == ts[j] && ts[j].config == config
  }

  /** The stored templates of a configuration survive every later lookup. */
  lemma RegisteredGrows(before: map<string, Template>, after: map<string, Template>, config: Config,
                        sources: set<string>, names: seq<string>, ts: seq<Template>)
    requires RegisteredIn(before, config, names, ts) && Extends(before, after, config, sources)
    ensures RegisteredIn(after, config, names, ts)
  {
    forall j | 0 <= j < |names|
      ensures names[j] in after && after[names[j]] == ts[j]
    {
      assert names[j] in before && before[names[j]].config == config;
    }
  }

  /** `seen[j]` is the data `ts[j]` has now. */
  ghost predicate Holds(ts: seq<Template>, seen: seq<Meta>)
    reads ts
  {
    |ts| == |seen| && forall j :: 0 <= j < |ts| ==> ts[j].data == seen[j]
  }

  /** `ts[j]` is the registry's template for `names[j]`, and its data is
      what was seen for it, classified. */
  ghost predicate Classifies(m: map<string, Template>, config: Config, names: seq<string>, ts: seq<Template>,
                             seen: seq<Meta>)
    reads ts
  {
    && |seen| == |names| && RegisteredIn(m, config, names, ts)
    && forall j :: 0 <= j < |names| ==> ts[j].data == Classified(seen[j], names[j])
  }

  lemma RegisteredNext(m: map<string, Template>, config: Config, names: seq<string>, ts: seq<Template>,
                       f: string, t: Template)
    requires RegisteredIn(m, config, names, ts) && f in m && m[f] == t && t.config == config
    ensures RegisteredIn(m, config, names + [f], ts + [t])
  {
  }

  lemma HoldsConcat(a: seq<Template>, sa: seq<Meta>, b: seq<Template>, sb: seq<Meta>)
    requires Holds(a, sa) && Holds(b, sb)
    ensures Holds(a + b, sa + sb)
  {
    forall j | 0 <= j < |a + b|
      ensures (a + b)[j].data == (sa + sb)[j]
    {
      if j >= |a| {
        assert (a + b)[j] == b[j - |a|] && (sa + sb)[j] == sb[j - |a|];
      }
    }
  }

  lemma RegisteredConcat(m: map<string, Template>, config: Config, a: seq<Candidate>, ta: seq<Template>,
                         b: seq<Candidate>, tb: seq<Template>)
    requires RegisteredIn(m, config, Names(a), ta) && RegisteredIn(m, config, Names(b), tb)
    ensures RegisteredIn(m, config, Names(a + b), ta + tb)
  {
    NamesConcat(a, b);
    var names := Names(a + b);
    forall j | 0 <= j < |names|
      ensures names[j] in m && m[names[j]] == (ta + tb)[j] && (ta + tb)[j].config == config
    {
      if j >= |a| {
        assert names[j] == Names(b)[j - |a|];
      } else {
        assert names[j] == Names(a)[j];
      }
    }
  }

  /** The posts walk over `cs` so far: `ts[j]` is the registry's template
      for `cs[j]`, `seen[j]` its data, and `found` and `made` the posts and
      pages made from them. */
  ghost predicate PostsWalked(m: map<string, Template>, config: Config, cs: seq<Candidate>, ts: seq<Template>,
                              seen: seq<Meta>, found: seq<Post>, made: seq<Page>)
    reads ts
  {
    Holds(ts, seen) && PostsFound(m, config, cs, ts, seen, found, made)
  }

  /** The same without the data: what stays true once the data moves on. */
  predicate PostsFound(m: map<string, Template>, config: Config, cs: seq<Candidate>, ts: seq<Template>,
                       seen: seq<Meta>, found: seq<Post>, made: seq<Page>)
  {
    && |seen| == |ts| && RegisteredIn(m, config, Names(cs), ts)
    && found == KeptPosts(cs, ts, seen, config.includeDrafts)
    && made == PostPages(cs, ts, seen, config.includeDrafts)
  }

  /** Every post found is backed by a template the registry holds. */
  lemma PostRegistered(m: map<string, Template>, config: Config, cs: seq<Candidate>, ts: seq<Template>,
                       seen: seq<Meta>, found: seq<Post>, made: seq<Page>, p: Post)
    requires PostsFound(m, config, cs, ts, seen, found, made) && p in found
    ensures p.template in m.Values
  {
    KeptPostsExactly(cs, ts, seen, config.includeDrafts, p);
    var j :| 0 <= j < |cs| && !Skipped(seen[j], config.includeDrafts) && p == Post(ts[j], cs[j].postType);
    assert Names(cs)[j] in m && m[Names(cs)[j]] == p.template;
  }

  /** Every page made from a post is backed by a template the registry holds. */
  lemma PostPageRegistered(m: map<string, Template>, config: Config, cs: seq<Candidate>, ts: seq<Template>,
                           seen: seq<Meta>, found: seq<Post>, made: seq<Page>, q: Page)
    requires PostsFound(m, config, cs, ts, seen, found, made) && q in made
    ensures q.PostPage? && q.post.template in m.Values
  {
    PostPagesExactly(cs, ts, seen, config.includeDrafts, q);
    var j :| 0 <= j < |cs| && !Skipped(seen[j], config.includeDrafts) && Has(seen[j], "layout")
             && q == PostPage(Post(ts[j], cs[j].postType));
    assert Names(cs)[j] in m && m[Names(cs)[j]] == ts[j];
  }

  lemma PostsWalkedGrows(before: map<string, Template>, after: map<string, Template>, config: Config,
                         sources: set<string>, cs: seq<Candidate>, ts: seq<Template>, seen: seq<Meta>,
                         found: seq<Post>, made: seq<Page>)
    requires PostsWalked(before, config, cs, ts, seen, found, made) && Extends(before, after, config, sources)
    ensures PostsWalked(after, config, cs, ts, seen, found, made)
  {
    RegisteredGrows(before, after, config, sources, Names(cs), ts);
  }

  /** Visiting one more file `c`, whose template is `t`. */
  lemma PostsWalkedNext(m: map<string, Template>, config: Config, cs: seq<Candidate>, ts: seq<Template>,
                        seen: seq<Meta>, found: seq<Post>, made: seq<Page>, c: Candidate, t: Template)
    requires PostsWalked(m, config, cs, ts, seen, found, made)
    requires c.filename in m && m[c.filename] == t && t.config == config
    ensures PostsWalked(m, config, cs + [c], ts + [t], seen + [t.data],
                        found + (if Skipped(t.data, config.includeDrafts) then [] else [Post(t, c.postType)]),
                        made + (if Skipped(t.data, config.includeDrafts) || !Has(t.data, "layout") then []
                                else [PostPage(Post(t, c.postType))]))
  {
    NextPost(cs, ts, seen, config.includeDrafts, c, t, t.data);
    NamesNext(cs, c);
    RegisteredNext(m, config, Names(cs), ts, c.filename, t);
    HoldsConcat(ts, seen, [t], [t.data]);
  }

  /** Visiting two runs of files one after the other. */
  lemma PostsWalkedConcat(m: map<string, Template>, config: Config, cs: seq<Candidate>, ts: seq<Template>,
                          seen: seq<Meta>, found: seq<Post>, made: seq<Page>, more: seq<Candidate>,
                          moreTs: seq<Template>, moreSeen: seq<Meta>, moreFound: seq<Post>, moreMade: seq<Page>)
    requires PostsWalked(m, config, cs, ts, seen, found, made)
    requires PostsWalked(m, config, more, moreTs, moreSeen, moreFound, moreMade)
    ensures PostsWalked(m, config, cs + more, ts + moreTs, seen + moreSeen, found + moreFound, made + moreMade)
  {
    RegisteredConcat(m, config, cs, ts, more, moreTs);
    KeptConcat(cs, ts, seen, more, moreTs, moreSeen, config.includeDrafts);
    PagesConcat(cs, ts, seen, more, moreTs, moreSeen, config.includeDrafts);
    HoldsConcat(ts, seen, moreTs, moreSeen);
  }

  /** The files walk over `names` so far: `Classifies`, with `plain` and
      `made` the plain files and pages split off by the data seen. */
  ghost predicate FilesWalked(m: map<string, Template>, config: Config, names: seq<string>, ts: seq<Template>,
                              seen: seq<Meta>, plain: seq<string>, made: seq<Page>)
    reads ts
  {
    && Classifies(m, config, names, ts, seen)
    && plain == PlainFiles(names, seen)
    && made == DataPages(ts, seen)
  }

  lemma FilesWalkedGrows(before: map<string, Template>, after: map<string, Template>, config: Config,
                         sources: set<string>, names: seq<string>, ts: seq<Template>, seen: seq<Meta>,
                         plain: seq<string>, made: seq<Page>)
    requires FilesWalked(before, config, names, ts, seen, plain, made) && Extends(before, after, config, sources)
    ensures FilesWalked(after, config, names, ts, seen, plain, made)
  {
    RegisteredGrows(before, after, config, sources, names, ts);
  }

  /** Every page made from a file is backed by a template the registry holds. */
  lemma FilePageRegistered(m: map<string, Template>, config: Config, names: seq<string>, ts: seq<Template>,
                           seen: seq<Meta>, plain: seq<string>, made: seq<Page>, q: Page)
    requires FilesWalked(m, config, names, ts, seen, plain, made) && q in made
    ensures q.FilePage? && q.template in m.Values
  {
    Partition(names, ts, seen, "", q);
    var j :| 0 <= j < |ts| && q == FilePage(ts[j]) && |seen[j]| > 0;
    assert names[j] in m && m[names[j]] == ts[j];
  }

  /** What the walks of a build found, as the registry `m` now holds it. */
  ghost predicate Walked(m: map<string, Template>, config: Config, env: Env, found: Found)
    reads found.fileTs
  {
    && PostsFound(m, config, PostCandidates(config.postTypes, env), found.postTs, found.postSeen, found.posts,
                  found.postPages)
    && FilesWalked(m, config, FileList(config, env), found.fileTs, found.fileSeen, found.plain, found.filePages)
  }

  /** Every template behind a post or page a build found is held by the
      registry. */
  lemma FoundRegistered(m: map<string, Template>, config: Config, env: Env, found: Found)
    requires Walked(m, config, env, found)
    ensures forall p :: p in found.posts ==> p.template in m.Values
    ensures forall q :: q in found.postPages + found.filePages && q.PostPage? ==> q.post.template in m.Values
    ensures forall q :: q in found.postPages + found.filePages && q.FilePage? ==> q.template in m.Values
  {
    var cs := PostCandidates(config.postTypes, env);
    forall p | p in found.posts ensures p.template in m.Values {
      PostRegistered(m, config, cs, found.postTs, found.postSeen, found.posts, found.postPages, p);
    }
    forall q | q in found.postPages + found.filePages
      ensures q.PostPage? ==> q.post.template in m.Values
      ensures q.FilePage? ==> q.template in m.Values
    {
      if q in found.postPages {
        PostPageRegistered(m, config, cs, found.postTs, found.postSeen, found.posts, found.postPages, q);
      } else {
        FilePageRegistered(m, config, FileList(config, env), found.fileTs, found.fileSeen, found.plain,
                           found.filePages, q);
      }
    }
  }

  class Site {
    const config: Config
    /** The template store, shared by every site of the process. */
    const registry: Registry
    /** `_files`: the plain files to copy. */
    var files: seq<string>
    /** `_taxonomies`. */
    var taxonomies: map<string, seq<Post>>
    /** The posts of the post manager, in the order they were added. */
    var posts: seq<Post>
    /** The pages registered with `Page`, in the order they were made. */
    var pages: seq<Page>
    /** The plugins whose listeners are registered, in the order they were loaded. */
    var plugins: seq<Plugin>
    /** The files below the destination directory, keyed by path. */
    var output: map<string, string>
    /** What the site has done so far. */
    var trace: seq<Step>

    /** `new Site(options)`: nothing found, loaded or written yet. */
    constructor (config: Config, registry: Registry)
      ensures this.config == config && this.registry == registry
      ensures files == [] && taxonomies == map[] && posts == [] && pages == [] && plugins == []
      ensures output == map[] && trace == []
    {
      this.config := config;
      this.registry := registry;
      files := [];
      taxonomies := map[];
      posts := [];
      pages := [];
      plugins := [];
      output := map[];
      trace := [];
    }

    /** `Template.getOrCreateFromFile(filename, this.config)`, with what the
        walks rely on: the registry only grows, and the result is what it now
        holds for the file. */
    method Lookup(filename: string, env: Env) returns (r: Result<Template, TemplateError>)
      requires registry.Valid()
      modifies registry
      ensures registry.Valid()
      ensures Extends(old(registry.files), registry.files, config, Disk(env).Keys)
      ensures old(registry.Repr) <= registry.Repr && fresh(registry.Repr - old(registry.Repr))
      ensures r.Ok? ==> filename in registry.files && registry.files[filename] == r.value && r.value.config == config
      ensures r.Ok? && old(registry.Cached(filename, config)) ==> r.value == old(registry.files[filename])
    {
      r := registry.GetOrCreateFromFile(filename, config, Disk(env), env.parseJson, {});
    }

    /** `_createPlaceholders`. */
    method CreatePlaceholders(env: Env)
      modifies this
      ensures files == [] && taxonomies == Placeholders(config.taxonomyTypes, env.pluralize)
      ensures posts == old(posts) && pages == old(pages) && plugins == old(plugins) && output == old(output)
      ensures trace == old(trace) + [Begin(Phase.CreatePlaceholders)]
    {
      trace := trace + [Begin(Phase.CreatePlaceholders)];
      files := [];
      var types := config.taxonomyTypes;
      var placeholders: map<string, seq<Post>> := map[];
      for i := 0 to |types|
        invariant placeholders == Placeholders(types[..i], env.pluralize)
      {
        assert types[..i + 1][..i] == types[..i];
        placeholders := placeholders[env.pluralize(types[i]) := []];
      }
      assert types[..|types|] == types;
      taxonomies := placeholders;
    }

    /** One file of the callback `_walkPosts` runs: it is looked up; one that
        is not a skipped draft becomes a post, and a post with a layout also
        becomes a page. */
    method VisitPost(env: Env, c: Candidate, ghost cs: seq<Candidate>, ghost ts: seq<Template>, ghost seen: seq<Meta>,
                     found: seq<Post>, made: seq<Page>)
      returns (r: Result<Template, TemplateError>, found': seq<Post>, made': seq<Page>)
      requires registry.Valid() && PostsWalked(registry.files, config, cs, ts, seen, found, made)
      modifies registry
      ensures registry.Valid()
      ensures Extends(old(registry.files), registry.files, config, Disk(env).Keys)
      ensures old(registry.Repr) <= registry.Repr && fresh(registry.Repr - old(registry.Repr))
      ensures r.Ok? ==>
        PostsWalked(registry.files, config, cs + [c], ts + [r.value], seen + [r.value.data], found', made')
    {
      ghost var mid := registry.files;
      found', made' := found, made;
      r := Lookup(c.filename, env);
      if r.Err? {
        return;
      }
      var t := r.value;
      PostsWalkedGrows(mid, registry.files, config, Disk(env).Keys, cs, ts, seen, found, made);
      PostsWalkedNext(registry.files, config, cs, ts, seen, found, made, c, t);
      if !Skipped(t.data, config.includeDrafts) {
        var post := Post(t, c.postType);
        found' := found' + [post];
        if Has(post.template.data, "layout") {
          made' := made' + [PostPage(post)];
        }
      }
    }

    /** The callback `_walkPosts` runs over one post type's files, in order. */
    method WalkPostType(env: Env, postType: string)
      returns (r: Outcome<TemplateError>, found: seq<Post>, made: seq<Page>, ghost ts: seq<Template>, ghost seen: seq<Meta>)
      requires registry.Valid()
      modifies registry
      ensures registry.Valid()
      ensures Extends(old(registry.files), registry.files, config, Disk(env).Keys)
      ensures old(registry.Repr) <= registry.Repr && fresh(registry.Repr - old(registry.Repr))
      ensures r.Pass? ==>
        PostsWalked(registry.files, config, Tagged(postType, env.glob(PostGlob(postType, env.pluralize))),
                    ts, seen, found, made)
    {
      var names := env.glob(PostGlob(postType, env.pluralize));
      ts, seen, found, made := [], [], [], [];
      ghost var start, startRepr, sources := registry.files, registry.Repr, Disk(env).Keys;
      var i := 0;
      while i < |names|
        invariant 0 <= i <= |names|
        invariant registry.Valid()
        invariant Extends(start, registry.files, config, sources)
        invariant startRepr <= registry.Repr && fresh(registry.Repr - startRepr)
        invariant PostsWalked(registry.files, config, Tagged(postType, names[..i]), ts, seen, found, made)
      {
        ghost var before := registry.files;
        var c := Candidate(postType, names[i]);
        var lr;
        lr, found, made := VisitPost(env, c, Tagged(postType, names[..i]), ts, seen, found, made);
        ExtendsTrans(start, before, registry.files, config, sources);
        if lr.Err? {
          return Fail(lr.error), found, made, ts, seen;
        }
        TaggedNext(postType, names, i);
        ts, seen := ts + [lr.value], seen + [lr.value.data];
        i := i + 1;
      }
      assert names[..|names|] == names;
      r := Pass;
    }

    /** One post type of `_walkPosts`: its files are walked after those of
        the post types before it. */
    method VisitPostType(env: Env, postTypes: seq<string>, k: nat, ghost ts: seq<Template>, ghost seen: seq<Meta>,
                         found: seq<Post>, made: seq<Page>)
      returns (r: Outcome<TemplateError>, found': seq<Post>, made': seq<Page>, ghost ts': seq<Template>,
               ghost seen': seq<Meta>)
      requires k < |postTypes|
      requires registry.Valid() && PostsWalked(registry.files, config, PostCandidates(postTypes[..k], env), ts, seen, found, made)
      modifies registry
      ensures registry.Valid()
      ensures Extends(old(registry.files), registry.files, config, Disk(env).Keys)
      ensures old(registry.Repr) <= registry.Repr && fresh(registry.Repr - old(registry.Repr))
      ensures r.Pass? ==>
        PostsWalked(registry.files, config, PostCandidates(postTypes[..k + 1], env), ts', seen', found', made')
      ensures r.Fail? ==> found <= found' && made <= made'
    {
      ghost var cs := PostCandidates(postTypes[..k], env);
      ghost var mid := registry.files;
      var someFound, someMade;
      ghost var moreTs, moreSeen;
      r, someFound, someMade, moreTs, moreSeen := WalkPostType(env, postTypes[k]);
      found', made', ts', seen' := found + someFound, made + someMade, ts + moreTs, seen + moreSeen;
      if r.Fail? {
        return;
      }
      PostsWalkedGrows(mid, registry.files, config, Disk(env).Keys, cs, ts, seen, found, made);
      PostsWalkedConcat(registry.files, config, cs, ts, seen, found, made,
                        Tagged(postTypes[k], env.glob(PostGlob(postTypes[k], env.pluralize))),
                        moreTs, moreSeen, someFound, someMade);
      PostCandidatesNext(postTypes, env, k);
    }

    /** The loop of `_walkPosts`: the files of every post type in turn. */
    method WalkPostTypes(env: Env)
      returns (r: Outcome<TemplateError>, found: seq<Post>, made: seq<Page>, ghost ts: seq<Template>, ghost seen: seq<Meta>)
      requires registry.Valid()
      modifies registry
      ensures registry.Valid()
      ensures Extends(old(registry.files), registry.files, config, Disk(env).Keys)
      ensures old(registry.Repr) <= registry.Repr && fresh(registry.Repr - old(registry.Repr))
      ensures r.Pass? ==>
        PostsWalked(registry.files, config, PostCandidates(config.postTypes, env), ts, seen, found, made)
    {
      ts, seen, found, made := [], [], [], [];
      ghost var start, startRepr, sources := registry.files, registry.Repr, Disk(env).Keys;
      var postTypes := config.postTypes;
      var k := 0;
      while k < |postTypes|
        invariant 0 <= k <= |postTypes|
        invariant registry.Valid()
        invariant Extends(start, registry.files, config, sources)
        invariant startRepr <= registry.Repr && fresh(registry.Repr - startRepr)
        invariant PostsWalked(registry.files, config, PostCandidates(postTypes[..k], env), ts, seen, found, made)
      {
        ghost var before := registry.files;
        var step;
        step, found, made, ts, seen := VisitPostType(env, postTypes, k, ts, seen, found, made);
        ExtendsTrans(start, before, registry.files, config, sources);
        if step.Fail? {
          return step, found, made, ts, seen;
        }
        k := k + 1;
      }
      assert postTypes[..|postTypes|] == postTypes;
      r := Pass;
    }

    /** `_walkPosts`: what the walk finds is added to the post manager and the
        pages, up to the file that fails. */
    method WalkPosts(env: Env)
      returns (r: Outcome<TemplateError>, ghost ts: seq<Template>, ghost seen: seq<Meta>, ghost found: seq<Post>,
               ghost made: seq<Page>)
      requires registry.Valid()
      modifies this, registry
      ensures registry.Valid()
      ensures Extends(old(registry.files), registry.files, config, Disk(env).Keys)
      ensures old(registry.Repr) <= registry.Repr && fresh(registry.Repr - old(registry.Repr))
      ensures files == old(files) && taxonomies == old(taxonomies) && plugins == old(plugins) && output == old(output)
      ensures trace == old(trace) + [Begin(Phase.WalkPosts)]
      ensures posts == old(posts) + found && pages == old(pages) + made
      ensures r.Pass? ==>
        PostsWalked(registry.files, config, PostCandidates(config.postTypes, env), ts, seen, found, made)
    {
      trace := trace + [Begin(Phase.WalkPosts)];
      var someFound, someMade;
      r, someFound, someMade, ts, seen := WalkPostTypes(env);
      posts := posts + someFound;
      pages := pages + someMade;
      found, made := someFound, someMade;
    }

    /** `if (!file.data.permalink) file.data.permalink = filename`, for a
        file with data. */
    static method ClassifyFile(file: Template, filename: string)
      modifies file
      ensures file.data == Classified(old(file.data), filename)
    {
      var data := file.data;
      if |data| > 0 && !Has(data, "permalink") {
        file.data := data["permalink" := Str(filename)];
      }
    }

    /** One file of `_walkFiles` once looked up: it is classified, and the
        data it had is what was seen for it. Its template may be one already
        walked, under the same name. */
    method ClassifyWalked(file: Template, filename: string, ghost names: seq<string>, ghost ts: seq<Template>,
                          ghost seen: seq<Meta>)
      requires registry.Valid() && Classifies(registry.files, config, names, ts, seen)
      requires filename in registry.files && registry.files[filename] == file && file.config == config
      modifies file
      ensures Classifies(registry.files, config, names + [filename], ts + [file], seen + [old(file.data)])
    {
      forall j | 0 <= j < |names| && ts[j] == file
        ensures names[j] == filename
      {
        assert registry.files[names[j]] == file && registry.files[filename] == file;
      }
      ghost var data := file.data;
      ClassifyFile(file, filename);
      forall j | 0 <= j < |names|
        ensures ts[j].data == Classified(seen[j], names[j])
      {
        if ts[j] == file {
          PermalinkDefaulted(seen[j], filename);
        }
      }
      RegisteredNext(registry.files, config, names, ts, filename, file);
    }

    /** One file of `_walkFiles`: it is looked up and classified; `data` is
        what it held before. */
    method VisitFile(env: Env, names: seq<string>, i: nat, ghost ts: seq<Template>,
                     ghost seen: seq<Meta>, plain: seq<string>, made: seq<Page>)
      returns (r: Result<Template, TemplateError>, ghost ts': seq<Template>, ghost seen': seq<Meta>, plain': seq<string>,
               made': seq<Page>)
      requires i < |names|
      requires registry.Valid() && FilesWalked(registry.files, config, names[..i], ts, seen, plain, made)
      modifies registry, registry.Repr
      ensures registry.Valid()
      ensures Extends(old(registry.files), registry.files, config, Disk(env).Keys)
      ensures old(registry.Repr) <= registry.Repr && fresh(registry.Repr - old(registry.Repr))
      ensures r.Ok? ==>
        FilesWalked(registry.files, config, names[..i + 1], ts', seen', plain', made')
    {
      var filename := names[i];
      TakeNext(names, i);
      ghost var done := names[..i];
      ghost var mid := registry.files;
      plain', made', ts', seen' := plain, made, ts, seen;
      r := Lookup(filename, env);
      if r.Err? {
        return;
      }
      var file := r.value;
      var d := file.data;
      ts', seen' := ts + [file], seen + [d];
      FilesWalkedGrows(mid, registry.files, config, Disk(env).Keys, done, ts, seen, plain, made);
      ClassifyWalked(file, filename, done, ts, seen);
      NextFile(done, ts, seen, filename, file, d);
      if |d| > 0 {
        made' := made' + [FilePage(file)];
      } else {
        plain' := plain' + [filename];
      }
    }

    /** The loop of `_walkFiles` over `names`: a file with data becomes a
        page, a file without data is kept to be copied. */
    method WalkFileList(env: Env, names: seq<string>)
      returns (r: Outcome<TemplateError>, plain: seq<string>, made: seq<Page>, ghost ts: seq<Template>, ghost seen: seq<Meta>)
      requires registry.Valid()
      modifies registry, registry.Repr
      ensures registry.Valid()
      ensures Extends(old(registry.files), registry.files, config, Disk(env).Keys)
      ensures old(registry.Repr) <= registry.Repr && fresh(registry.Repr - old(registry.Repr))
      ensures r.Pass? ==> FilesWalked(registry.files, config, names, ts, seen, plain, made)
    {
      ts, seen, plain, made := [], [], [], [];
      ghost var start, startRepr, sources := registry.files, registry.Repr, Disk(env).Keys;
      var i := 0;
      while i < |names|
        invariant 0 <= i <= |names|
        invariant registry.Valid()
        invariant Extends(start, registry.files, config, sources)
        invariant startRepr <= registry.Repr && fresh(registry.Repr - startRepr)
        invariant FilesWalked(registry.files, config, names[..i], ts, seen, plain, made)
        decreases |names| - i
      {
        ghost var before := registry.files;
        var lr;
        lr, ts, seen, plain, made := VisitFile(env, names, i, ts, seen, plain, made);
        ExtendsTrans(start, before, registry.files, config, sources);
        if lr.Err? {
          return Fail(lr.error), plain, made, ts, seen;
        }
        i := i + 1;
      }
      assert names[..i] == names;
      r := Pass;
    }

    /** `_walkFiles`: every walked, included and `_pages` file is looked up; a
        file with data becomes a page, a file without data is kept to be
        copied. */
    method WalkFiles(env: Env)
      returns (r: Outcome<TemplateError>, ghost ts: seq<Template>, ghost seen: seq<Meta>, ghost plain: seq<string>,
               ghost made: seq<Page>)
      requires registry.Valid()
      modifies this, registry, registry.Repr
      ensures registry.Valid()
      ensures Extends(old(registry.files), registry.files, config, Disk(env).Keys)
      ensures old(registry.Repr) <= registry.Repr && fresh(registry.Repr - old(registry.Repr))
      ensures taxonomies == old(taxonomies) && posts == old(posts) && plugins == old(plugins) && output == old(output)
      ensures trace == old(trace) + [Begin(Phase.WalkFiles)]
      ensures files == old(files) + plain && pages == old(pages) + made
      ensures r.Pass? ==> FilesWalked(registry.files, config, FileList(config, env), ts, seen, plain, made)
    {
      var walked := GetFiles(".", env.root, config.excludeFiles, env.matches);
      trace := trace + [Begin(Phase.WalkFiles)];
      var somePlain, someMade;
      r, somePlain, someMade, ts, seen := WalkFileList(env, walked + config.includeFiles + env.glob("_pages/*"));
      files := files + somePlain;
      pages := pages + someMade;
      plain, made := somePlain, someMade;
    }

    /** `_ensureCleanDestination`: the destination directory is removed. */
    method EnsureCleanDestination()
      modifies this
      ensures output == map[]
      ensures files == old(files) && taxonomies == old(taxonomies) && posts == old(posts)
      ensures pages == old(pages) && plugins == old(plugins)
      ensures trace == old(trace) + [Begin(CleanDestination)]
    {
      trace := trace + [Begin(CleanDestination)];
      output := map[];
    }

    /** `_registerPartials`: the partials go to Handlebars, outside the model. */
    method RegisterPartials()
      modifies this
      ensures files == old(files) && taxonomies == old(taxonomies) && posts == old(posts)
      ensures pages == old(pages) && plugins == old(plugins) && output == old(output)
      ensures trace == old(trace) + [Begin(Phase.RegisterPartials)]
    {
      trace := trace + [Begin(Phase.RegisterPartials)];
    }

    /** `_loadPlugins`: the system plugins not shadowed by a local plugin and
        not excluded, then the local plugins not excluded. */
    method LoadPlugins(env: Env)
      modifies this
      ensures plugins == old(plugins) + LoadOrder(env.systemPlugins, env.localPlugins, config.excludePlugins)
      ensures files == old(files) && taxonomies == old(taxonomies) && posts == old(posts)
      ensures pages == old(pages) && output == old(output)
      ensures trace == old(trace) + [Begin(Phase.LoadPlugins)]
    {
      trace := trace + [Begin(Phase.LoadPlugins)];
      var loaded := Requires(env.systemPlugins, env.localPlugins, config.excludePlugins);
      plugins := plugins + loaded;
    }

    /** `_paginate`: pagination belongs to `Page`, outside the model. */
    method Paginate()
      modifies this
      ensures files == old(files) && taxonomies == old(taxonomies) && posts == old(posts)
      ensures pages == old(pages) && plugins == old(plugins) && output == old(output)
      ensures trace == old(trace) + [Begin(Phase.Paginate)]
    {
      trace := trace + [Begin(Phase.Paginate)];
    }

    /** `_renderPosts`: every post of the post manager, in order. */
    method RenderPosts()
      modifies this
      ensures files == old(files) && taxonomies == old(taxonomies) && posts == old(posts)
      ensures pages == old(pages) && plugins == old(plugins) && output == old(output)
      ensures trace == old(trace) + [Begin(Phase.RenderPosts)] + PostSteps(|posts|)
    {
      var steps: seq<Step> := [];
      for i := 0 to |posts|
        invariant steps == PostSteps(i)
      {
        steps := steps + [RenderPost(i)];
      }
      trace := trace + [Begin(Phase.RenderPosts)] + steps;
    }

    /** `_renderPages`: every page rendered and then written, in order. */
    method RenderPages()
      modifies this
      ensures files == old(files) && taxonomies == old(taxonomies) && posts == old(posts)
      ensures pages == old(pages) && plugins == old(plugins) && output == old(output)
      ensures trace == old(trace) + [Begin(Phase.RenderPages)] + PageSteps(|pages|)
    {
      var steps: seq<Step> := [];
      for i := 0 to |pages|
        invariant steps == PageSteps(i)
      {
        steps := steps + [RenderPage(i), WritePage(i)];
      }
      trace := trace + [Begin(Phase.RenderPages)] + steps;
    }

    /** `_copyFiles`: each plain file in order, bracketed by `beforeCopy` and
        `afterCopy`. Reading a file that is not there throws after its
        `beforeCopy`. */
    method CopyFiles(env: Env) returns (r: Outcome<TemplateError>)
      modifies this
      ensures files == old(files) && taxonomies == old(taxonomies) && posts == old(posts)
      ensures pages == old(pages) && plugins == old(plugins)
      ensures r.Pass? <==> forall f :: f in files ==> f in Disk(env)
      ensures r.Pass? ==>
        && output == Copied(old(output), config.destination, files, Disk(env))
        && trace == old(trace) + Copying(files)
      ensures r.Fail? ==>
        exists k :: 0 <= k < |files| && files[k] !in Disk(env)
          && (forall j :: 0 <= j < k ==> files[j] in Disk(env))
          && r == Fail(FileNotFound(files[k]))
          && output == Copied(old(output), config.destination, files[..k], Disk(env))
          && trace == old(trace) + CopyAbort(files[..k], files[k])
    {
      var disk := Disk(env);
      var copying := files;
      var written := output;
      var steps: seq<Step> := [];
      for i := 0 to |copying|
        invariant forall j :: 0 <= j < i ==> copying[j] in disk
        invariant written == Copied(output, config.destination, copying[..i], disk)
        invariant steps == CopySteps(copying[..i])
      {
        var filename := copying[i];
        var destination := PathJoin(config.destination, filename);
        if filename !in disk {
          trace := trace + CopyAbort(copying[..i], filename);
          output := written;
          return Fail(FileNotFound(filename));
        }
        assert copying[..i + 1][..i] == copying[..i];
        written := written[destination := disk[filename]];
        steps := steps + [Emit(BeforeCopy(filename)), Emit(AfterCopy(filename))];
      }
      assert copying[..|copying|] == copying;
      trace := trace + Copying(copying);
      output := written;
      r := Pass;
    }

    /** `_clearCaches`: a new post manager and empty template, page and
        taxonomy stores. */
    method ClearCaches()
      modifies this, registry
      ensures registry.Valid() && registry.files == map[] && registry.Repr == {}
      ensures posts == [] && pages == []
      ensures files == old(files) && taxonomies == old(taxonomies) && plugins == old(plugins) && output == old(output)
      ensures trace == old(trace) + [Begin(Phase.ClearCaches)]
    {
      trace := trace + [Begin(Phase.ClearCaches)];
      posts := [];
      registry.Reset();
      pages := [];
    }

    /** The walks of `build`: placeholders, posts, files. */
    method Scan(env: Env) returns (r: Outcome<TemplateError>, ghost found: Found)
      requires registry.Valid()
      modifies this, registry, registry.Repr
      ensures registry.Valid()
      ensures Extends(old(registry.files), registry.files, config, Disk(env).Keys)
      ensures old(registry.Repr) <= registry.Repr && fresh(registry.Repr - old(registry.Repr))
      ensures plugins == old(plugins) && output == old(output)
      ensures r.Fail? ==> trace == old(trace) + Walks[..2] || trace == old(trace) + Walks
      ensures r.Pass? ==>
        && Walked(registry.files, config, env, found)
        && taxonomies == Placeholders(config.taxonomyTypes, env.pluralize)
        && posts == old(posts) + found.posts
        && pages == old(pages) + found.postPages + found.filePages
        && files == found.plain
        && trace == old(trace) + Walks
    {
      CreatePlaceholders(env);
      ghost var postTs, postSeen, somePosts, postPages;
      r, postTs, postSeen, somePosts, postPages := WalkPosts(env);
      found := Found(postTs, postSeen, somePosts, postPages, [], [], [], []);
      if r.Fail? {
        return;
      }
      ghost var afterPosts := registry.files;
      ghost var fileTs, fileSeen, plain, filePages;
      r, fileTs, fileSeen, plain, filePages := WalkFiles(env);
      found := Found(postTs, postSeen, somePosts, postPages, fileTs, fileSeen, plain, filePages);
      if r.Fail? {
        return;
      }
      RegisteredGrows(afterPosts, registry.files, config, Disk(env).Keys,
                      Names(PostCandidates(config.postTypes, env)), postTs);
    }

    /** The phases of `build` from cleaning the destination to writing the
        pages. */
    method Render(env: Env)
      modifies this
      ensures files == old(files) && taxonomies == old(taxonomies) && posts == old(posts) && pages == old(pages)
      ensures plugins == old(plugins) + LoadOrder(env.systemPlugins, env.localPlugins, config.excludePlugins)
      ensures output == map[]
      ensures trace == old(trace) + Rendering(|posts|, |pages|)
    {
      EnsureCleanDestination();
      RegisterPartials();
      LoadPlugins(env);
      trace := trace + [Emit(BeforeBuild)];
      Paginate();
      trace := trace + [Emit(BeforeRender)];
      RenderPosts();
      RenderPages();
      RenderingOrder(old(trace), |posts|, |pages|);
    }

    /** The rest of `build` after its walks: render, copy, `afterBuild`. */
    method Publish(env: Env) returns (r: Outcome<TemplateError>)
      modifies this
      ensures files == old(files) && taxonomies == old(taxonomies) && posts == old(posts) && pages == old(pages)
      ensures plugins == old(plugins) + LoadOrder(env.systemPlugins, env.localPlugins, config.excludePlugins)
      ensures r.Pass? <==> forall f :: f in files ==> f in Disk(env)
      ensures r.Pass? ==>
        && output == Copied(map[], config.destination, files, Disk(env))
        && trace == old(trace) + Publishing(|posts|, |pages|, files)
      ensures r.Fail? ==>
        exists k :: 0 <= k < |files| && files[k] !in Disk(env)
          && trace == old(trace) + Aborted(|posts|, |pages|, files[..k], files[k])
    {
      Render(env);
      ghost var rendered := trace;
      r := CopyFiles(env);
      if r.Fail? {
        ghost var k :| 0 <= k < |files| && files[k] !in Disk(env) && trace == rendered + CopyAbort(files[..k], files[k]);
        Grouped(old(trace), Rendering(|posts|, |pages|), CopyAbort(files[..k], files[k]));
        return;
      }
      trace := trace + [Emit(AfterBuild)];
      Grouped(old(trace), Rendering(|posts|, |pages|), Copying(files));
      Grouped(old(trace), Rendering(|posts|, |pages|) + Copying(files), [Emit(AfterBuild)]);
    }

    /** `build`: the phases in their fixed order. A template that cannot be
        read or parsed, or a plain file that cannot be read, stops the build
        before `afterBuild`. */
    method Build(env: Env) returns (r: Outcome<TemplateError>, ghost found: Found)
      requires registry.Valid()
      modifies this, registry, registry.Repr
      ensures registry.Valid()
      ensures Extends(old(registry.files), registry.files, config, Disk(env).Keys)
      ensures old(registry.Repr) <= registry.Repr && fresh(registry.Repr - old(registry.Repr))
      ensures old(trace) <= trace
      ensures r.Fail? ==> Emit(AfterBuild) !in trace[|old(trace)|..]
      ensures r.Pass? ==>
        && Walked(registry.files, config, env, found)
        && taxonomies == Placeholders(config.taxonomyTypes, env.pluralize)
        && posts == old(posts) + found.posts
        && pages == old(pages) + found.postPages + found.filePages
        && files == found.plain
        && plugins == old(plugins) + LoadOrder(env.systemPlugins, env.localPlugins, config.excludePlugins)
        && (forall f :: f in files ==> f in Disk(env))
        && output == Copied(map[], config.destination, files, Disk(env))
        && trace == old(trace) + BuildTrace(|posts|, |pages|, files)
    {
      r, found := Scan(env);
      if r.Fail? {
        Grouped(old(trace), Walks[..2], []);
        Grouped(old(trace), Walks, []);
        return;
      }
      r := Publish(env);
      if r.Fail? {
        ghost var k :| 0 <= k < |files| && files[k] !in Disk(env)
          && trace == old(trace) + Walks + Aborted(|posts|, |pages|, files[..k], files[k]);
        Grouped(old(trace), Walks, Aborted(|posts|, |pages|, files[..k], files[k]));
        Grouped(old(trace), Walks + Aborted(|posts|, |pages|, files[..k], files[k]), []);
        CutShort(|posts|, |pages|, files[..k], files[k]);
        return;
      }
      Grouped(old(trace), Walks, Publishing(|posts|, |pages|, files));
    }

    /** The steps of `rebuild` before its build: the listeners of every
        plugin are removed and the caches cleared. */
    method Reset()
      modifies this, registry
      ensures registry.Valid() && registry.files == map[] && registry.Repr == {}
      ensures posts == [] && pages == [] && plugins == []
      ensures files == old(files) && taxonomies == old(taxonomies) && output == old(output)
      ensures trace == old(trace) + [Begin(Phase.RemoveListeners), Begin(Phase.ClearCaches)]
    {
      trace := trace + [Begin(RemoveListeners)];
      plugins := [];
      ClearCaches();
      Grouped(old(trace), [Begin(Phase.RemoveListeners)], [Begin(Phase.ClearCaches)]);
    }

    /** `rebuild`: drop every listener, clear the caches, build again. Nothing
        found by an earlier build survives: the posts, pages and plain files
        are this build's alone, every stored template and every template
        behind a post or page is new, and only this build's plugins are
        registered. */
    method Rebuild(env: Env) returns (r: Outcome<TemplateError>, ghost found: Found)
      requires registry.Valid()
      modifies this, registry, registry.Repr
      ensures registry.Valid() && fresh(registry.Repr)
      ensures r.Pass? ==>
        && Walked(registry.files, config, env, found)
        && taxonomies == Placeholders(config.taxonomyTypes, env.pluralize)
        && posts == found.posts && pages == found.postPages + found.filePages && files == found.plain
        && plugins == LoadOrder(env.systemPlugins, env.localPlugins, config.excludePlugins)
        && (forall f :: f in files ==> f in Disk(env))
        && output == Copied(map[], config.destination, files, Disk(env))
        && (forall p :: p in posts ==> fresh(p.template))
        && (forall q :: q in pages && q.PostPage? ==> fresh(q.post.template))
        && (forall q :: q in pages && q.FilePage? ==> fresh(q.template))
        && trace == old(trace) + RebuildTrace(|posts|, |pages|, files)
    {
      Reset();
      ghost var cleared := [Begin(Phase.RemoveListeners), Begin(Phase.ClearCaches)];
      ghost var none: seq<Page> := pages;
      r, found := Build(env);
      if r.Pass? {
        assert none + found.postPages == found.postPages;
        FoundRegistered(registry.files, config, env, found);
        assert forall t :: t in registry.files.Values ==> t in registry.Repr;
        Grouped(old(trace), cleared, BuildTrace(|posts|, |pages|, files));
      }
    }  }
}

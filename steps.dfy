/** What a build does, in order, as a trace of steps: the start of each phase,
    each event emitted, and each post or page rendered and page written. */
module Steps {

  datatype Phase =
    | CreatePlaceholders | WalkPosts | WalkFiles | CleanDestination | RegisterPartials | LoadPlugins
    | Paginate | RenderPosts | RenderPages | CopyFiles | RemoveListeners | ClearCaches

  datatype Event = BeforeBuild | BeforeRender | AfterBuild | BeforeCopy(file: string) | AfterCopy(file: string)

  datatype Step = Begin(phase: Phase) | Emit(event: Event) | RenderPost(post: nat) | RenderPage(page: nat) | WritePage(page: nat)

  /** `_renderPosts`: every post rendered, in order. */
  function PostSteps(n: nat): (r: seq<Step>)
    ensures |r| == n && forall i :: 0 <= i < n ==> r[i] == RenderPost(i)
  {
    if n == 0 then [] else PostSteps(n - 1) + [RenderPost(n - 1)]
  }

  /** `_renderPages`: every page rendered and then written, in order. */
  function PageSteps(n: nat): (r: seq<Step>)
    ensures |r| == 2 * n
    ensures forall i :: 0 <= i < n ==> r[2 * i] == RenderPage(i) && r[2 * i + 1] == WritePage(i)
  {
    if n == 0 then [] else PageSteps(n - 1) + [RenderPage(n - 1), WritePage(n - 1)]
  }

  /** `_copyFiles`: each file's copy bracketed by `beforeCopy` and `afterCopy`. */
  function CopySteps(files: seq<string>): (r: seq<Step>)
    ensures |r| == 2 * |files|
    ensures forall i :: 0 <= i < |files| ==>
      r[2 * i] == Emit(BeforeCopy(files[i])) && r[2 * i + 1] == Emit(AfterCopy(files[i]))
    decreases |files|
  {
    if |files| == 0 then []
    else
      var n := |files| - 1;
      CopySteps(files[..n]) + [Emit(BeforeCopy(files[n])), Emit(AfterCopy(files[n]))]
  }

  /** The walks that scan the working directory. */
  const Walks: seq<Step> := [Begin(CreatePlaceholders), Begin(WalkPosts), Begin(WalkFiles)]

  /** The steps after the walks up to the rendering of posts. */
  const Setup: seq<Step> :=
    [Begin(CleanDestination), Begin(RegisterPartials), Begin(LoadPlugins), Emit(BeforeBuild), Begin(Paginate),
     Emit(BeforeRender), Begin(RenderPosts)]

  /** The steps from cleaning the destination to the last page written. */
  function Rendering(posts: nat, pages: nat): seq<Step> {
    Setup + PostSteps(posts) + [Begin(RenderPages)] + PageSteps(pages)
  }

  /** `_copyFiles` when every file is copied. */
  function Copying(copied: seq<string>): seq<Step> {
    [Begin(CopyFiles)] + CopySteps(copied)
  }

  /** `_copyFiles` when it copies `done` and then cannot read `failed`. */
  function CopyAbort(done: seq<string>, failed: string): seq<Step> {
    [Begin(CopyFiles)] + CopySteps(done) + [Emit(BeforeCopy(failed))]
  }

  /** `build` after its walks have found `posts` posts, `pages` pages and the
      plain files `copied`. */
  function Publishing(posts: nat, pages: nat, copied: seq<string>): seq<Step> {
    Rendering(posts, pages) + Copying(copied) + [Emit(AfterBuild)]
  }

  /** `build` after its walks, when it stops at a plain file it cannot read. */
  function Aborted(posts: nat, pages: nat, done: seq<string>, failed: string): seq<Step> {
    Rendering(posts, pages) + CopyAbort(done, failed)
  }

  /** `build`, whole. */
  function BuildTrace(posts: nat, pages: nat, copied: seq<string>): seq<Step> {
    Walks + Publishing(posts, pages, copied)
  }

  /** `rebuild`: listeners removed and caches cleared before the build. */
  function RebuildTrace(posts: nat, pages: nat, copied: seq<string>): seq<Step> {
    [Begin(RemoveListeners), Begin(ClearCaches)] + BuildTrace(posts, pages, copied)
  }

  /** The phases a trace starts, in order. */
  function Phases(t: seq<Step>): seq<Phase>
    decreases |t|
  {
    if |t| == 0 then []
    else Phases(t[..|t| - 1]) + (if t[|t| - 1].Begin? then [t[|t| - 1].phase] else [])
  }

  /** The events a trace emits, in order. */
  function Events(t: seq<Step>): seq<Event>
    decreases |t|
  {
    if |t| == 0 then []
    else Events(t[..|t| - 1]) + (if t[|t| - 1].Emit? then [t[|t| - 1].event] else [])
  }

  lemma {:induction false} PhasesConcat(a: seq<Step>, b: seq<Step>)
    ensures Phases(a + b) == Phases(a) + Phases(b)
    decreases |b|
  {
    if |b| == 0 {
      assert a + b == a;
    } else {
      assert (a + b)[..|a + b| - 1] == a + b[..|b| - 1];
      PhasesConcat(a, b[..|b| - 1]);
    }
  }

  lemma {:induction false} EventsConcat(a: seq<Step>, b: seq<Step>)
    ensures Events(a + b) == Events(a) + Events(b)
    decreases |b|
  {
    if |b| == 0 {
      assert a + b == a;
    } else {
      assert (a + b)[..|a + b| - 1] == a + b[..|b| - 1];
      EventsConcat(a, b[..|b| - 1]);
    }
  }

  lemma PhasesOne(x: Step)
    ensures Phases([x]) == if x.Begin? then [x.phase] else []
  {
    assert [x][..0] == [];
  }

  lemma EventsOne(x: Step)
    ensures Events([x]) == if x.Emit? then [x.event] else []
  {
    assert [x][..0] == [];
  }

  /** A run of phase starts starts those phases. */
  lemma {:induction false} AllBegin(t: seq<Step>)
    requires forall i :: 0 <= i < |t| ==> t[i].Begin?
    ensures |Phases(t)| == |t| && forall i :: 0 <= i < |t| ==> Phases(t)[i] == t[i].phase
    decreases |t|
  {
    if |t| > 0 {
      AllBegin(t[..|t| - 1]);
    }
  }

  /** A run without phase starts starts none. */
  lemma {:induction false} NoBegin(t: seq<Step>)
    requires forall i :: 0 <= i < |t| ==> !t[i].Begin?
    ensures Phases(t) == []
    decreases |t|
  {
    if |t| > 0 {
      NoBegin(t[..|t| - 1]);
    }
  }

  /** A run of events emits those events. */
  lemma {:induction false} AllEmit(t: seq<Step>)
    requires forall i :: 0 <= i < |t| ==> t[i].Emit?
    ensures |Events(t)| == |t| && forall i :: 0 <= i < |t| ==> Events(t)[i] == t[i].event
    decreases |t|
  {
    if |t| > 0 {
      AllEmit(t[..|t| - 1]);
    }
  }

  /** A run without events emits none. */
  lemma {:induction false} NoEmit(t: seq<Step>)
    requires forall i :: 0 <= i < |t| ==> !t[i].Emit?
    ensures Events(t) == []
    decreases |t|
  {
    if |t| > 0 {
      NoEmit(t[..|t| - 1]);
    }
  }

  /** Rendering pages starts no phase and emits no event. */
  lemma PagesAreRenders(n: nat)
    ensures forall k :: 0 <= k < |PageSteps(n)| ==> PageSteps(n)[k].RenderPage? || PageSteps(n)[k].WritePage?
  {
    var t := PageSteps(n);
    forall k | 0 <= k < |t| ensures t[k].RenderPage? || t[k].WritePage? {
      var i := k / 2;
      assert k == 2 * i || k == 2 * i + 1;
    }
  }

  /** Copying is `beforeCopy` and `afterCopy` events only. */
  lemma CopiesAreEvents(files: seq<string>)
    ensures forall k :: 0 <= k < |CopySteps(files)| ==>
      CopySteps(files)[k].Emit? && (CopySteps(files)[k].event.BeforeCopy? || CopySteps(files)[k].event.AfterCopy?)
  {
    var t := CopySteps(files);
    forall k | 0 <= k < |t| ensures t[k].Emit? && (t[k].event.BeforeCopy? || t[k].event.AfterCopy?) {
      var i := k / 2;
      assert k == 2 * i || k == 2 * i + 1;
    }
  }

  /** Copying emits `beforeCopy` and `afterCopy` for each file in turn, and
      nothing else. */
  lemma CopyEvents(files: seq<string>)
    ensures var e := Events(CopySteps(files));
      |e| == 2 * |files| &&
      forall i :: 0 <= i < |files| ==> e[2 * i] == BeforeCopy(files[i]) && e[2 * i + 1] == AfterCopy(files[i])
  {
    CopiesAreEvents(files);
    AllEmit(CopySteps(files));
  }

  lemma PhasesSnoc(t: seq<Step>, x: Step)
    ensures Phases(t + [x]) == Phases(t) + (if x.Begin? then [x.phase] else [])
  {
    assert (t + [x])[..|t|] == t;
  }

  lemma EventsSnoc(t: seq<Step>, x: Step)
    ensures Events(t + [x]) == Events(t) + (if x.Emit? then [x.event] else [])
  {
    assert (t + [x])[..|t|] == t;
  }

  lemma SetupPhases()
    ensures Phases(Setup) == [CleanDestination, RegisterPartials, LoadPlugins, Paginate, RenderPosts]
  {
    var s3 := [Begin(CleanDestination), Begin(RegisterPartials), Begin(LoadPlugins)];
    AllBegin(s3);
    assert Phases(s3) == [CleanDestination, RegisterPartials, LoadPlugins];
    var s4 := s3 + [Emit(BeforeBuild)];
    PhasesSnoc(s3, Emit(BeforeBuild));
    var s5 := s4 + [Begin(Paginate)];
    PhasesSnoc(s4, Begin(Paginate));
    var s6 := s5 + [Emit(BeforeRender)];
    PhasesSnoc(s5, Emit(BeforeRender));
    PhasesSnoc(s6, Begin(RenderPosts));
    assert Setup == s6 + [Begin(RenderPosts)];
  }

  lemma SetupEvents()
    ensures Events(Setup) == [BeforeBuild, BeforeRender]
  {
    var s3 := [Begin(CleanDestination), Begin(RegisterPartials), Begin(LoadPlugins)];
    NoEmit(s3);
    var s4 := s3 + [Emit(BeforeBuild)];
    EventsSnoc(s3, Emit(BeforeBuild));
    var s5 := s4 + [Begin(Paginate)];
    EventsSnoc(s4, Begin(Paginate));
    var s6 := s5 + [Emit(BeforeRender)];
    EventsSnoc(s5, Emit(BeforeRender));
    EventsSnoc(s6, Begin(RenderPosts));
    assert Setup == s6 + [Begin(RenderPosts)];
  }

  /** Between its walks and the copy, `build` starts these phases. */
  lemma RenderingPhases(posts: nat, pages: nat)
    ensures Phases(Rendering(posts, pages)) ==
      [CleanDestination, RegisterPartials, LoadPlugins, Paginate, RenderPosts, RenderPages]
  {
    PagesAreRenders(pages);
    NoBegin(PostSteps(posts));
    NoBegin(PageSteps(pages));
    SetupPhases();
    var t1 := Setup + PostSteps(posts);
    var t2 := t1 + [Begin(RenderPages)];
    PhasesConcat(Setup, PostSteps(posts));
    PhasesConcat(t1, [Begin(RenderPages)]);
    PhasesConcat(t2, PageSteps(pages));
  }

  /** Between its walks and the copy, `build` emits `beforeBuild` and then
      `beforeRender`. */
  lemma RenderingEvents(posts: nat, pages: nat)
    ensures Events(Rendering(posts, pages)) == [BeforeBuild, BeforeRender]
  {
    PagesAreRenders(pages);
    NoEmit(PostSteps(posts));
    NoEmit(PageSteps(pages));
    SetupEvents();
    var t1 := Setup + PostSteps(posts);
    var t2 := t1 + [Begin(RenderPages)];
    EventsConcat(Setup, PostSteps(posts));
    EventsConcat(t1, [Begin(RenderPages)]);
    EventsConcat(t2, PageSteps(pages));
  }

  /** After its walks, `build` runs the remaining phases in this order. */
  lemma PublishingPhases(posts: nat, pages: nat, copied: seq<string>)
    ensures Phases(Publishing(posts, pages, copied)) ==
      [CleanDestination, RegisterPartials, LoadPlugins, Paginate, RenderPosts, RenderPages, CopyFiles]
  {
    CopiesAreEvents(copied);
    NoBegin(CopySteps(copied));
    RenderingPhases(posts, pages);
    PhasesConcat([Begin(CopyFiles)], CopySteps(copied));
    var r := Rendering(posts, pages);
    PhasesConcat(r, Copying(copied));
    PhasesConcat(r + Copying(copied), [Emit(AfterBuild)]);
  }

  /** `build` runs its phases in this order, whatever it finds. */
  lemma BuildPhases(posts: nat, pages: nat, copied: seq<string>)
    ensures Phases(BuildTrace(posts, pages, copied)) ==
      [CreatePlaceholders, WalkPosts, WalkFiles, CleanDestination, RegisterPartials, LoadPlugins,
       Paginate, RenderPosts, RenderPages, CopyFiles]
  {
    AllBegin(Walks);
    PublishingPhases(posts, pages, copied);
    PhasesConcat(Walks, Publishing(posts, pages, copied));
  }

  /** `build` emits `beforeBuild`, then `beforeRender`, then the copy events,
      then `afterBuild`, and nothing else. */
  lemma BuildEvents(posts: nat, pages: nat, copied: seq<string>)
    ensures Events(BuildTrace(posts, pages, copied)) ==
      [BeforeBuild, BeforeRender] + Events(CopySteps(copied)) + [AfterBuild]
  {
    NoEmit(Walks);
    RenderingEvents(posts, pages);
    var copies := Events(CopySteps(copied));
    EventsOne(Begin(CopyFiles));
    EventsConcat([Begin(CopyFiles)], CopySteps(copied));
    assert Events(Copying(copied)) == copies;
    var r := Rendering(posts, pages);
    EventsConcat(r, Copying(copied));
    assert Events(r + Copying(copied)) == [BeforeBuild, BeforeRender] + copies;
    EventsOne(Emit(AfterBuild));
    EventsConcat(r + Copying(copied), [Emit(AfterBuild)]);
    assert Events(Publishing(posts, pages, copied)) == [BeforeBuild, BeforeRender] + copies + [AfterBuild];
    EventsConcat(Walks, Publishing(posts, pages, copied));
  }

  /** The phases of `build` between its walks and the copy, one after the
      other, make up `Rendering`. */
  lemma RenderingOrder(t: seq<Step>, posts: nat, pages: nat)
    ensures t + [Begin(CleanDestination)] + [Begin(RegisterPartials)] + [Begin(LoadPlugins)] + [Emit(BeforeBuild)]
      + [Begin(Paginate)] + [Emit(BeforeRender)] + [Begin(RenderPosts)] + PostSteps(posts) + [Begin(RenderPages)]
      + PageSteps(pages) == t + Rendering(posts, pages)
  {
    var u := t + [Begin(CleanDestination)] + [Begin(RegisterPartials)] + [Begin(LoadPlugins)] + [Emit(BeforeBuild)]
      + [Begin(Paginate)] + [Emit(BeforeRender)] + [Begin(RenderPosts)];
    assert u == t + Setup;
  }

  /** A build that stops at a plain file it cannot read never emits
      `afterBuild`. */
  lemma CutShort(posts: nat, pages: nat, done: seq<string>, failed: string)
    ensures Emit(AfterBuild) !in Walks + Aborted(posts, pages, done, failed)
  {
    PagesAreRenders(pages);
    CopiesAreEvents(done);
  }

  /** Appending in two steps appends the two parts at once. */
  lemma Grouped(t: seq<Step>, a: seq<Step>, b: seq<Step>)
    ensures t + a + b == t + (a + b)
    ensures t <= t + a && (t + a)[|t|..] == a
  {
  }

  /** `rebuild` removes the listeners and clears the caches before any phase
      of the build. */
  lemma RebuildPhases(posts: nat, pages: nat, copied: seq<string>)
    ensures Phases(RebuildTrace(posts, pages, copied)) ==
      [RemoveListeners, ClearCaches, CreatePlaceholders, WalkPosts, WalkFiles, CleanDestination,
       RegisterPartials, LoadPlugins, Paginate, RenderPosts, RenderPages, CopyFiles]
  {
    BuildPhases(posts, pages, copied);
    PhasesConcat([Begin(RemoveListeners), Begin(ClearCaches)], BuildTrace(posts, pages, copied));
    assert [Begin(RemoveListeners), Begin(ClearCaches)][..1] == [Begin(RemoveListeners)];
  }
}

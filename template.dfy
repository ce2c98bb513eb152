/** The template resolver: a template is a parsed file (or given data and
    content) together with its layout, the layout's layout and so on; its data
    is the merge of the layout chain's data under its own. The registry caches
    templates made from files, keyed by filename, for one configuration. */
module Templates {
  import opened Wrappers
  import opened Metadata
  import opened FrontMatter
  import opened Paths
  import opened Configs

  datatype Format = Markdown | Xml | Html

  /** `_resolveFormat`: the format named by the file extension. */
  function FormatOf(filename: string): (r: Format)
    ensures r == Markdown <==> Extension(filename) == "md" || Extension(filename) == "markdown"
    ensures r == Xml <==> Extension(filename) == "xml"
  {
    var ext := Extension(filename);
    if ext == "md" || ext == "markdown" then Markdown
    else if ext == "xml" then Xml
    else Html
  }

  /** `_resolveLayout`'s path: `layoutsDirectory + '/' + data.layout + '.html'`
      when `data.layout` is truthy, no layout otherwise. */
  function LayoutFile(config: Config, data: Meta): (r: Option<string>)
    ensures r.Some? <==> Has(data, "layout")
  {
    if Has(data, "layout") then Some(config.layoutsDirectory + "/" + JsString(data["layout"]) + ".html")
    else None
  }

  /** A file named `prefix.ext` is markdown for `md` and `markdown`, xml for
      `xml` and html for every other extension. */
  lemma FormatByExtension(prefix: string, ext: string)
    requires '.' !in ext && '/' !in ext && Basename(prefix) != ""
    ensures FormatOf(prefix + "." + ext) ==
      if ext == "md" || ext == "markdown" then Markdown else if ext == "xml" then Xml else Html
  {
    ExtensionOf(prefix, ext);
  }

  /** A file whose base name has no dot is html. */
  lemma NoExtensionIsHtml(filename: string)
    requires '.' !in Basename(filename)
    ensures FormatOf(filename) == Html
  {
    NoDotNoExtension(filename);
  }

  /** A name ending in a dot and four more characters other than dots and
      slashes is html. */
  lemma FourLetterSuffix(stem: string, hs: string)
    requires |hs| == 5 && hs[0] == '.' && '/' !in hs && '.' !in hs[1..]
    ensures FormatOf(stem + hs) == Html
  {
    DotSuffix(stem, hs);
    var ext := Extension(stem + hs);
    assert |ext| == 0 || |ext| == 4;
    assert |"md"| == 2 && |"markdown"| == 8 && |"xml"| == 3;
  }

  /** `stem.html` is html whatever the stem, even one that ends in a slash. */
  lemma HtmlSuffix(stem: string)
    ensures FormatOf(stem + ".html") == Html
  {
    FourLetterSuffix(stem, ".html");
  }

  /** Every layout file is html, whatever the layout is called. */
  lemma LayoutFileIsHtml(config: Config, data: Meta)
    requires LayoutFile(config, data).Some?
    ensures FormatOf(LayoutFile(config, data).value) == Html
  {
    HtmlSuffix(config.layoutsDirectory + "/" + JsString(data["layout"]));
  }

  /** The output of one layout-chain render and the data object it leaves. */
  datatype Rendered = Rendered(output: string, data: Meta)

  /** `data.content = content`. */
  function WithContent(d: Meta, c: string): Meta {
    d["content" := Str(c)]
  }

  /** The recursion of `renderLayout`: each layout is compiled against the
      shared data object whose `content` was just set to the previous output. */
  function LayoutFold(compile: (string, Meta) -> string, layouts: seq<Template>, c: string, d: Meta): Rendered
    decreases |layouts|
  {
    if |layouts| == 0 then Rendered(c, d)
    else
      var d' := WithContent(d, c);
      LayoutFold(compile, layouts[1..], compile(layouts[0].content, d'), d')
  }

  /** The chain folds innermost first: the outermost layout compiles the
      output of all the layouts inside it. */
  lemma {:induction false} FoldSnoc(compile: (string, Meta) -> string, ls: seq<Template>, last: Template, c: string, d: Meta)
    ensures var r := LayoutFold(compile, ls, c, d);
      LayoutFold(compile, ls + [last], c, d) ==
        Rendered(compile(last.content, WithContent(r.data, r.output)), WithContent(r.data, r.output))
    decreases |ls|
  {
    if |ls| > 0 {
      assert (ls + [last])[1..] == ls[1..] + [last];
      FoldSnoc(compile, ls[1..], last, compile(ls[0].content, WithContent(d, c)), WithContent(d, c));
    }
  }

  /** For a chain `L1, ..., Ln` the result is `Ln`'s content compiled against
      the data whose `content` is the output for `L1, ..., Ln-1`, and that data
      object is what the caller's data holds afterwards: every key but
      `content` unchanged. */
  lemma {:induction false} LastLayout(compile: (string, Meta) -> string, ls: seq<Template>, c: string, d: Meta)
    requires |ls| > 0
    ensures var inner := LayoutFold(compile, ls[..|ls| - 1], c, d).output;
      LayoutFold(compile, ls, c, d) ==
        Rendered(compile(ls[|ls| - 1].content, WithContent(d, inner)), WithContent(d, inner))
    decreases |ls|
  {
    if |ls| > 1 {
      var d1 := WithContent(d, c);
      var c1 := compile(ls[0].content, d1);
      LastLayout(compile, ls[1..], c1, d1);
      assert ls[..|ls| - 1][1..] == ls[1..][..|ls| - 2];
      assert WithContent(d1, LayoutFold(compile, ls[1..][..|ls| - 2], c1, d1).output)
          == WithContent(d, LayoutFold(compile, ls[..|ls| - 1], c, d).output);
    }
  }

  class Template {
    var data: Meta
    const content: string
    const config: Config
    const filename: Option<string>
    const format: Option<Format>
    const layout: Template?
    /** The layouts above this template, innermost first. */
    ghost const chain: seq<Template>
    /** What `_getData` returned for the layout when this template was built. */
    ghost const inherited: Option<Meta>

    ghost predicate Linked()
      decreases |chain|
    {
      if layout == null then chain == []
      else chain == [layout] + layout.chain && layout.Linked()
    }

    /** `_getData`: this template's data merged over its layout's, recursively. */
    function GetData(): (r: Meta)
      reads this, set t | t in chain
      requires Linked()
      ensures layout == null ==> r == data
      ensures layout != null ==> r.Keys == data.Keys + layout.GetData().Keys
      decreases |chain|
    {
      Inherit(data, if layout == null then None else Some(layout.GetData()))
    }

    /** `_getData` depends on the data of the chain alone. */
    twostate lemma {:induction false} GetDataUnchanged()
      requires Linked()
      requires unchanged(this) && forall x :: x in chain ==> unchanged(x)
      ensures GetData() == old(GetData())
      decreases |chain|
    {
      if layout != null {
        assert layout in chain && forall x :: x in layout.chain ==> x in chain;
        layout.GetDataUnchanged();
      }
    }

    /** Each template's data already contains its layout's. */
    ghost predicate Absorbed()
      reads this, set t | t in chain
      requires Linked()
      decreases |chain|
    {
      layout == null || (MergeMap(layout.data, data) == data && layout.Absorbed())
    }

    /** Once data has absorbed the chain's, re-merging it up the chain, as
        `_getData` does on a resolved layout, gives the data back. */
    lemma {:induction false} GetDataOfAbsorbed()
      requires Linked() && Absorbed()
      ensures GetData() == data
      decreases |chain|
    {
      if layout != null {
        layout.GetDataOfAbsorbed();
        InheritIsMerge(data, layout.data);
      }
    }

    /** `new Template(...)` once `_resolveLayout` has found `layout`: then
        `_resolveFormat` and `_resolveData`. */
    constructor Init(own: Meta, content: string, config: Config, filename: Option<string>, layout: Template?)
      requires layout != null ==> layout.Linked()
      ensures Linked()
      ensures this.content == content && this.config == config
      ensures this.filename == filename && this.layout == layout
      ensures format == if filename.Some? then Some(FormatOf(filename.value)) else None
      ensures inherited == if layout == null then None else Some(old(layout.GetData()))
      ensures data == Inherit(own, inherited)
      ensures layout != null && layout.Absorbed() ==> Absorbed()
    {
      var inherited := if layout == null then None else Some(layout.GetData());
      if layout != null && layout.Absorbed() {
        layout.GetDataOfAbsorbed();
        InheritAbsorbs(own, layout.data);
      }
      this.inherited := inherited;
      this.content := content;
      this.config := config;
      this.filename := filename;
      this.format := if filename.Some? then Some(FormatOf(filename.value)) else None;
      this.layout := layout;
      this.chain := if layout == null then [] else [layout] + layout.chain;
      this.data := Inherit(own, inherited);
    }

    /** The object `clone` builds: a deep copy of the data, every other field
        shared with the original. */
    constructor CloneOf(that: Template)
      requires that.Linked()
      ensures Linked() && data == that.data && content == that.content && config == that.config
      ensures filename == that.filename && format == that.format && layout == that.layout
      ensures chain == that.chain && inherited == that.inherited
    {
      data := that.data;
      content := that.content;
      config := that.config;
      filename := that.filename;
      format := that.format;
      layout := that.layout;
      chain := that.chain;
      inherited := that.inherited;
    }

    /** `clone`: a fresh object, so changing its data leaves this one's alone. */
    method Clone() returns (c: Template)
      requires Linked()
      ensures fresh(c) && c.Linked()
      ensures c.data == data && c.content == content && c.config == config
      ensures c.filename == filename && c.format == format && c.layout == layout
    {
      c := new Template.CloneOf(this);
    }

    /** `renderContent(data)`: the body compiled against `d`, or this
        template's data when none is given. */
    function RenderContent(compile: (string, Meta) -> string, d: Option<Meta>): (r: string)
      reads this
      ensures d.Some? ==> r == compile(content, d.value)
      ensures d.None? ==> r == compile(content, data)
    {
      compile(content, if d.Some? then d.value else data)
    }

    /** `renderLayout(content, data)`: walks the layout chain, setting
        `content` on the shared data object before each layout is compiled.
        Without `data` the shared object is this template's own data. An empty
        `content` is falsy and replaced by `renderContent()`. */
    method RenderLayout(compile: (string, Meta) -> string, content: Option<string>, data: Option<Meta>)
      returns (out: string, dataAfter: Meta)
      requires Linked()
      modifies this
      ensures var c := if content.Some? && content.value != "" then content.value
                       else old(RenderContent(compile, None));
              var d := if data.Some? then data.value else old(this.data);
              Rendered(out, dataAfter) == LayoutFold(compile, chain, c, d)
      ensures this.data == if data.Some? then old(this.data) else dataAfter
    {
      var c := if content.Some? && content.value != "" then content.value else RenderContent(compile, None);
      var d := if data.Some? then data.value else this.data;
      if layout == null {
        return c, d;
      }
      var cur: Template? := layout;
      ghost var rest := chain;
      while cur != null
        invariant cur == null ==> rest == []
        invariant cur != null ==> cur.Linked() && rest == [cur] + cur.chain
        invariant LayoutFold(compile, rest, c, d) ==
          LayoutFold(compile, chain,
                     if content.Some? && content.value != "" then content.value else old(RenderContent(compile, None)),
                     if data.Some? then data.value else old(this.data))
        invariant this.data == if data.Some? then old(this.data) else d
        decreases |rest|
      {
        d := WithContent(d, c);
        if data.None? {
          this.data := d;
        }
        c := compile(cur.content, d);
        cur := cur.layout;
        rest := rest[1..];
      }
      return c, d;
    }
  }

  /** Both the stored entries of a configuration and every key of the cache
      survive, and nothing is keyed by a path that is not a source file. */
  ghost predicate Extends(before: map<string, Template>, after: map<string, Template>, config: Config, sources: set<string>) {
    && before.Keys <= after.Keys
    && after.Keys <= before.Keys + sources
    && (forall f :: f in before && before[f].config == config ==> after[f] == before[f])
  }

  lemma ExtendsTrans(a: map<string, Template>, b: map<string, Template>, c: map<string, Template>,
                     config: Config, sources: set<string>)
    requires Extends(a, b, config, sources) && Extends(b, c, config, sources)
    ensures Extends(a, c, config, sources)
  {
  }

  /** The registry `templateFiles`. */
  class Registry {
    var files: map<string, Template>
    /** Every template the registry has stored since it was last reset. */
    ghost var Repr: set<Template>

    ghost predicate Valid()
      reads this
    {
      forall f :: f in files ==> files[f].Linked() && files[f].filename == Some(f) && files[f] in Repr
    }

    predicate Cached(filename: string, config: Config)
      reads this
    {
      filename in files && files[filename].config == config
    }

    /** `t` is what `new Template(filename, config)` builds from the file:
        parsed content, format by extension, the layout the registry holds for
        the layout path, and data inherited from that layout. */
    ghost predicate BuiltFrom(t: Template, filename: string, config: Config, fs: map<string, string>,
                              parseJson: string -> Option<Meta>)
      reads this, t, set x | x in t.chain
    {
      var p := ParseFile(fs, filename, parseJson);
      && t.Linked()
      && p.Ok?
      && t.content == p.value.content && t.config == config && t.filename == Some(filename)
      && t.format == Some(FormatOf(filename))
      && (LayoutFile(config, p.value.data).None? <==> t.layout == null)
      && (t.layout != null ==>
            var path := LayoutFile(config, p.value.data).value;
            && t.layout.filename == Some(path) && t.layout.config == config
            && path in files && files[path] == t.layout)
      && (t.layout == null <==> t.inherited.None?)
      && (t.layout != null ==> t.inherited == Some(t.layout.GetData()))
      && t.data == Inherit(p.value.data, t.inherited)
    }

    /** The layout named by `data` needs no new file: there is none, or the
        registry already holds it under this configuration. */
    predicate LayoutReady(config: Config, data: Meta)
      reads this
    {
      LayoutFile(config, data).None? || Cached(LayoutFile(config, data).value, config)
    }

    constructor ()
      ensures Valid() && files == map[] && Repr == {}
    {
      files := map[];
      Repr := {};
    }

    /** `Template.reset`. */
    method Reset()
      modifies this
      ensures Valid() && files == map[] && Repr == {}
    {
      files := map[];
      Repr := {};
    }

    /** `Template.getOrCreateFromFile(filename, config)`: the stored template
        when it was made under this very configuration, a new one from the file
        otherwise. `resolving` holds the files whose layouts are being resolved
        further down the stack; the source has no such guard and recurses
        without end on a cycle, which the model reports as `CyclicLayout`. */
    method GetOrCreateFromFile(filename: string, config: Config, fs: map<string, string>,
                               parseJson: string -> Option<Meta>, resolving: set<string>)
      returns (r: Result<Template, TemplateError>)
      requires Valid()
      modifies this
      ensures Valid()
      ensures Extends(old(files), files, config, fs.Keys)
      ensures old(Repr) <= Repr && fresh(Repr - old(Repr))
      ensures forall f :: f in resolving && f in old(files) ==> files[f] == old(files[f])
      ensures forall f :: f in resolving && f !in old(files) ==> f !in files
      ensures old(Cached(filename, config)) ==> r == Ok(old(files[filename])) && files == old(files)
      ensures !old(Cached(filename, config)) && filename in resolving ==>
        r == Err(CyclicLayout(filename)) && files == old(files)
      ensures !old(Cached(filename, config)) && filename !in resolving ==>
        (r.Ok? ==> fresh(r.value) && BuiltFrom(r.value, filename, config, fs, parseJson))
        && (ParseFile(fs, filename, parseJson).Err? ==> r == Err(ParseFile(fs, filename, parseJson).error))
        && (r.Err? && ParseFile(fs, filename, parseJson).Ok? ==>
              LayoutFile(config, ParseFile(fs, filename, parseJson).value.data).Some?)
        && (ParseFile(fs, filename, parseJson).Ok? ==>
              old(LayoutReady(config, ParseFile(fs, filename, parseJson).value.data)) ==> r.Ok?)
      ensures r.Ok? ==> Cached(filename, config) && files[filename] == r.value && r.value.Linked()
      decreases fs.Keys - resolving, 2
    {
      if filename in files && files[filename].config == config {
        return Ok(files[filename]);
      }
      if filename in resolving {
        return Err(CyclicLayout(filename));
      }
      r := CreateFromFile(filename, config, fs, parseJson, resolving);
    }

    /** `new Template(filename, config)`: parse the file, resolve its format
        and layout, inherit the layout's data and store the result. */
    method CreateFromFile(filename: string, config: Config, fs: map<string, string>,
                          parseJson: string -> Option<Meta>, resolving: set<string>)
      returns (r: Result<Template, TemplateError>)
      requires Valid() && filename !in resolving && !Cached(filename, config)
      modifies this
      ensures Valid()
      ensures Extends(old(files), files, config, fs.Keys)
      ensures old(Repr) <= Repr && fresh(Repr - old(Repr))
      ensures forall f :: f in resolving && f in old(files) ==> files[f] == old(files[f])
      ensures forall f :: f in resolving && f !in old(files) ==> f !in files
      ensures r.Ok? ==> fresh(r.value) && BuiltFrom(r.value, filename, config, fs, parseJson)
      ensures r.Ok? ==> Cached(filename, config) && files[filename] == r.value && r.value.Linked()
      ensures ParseFile(fs, filename, parseJson).Err? ==> r == Err(ParseFile(fs, filename, parseJson).error)
      ensures r.Err? && ParseFile(fs, filename, parseJson).Ok? ==>
        LayoutFile(config, ParseFile(fs, filename, parseJson).value.data).Some?
      ensures ParseFile(fs, filename, parseJson).Ok? ==>
        old(LayoutReady(config, ParseFile(fs, filename, parseJson).value.data)) ==> r.Ok?
      decreases fs.Keys - resolving, 1
    {
      var parsed := ParseTemplateFile(fs, filename, parseJson);
      if parsed.Err? {
        return Err(parsed.error);
      }
      var lr := ResolveLayout(parsed.value.data, config, fs, parseJson, resolving + {filename});
      if lr.Err? {
        return Err(lr.error);
      }
      var lt := lr.value;
      var t := Install(filename, config, parsed.value, lt);
      r := Ok(t);
    }

    /** The end of `new Template(filename, config)` once the layout is
        resolved: `_resolveFormat`, `_resolveData` and the store. */
    method Install(filename: string, config: Config, parsed: Parsed, lt: Template?) returns (t: Template)
      requires Valid() && (lt != null ==> lt.Linked())
      modifies this
      ensures fresh(t) && t.Linked() && t.layout == lt
      ensures t.content == parsed.content && t.config == config && t.filename == Some(filename)
      ensures t.format == Some(FormatOf(filename))
      ensures (lt == null <==> t.inherited.None?) && (lt != null ==> t.inherited == Some(lt.GetData()))
      ensures t.data == Inherit(parsed.data, t.inherited)
      ensures files == old(files)[filename := t] && Repr == old(Repr) + {t}
      ensures Valid()
    {
      t := new Template.Init(parsed.data, parsed.content, config, Some(filename), lt);
      label built:
      Store(filename, t);
      if lt != null {
        lt.GetDataUnchanged@built();
      }
    }

    /** `templateFiles[filename] = this`. */
    method Store(filename: string, t: Template)
      requires Valid() && t.Linked() && t.filename == Some(filename)
      modifies this
      ensures files == old(files)[filename := t] && Repr == old(Repr) + {t}
      ensures Valid()
    {
      files, Repr := files[filename := t], Repr + {t};
      forall f | f in files
        ensures files[f].Linked() && files[f].filename == Some(f) && files[f] in Repr
      {
        if f != filename {
          assert files[f] == old(files)[f];
        }
      }
    }

    /** `_resolveLayout`: the registry's template for the layout file named by
        the data, if it names one. `resolving` includes the file whose layout
        this is. */
    method ResolveLayout(data: Meta, config: Config, fs: map<string, string>,
                         parseJson: string -> Option<Meta>, resolving: set<string>)
      returns (r: Result<Template?, TemplateError>)
      requires Valid()
      modifies this
      ensures Valid()
      ensures Extends(old(files), files, config, fs.Keys)
      ensures old(Repr) <= Repr && fresh(Repr - old(Repr))
      ensures forall f :: f in resolving && f in old(files) ==> files[f] == old(files[f])
      ensures forall f :: f in resolving && f !in old(files) ==> f !in files
      ensures r.Ok? ==> (LayoutFile(config, data).None? <==> r.value == null)
      ensures r.Ok? && r.value != null ==>
        var path := LayoutFile(config, data).value;
        && r.value.Linked() && r.value.filename == Some(path) && r.value.config == config
        && path in files && files[path] == r.value
        && (path in resolving ==> old(Cached(path, config)))
      ensures r.Err? ==> LayoutFile(config, data).Some?
      ensures old(LayoutReady(config, data)) ==> r.Ok?
      decreases fs.Keys - resolving, 3
    {
      var path := LayoutFile(config, data);
      if path.None? {
        return Ok(null);
      }
      var lr := GetOrCreateFromFile(path.value, config, fs, parseJson, resolving);
      if lr.Err? {
        return Err(lr.error);
      }
      r := Ok(lr.value);
    }

    /** `new Template(data, content, config)`: no filename, so no format and
        no entry in the registry. */
    method CreateFromData(data: Meta, content: string, config: Config, fs: map<string, string>,
                          parseJson: string -> Option<Meta>)
      returns (r: Result<Template, TemplateError>)
      requires Valid()
      modifies this
      ensures Valid()
      ensures Extends(old(files), files, config, fs.Keys)
      ensures old(Repr) <= Repr && fresh(Repr - old(Repr))
      ensures r.Ok? ==> var t := r.value;
        && fresh(t) && t.Linked() && t.content == content && t.config == config
        && t.filename == None && t.format == None
        && (LayoutFile(config, data).None? <==> t.layout == null)
        && (t.layout != null ==> t.layout.filename == LayoutFile(config, data) && t.layout.config == config)
        && (t.layout == null <==> t.inherited.None?)
        && (t.layout != null ==> t.inherited == Some(t.layout.GetData()))
        && t.data == Inherit(data, t.inherited)
      ensures r.Err? ==> LayoutFile(config, data).Some?
      ensures old(LayoutReady(config, data)) ==> r.Ok?
    {
      var lr := ResolveLayout(data, config, fs, parseJson, {});
      if lr.Err? {
        return Err(lr.error);
      }
      var lt := lr.value;
      var t := new Template.Init(data, content, config, None, lt);
      r := Ok(t);
    }

    /** A second lookup under the same configuration returns the very object
        the first one did and leaves the registry as it was. */
    method GetOrCreateTwice(filename: string, config: Config, fs: map<string, string>,
                            parseJson: string -> Option<Meta>)
      returns (first: Result<Template, TemplateError>, second: Result<Template, TemplateError>)
      requires Valid()
      modifies this
      ensures first.Ok? ==> second == first
    {
      first := GetOrCreateFromFile(filename, config, fs, parseJson, {});
      ghost var between := files;
      second := GetOrCreateFromFile(filename, config, fs, parseJson, {});
      assert first.Ok? ==> files == between;
    }
  }
}

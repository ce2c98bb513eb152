# A static site generator's build pipeline and template resolver, in Dafny

This project models the core of a small static site generator. The core has
two parts.

- **The template resolver** (`lib/template.js`). A template is a file with an
  optional JSON front-matter header between a `<!--` line and a `-->` line.
  Its format comes from its extension: markdown, xml or html. A `layout` key
  names another template under the layouts directory. The template's data is
  the deep merge of its layout chain's data, with its own data winning. A
  process-wide registry caches templates made from files, keyed by file name.
  A cached template is reused only when it was made under the very same
  configuration object.
- **The build orchestrator** (`lib/site.js`). `build` runs its phases in a
  fixed order:
  1. create the taxonomy placeholders;
  2. walk the post-type directories into posts, and into pages for posts
     with a layout;
  3. walk every other source file into pages (files with data) or plain
     files (files without);
  4. clean the destination, register partials and load the plugins, with
     local plugins shadowing system plugins and excluded names dropped;
  5. paginate, render the posts, render and write the pages;
  6. copy the plain files.

  Lifecycle events are emitted along the way. `rebuild` removes every
  listener and clears every cache before it builds again.

Modules, one per file:

| module | file | what it holds |
|---|---|---|
| `Wrappers` | `wrappers.dfy` | `Option`, `Result`, `Outcome` |
| `Metadata` | `metadata.dfy` | JSON values, JavaScript truthiness, lodash's deep `_.merge` |
| `Lines` | `lines.dfy` | `split` and `join` on the line ending |
| `Paths` | `paths.dfy` | `basename`, `extname`, `join` as the generator uses them |
| `FrontMatter` | `front_matter.dfy` | `parseTemplateFile` |
| `Configs` | `config.dfy` | the configuration object, which has identity |
| `Templates` | `template.dfy` | the `Template` class and the registry |
| `FileTree` | `file_tree.dfy` | the source tree and `_getFiles` |
| `Plugins` | `plugins.dfy` | which plugins `_loadPlugins` loads, in what order |
| `Steps` | `steps.dfy` | the build as a trace of phases, events and renders |
| `Scans` | `scan.dfy` | what the walks find, as functions of the inputs |
| `Sites` | `site.dfy` | the `Site` class and its phases |

The shape of the model:

- A template is a class. `data` is its only mutable field: `renderLayout` and
  `_walkFiles` write to it. The registry is a class holding a map.
- The site is a class. Its fields are:
  - the plain files;
  - the taxonomy placeholders;
  - the posts and pages made so far;
  - the plugins loaded;
  - the destination directory as a map from path to contents;
  - a trace of the steps taken.
- A loop in the source is a loop in the model, proved against a function of
  the inputs. These loops are:
  - the line scanner;
  - the directory walk;
  - the two walks;
  - the plugin lists;
  - the copy.
- What the trace records:
  - which phases start;
  - which events are emitted, and in what order;
  - every post rendered, and every page rendered and written.

## Model

| member | source | states |
|---|---|---|
| `FrontMatter.ParseTemplateFile` | lib/template.js:117-144 | The line loop returns exactly `ParseFile`: a missing file is `FileNotFound`. A first line other than `<!--` gives empty data and the whole file as content. Otherwise the lines up to `-->` are glued into the header, which must parse as JSON (`MalformedMetadata` if not). The lines after `-->` are joined back as the content. |
| `FrontMatter.ParseFile` | lib/template.js:117-144 | A file is `FileNotFound` exactly when it does not exist. Every error names the file, and is either that or `MalformedMetadata`. |
| `FrontMatter.NoMarkerNoData` | lib/template.js:119-130 | A file has a header exactly when it is `<!--` alone or starts with `<!--` and a line ending. Any other file parses to empty data, with the file unchanged as its content. |
| `FrontMatter.RoundTrip` | lib/template.js:120-143 | A file written as `<!--`, header lines, `-->` and a body splits back into the header lines glued together and exactly that body, whatever the body holds. The header lines may not contain a line ending or be `-->`. |
| `FrontMatter.Unclosed` | lib/template.js:132-143 | With no `-->` line, every line after `<!--` goes into the header and the content is empty. |
| `FrontMatter.ScanUntilClose` | lib/template.js:132-138 | The header is the concatenation of the lines before the first `-->`, and scanning resumes right after that line. |
| `Lines.JoinSplit` | lib/template.js:120-142 | Joining the pieces of a split on the line ending gives the text back. |
| `Lines.SplitJoin` | lib/template.js:120-142 | Splitting lines that were joined, none of which holds a line ending, gives the lines back. |
| `Metadata.InheritKeys` | lib/template.js:68-72 | Without a layout the data is the template's own. With one, the keys are the union of both sides. A key only the layout has keeps the layout's value, and a key whose own value is not an object keeps the template's own value. |
| `Metadata.MergeMap` | lib/template.js:70 | The keys of `_.merge(dest, src)` are those of both sides. |
| `Metadata.OwnLeafWins` | lib/template.js:70 | At every depth, a non-object value at a path of the template's own data is the value at that path after the merge. |
| `Metadata.InheritIsMerge` | lib/template.js:70 | `_.merge({}, layoutData, own)` is the merge of `own` into the layout's data. |
| `Metadata.MergeIntoEmpty` | lib/template.js:70 | Merging a record into `{}` gives that record back: the deep copy is equal to the original. |
| `Metadata.MergeIdempotent` | lib/template.js:70 | Merging a record into itself changes nothing. |
| `Metadata.MergeAbsorbs` | lib/template.js:70 | Merging a base again into data that already absorbed it changes nothing. |
| `Metadata.InheritAbsorbs` | lib/template.js:68-75 | Data inherited from a layout already contains the layout's data. |
| `Paths.ExtensionOf` | lib/template.js:89 | `extname(prefix + "." + ext).substr(1)` is `ext` when `ext` has no dot or slash and the prefix has a non-empty base name. |
| `Paths.AfterIsSuffix` | lib/template.js:89 | The text after the last separator is a suffix of the path and contains no separator. |
| `Paths.PathJoinInjective` | lib/site.js:220 | Joining two different file names onto the same destination never gives the same path. |
| `Templates.FormatByExtension` | lib/template.js:87-102 | `prefix.ext` is markdown for `md` and `markdown`, xml for `xml` and html for every other extension. |
| `Templates.FormatOf` | lib/template.js:87-102 | The format is markdown exactly when the extension is `md` or `markdown`, xml exactly when it is `xml`, and html for every other extension. |
| `Templates.NoExtensionIsHtml` | lib/template.js:87-102 | A file whose base name has no dot is html (the `default` branch). |
| `Templates.HtmlSuffix` | lib/template.js:87-102 | Any name ending in `.html` is html, whatever the stem. |
| `Templates.LayoutFileIsHtml` | lib/template.js:78-102 | The path `_resolveLayout` builds for a layout (`layoutsDirectory/<layout>.html`) has the html format, whatever the layout is called. |
| `Templates.LayoutFile` | lib/template.js:78-81 | There is a layout path exactly when `data.layout` is truthy. |
| `Templates.LastLayout` | lib/template.js:60-65 | For a chain `L1 … Ln`, the result is `Ln` compiled against the data whose `content` is the output for `L1 … Ln-1`. That data object is what the shared data holds afterwards. |
| `Templates.FoldSnoc` | lib/template.js:60-65 | Adding an outer layout compiles it against the output of all the layouts inside it. |
| `Templates.Template.GetDataOfAbsorbed` | lib/template.js:68-76 | Once a template's data has absorbed its chain's data, `_getData` returns that data unchanged. |
| `Templates.Template.GetData` | lib/template.js:68-72 | Without a layout, `_getData` is the template's own data. With one, its keys are the template's own keys and those of the layout's `_getData()`. |
| `Templates.Template.GetDataUnchanged` | lib/template.js:68-72 | `_getData` depends on the data of the layout chain alone: a change that touches no template of the chain leaves it as it was. |
| `Templates.Template.RenderContent` | lib/template.js:48-50 | The body is compiled against the given data, or against the template's own data when none is given. |
| `Templates.Template.Init` | lib/template.js:17-39 | The new template has the given content, configuration, file name and layout. Its format is the extension's format when it has a file name, and none otherwise. Its data is its own data merged over the layout's `_getData()`. If the layout's data absorbed its chain, so does the new template's. |
| `Templates.Template.CloneOf` | lib/template.js:41-46 | The clone's data equals the original's, and every other field is the original's. |
| `Templates.Template.Clone` | lib/template.js:41-46 | `clone` returns a fresh object, so changes to its data do not reach the original, and its data and fields equal the original's. |
| `Templates.Template.RenderLayout` | lib/template.js:52-66 | The output comes from folding the layout chain, starting from the given content, or from `renderContent()` if that content is absent or empty. The shared data is the given data or this template's own. Each layout is compiled after the shared data's `content` is set to the previous output. Without given data the template's own data ends up as the folded data object; with given data it is left alone. |
| `Templates.Registry.constructor` | lib/template.js:14 | The store starts empty. |
| `Templates.Registry.Reset` | lib/template.js:112-114 | `reset` empties the store. |
| `Templates.Registry.GetOrCreateFromFile` | lib/template.js:105-110 | A template stored under the very same configuration object is returned as is, and nothing changes. Otherwise a fresh template is built from the file: parsed content, the extension's format, and the layout the registry now holds for the layout path. Its data is its own data merged over that layout's `_getData()`, and it is stored under the file name. A parse error is returned as such, and entries of the same configuration are never replaced. A file that parses and names no layout, or one the registry already holds, always succeeds. |
| `Templates.Registry.CreateFromFile` | lib/template.js:17-39 | `new Template(filename, config)`: reads the file, resolves format, layout and data in that order, and stores the template under its name, as `BuiltFrom` states field by field: its data is its own merged over the layout's `_getData()`. Any error comes from the parse or from resolving a named layout. A file that parses and whose layout is absent or already held always succeeds. |
| `Templates.Registry.Install` | lib/template.js:33-38 | The end of the constructor once the layout is known: the new template has the parsed content, the extension's format and that layout, its data is its own merged over the layout's `_getData()`, and it is stored under its file name. |
| `Templates.Registry.Store` | lib/template.js:38 | The store maps the file name to the template and every other entry is unchanged. |
| `Templates.Registry.ResolveLayout` | lib/template.js:78-85 | No layout when the data names none. Otherwise the result is the registry's template for `layoutsDirectory/<layout>.html` under this configuration. A layout the registry already holds is found without fail. |
| `Templates.Registry.CreateFromData` | lib/template.js:17-39 | `new Template(data, content, config)`: no file name and no format. The layout is resolved from the given data, which is then merged over the layout's `_getData()`. The template itself is not stored; only the layouts it resolves may be. Data that names no layout, or one already held, always succeeds. |
| `Templates.Registry.GetOrCreateTwice` | lib/template.js:105-110 | A second lookup of a file under the same configuration returns the very object the first successful one did. |
| `FileTree.GetFiles` | lib/site.js:91-121 | The loop returns exactly `Walk`. The entries are taken in `readdir` order, and excluded paths are pruned whole. Directories are walked depth first, and the walk stops at the first entry whose name is empty. |
| `FileTree.WalkFindsFiles` | lib/site.js:109-119 | Every returned path is a file of the tree, never a directory. |
| `FileTree.WalkNotExcluded` | lib/site.js:103-112 | No returned path matches an exclude pattern. |
| `FileTree.FileFound` | lib/site.js:109-118 | Every file entry of a directory that comes before its first unnamed entry is returned, unless its path is excluded. |
| `FileTree.WalkAt` | lib/site.js:109-119 | Each entry's paths appear in place, after those of the entries before it and before those of the entries after it. |
| `FileTree.WalkUnder` | lib/site.js:109-119 | Every returned path is one of the entries' own paths or lies below one. |
| `FileTree.WalkDistinct` | lib/site.js:91-121 | When every directory holds distinct names, each a single non-empty segment other than `.`, no path is returned twice. |
| `Paths.UnderOne` | lib/site.js:110 | A path lies at or below at most one single-segment name joined onto a directory. |
| `Plugins.Requires` | lib/site.js:173-187 | The two loops require exactly `LoadOrder`: the remaining system plugins, then the remaining local ones. |
| `Plugins.Loaded` | lib/site.js:172-177 | A system plugin is loaded exactly when no local plugin has its name and it is not excluded. A local plugin is loaded exactly when it is not excluded. |
| `Plugins.SystemBeforeLocal` | lib/site.js:179-187 | Every system plugin is loaded before every local plugin. |
| `Plugins.SystemList` | lib/site.js:173-176 | Removing the local names and then the excluded names is one removal of both, order preserved. |
| `Plugins.WithoutMembers` | lib/site.js:173-177 | `_.without` keeps exactly the elements that are not removed, in order. |
| `Plugins.WithoutConcat` | lib/site.js:173-177 | `_.without` of a concatenation is the concatenation of the filtered parts. |
| `Plugins.Without` | lib/site.js:173-177 | `_.without` never returns more elements than it was given. |
| `Scans.Placeholders` | lib/site.js:58-61 | Every pluralized taxonomy type has an entry, every entry comes from some taxonomy type, and every entry is empty. |
| `Scans.KeptPostsExactly` | lib/site.js:72-81 | A post is made from a visited file exactly when its data does not make it a skipped draft. |
| `Scans.PostPagesExactly` | lib/site.js:83-85 | A page is made from a post exactly when the post is kept and its data has a truthy `layout`. |
| `Scans.AllKeptWithDrafts` | lib/site.js:77 | With `includeDrafts` set, every visited file becomes a post, in order. |
| `Scans.KeptConcat` | lib/site.js:69-88 | Walking one post type after another keeps the first type's posts before the second's. |
| `Scans.PermalinkDefaulted` | lib/site.js:138-143 | File data that is empty or has a permalink is unchanged. Data without one gets the file name as its permalink, with every other key kept. Doing it a second time changes nothing. |
| `Scans.Partition` | lib/site.js:134-150 | Every walked file goes to exactly one side: a plain file exactly when its data is empty, a page exactly when it is not. |
| `Scans.CopiesAreExact` | lib/site.js:216-231 | Every copy is byte for byte its source file, at the source path joined onto the destination. Nothing else in the destination changes. |
| `Steps.PostSteps` | lib/site.js:203-207 | Every post is rendered once, in order. |
| `Steps.PageSteps` | lib/site.js:209-214 | Every page is rendered and then written before the next page. |
| `Steps.CopySteps` | lib/site.js:219-230 | Each file's copy is bracketed by `beforeCopy` and `afterCopy` for that file, in list order. |
| `Steps.CopyEvents` | lib/site.js:219-230 | Copying emits `beforeCopy` and `afterCopy` for each file in turn, and nothing else. |
| `Steps.RenderingPhases` | lib/site.js:246-258 | Between the walks and the copy, the phases are clean, partials, plugins, paginate, render posts, render pages. |
| `Steps.RenderingEvents` | lib/site.js:246-258 | Between the walks and the copy, `beforeBuild` and then `beforeRender` are emitted. |
| `Steps.BuildPhases` | lib/site.js:240-262 | `build` starts its ten phases in the source's fixed order, whatever it finds. |
| `Steps.BuildEvents` | lib/site.js:240-262 | `build` emits `beforeBuild`, `beforeRender`, the copy events and then `afterBuild`, and nothing else. |
| `Steps.CutShort` | lib/site.js:226-261 | A build that stops at a plain file it cannot read has emitted no `afterBuild`. |
| `Steps.RebuildPhases` | lib/site.js:264-273 | `rebuild` removes the listeners and clears the caches before any phase of the build. |
| `Sites.PostRegistered` | lib/site.js:74-81 | Every post found is backed by a template the registry holds. |
| `Sites.PostPageRegistered` | lib/site.js:83-85 | Every page made from a post is backed by a template the registry holds. |
| `Sites.FilePageRegistered` | lib/site.js:134-146 | Every page made from a file is backed by a template the registry holds. |
| `Sites.FoundRegistered` | lib/site.js:64-151 | Every template behind a post or page the two walks found is one the registry holds. |
| `Sites.Site.constructor` | lib/site.js:24-45 | A new site has found, loaded and written nothing. |
| `Sites.Site.Lookup` | lib/site.js:74 | The result is what the registry now holds for the file under this configuration. If it was already cached, it is the cached object. |
| `Sites.Site.CreatePlaceholders` | lib/site.js:50-62 | The plain files are reset to none and the taxonomies to `Placeholders`. Everything else is unchanged. |
| `Sites.Site.VisitPost` | lib/site.js:72-86 | After one file is looked up, the posts and pages found so far are `KeptPosts` and `PostPages` of the files visited. |
| `Sites.Site.WalkPostType` | lib/site.js:69-87 | One post type's globbed files are visited in order, with the same invariant. |
| `Sites.Site.VisitPostType` | lib/site.js:69-88 | One more post type: on success, the posts and pages found so far are `KeptPosts` and `PostPages` of the files of every post type up to this one. The registry keeps every entry of this configuration and only gains source files. |
| `Sites.Site.WalkPostTypes` | lib/site.js:65-88 | The loop over the post types keeps that invariant to the end, with the same guarantee for the registry. |
| `Sites.Site.WalkPosts` | lib/site.js:64-89 | The posts and pages found are appended to the site's. On success they are `KeptPosts` and `PostPages` of every post type's files, in order. The registry keeps every entry of this configuration and only gains source files. |
| `Sites.Site.ClassifyFile` | lib/site.js:138-143 | The file's data becomes `Classified` of its old data. |
| `Sites.Site.VisitFile` | lib/site.js:134-150 | After one more file, the plain files and pages found are `PlainFiles` and `DataPages` of the data seen. Every template seen so far holds its classified data. |
| `Sites.Site.ClassifyWalked` | lib/site.js:135-149 | A looked-up file is classified, and the invariant on the templates seen gains that file with the data it held before. A template seen earlier under the same name stays consistent with it. |
| `Sites.Site.WalkFileList` | lib/site.js:134-150 | The loop over the file list keeps that invariant to the end. |
| `Sites.Site.WalkFiles` | lib/site.js:123-151 | The list is the walked tree, then `includeFiles`, then `_pages/*`. On success, the plain files and pages appended are the split of that list by data. |
| `Sites.Site.EnsureCleanDestination` | lib/site.js:190-193 | The destination is emptied. |
| `Sites.Site.RegisterPartials` | lib/site.js:153-158 | Only the phase marker is added; no site state changes. |
| `Sites.Site.LoadPlugins` | lib/site.js:160-188 | The plugins loaded are `LoadOrder` of the system, local and excluded lists. |
| `Sites.Site.Paginate` | lib/site.js:195-201 | Only the phase marker is added. |
| `Sites.Site.RenderPosts` | lib/site.js:203-207 | Every post is rendered, in order. |
| `Sites.Site.RenderPages` | lib/site.js:209-214 | Every page is rendered and written, in order. |
| `Sites.Site.CopyFiles` | lib/site.js:216-231 | Success happens exactly when every plain file exists. Then the destination is `Copied` and the trace is each file's `beforeCopy`/`afterCopy`. If a file is missing, the files before it were copied and the trace ends with that file's `beforeCopy` and a `FileNotFound` error. |
| `Sites.Site.ClearCaches` | lib/site.js:233-238 | The posts, pages and template store are emptied. |
| `Sites.Site.Scan` | lib/site.js:242-245 | The three walks in order. On success, taxonomies, posts, pages and plain files are exactly what `Walked` describes from the inputs. |
| `Sites.Site.Render` | lib/site.js:246-258 | The destination is emptied, plugins are loaded, and the phases and events from cleaning to page writing happen in order. |
| `Sites.Site.Publish` | lib/site.js:246-261 | Success happens exactly when every plain file can be read. Then the destination holds exactly the copies and the trace ends with `afterBuild`. Otherwise the trace stops at the first missing file. |
| `Sites.Site.Build` | lib/site.js:240-262 | On success, every part of the site is exactly what the inputs determine, and the trace is `BuildTrace`. On failure, `afterBuild` is never emitted. |
| `Sites.Site.Reset` | lib/site.js:270-271 | The listeners are dropped with the plugins, and the posts, pages and template store are emptied. |
| `Sites.Site.Rebuild` | lib/site.js:264-273 | On success the taxonomies, posts, pages, plain files and destination are exactly what this build's `Walked` describes, with nothing left from an earlier build. Every stored template and every template behind a post or page is fresh, and the plugins are only this build's. The trace is `RebuildTrace`. |

## Left out

- File system, directory listing, `glob.sync`, `minimatch`, `inflector.pluralize` and `JSON.parse`: these are parameters (an `Env`), not I/O. The source tree is a value, and the destination is a map from path to contents.
- Handlebars: `Handlebars.compile` is a parameter `compile(source, data)`. Partial registration is only a phase marker.
- `Post`, `Page`, `Taxonomy`, `PostManager`, pagination and permalinks are not part of this model. A post is a template and its type. A page records which post or file it came from. Their rendering and writing are trace steps, and page output is not added to the destination map.
- Plugins are loaded as names. Their code, and the listeners it registers, are not executed. `rebuild` empties the list because `removeAllListeners` drops them.
- Lifecycle events are trace steps, not callbacks. Listeners that change a page are not modelled.
- `serve`, the file watcher and the development server are not modelled; they are I/O loops around `build`.
- JSON arrays and non-integer JSON numbers (fractions, exponents) are not modelled, and neither is lodash's handling of shared references in `_.merge` and `_.cloneDeep`. Merging is on values.
- `path.extname`, `path.basename` and `path.join` do not normalise `..`, `.` or repeated slashes.
- `console.log` in `_copyFiles` is not modelled.
- `Templates.Registry.GetOrCreateFromFile`: the source has no guard against a layout that names itself, directly or through other layouts. It recurses until the stack overflows. The model passes down the set of files whose layouts are being resolved and returns `CyclicLayout` for such a file, so that the resolution terminates.
- `Templates.Template.Init`: data is stated against the layout's `_getData()` at construction time. A later `renderLayout` that changes a layout's data does not re-merge templates built earlier, as in the source.
- `Sites.Site.Build`: when a walk fails, the contract says that no `afterBuild` was emitted and that the registry still holds the entries of this configuration. It does not describe the partial posts and pages found before the failure one by one.
- `Sites.Site.RegisterPartials`, `Sites.Site.Paginate`, `Sites.Site.RenderPosts` and `Sites.Site.RenderPages` only record their steps, because what they call is outside this model.
- Front matter with a header that `JSON.parse` accepts but that is not an object (a number, a string) is treated like any failed parse by the `parseJson` parameter.

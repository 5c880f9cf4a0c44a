/**
 * `generateIndexHTML` from src/html.ts: the checks it makes, the preload
 * links it writes, and how every output name of the build is rewritten and
 * placed. The document is modelled by what is inserted into it: the
 * elements appended to `<head>` and to `<body>`, in order.
 *
 * Reading the original HTML file, parsing it (cheerio), minifying and
 * writing the result are left to the host.
 */
module Html {
  import opened Wrappers
  import opened Text

  /** `trimPath`: a string (its first occurrence is removed) or a RegExp, whose `replace` is opaque here. */
  datatype TrimPath = TrimText(text: string) | TrimRegExp(replace: string -> string)

  /** One entry of `preload`. */
  datatype PreloadItem = PreloadItem(href: string, asType: string, prefetch: bool)

  /** `IndexOptions` (src/html.ts:5-42); `sourceFile` is the extra property the string shorthand of `onEnd` sets. */
  datatype IndexOptions = IndexOptions(
    originalFile: Option<string>,
    sourceFile: Option<string>,
    outFile: Option<string>,
    pathPrefix: Option<string>,
    trimPath: Option<TrimPath>,
    preload: Option<seq<PreloadItem>>)

  /** The elements `generateIndexHTML` creates. */
  datatype Element =
    | PreloadLink(rel: string, href: string, asType: string)   // <link rel=.. href=.. as=..>
    | StylesheetLink(href: string)                             // <link rel='stylesheet' href=..>
    | ScriptTag(src: string)                                   // <script src=..>

  /**
   * What is inserted after `head :last-child` and after `body :last-child`,
   * in order. The model assumes each selector names one element: the last
   * child of a `<head>` or `<body>` that has children and no nested element
   * that is itself a last child.
   */
  datatype Insertions = Insertions(head: seq<Element>, body: seq<Element>)

  datatype HtmlError =
    | MetafileMissing          // "The \"metafile\" option must be set to true in the build options"
    | OutFileMissing           // "No outFile was specified and it could not be inferred from the build options"
    | OriginalFileUnreadable   // `readFile(opts.originalFile)` rejects: no original file was given

  /** A JavaScript string option that is set and not empty. */
  predicate Truthy(s: Option<string>)
  {
    s.Some? && s.value != ""
  }

  /** `name.replace(opts.trimPath, "")` when `trimPath` is truthy. */
  function Trimmed(name: string, trim: Option<TrimPath>): string
  {
    match trim
    case None => name
    case Some(TrimText(t)) => if t == "" then name else ReplaceFirst(name, t, "")
    case Some(TrimRegExp(replace)) => replace(name)
  }

  /** `pathPrefix` is prepended when it is truthy and the name does not start with it yet. */
  function Prefixed(name: string, prefix: Option<string>): string
  {
    if Truthy(prefix) && !StartsWith(name, prefix.value) then prefix.value + name else name
  }

  /** The path an output name is linked under (src/html.ts:67-73). */
  function OutputPath(name: string, opts: IndexOptions): string
  {
    Prefixed(Trimmed(name, opts.trimPath), opts.pathPrefix)
  }

  /** The last position of `c` in `s`, or -1. */
  function LastIndexOf(s: string, c: char): (i: int)
    ensures -1 <= i < |s|
    ensures 0 <= i ==> s[i] == c
    ensures forall j :: i < j < |s| ==> s[j] != c
  {
    if s == [] then -1
    else if s[|s| - 1] == c then |s| - 1
    else LastIndexOf(s[..|s| - 1], c)
  }

  function StripTrailingSlashes(s: string): string
  {
    if s != [] && s[|s| - 1] == '/' then StripTrailingSlashes(s[..|s| - 1]) else s
  }

  /** The extension of one path segment: from its last `.`, unless that is its first character or the segment is "..". */
  function SegmentExtname(base: string): string
  {
    var dot := LastIndexOf(base, '.');
    if base == ".." || dot <= 0 then "" else base[dot..]
  }

  /** `path.extname` (POSIX): the extension of the last path segment, trailing slashes ignored. */
  function Extname(p: string): string
  {
    var trimmed := StripTrailingSlashes(p);
    SegmentExtname(trimmed[LastIndexOf(trimmed, '/') + 1..])
  }

  /** The `<link>` elements for `preload`, in list order (src/html.ts:56-64). */
  function PreloadLinks(items: seq<PreloadItem>): seq<Element>
  {
    if items == [] then []
    else
      var item := items[|items| - 1];
      PreloadLinks(items[..|items| - 1])
        + [PreloadLink(if item.prefetch then "prefetch" else "preload", item.href, item.asType)]
  }

  /** The rewritten path of every output name, in metafile order. */
  function OutputPaths(names: seq<string>, opts: IndexOptions): (paths: seq<string>)
    ensures |paths| == |names|
    ensures forall i :: 0 <= i < |names| ==> paths[i] == OutputPath(names[i], opts)
  {
    seq(|names|, i requires 0 <= i < |names| => OutputPath(names[i], opts))
  }

  /** The stylesheet links for the paths with the extension `.css`, in order. */
  function StylesheetLinks(paths: seq<string>): seq<Element>
  {
    if paths == [] then []
    else
      var path := paths[|paths| - 1];
      StylesheetLinks(paths[..|paths| - 1]) + (if Extname(path) == ".css" then [StylesheetLink(path)] else [])
  }

  /** The script tags for the paths with the extension `.js`, in order. */
  function ScriptTags(paths: seq<string>): seq<Element>
  {
    if paths == [] then []
    else
      var path := paths[|paths| - 1];
      ScriptTags(paths[..|paths| - 1]) + (if Extname(path) == ".js" then [ScriptTag(path)] else [])
  }

  /** What `generateIndexHTML` does, as a function of the metafile's output names and the options. */
  function Plan(outputs: Option<seq<string>>, opts: IndexOptions): Result<Insertions, HtmlError>
  {
    if outputs.None? then Failure(MetafileMissing)
    else if !Truthy(opts.outFile) then Failure(OutFileMissing)
    else if opts.originalFile.None? then Failure(OriginalFileUnreadable)
    else
      var paths := OutputPaths(outputs.value, opts);
      Success(Insertions(PreloadLinks(opts.preload.GetOr([])) + StylesheetLinks(paths), ScriptTags(paths)))
  }

  /** The body of the loop over the outputs that reassigns `name` (src/html.ts:67-73). */
  method RewriteName(name: string, opts: IndexOptions) returns (path: string)
    ensures path == OutputPath(name, opts)
  {
    path := name;
    if opts.trimPath.Some? {
      match opts.trimPath.value {
        case TrimText(t) =>
          if t != "" {
            path := ReplaceFirst(path, t, "");
          }
        case TrimRegExp(replace) =>
          path := replace(path);
      }
    }
    if Truthy(opts.pathPrefix) && !StartsWith(path, opts.pathPrefix.value) {
      path := opts.pathPrefix.value + path;
    }
  }

  /**
   * `generateIndexHTML(result, opts, min)` (src/html.ts:44-86); `outputs`
   * is `result.metafile.outputs` in `for...in` order, `None` without a metafile.
   */
  method GenerateIndexHtml(outputs: Option<seq<string>>, opts: IndexOptions) returns (r: Result<Insertions, HtmlError>)
    ensures outputs.None? ==> r == Failure(MetafileMissing)
    ensures outputs.Some? && !Truthy(opts.outFile) ==> r == Failure(OutFileMissing)
    ensures r == Plan(outputs, opts)
  {
    if outputs.None? {
      return Failure(MetafileMissing);
    }
    if !Truthy(opts.outFile) {
      return Failure(OutFileMissing);
    }
    if opts.originalFile.None? {
      return Failure(OriginalFileUnreadable);
    }
    var head := PreloadHead(opts.preload.GetOr([]));
    var styles, body := PlaceOutputs(outputs.value, opts);
    return Success(Insertions(head + styles, body));
  }

  /** The loop over `preload` (src/html.ts:56-64). */
  method PreloadHead(items: seq<PreloadItem>) returns (head: seq<Element>)
    ensures head == PreloadLinks(items)
  {
    head := [];
    for i := 0 to |items|
      invariant head == PreloadLinks(items[..i])
    {
      assert items[..i + 1][..i] == items[..i];
      var item := items[i];
      head := head + [PreloadLink(if item.prefetch then "prefetch" else "preload", item.href, item.asType)];
    }
    assert items[..|items|] == items;
  }

  /** The loop over the metafile's outputs (src/html.ts:66-80): the stylesheet links and the script tags, in order. */
  method PlaceOutputs(names: seq<string>, opts: IndexOptions) returns (styles: seq<Element>, scripts: seq<Element>)
    ensures styles == StylesheetLinks(OutputPaths(names, opts))
    ensures scripts == ScriptTags(OutputPaths(names, opts))
  {
    styles, scripts := [], [];
    ghost var paths := OutputPaths(names, opts);
    for j := 0 to |names|
      invariant styles == StylesheetLinks(paths[..j])
      invariant scripts == ScriptTags(paths[..j])
    {
      var name := RewriteName(names[j], opts);
      assert paths[..j + 1] == paths[..j] + [name];
      SectionsSnoc(paths[..j], name);
      var ext := Extname(name);
      if ext == ".js" {
        scripts := scripts + [ScriptTag(name)];
      } else if ext == ".css" {
        styles := styles + [StylesheetLink(name)];
      }
    }
    assert paths[..|names|] == paths;
  }

  /** One more output path adds at most its own element to each section. */
  lemma SectionsSnoc(paths: seq<string>, path: string)
    ensures StylesheetLinks(paths + [path])
      == StylesheetLinks(paths) + (if Extname(path) == ".css" then [StylesheetLink(path)] else [])
    ensures ScriptTags(paths + [path]) == ScriptTags(paths) + (if Extname(path) == ".js" then [ScriptTag(path)] else [])
  {
    assert (paths + [path])[..|paths|] == paths;
  }

  /** Prefixing is idempotent: a name that already starts with the prefix is left alone. */
  lemma PrefixIdempotent(name: string, prefix: Option<string>)
    ensures Prefixed(Prefixed(name, prefix), prefix) == Prefixed(name, prefix)
  {
    if Truthy(prefix) && !StartsWith(name, prefix.value) {
      var p := prefix.value;
      assert (p + name)[..|p|] == p;
    }
  }

  /** One link per preload entry, in list order, with `rel` "prefetch" exactly when `prefetch` is set. */
  lemma {:induction false} PreloadLinksShape(items: seq<PreloadItem>)
    ensures |PreloadLinks(items)| == |items|
    ensures forall i :: 0 <= i < |items| ==>
      PreloadLinks(items)[i] == PreloadLink(if items[i].prefetch then "prefetch" else "preload", items[i].href, items[i].asType)
  {
    if items != [] {
      PreloadLinksShape(items[..|items| - 1]);
    }
  }

  /** Output path `i` has the extension `.js` and `e` is its script tag. */
  predicate ScriptAt(paths: seq<string>, i: int, e: Element)
  {
    0 <= i < |paths| && Extname(paths[i]) == ".js" && e == ScriptTag(paths[i])
  }

  /** Output path `i` has the extension `.css` and `e` is its stylesheet link. */
  predicate StylesheetAt(paths: seq<string>, i: int, e: Element)
  {
    0 <= i < |paths| && Extname(paths[i]) == ".css" && e == StylesheetLink(paths[i])
  }

  lemma {:induction false} ScriptComesFromPath(paths: seq<string>, e: Element) returns (i: int)
    requires e in ScriptTags(paths)
    ensures ScriptAt(paths, i, e)
  {
    var init := paths[..|paths| - 1];
    if e in ScriptTags(init) {
      i := ScriptComesFromPath(init, e);
      assert paths[i] == init[i];
    } else {
      i := |paths| - 1;
    }
  }

  lemma {:induction false} PathHasScript(paths: seq<string>, i: int, e: Element)
    requires ScriptAt(paths, i, e)
    ensures e in ScriptTags(paths)
  {
    var init := paths[..|paths| - 1];
    if i < |paths| - 1 {
      assert paths[i] == init[i];
      PathHasScript(init, i, e);
    }
  }

  lemma {:induction false} StylesheetComesFromPath(paths: seq<string>, e: Element) returns (i: int)
    requires e in StylesheetLinks(paths)
    ensures StylesheetAt(paths, i, e)
  {
    var init := paths[..|paths| - 1];
    if e in StylesheetLinks(init) {
      i := StylesheetComesFromPath(init, e);
      assert paths[i] == init[i];
    } else {
      i := |paths| - 1;
    }
  }

  lemma {:induction false} PathHasStylesheet(paths: seq<string>, i: int, e: Element)
    requires StylesheetAt(paths, i, e)
    ensures e in StylesheetLinks(paths)
  {
    var init := paths[..|paths| - 1];
    if i < |paths| - 1 {
      assert paths[i] == init[i];
      PathHasStylesheet(init, i, e);
    }
  }

  /** A script tag is inserted exactly for each path with the extension `.js`. */
  lemma ScriptTagsAreJsPaths(paths: seq<string>, e: Element)
    ensures e in ScriptTags(paths) <==> exists i :: ScriptAt(paths, i, e)
  {
    if e in ScriptTags(paths) {
      var i := ScriptComesFromPath(paths, e);
    }
    if exists i :: ScriptAt(paths, i, e) {
      var i :| ScriptAt(paths, i, e);
      PathHasScript(paths, i, e);
    }
  }

  /** A stylesheet link is inserted exactly for each path with the extension `.css`. */
  lemma StylesheetLinksAreCssPaths(paths: seq<string>, e: Element)
    ensures e in StylesheetLinks(paths) <==> exists i :: StylesheetAt(paths, i, e)
  {
    if e in StylesheetLinks(paths) {
      var i := StylesheetComesFromPath(paths, e);
    }
    if exists i :: StylesheetAt(paths, i, e) {
      var i :| StylesheetAt(paths, i, e);
      PathHasStylesheet(paths, i, e);
    }
  }

  lemma {:induction false} ScriptTagsAppend(a: seq<string>, b: seq<string>)
    ensures ScriptTags(a + b) == ScriptTags(a) + ScriptTags(b)
    decreases |b|
  {
    if b == [] {
      assert a + b == a;
    } else {
      var init := b[..|b| - 1];
      assert (a + b)[..|a + b| - 1] == a + init;
      assert (a + b)[|a + b| - 1] == b[|b| - 1];
      ScriptTagsAppend(a, init);
    }
  }

  lemma {:induction false} StylesheetLinksAppend(a: seq<string>, b: seq<string>)
    ensures StylesheetLinks(a + b) == StylesheetLinks(a) + StylesheetLinks(b)
    decreases |b|
  {
    if b == [] {
      assert a + b == a;
    } else {
      var init := b[..|b| - 1];
      assert (a + b)[..|a + b| - 1] == a + init;
      assert (a + b)[|a + b| - 1] == b[|b| - 1];
      StylesheetLinksAppend(a, init);
    }
  }

  /** Outputs are placed in metafile order: the elements for a concatenation are concatenated. */
  lemma AssetsFollowOutputOrder(a: seq<string>, b: seq<string>)
    ensures ScriptTags(a + b) == ScriptTags(a) + ScriptTags(b)
    ensures StylesheetLinks(a + b) == StylesheetLinks(a) + StylesheetLinks(b)
  {
    ScriptTagsAppend(a, b);
    StylesheetLinksAppend(a, b);
  }

  /** Any other extension yields nothing: an output is placed at most once, in one of the two sections. */
  lemma {:induction false} AtMostOneElementPerOutput(paths: seq<string>)
    ensures |ScriptTags(paths)| + |StylesheetLinks(paths)| <= |paths|
  {
    if paths != [] {
      AtMostOneElementPerOutput(paths[..|paths| - 1]);
    }
  }

  /** Text without `c` appended after `a` leaves the last `c` where it was. */
  lemma {:induction false} LastIndexOfAppendWithout(a: string, b: string, c: char)
    requires c !in b
    ensures LastIndexOf(a + b, c) == LastIndexOf(a, c)
    decreases |b|
  {
    if b == [] {
      assert a + b == a;
    } else {
      var s, init := a + b, b[..|b| - 1];
      assert s[|s| - 1] == b[|b| - 1];
      assert s[..|s| - 1] == a + init;
      assert c !in init by {
        assert forall k :: 0 <= k < |init| ==> init[k] == b[k];
      }
      LastIndexOfAppendWithout(a, init, c);
    }
  }

  lemma LastIndexOfEnd(a: string, c: char)
    ensures LastIndexOf(a + [c], c) == |a|
  {
    assert (a + [c])[|a|] == c;
  }

  /** A segment `<stem>.<ext>` with a non-empty `stem` and a non-empty `ext` without `.` has the extension `.<ext>`. */
  lemma SegmentExtnameOf(stem: string, ext: string)
    requires stem != [] && ext != [] && '.' !in ext
    ensures SegmentExtname(stem + "." + ext) == "." + ext
  {
    var base := stem + "." + ext;
    LastIndexOfAppendWithout(stem + ".", ext, '.');
    LastIndexOfEnd(stem, '.');
    assert base[|stem|..] == "." + ext;
  }

  /** The extension of `<dir><base>`, where `dir` is empty or ends in `/`, is that of the segment `base`. */
  lemma ExtnameOfLastSegment(dir: string, base: string)
    requires dir == [] || dir[|dir| - 1] == '/'
    requires base != [] && base[|base| - 1] != '/' && '/' !in base
    ensures Extname(dir + base) == SegmentExtname(base)
  {
    var p := dir + base;
    assert p[|p| - 1] == base[|base| - 1];
    assert StripTrailingSlashes(p) == p;
    LastIndexOfAppendWithout(dir, base, '/');
    if dir != [] {
      LastIndexOfEnd(dir[..|dir| - 1], '/');
      assert dir[..|dir| - 1] + ['/'] == dir;
    }
    assert p[LastIndexOf(dir, '/') + 1..] == base;
  }

  /**
   * A name `<dir><stem>.<ext>` (`dir` empty or ending in `/`, `ext` free of
   * `.` and `/`, a non-empty `stem` without `/`) has the extension `.<ext>`:
   * `out.js` is a script, `out.css` a stylesheet, `out.js.map` neither.
   */
  lemma ExtnameOfFileName(dir: string, stem: string, ext: string)
    requires dir == [] || dir[|dir| - 1] == '/'
    requires stem != [] && '/' !in stem
    requires ext != [] && '.' !in ext && '/' !in ext
    ensures Extname(dir + stem + "." + ext) == "." + ext
  {
    var base := stem + "." + ext;
    assert dir + stem + "." + ext == dir + base;
    assert base[|base| - 1] == ext[|ext| - 1];
    ExtnameOfLastSegment(dir, base);
    SegmentExtnameOf(stem, ext);
  }

  /**
   * A build with the outputs `dist/<stem>.js` and `dist/<stem>.css`, trim
   * path "dist/" and path prefix "/": one script `/<stem>.js` in the body and one stylesheet `/<stem>.css` in
   * the head.
   */
  lemma DistExample(original: string, outFile: string, stem: string)
    requires outFile != "" && stem != [] && '/' !in stem
    ensures
      var opts := IndexOptions(Some(original), None, Some(outFile), Some("/"), Some(TrimText("dist/")), None);
      Plan(Some(["dist/" + stem + ".js", "dist/" + stem + ".css"]), opts)
        == Success(Insertions([StylesheetLink("/" + stem + ".css")], [ScriptTag("/" + stem + ".js")]))
  {
    var opts := IndexOptions(Some(original), None, Some(outFile), Some("/"), Some(TrimText("dist/")), None);
    var names := ["dist/" + stem + ".js", "dist/" + stem + ".css"];
    PlanWithoutPreload(opts, names);
    var js, css := "/" + stem + ".js", "/" + stem + ".css";
    DistOutputPaths(opts, stem);
    DistScriptExtname(stem);
    DistStylesheetExtname(stem);
    PlaceScriptThenStylesheet(js, css);
  }

  /** Without `preload` the head holds only the stylesheet links. */
  lemma PlanWithoutPreload(opts: IndexOptions, names: seq<string>)
    requires opts.originalFile.Some? && Truthy(opts.outFile) && opts.preload == None
    ensures Plan(Some(names), opts)
      == Success(Insertions(StylesheetLinks(OutputPaths(names, opts)), ScriptTags(OutputPaths(names, opts))))
  {
    assert opts.preload.GetOr([]) == [];
    assert PreloadLinks([]) == [];
    assert [] + StylesheetLinks(OutputPaths(names, opts)) == StylesheetLinks(OutputPaths(names, opts));
  }

  lemma DistOutputPaths(opts: IndexOptions, stem: string)
    requires opts.pathPrefix == Some("/") && opts.trimPath == Some(TrimText("dist/"))
    requires stem != [] && '/' !in stem
    ensures OutputPaths(["dist/" + stem + ".js", "dist/" + stem + ".css"], opts) == ["/" + stem + ".js", "/" + stem + ".css"]
  {
    var js, css := stem + ".js", stem + ".css";
    assert js[0] == stem[0] && css[0] == stem[0];
    DistOutputPath(js, opts);
    DistOutputPath(css, opts);
    assert "dist/" + stem + ".js" == "dist/" + js && "dist/" + stem + ".css" == "dist/" + css;
    assert "/" + stem + ".js" == "/" + js && "/" + stem + ".css" == "/" + css;
  }

  lemma DistOutputPath(file: string, opts: IndexOptions)
    requires file != [] && file[0] != '/'
    requires opts.pathPrefix == Some("/") && opts.trimPath == Some(TrimText("dist/"))
    ensures OutputPath("dist/" + file, opts) == "/" + file
  {
    var name := "dist/" + file;
    assert OccursAt(name, "dist/", 0);
    assert FindSub(name, "dist/") == 0;
    assert name[5..] == file;
    assert Trimmed(name, opts.trimPath) == file;
    assert !StartsWith(file, "/");
  }

  // DistScriptExtname and DistStylesheetExtname differ only in the extension.
  // They are kept apart because one lemma over both extensions is markedly
  // more expensive to verify.
  lemma DistScriptExtname(stem: string)
    requires stem != [] && '/' !in stem
    ensures Extname("/" + stem + ".js") == ".js"
  {
    var ext := "js";
    ExtnameOfFileName("/", stem, ext);
    assert "/" + stem + "." + ext == "/" + stem + ".js";
    assert "." + ext == ".js";
  }

  lemma DistStylesheetExtname(stem: string)
    requires stem != [] && '/' !in stem
    ensures Extname("/" + stem + ".css") == ".css"
  {
    var ext := "css";
    ExtnameOfFileName("/", stem, ext);
    assert "/" + stem + "." + ext == "/" + stem + ".css";
    assert "." + ext == ".css";
  }

  lemma PlaceScriptThenStylesheet(js: string, css: string)
    requires Extname(js) == ".js" && Extname(css) == ".css"
    ensures StylesheetLinks([js, css]) == [StylesheetLink(css)]
    ensures ScriptTags([js, css]) == [ScriptTag(js)]
  {
    var paths := [js, css];
    assert paths[..1] == [js] && paths[..1][..0] == [];
    assert StylesheetLinks([js]) == [] && ScriptTags([js]) == [ScriptTag(js)];
  }
}

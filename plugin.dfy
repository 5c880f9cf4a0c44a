/**
 * The plugin's `setup` (src/index.ts:16-33) and its `onEnd` callback
 * (src/index.ts:250-270): the build options it changes before the build,
 * and the HTML options it completes after each successful build, in place,
 * before handing them to `generateIndexHTML`.
 */
module Plugin {
  import opened Wrappers
  import opened Text
  import opened Host
  import opened Random
  import opened Sfc
  import Paths
  import Html
  import Stub
  import Resolve
  import Loaders

  /** `generateHTML`: the path of the original HTML file, or the options object. */
  datatype HtmlSetting = HtmlPath(path: string) | HtmlObject(options: Html.IndexOptions)

  /** `opts.generateHTML` is truthy: an object, or a non-empty string. */
  predicate HtmlEnabled(g: Option<HtmlSetting>)
  {
    g.Some? && (g.value.HtmlPath? ==> g.value.path != "")
  }

  /** The plugin's options (src/options.ts); `randomIdSeed` is `None` when it is not a string. */
  class PluginOptions {
    const enableOptionsApi: bool
    const enableDevTools: bool
    const renderSSR: bool
    const disableResolving: bool
    const randomIdSeed: Option<string>
    /** The one option the plugin itself reassigns. */
    var generateHTML: Option<HtmlSetting>

    constructor (enableOptionsApi: bool, enableDevTools: bool, renderSSR: bool, disableResolving: bool,
                 randomIdSeed: Option<string>, generateHTML: Option<HtmlSetting>)
      ensures this.enableOptionsApi == enableOptionsApi && this.enableDevTools == enableDevTools
      ensures this.renderSSR == renderSSR && this.disableResolving == disableResolving
      ensures this.randomIdSeed == randomIdSeed && this.generateHTML == generateHTML
    {
      this.enableOptionsApi := enableOptionsApi;
      this.enableDevTools := enableDevTools;
      this.renderSSR := renderSSR;
      this.disableResolving := disableResolving;
      this.randomIdSeed := randomIdSeed;
      this.generateHTML := generateHTML;
    }
  }

  /** The parts of esbuild's `initialOptions` the plugin reads or writes. */
  class BuildOptions {
    var define: map<string, string>
    var metafile: bool
    const outdir: Option<string>
    const outfile: Option<string>
    const minify: bool
    const sourcemap: bool

    constructor (define: map<string, string>, metafile: bool, outdir: Option<string>, outfile: Option<string>,
                 minify: bool, sourcemap: bool)
      ensures this.define == define && this.metafile == metafile && this.outdir == outdir
      ensures this.outfile == outfile && this.minify == minify && this.sourcemap == sourcemap
    {
      this.define := define;
      this.metafile := metafile;
      this.outdir := outdir;
      this.outfile := outfile;
      this.minify := minify;
      this.sourcemap := sourcemap;
    }
  }

  const OptionsApiFlag := "__VUE_OPTIONS_API__"
  const DevToolsFlag := "__VUE_PROD_DEVTOOLS__"

  function FlagText(on: bool): string
  {
    if on then "true" else "false"
  }

  /** `{ ...buildOpts.define, __VUE_OPTIONS_API__: ..., __VUE_PROD_DEVTOOLS__: ... }` */
  function DefineFlags(define: map<string, string>, optionsApi: bool, devTools: bool): (m: map<string, string>)
    ensures m.Keys == define.Keys + {OptionsApiFlag, DevToolsFlag}
    ensures m[OptionsApiFlag] == (if optionsApi then "true" else "false")
    ensures m[DevToolsFlag] == (if devTools then "true" else "false")
    ensures forall k :: k in define && k != OptionsApiFlag && k != DevToolsFlag ==> m[k] == define[k]
  {
    define[OptionsApiFlag := FlagText(optionsApi)][DevToolsFlag := FlagText(devTools)]
  }

  datatype SetupError =
    | ConfigError(error: Paths.LoadError)   // `loadRules()` rejects
    | SeedNotString                         // "The randomIdSeed option's value must be string"

  /**
   * `setup` up to the registration of the callbacks (src/index.ts:17-33):
   * on success, the shared scope-id generator, seeded with the UTF-8 bytes
   * of `randomIdSeed`. A failing `loadRules` fails `setup` before the seed
   * is looked at.
   */
  method Setup(opts: PluginOptions, buildOpts: BuildOptions, rules: Paths.RuleList, config: Paths.TsConfig,
               validPattern: string -> bool, hash: Hash) returns (r: Result<Generator, SetupError>)
    modifies buildOpts, rules
    ensures buildOpts.define == DefineFlags(old(buildOpts.define), opts.enableOptionsApi, opts.enableDevTools)
    ensures buildOpts.metafile == (old(buildOpts.metafile) || HtmlEnabled(opts.generateHTML))
    ensures rules.rules == old(rules.rules) + Paths.LoadedRules(config, validPattern)
    ensures Paths.LoadErrorOf(config, validPattern).Some? ==>
      r == Failure(ConfigError(Paths.LoadErrorOf(config, validPattern).value))
    ensures Paths.LoadErrorOf(config, validPattern).None? && opts.randomIdSeed.None? ==> r == Failure(SeedNotString)
    ensures Paths.LoadErrorOf(config, validPattern).None? && opts.randomIdSeed.Some? ==>
      && r.Success? && fresh(r.value) && r.value.Valid()
      && r.value.hash == hash && r.value.seed == Utf8(opts.randomIdSeed.value) && r.value.steps == 0
  {
    buildOpts.define := DefineFlags(buildOpts.define, opts.enableOptionsApi, opts.enableDevTools);
    if HtmlEnabled(opts.generateHTML) && !buildOpts.metafile {
      buildOpts.metafile := true;
    }
    var loaded := rules.LoadRules(config, validPattern);
    if loaded.Failure? {
      return Failure(ConfigError(loaded.error));
    }
    if opts.randomIdSeed.None? {
      return Failure(SeedNotString);
    }
    var random := new Generator(hash, Utf8(opts.randomIdSeed.value));
    return Success(random);
  }

  /** The output directory `onEnd` infers: `outdir`, else the directory of `outfile`, else none. */
  function OutDir(host: PathHost, outdir: Option<string>, outfile: Option<string>): Option<string>
  {
    if Html.Truthy(outdir) then outdir
    else if Html.Truthy(outfile) then Some(host.dirname(outfile.value))
    else None
  }

  /** The string shorthand as the code expands it: `{ sourceFile: path }` (src/index.ts:252-256). */
  function ShorthandAsWritten(path: string): Html.IndexOptions
  {
    Html.IndexOptions(None, Some(path), None, None, None, None)
  }

  /** The string shorthand as `generateIndexHTML` reads it: the path is the original HTML file. */
  function ShorthandCorrected(path: string): Html.IndexOptions
  {
    Html.IndexOptions(Some(path), None, None, None, None, None)
  }

  /** `opts.generateHTML` once the shorthand is expanded, with the path as the original file. */
  function AsObject(g: HtmlSetting): Html.IndexOptions
  {
    match g
    case HtmlPath(path) => ShorthandCorrected(path)
    case HtmlObject(o) => o
  }

  /** The three `??=` of src/index.ts:264-266: each fills its field only when it is unset. */
  function Defaulted(host: PathHost, o: Html.IndexOptions, outDir: Option<string>): Html.IndexOptions
  {
    o.(trimPath := if o.trimPath.Some? then o.trimPath
                   else if outDir.Some? then Some(Html.TrimText(outDir.value)) else None,
       pathPrefix := if o.pathPrefix.Some? then o.pathPrefix else Some("/"),
       outFile := if o.outFile.Some? then o.outFile
                  else if outDir.None? then None
                  else if outDir.value == "" then Some("")
                  else Some(host.join(outDir.value, "index.html")))
  }

  /**
   * Defaulting fills only what is missing: every field the user set is
   * kept, the path prefix is always set afterwards, the trim path and the
   * output file are set whenever an output directory is known, and nothing
   * else changes.
   */
  lemma DefaultsFillOnlyMissing(host: PathHost, o: Html.IndexOptions, outDir: Option<string>)
    ensures
      var r := Defaulted(host, o, outDir);
      && (o.trimPath.Some? ==> r.trimPath == o.trimPath)
      && (o.pathPrefix.Some? ==> r.pathPrefix == o.pathPrefix)
      && (o.outFile.Some? ==> r.outFile == o.outFile)
      && r.pathPrefix.Some?
      && (o.trimPath.None? ==> (r.trimPath.Some? <==> outDir.Some?))
      && (o.outFile.None? ==> (r.outFile.Some? <==> outDir.Some?))
      && (o.outFile.None? && outDir.Some? && outDir.value != "" ==> r.outFile == Some(host.join(outDir.value, "index.html")))
      && r.originalFile == o.originalFile && r.sourceFile == o.sourceFile && r.preload == o.preload
  {
  }

  /** Defaulting twice is defaulting once: a later build end leaves the options as the first left them. */
  lemma DefaultedIdempotent(host: PathHost, o: Html.IndexOptions, outDir: Option<string>)
    ensures Defaulted(host, Defaulted(host, o, outDir), outDir) == Defaulted(host, o, outDir)
  {
  }

  /**
   * `onEnd` (src/index.ts:250-270), given the number of build errors and the
   * metafile's output names; `None` when it does nothing. The string
   * shorthand is expanded as `ShorthandCorrected`; `ShorthandAsWritten` is
   * what the code writes.
   */
  method OnEnd(host: PathHost, opts: PluginOptions, buildOpts: BuildOptions, errorCount: nat,
               outputs: Option<seq<string>>) returns (r: Option<Result<Html.Insertions, Html.HtmlError>>)
    modifies opts
    ensures !(HtmlEnabled(old(opts.generateHTML)) && errorCount == 0) ==>
      r.None? && opts.generateHTML == old(opts.generateHTML)
    ensures HtmlEnabled(old(opts.generateHTML)) && errorCount == 0 ==>
      var o := Defaulted(host, AsObject(old(opts.generateHTML).value), OutDir(host, buildOpts.outdir, buildOpts.outfile));
      opts.generateHTML == Some(HtmlObject(o)) && r == Some(Html.Plan(outputs, o))
  {
    if !(HtmlEnabled(opts.generateHTML) && errorCount == 0) {
      return None;
    }
    if opts.generateHTML.value.HtmlPath? {
      opts.generateHTML := Some(HtmlObject(ShorthandCorrected(opts.generateHTML.value.path)));
    }
    var outDir := if Html.Truthy(buildOpts.outdir) then buildOpts.outdir
                  else if Html.Truthy(buildOpts.outfile) then Some(host.dirname(buildOpts.outfile.value))
                  else None;
    var html := opts.generateHTML.value.options;
    if html.trimPath.None? {
      html := html.(trimPath := if outDir.Some? then Some(Html.TrimText(outDir.value)) else None);
    }
    if html.pathPrefix.None? {
      html := html.(pathPrefix := Some("/"));
    }
    if html.outFile.None? {
      html := html.(outFile := if outDir.None? then None
                               else if outDir.value == "" then Some("")
                               else Some(host.join(outDir.value, "index.html")));
    }
    opts.generateHTML := Some(HtmlObject(html));
    var result := Html.GenerateIndexHtml(outputs, html);
    return Some(result);
  }

  /**
   * As written, the string shorthand can never produce a page: the path
   * lands in `sourceFile`, `generateIndexHTML` reads `originalFile`, and
   * once the metafile and the output file are there, reading the original
   * file fails.
   */
  lemma ShorthandAsWrittenNeverRenders(host: PathHost, path: string, outDir: Option<string>, outputs: Option<seq<string>>)
    ensures
      var o := Defaulted(host, ShorthandAsWritten(path), outDir);
      && Html.Plan(outputs, o).Failure?
      && (outputs.Some? && Html.Truthy(o.outFile) ==> Html.Plan(outputs, o) == Failure(Html.OriginalFileUnreadable))
  {
  }

  /**
   * With the path taken as the original file, the shorthand renders a page
   * whenever the build has a metafile and an output directory, and the page
   * is read from that path.
   */
  lemma ShorthandCorrectedRenders(host: PathHost, path: string, dir: string, outputs: seq<string>)
    requires dir != "" && host.join(dir, "index.html") != ""
    ensures
      var o := Defaulted(host, ShorthandCorrected(path), Some(dir));
      && Html.Plan(Some(outputs), o).Success?
      && o.originalFile == Some(path)
      && o.outFile == Some(host.join(dir, "index.html"))
  {
  }

  /**
   * Across the stub, the resolvers and the style loader: the import the stub
   * writes for style block `i` of a `.vue` file reaches the style namespace
   * with the stub's descriptor and scope id, and its index selects block `i`.
   */
  lemma StubStyleImportSelectsItsBlock(host: PathHost, alias: string -> string, decode: string -> string,
                                       disableResolving: bool, path: string, d: Descriptor, id: string, i: nat,
                                       resolveDir: string)
    requires '?' !in path && EndsWith(path, ".vue") && i < |d.styles| && Stub.FitsInLiteral(path)
    requires decode("style") == "style" && decode(NatToString(i)) == NatToString(i)
    requires disableResolving || Resolve.ResolveFile(host, alias, path + "?type=style&index=" + NatToString(i)).None?
    ensures
      var specifier := Stub.UnescapePath(Stub.StyleSpecifier(Stub.EscapePath(path), i));
      var r := Resolve.Route(host, alias, decode, disableResolving, specifier.GetOr(""), resolveDir,
                             Some(PluginData(Some(d), Some(id), None)));
      && specifier.Some?
      && r.Some? && r.value.namespace == Resolve.SfcStyle
      && r.value.pluginData == Some(PluginData(Some(d), Some(id), Some(NatToString(i))))
      && Loaders.StyleBlockAt(d, r.value.pluginData.value.index) == Some(d.styles[i])
  {
    Stub.StyleSpecifierNamesPath(path, i);
    Resolve.StyleSpecifierRoutesToStyle(host, alias, decode, disableResolving, path, i, resolveDir,
                                        PluginData(Some(d), Some(id), None));
    Loaders.StyleBlockAtWrittenIndex(d, i);
  }
}

/**
 * The `onLoad` callbacks of the three virtual namespaces (src/index.ts:121-248):
 * what each hands to its compiler, and how it shapes the compiler's result
 * into esbuild's load result, diagnostics included.
 *
 * `compileScript`, `compileTemplate`, `compileStyleAsync` and the pug
 * rendering are parameters; the base64 text of a script's source map is part
 * of the compiled script.
 */
module Loaders {
  import opened Wrappers
  import opened Text
  import opened Host
  import opened Sfc

  datatype Loader = JsLoader | TsLoader | CssLoader

  /** esbuild's `location` of a message; `lineText` and `namespace` only where the plugin sets them. */
  datatype Location = Location(file: string, line: int, column: int, lineText: Option<string>, namespace: Option<string>)

  /** esbuild's `PartialMessage`. */
  datatype Message = Message(text: string, location: Option<Location>)

  /** A load result with contents. */
  datatype Contents = Contents(contents: string, loader: Loader, resolveDir: string, warnings: seq<Message>,
                               watchFiles: Option<seq<string>>)

  /** A callback either returns contents or reports errors (`{ errors }`). */
  datatype LoadOutcome = Loaded(result: Contents) | Reported(errors: seq<Message>)

  /** What the callbacks throw. */
  datatype LoadFailure =
    | NoDescriptor      // `pluginData` carries no descriptor: reading a field of `undefined` throws a TypeError
    | MissingTemplate   // "Missing template"
    | NoStyleBlock      // `descriptor.styles[index]` is `undefined`: reading `style.content` throws a TypeError

  // ---------------------------------------------------------------- script

  /** The result of `compileScript`: its code, its `lang`, and the base64 text of its map when there is one. */
  datatype CompiledScript = CompiledScript(content: string, lang: Option<string>, encodedMap: Option<string>)

  const SourceMapComment := "\n\n//@ sourceMappingURL=data:application/json;charset=utf-8;base64,"

  /** `script.lang === "ts" ? "ts" : "js"` */
  function ScriptLoader(lang: Option<string>): (l: Loader)
    ensures l == TsLoader <==> lang == Some("ts")
    ensures l != CssLoader
  {
    if lang == Some("ts") then TsLoader else JsLoader
  }

  /** The `sfc-script` callback (src/index.ts:121-140); `None` is the `undefined` it returns without a script. */
  function LoadScript(host: PathHost, data: PluginData, path: string, sourcemap: bool,
                      compile: (Descriptor, Option<string>) -> CompiledScript): Result<Option<LoadOutcome>, LoadFailure>
  {
    if data.descriptor.None? then Failure(NoDescriptor)
    else
      var d := data.descriptor.value;
      if !HasScript(d) then Success(None)
      else
        var script := compile(d, data.id);
        var code := if sourcemap && script.encodedMap.Some?
          then script.content + SourceMapComment + script.encodedMap.value
          else script.content;
        Success(Some(Loaded(Contents(code, ScriptLoader(script.lang), host.dirname(path), [], None))))
  }

  /**
   * A script load yields nothing exactly when the descriptor has no script;
   * otherwise the compiled code, followed by the inline source-map comment
   * exactly when source maps are on and the compiler produced a map.
   */
  lemma ScriptLoadShape(host: PathHost, d: Descriptor, id: Option<string>, path: string, sourcemap: bool,
                        compile: (Descriptor, Option<string>) -> CompiledScript)
    ensures
      var r := LoadScript(host, PluginData(Some(d), id, None), path, sourcemap, compile);
      var script := compile(d, id);
      && r.Success?
      && (r.value.None? <==> !HasScript(d))
      && (r.value.Some? ==>
            && r.value.value.Loaded?
            && r.value.value.result.loader == ScriptLoader(script.lang)
            && StartsWith(r.value.value.result.contents, script.content)
            && (r.value.value.result.contents == script.content <==> !(sourcemap && script.encodedMap.Some?))
            && (sourcemap && script.encodedMap.Some? ==>
                  r.value.value.result.contents[|script.content|..] == SourceMapComment + script.encodedMap.value))
  {
    var script := compile(d, id);
    if HasScript(d) && sourcemap && script.encodedMap.Some? {
      var code := script.content + SourceMapComment + script.encodedMap.value;
      assert code == script.content + (SourceMapComment + script.encodedMap.value);
      assert code[..|script.content|] == script.content;
      assert |code| > |script.content|;
    }
  }

  // -------------------------------------------------------------- template

  /**
   * The options `compileTemplate` receives that the model tracks. The
   * constant `ssrCssVars: []` and `compilerOptions` (no comments, condensed
   * whitespace) are the same on every call and are part of the opaque
   * compiler.
   */
  datatype TemplateInput = TemplateInput(id: Option<string>, source: string, filename: string, scoped: bool,
                                         slotted: bool, ssr: bool, isProd: bool)

  /** `loc.start.line`, `loc.start.column` and `loc.source` of a compiler error. */
  datatype ErrorLoc = ErrorLoc(line: int, column: int, source: string)

  /** A template compiler error: a bare string, or an error object with an optional location. */
  datatype TemplateError = TextError(text: string) | ErrorObject(message: string, loc: Option<ErrorLoc>)

  datatype CompiledTemplate = CompiledTemplate(code: string, errors: seq<TemplateError>, tips: seq<string>)

  /** `(process.env.NODE_ENV === "production") || buildOpts.minify` */
  predicate IsProd(nodeEnv: Option<string>, minify: bool)
  {
    nodeEnv == Some("production") || minify
  }

  /** The template's text, rendered by pug first when its `lang` is "pug". */
  function TemplateSource(t: Block, pug: string -> string): string
  {
    if t.lang == Some("pug") then pug(t.content) else t.content
  }

  /** One template error as an esbuild message (src/index.ts:175-183). */
  function TemplateMessage(e: TemplateError, file: string, blockLine: int): Message
  {
    match e
    case TextError(text) => Message(text, None)
    case ErrorObject(message, loc) =>
      Message(message, if loc.None? then None
                       else Some(Location(file, loc.value.line + blockLine + 1, loc.value.column, Some(loc.value.source), None)))
  }

  /** `result.errors.map(...)` */
  function TemplateMessages(errors: seq<TemplateError>, file: string, blockLine: int): seq<Message>
  {
    seq(|errors|, i requires 0 <= i < |errors| => TemplateMessage(errors[i], file, blockLine))
  }

  /** The `sfc-template` callback (src/index.ts:142-193). */
  function LoadTemplate(host: PathHost, data: PluginData, path: string, renderSSR: bool,
                        nodeEnv: Option<string>, minify: bool, pug: string -> string, compile: TemplateInput -> CompiledTemplate): Result<LoadOutcome, LoadFailure>
  {
    if data.descriptor.None? then Failure(NoDescriptor)
    else
      var d := data.descriptor.value;
      if d.template.None? then Failure(MissingTemplate)
      else
        var t := d.template.value;
        var result := compile(TemplateInput(data.id, TemplateSource(t, pug), path, AnyScoped(d.styles), d.slotted,
                                            renderSSR, IsProd(nodeEnv, minify)));
        if |result.errors| > 0 then Success(Reported(TemplateMessages(result.errors, d.filename, t.startLine)))
        else Success(Loaded(Contents(result.code, JsLoader, host.dirname(path),
                                     seq(|result.tips|, i requires 0 <= i < |result.tips| => Message(result.tips[i], None)),
                                     None)))
  }

  /**
   * Every compiler error becomes one message, in order: a string error is a
   * message without location; an error object keeps its message, and its
   * location, when it has one, names the component's file at the fragment
   * line shifted by the template block's first line plus one.
   */
  lemma TemplateDiagnostics(errors: seq<TemplateError>, file: string, blockLine: int)
    ensures |TemplateMessages(errors, file, blockLine)| == |errors|
    ensures forall i :: 0 <= i < |errors| ==>
      var m := TemplateMessages(errors, file, blockLine)[i];
      && (errors[i].TextError? ==> m == Message(errors[i].text, None))
      && (errors[i].ErrorObject? ==>
            && m.text == errors[i].message
            && (m.location.None? <==> errors[i].loc.None?)
            && (errors[i].loc.Some? ==>
                  var loc := errors[i].loc.value;
                  m.location.value == Location(file, loc.line + blockLine + 1, loc.column, Some(loc.source), None)))
  {
  }

  /**
   * The template load: a missing template throws, a compile with errors
   * reports each of them, and a clean compile yields its code as JavaScript
   * with every tip as a warning. The compiler is told the template is
   * scoped exactly when some style block is, and that the build is a
   * production one exactly when `NODE_ENV` is "production" or the build
   * minifies.
   */
  lemma TemplateLoadShape(host: PathHost, d: Descriptor, id: Option<string>, path: string, renderSSR: bool,
                          nodeEnv: Option<string>, minify: bool,
                          pug: string -> string, compile: TemplateInput -> CompiledTemplate)
    ensures
      var r := LoadTemplate(host, PluginData(Some(d), id, None), path, renderSSR, nodeEnv, minify, pug, compile);
      && (d.template.None? <==> r == Failure(MissingTemplate))
      && (d.template.Some? ==>
            var t := d.template.value;
            var input := TemplateInput(id, TemplateSource(t, pug), path, AnyScoped(d.styles), d.slotted, renderSSR,
                                       IsProd(nodeEnv, minify));
            var result := compile(input);
            && (input.scoped <==> exists i :: 0 <= i < |d.styles| && d.styles[i].scoped)
            && (input.isProd <==> nodeEnv == Some("production") || minify)
            && (|result.errors| > 0 ==> r == Success(Reported(TemplateMessages(result.errors, d.filename, t.startLine))))
            && (|result.errors| == 0 ==>
                  && r.Success? && r.value.Loaded?
                  && r.value.result.contents == result.code && r.value.result.loader == JsLoader
                  && |r.value.result.warnings| == |result.tips|
                  && forall i :: 0 <= i < |result.tips| ==> r.value.result.warnings[i] == Message(result.tips[i], None)))
  {
  }

  /**
   * An error at line 3 of the template fragment, in a template block that
   * begins at line 10, is reported at line 14: the fragment line, the
   * block's line, and one more.
   */
  lemma TemplateLineExample(file: string, message: string, source: string)
    ensures TemplateMessage(ErrorObject(message, Some(ErrorLoc(3, 5, source))), file, 10)
      == Message(message, Some(Location(file, 14, 5, Some(source), None)))
  {
  }

  // ----------------------------------------------------------------- style

  /**
   * The options `compileStyleAsync` receives that the model tracks; the two
   * importers of `preprocessOptions` are given as the one function their
   * chain amounts to.
   */
  datatype StyleInput = StyleInput(filename: string, id: Option<string>, source: string, lang: Option<string>,
                                   includePaths: seq<string>, importer: string -> string, scoped: bool)

  /** A style error: its message and the position the preprocessor reports. */
  datatype StyleError = StyleError(message: string, line: int, column: int, file: string)

  datatype CompiledStyle = CompiledStyle(code: string, errors: seq<StyleError>)

  /** The characters JavaScript's `.` does not match and `$` does not cross. */
  predicate IsLineTerminator(c: char)
  {
    c == '\n' || c == '\r' || c == '\U{2028}' || c == '\U{2029}'
  }

  /** The position of the last line terminator, or -1. */
  function LastTerminator(s: string): (i: int)
    ensures -1 <= i < |s|
  {
    if s == [] then -1
    else if IsLineTerminator(s[|s| - 1]) then |s| - 1
    else LastTerminator(s[..|s| - 1])
  }

  /** The position found holds a line terminator, and none follows it. */
  lemma {:induction false} LastTerminatorIsLast(s: string)
    ensures var i := LastTerminator(s);
      && (0 <= i ==> IsLineTerminator(s[i]))
      && forall j :: i < j < |s| ==> !IsLineTerminator(s[j])
  {
    if s != [] && !IsLineTerminator(s[|s| - 1]) {
      var init := s[..|s| - 1];
      LastTerminatorIsLast(init);
      assert forall j :: 0 <= j < |init| ==> init[j] == s[j];
    }
  }

  /**
   * `file.replace(/\?.*?$/, "")`: the leftmost match starts at the first `?`
   * after which no line terminator follows, that is, the first `?` after the
   * last line terminator, and runs to the end; without one nothing changes.
   */
  function StripQuery(file: string): string
  {
    var t := LastTerminator(file) + 1;
    var q := IndexOf(file[t..], '?');
    if q < 0 then file else file[..t + q]
  }

  predicate NoLineTerminator(s: string)
  {
    forall k :: 0 <= k < |s| ==> !IsLineTerminator(s[k])
  }

  lemma {:induction false} NoLastTerminator(s: string)
    requires NoLineTerminator(s)
    ensures LastTerminator(s) == -1
  {
    if s != [] {
      var init := s[..|s| - 1];
      assert forall k :: 0 <= k < |init| ==> init[k] == s[k];
      NoLastTerminator(init);
    }
  }

  /** Stripping only ever removes a suffix. */
  lemma StripQueryIsPrefix(file: string)
    ensures StartsWith(file, StripQuery(file))
  {
  }

  /** A path with a query and no line break loses exactly the query: everything from its first `?`. */
  lemma StripQueryOfPathWithQuery(path: string, query: string)
    requires '?' !in path
    requires NoLineTerminator(path + "?" + query)
    ensures StripQuery(path + "?" + query) == path
  {
    var s := path + "?" + query;
    NoLastTerminator(s);
    assert s[0..] == s;
    assert s[|path|] == '?' && s[..|path|] == path;
    assert IndexOf(s, '?') == |path|;
  }

  lemma LastTerminatorOfPrefix(s: string, m: nat)
    requires LastTerminator(s) < m <= |s|
    ensures LastTerminator(s[..m]) == LastTerminator(s)
  {
    var i, r := LastTerminator(s), s[..m];
    var i' := LastTerminator(r);
    LastTerminatorIsLast(s);
    LastTerminatorIsLast(r);
    if i' >= 0 {
      assert r[i'] == s[i'];
    }
    if i >= 0 {
      assert r[i] == s[i];
    }
  }

  /** Stripping twice strips nothing more. */
  lemma StripQueryIdempotent(file: string)
    ensures StripQuery(StripQuery(file)) == StripQuery(file)
  {
    StrippedHasNoQuery(file);
    NoQueryUnchanged(StripQuery(file));
  }

  /** What is left after stripping has no `?` after its last line terminator. */
  lemma StrippedHasNoQuery(file: string)
    ensures var r := StripQuery(file); '?' !in r[LastTerminator(r) + 1..]
  {
    var t := LastTerminator(file) + 1;
    var q := IndexOf(file[t..], '?');
    if q >= 0 {
      var r := file[..t + q];
      assert StripQuery(file) == r;
      LastTerminatorOfPrefix(file, t + q);
      assert LastTerminator(r) + 1 == t;
      assert '?' !in file[t..][..q];
      assert r[t..] == file[t..][..q];
    } else {
      assert StripQuery(file) == file;
      assert '?' !in file[t..];
    }
  }

  /** Without a `?` after the last line terminator, nothing is stripped. */
  lemma NoQueryUnchanged(s: string)
    requires '?' !in s[LastTerminator(s) + 1..]
    ensures StripQuery(s) == s
  {
  }

  /** One style error as an esbuild message (src/index.ts:230-238). */
  function StyleMessage(e: StyleError, path: string, blockLine: int): Message
  {
    Message(e.message, Some(Location(StripQuery(e.file), if e.file == path then blockLine + e.line - 1 else e.line,
                                     e.column, None, Some("file"))))
  }

  /** `errors.map(...)` */
  function StyleMessages(errors: seq<StyleError>, path: string, blockLine: int): seq<Message>
  {
    seq(|errors|, i requires 0 <= i < |errors| => StyleMessage(errors[i], path, blockLine))
  }

  /**
   * Every style error becomes one message, in order, in the `file`
   * namespace: its line is shifted by the block's first line minus one
   * exactly when the error names the loaded module itself, and its file has
   * the query stripped.
   */
  lemma StyleDiagnostics(errors: seq<StyleError>, path: string, blockLine: int)
    ensures |StyleMessages(errors, path, blockLine)| == |errors|
    ensures forall i :: 0 <= i < |errors| ==>
      var m := StyleMessages(errors, path, blockLine)[i];
      && m.text == errors[i].message
      && m.location.Some?
      && m.location.value.line == (if errors[i].file == path then blockLine + errors[i].line - 1 else errors[i].line)
      && m.location.value.column == errors[i].column
      && m.location.value.file == StripQuery(errors[i].file)
      && m.location.value.namespace == Some("file")
  {
  }

  /** `descriptor.styles[index]` for the string `index`: only a canonical decimal index within bounds names a block. */
  function StyleBlockAt(d: Descriptor, index: Option<string>): Option<StyleBlock>
  {
    if index.None? then None
    else match ParseIndex(index.value)
      case None => None
      case Some(k) => if k < |d.styles| then Some(d.styles[k]) else None
  }

  /** The index the stub writes for block `i` selects block `i`. */
  lemma StyleBlockAtWrittenIndex(d: Descriptor, i: nat)
    ensures StyleBlockAt(d, Some(NatToString(i))) == if i < |d.styles| then Some(d.styles[i]) else None
  {
    ParseNatToString(i);
  }

  /**
   * The importers given to the preprocessor (src/index.ts:210-221): a module
   * under `node_modules` of the working directory when it exists, else the
   * aliased url.
   */
  function ImportedFile(host: PathHost, alias: string -> string, url: string): string
  {
    var modulePath := host.join(host.join(host.cwd, "node_modules"), url);
    if host.pathExists(modulePath) then modulePath else alias(url)
  }

  /** The importer chain as one function of the requested url. */
  function Importer(host: PathHost, alias: string -> string): string -> string
  {
    url => ImportedFile(host, alias, url)
  }

  /** The `sfc-style` callback (src/index.ts:195-248). */
  function LoadStyle(host: PathHost, alias: string -> string, data: PluginData, path: string,
                     compile: StyleInput -> CompiledStyle): Result<LoadOutcome, LoadFailure>
  {
    if data.descriptor.None? then Failure(NoDescriptor)
    else
      var style := StyleBlockAt(data.descriptor.value, data.index);
      if style.None? then Failure(NoStyleBlock)
      else
        var result := compile(StyleInput(path, data.id, style.value.content, style.value.lang,
                                         [host.dirname(path)], Importer(host, alias), style.value.scoped));
        if |result.errors| > 0 then Success(Reported(StyleMessages(result.errors, path, style.value.startLine)))
        else Success(Loaded(Contents(result.code, CssLoader, host.dirname(path), [], Some([]))))
  }

  /**
   * Loading the style module of block `i` compiles block `i`: its text,
   * `lang` and `scoped` go to the compiler with the file's directory as the
   * include path and the node_modules-then-alias importer; a clean compile
   * is CSS with no watched files.
   */
  lemma StyleLoadOfBlock(host: PathHost, alias: string -> string, d: Descriptor, id: Option<string>, i: nat,
                         path: string, compile: StyleInput -> CompiledStyle)
    requires i < |d.styles|
    ensures
      var r := LoadStyle(host, alias, PluginData(Some(d), id, Some(NatToString(i))), path, compile);
      var style := d.styles[i];
      var result := compile(StyleInput(path, id, style.content, style.lang, [host.dirname(path)],
                                       Importer(host, alias), style.scoped));
      && (|result.errors| > 0 ==> r == Success(Reported(StyleMessages(result.errors, path, style.startLine))))
      && (|result.errors| == 0 ==> r == Success(Loaded(Contents(result.code, CssLoader, host.dirname(path), [], Some([])))))
  {
    StyleBlockAtWrittenIndex(d, i);
  }

  /** An index that is missing, not canonical or out of range makes the style load throw. */
  lemma StyleLoadWithoutBlock(host: PathHost, alias: string -> string, d: Descriptor, id: Option<string>,
                              index: Option<string>, path: string, compile: StyleInput -> CompiledStyle)
    requires StyleBlockAt(d, index).None?
    ensures LoadStyle(host, alias, PluginData(Some(d), id, index), path, compile) == Failure(NoStyleBlock)
  {
  }
}

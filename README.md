# esbuild-plugin-vue3, modelled in Dafny

This project models the bookkeeping of `esbuild-plugin-vue3`, an esbuild plugin that splits a Vue single-file component (`Foo.vue`) into virtual modules.

- A `.vue` file loads as a small **stub** module. The stub imports `Foo.vue?type=script`, one `Foo.vue?type=style&index=i` per style block, and `Foo.vue?type=template`.
- A `.vue` **resolver** sends each of those ids to its namespace (`sfc-script`, `sfc-style`, `sfc-template`) by decoding the query string.
- A **general resolver** makes import paths absolute after applying path aliases, and probes four fallback suffixes.
- Three **loaders** hand the blocks to the Vue compilers and map the compilers' diagnostics back to lines of the `.vue` file.
- A **seeded byte generator**, a SHA-256 hash chain, produces the components' scope ids.
- **Alias rules** are built from `compilerOptions.paths` of `tsconfig.json`.
- After the build, **`generateIndexHTML`** plans the `<link>` and `<script>` elements to insert into an HTML page.

Modules, one per concern:

| module | file | models |
|---|---|---|
| `Wrappers` | wrappers.dfy | `Option` and `Result` |
| `Text` | text.dfy | the JavaScript string operations used: `indexOf`, `split`, global one-character `replace`, first-occurrence `replace`, `startsWith`, decimal array keys, hex digits |
| `Host` | host.dfy | the Node.js services (`path`, `fs`, `process.cwd()`), given as opaque functions |
| `UrlParams` | url_params.dfy | `getUrlParams`, `getFullPath` (src/utils.ts) |
| `Random` | random.dfy | the generator as a class whose `RandomBytes` fills an array in 32-byte digest chunks; `Buffer.toString("hex")`; UTF-8 of a string seed |
| `Paths` | paths.dfy | `loadRules` appending to the module-level rule list (a class field), `replaceWildcard` |
| `Html` | html.dfy | `generateIndexHTML`: its checks, the preload loop, the loop over the outputs, producing ordered head and body insertion lists |
| `Json` | json.dfy | `JSON.stringify` of a string, and reading it back |
| `Sfc` | sfc.dfy | the descriptor fields the plugin reads, and `pluginData` |
| `Stub` | stub.dfy | the stub loader: backslash escaping, the `code +=` statement builder, the scope id |
| `Resolve` | resolve.dfy | both `onResolve` callbacks and their order |
| `Loaders` | loaders.dfy | the `sfc-script`, `sfc-template` and `sfc-style` loaders, with diagnostic mapping |
| `Plugin` | plugin.dfy | `setup` before callback registration, and the `onEnd` option defaulting |

Compilers, hashing, `decodeURIComponent`, `replaceRules` and the file system are parameters of the model:
- `Hash` is a function that returns 32 bytes.
- `decode` stands for `decodeURIComponent`.
- `alias` stands for `replaceRules`.
- `PathHost` holds the path and file-system services.
- `compile` and `pug` stand for the compilers.

Every callback is a sequential function or method.

Behaviours of the code worth knowing:
- **Template error lines.** A template error is reported at `loc.start.line + template.loc.start.line + 1`. An error at fragment line 3, in a block starting at line 10, is reported at line 14 (`Loaders.TemplateLineExample`).
- **Missing template.** The template loader throws "Missing template".
- **Scope id.** The stub always records `__scopeId`, whether or not a style block is scoped.
- **No script.** Without a script, the script loader returns nothing (`undefined`).
- **`setup` seed check.** `setup` throws unless `randomIdSeed` is a string, although `src/options.ts` declares no such option. Plugin options without it therefore never get past `setup`.
- **Options API flag.** `setup` reads `enableOptionsApi`, while `src/options.ts` declares `disableOptionsApi`.
- **Unused options.** `src/options.ts` declares `scopeId` and `disableCache` (lines 44 and 49), and `src/index.ts` never reads them, so they are not modelled.

## Model

| member | source | states |
|---|---|---|
| `UrlParams.QueryOf` | src/utils.ts:6 | without a `?` the whole string is parsed |
| `UrlParams.QueryAfterFirstQuestionMark` | src/utils.ts:6 | only the text after the first `?` is parsed; later `?` belong to the query |
| `UrlParams.CollectLastWins` | src/utils.ts:7-10 | the record has exactly the keys of the segments, and each key holds the decoded value of the last segment with that key |
| `UrlParams.GetUrlParams` | src/utils.ts:5-11 | no contract of its own; `CollectLastWins` and `EverySegmentHasAnEntry` characterise the record it returns, and the `Parse…` lemmas below give it for the stub's ids |
| `UrlParams.EverySegmentHasAnEntry` | src/utils.ts:6-9 | every `&`-segment, the empty one included, yields an entry |
| `UrlParams.KeyValueSegment` | src/utils.ts:8-9 | in `k=v` the key is the text before the first `=` and the value the text after it |
| `UrlParams.ValueStopsAtSecondEquals` | src/utils.ts:8-9 | the value is the text between the first and second `=`; the rest is dropped |
| `UrlParams.SegmentWithoutEquals` | src/utils.ts:8-9 | a segment with no `=` maps itself to "undefined", the decoded `undefined` |
| `UrlParams.ParseOneParam` | src/utils.ts:5-11 | `p?k=v` with a `?`-free `p` parses to exactly `{k: v}` |
| `UrlParams.ParseTwoParams` | src/utils.ts:5-11 | `p?k1=v1&k2=v2` parses to exactly those two parameters |
| `UrlParams.ParseTypeQuery` | src/utils.ts:5-11 | the stub's `p?type=script` and `p?type=template` ids parse to `{type}` alone |
| `UrlParams.ParseStyleQuery` | src/utils.ts:5-11 | the stub's `p?type=style&index=i` parses to `type` "style" and `index` the decimal text of `i` |
| `UrlParams.GetFullPath` | src/utils.ts:22-24 | no contract of its own: an absolute path is kept, any other is joined to `resolveDir`; `Resolve.ResolveVue` uses it |
| `Text.ParseNatToString` | src/index.ts:102-103 | the decimal key `for...in` yields for array index `i` reads back as `i` |
| `Random.Generator.constructor` | src/random.ts:6-10 | the generator starts with `seed`, `currentSeed` and the state all equal to the seed |
| `Random.Generator.RandomBytes` | src/random.ts:12-23 | returns exactly the first `n` bytes of the next ceil(n/32) digests of the chain; advances the state by that many hash steps; `currentSeed` follows the state and `seed` never changes |
| `Random.Steps` | src/random.ts:16-19 | a call performs ceil(n/32) hash steps, none for n = 0 |
| `Random.Output` | src/random.ts:13-19 | the output has exactly `n` bytes |
| `Random.OutputStartsWithHashOfSeed` | src/random.ts:17-18 | the output starts with H(state), never with the state itself |
| `Random.IterateAdd` | src/random.ts:17 | hash steps compose along the chain s1 = H(s0), s2 = H(s1), ... |
| `Random.StreamAdd` | src/random.ts:16-20 | the digests of a + b steps are those of a steps followed by those of b more |
| `Random.TwoCalls` | src/random.ts:16-20 | the next call resumes at the next digest of the chain, so the leftover bytes of the last digest are dropped |
| `Random.AlignedCallsConcatenate` | src/random.ts:16-20 | when the first call asks for whole digests, two calls read like one |
| `Random.UnhexHex` | src/index.ts:93 | the hex text of a buffer gives the bytes back |
| `Random.Hex` | src/index.ts:93 | hex text has two lower-case hex digits per byte |
| `Paths.RuleList.LoadRules` | src/paths.ts:8-38 | fails exactly for an unparsable `tsconfig.json` or at the first entry whose pattern `new RegExp` rejects, with that error; appends to the list it never clears the rules of the entries before that one (all of them when every pattern compiles); adds nothing without the file or without `paths` |
| `Paths.RuleList.PushRules` | src/paths.ts:23-37 | the loop stops at the first entry with destinations whose pattern is rejected, and has pushed exactly the rules of the entries before it |
| `Paths.FirstRejected` | src/paths.ts:26-34 | the position of the first entry with destinations whose pattern `new RegExp` rejects (no earlier one is rejected), or the end |
| `Paths.LoadedRulesAreValid` | src/paths.ts:33-36 | every rule left in the list has a pattern `new RegExp` accepts |
| `Paths.AllValidLoadsAll` | src/paths.ts:23-37 | when every pattern compiles, loading succeeds and appends the rules of all entries |
| `Paths.RulesOfEntries` | src/paths.ts:23-31 | a rule exists exactly for each entry with a non-empty destination list, made from its key and first destination |
| `Paths.RulesOfAppend` | src/paths.ts:23-36 | rules follow the key order |
| `Paths.NoWildcardInReplacements` | src/paths.ts:30-31 | every `*` of a destination has become `$1` |
| `Paths.ReplaceWildcardSplitsOnStar` | src/paths.ts:19-21 | `replaceWildcard` cuts at every `*` and joins with the replacement; text without `*` is unchanged |
| `Html.GenerateIndexHtml` | src/html.ts:44-86 | rejects without a metafile, then without an output file, before reading anything; otherwise its insertions are the plan's |
| `Html.Plan` | src/html.ts:44-86 | no contract of its own; `GenerateIndexHtml` states its error cases, and `PlaceOutputs`, `PreloadLinksShape`, `ScriptTagsAreJsPaths` and `StylesheetLinksAreCssPaths` its insertions |
| `Html.PreloadHead` | src/html.ts:56-64 | the loop over `preload` yields its links in list order |
| `Html.PlaceOutputs` | src/html.ts:66-86 | the loop over the outputs yields the stylesheet links and script tags of the rewritten names, in output order |
| `Html.RewriteName` | src/html.ts:67-73 | the name is trimmed, then prefixed, as `OutputPath` says |
| `Html.PrefixIdempotent` | src/html.ts:71-73 | prefixing a name twice is prefixing it once |
| `Html.PreloadLinksShape` | src/html.ts:56-64 | one link per preload entry, in order, with `rel` "prefetch" exactly when `prefetch` is set, `href` and `as` copied |
| `Html.ScriptTagsAreJsPaths` | src/html.ts:75-80 | a body script exists exactly for each rewritten name with extension `.js` |
| `Html.StylesheetLinksAreCssPaths` | src/html.ts:81-85 | a head stylesheet link exists exactly for each rewritten name with extension `.css` |
| `Html.AssetsFollowOutputOrder` | src/html.ts:66 | elements follow the order of the metafile outputs |
| `Html.AtMostOneElementPerOutput` | src/html.ts:75-85 | each output yields at most one element; other extensions yield nothing |
| `Html.ExtnameOfFileName` | src/html.ts:75 | `path.extname` of `<dir><stem>.<ext>` is `.<ext>` |
| `Html.Extname` | src/html.ts:75 | no contract of its own; `ExtnameOfFileName` gives it on `<dir><stem>.<ext>`, and `LastIndexOf` the dot it cuts at |
| `Html.LastIndexOf` | src/html.ts:75 | the last position of a character, or -1 when it is absent |
| `Html.DistExample` | src/html.ts:66-85 | for any stem without `/`, the outputs `dist/<stem>.js` and `dist/<stem>.css`, trimmed by `dist/` and prefixed by `/`, give the one script `/<stem>.js` and the one stylesheet `/<stem>.css` |
| `Json.UnquoteQuote` | src/index.ts:110 | `JSON.stringify` of a string reads back as that string |
| `Json.QuoteInjective` | src/index.ts:110 | different names and ids are written differently |
| `Json.Quote` | src/index.ts:110 | no contract of its own; `UnquoteQuote` and `QuoteInjective` characterise it |
| `Stub.EscapePath` | src/index.ts:84 | no contract of its own; `UnescapeEscapePath` characterises it |
| `Stub.UnescapeEscapePath` | src/index.ts:84 | doubling every backslash loses nothing: the string literal denotes the original path when the path holds no `"` and no line break, and is broken otherwise |
| `Stub.StyleSpecifierNamesPath` | src/index.ts:84-103 | the style import's literal denotes `<path>?type=style&index=<i>` when the path holds no `"` and no line break, and is broken otherwise |
| `Stub.BuildStub` | src/index.ts:94-111 | the successive `code +=` produce the stub's statements in order |
| `Stub.StubCode` | src/index.ts:94-111 | no contract of its own; `BuildStub` computes it, and `StubLayout`, `StubBeginsWithScript`, `EachStyleImportedOnce` and `StubEndsWithTemplateAndExport` characterise it |
| `Stub.StubLayout` | src/index.ts:96-111 | script statement, one import per style block in ascending order, template import, metadata, default export |
| `Stub.StubBeginsWithScript` | src/index.ts:96-100 | the stub starts with the script import exactly when there is a script or script-setup block, else with `const script = {};` |
| `Stub.StyleImportInjective` | src/index.ts:103 | different block indices give different imports |
| `Stub.EachStyleImportedOnce` | src/index.ts:102-104 | style block `i` is imported exactly once when it exists, never otherwise |
| `Stub.StubEndsWithTemplateAndExport` | src/index.ts:106-111 | the stub always ends with the render-function import under the mode's name, the JSON-quoted file name and scope id, and the default export |
| `Stub.ScopeIdShape` | src/index.ts:93 | a scope id is `data-v-` and 8 hex digits (15 characters), and the digits give the 4 bytes back |
| `Stub.ScopeIdInjective` | src/index.ts:93 | different draws give different scope ids |
| `Stub.NextScopeId` | src/index.ts:93 | each scope id takes one hash step of the shared generator and its first 4 bytes |
| `Stub.LoadStub` | src/index.ts:83-119 | the stub load's contents, resolve directory, `pluginData` (descriptor and id) and watched file |
| `Resolve.ResolveGeneral` | src/index.ts:36-62 | the normalized path when it is an existing file; else the first existing among `.ts`, `/index.ts`, `.js`, `/index.js`, in that order; else nothing |
| `Resolve.FirstExistingIsFirst` | src/index.ts:41-55 | the probe returns nothing exactly when no candidate exists, and otherwise the first candidate that exists |
| `Resolve.Classify` | src/index.ts:71-74 | `type` script, template and style map to their namespaces; any other or missing type maps to `file` |
| `Resolve.ResolveVueCarriesData` | src/index.ts:66-80 | the `.vue` resolver keeps the importer's descriptor and id, and sets `index` to the parsed parameter |
| `Resolve.ResolveVue` | src/index.ts:66-80 | no contract of its own; `Classify` gives its namespace and `ResolveVueCarriesData` its data |
| `Resolve.Route` | src/index.ts:35-80 | no contract of its own: the general resolver first unless resolving is disabled, then the `.vue` resolver; `StyleSpecifierRoutesToStyle` gives it for the stub's style ids |
| `Resolve.VueInSpecifier` | src/index.ts:66 | an id built on a `.vue` path matches `/\.vue/` |
| `Resolve.StyleSpecifierRoutesToStyle` | src/index.ts:35-80 | a stub style id the general resolver declines reaches the `sfc-style` namespace with index `i` |
| `Loaders.ScriptLoader` | src/index.ts:136 | the loader is `ts` exactly when the compiled script's `lang` is "ts", else `js` |
| `Loaders.ScriptLoadShape` | src/index.ts:121-140 | nothing without a script; otherwise the compiled code, followed by the inline source-map comment exactly when source maps are on and a map exists |
| `Loaders.LoadScript` | src/index.ts:121-140 | no contract of its own; `ScriptLoadShape` and `ScriptLoader` characterise it |
| `Loaders.TemplateDiagnostics` | src/index.ts:173-185 | one message per error in order; string errors carry no location; located errors point into the component's file at fragment line + block line + 1 |
| `Loaders.TemplateLoadShape` | src/index.ts:142-193 | a missing template throws; errors are reported; a clean compile yields JavaScript with every tip as a warning; `scoped` is set exactly when some style block is scoped, and `isProd` exactly when `NODE_ENV` is "production" or the build minifies |
| `Loaders.LoadTemplate` | src/index.ts:142-193 | no contract of its own; `TemplateLoadShape` and `TemplateDiagnostics` characterise it |
| `Loaders.IsProd` | src/index.ts:166 | no contract of its own; `TemplateLoadShape` states the flag it gives |
| `Loaders.TemplateLineExample` | src/index.ts:180 | a fragment line 3 in a block at line 10 is reported at line 14 |
| `Loaders.LastTerminatorIsLast` | src/index.ts:235 | the position found is the last line terminator: `$` stops `.*?` there |
| `Loaders.StripQueryIsPrefix` | src/index.ts:235 | stripping only removes a suffix |
| `Loaders.StripQueryOfPathWithQuery` | src/index.ts:235 | a one-line `path?query` loses everything from its first `?` |
| `Loaders.StripQueryIdempotent` | src/index.ts:235 | stripping twice strips nothing more |
| `Loaders.StripQuery` | src/index.ts:235 | no contract of its own; `StripQueryIsPrefix`, `StripQueryOfPathWithQuery`, `StripQueryIdempotent` and `LastTerminatorIsLast` characterise it |
| `Loaders.StyleDiagnostics` | src/index.ts:226-239 | one message per error in order; the line shifts to block line + line - 1 exactly when the error names the loaded module; the file loses its query |
| `Loaders.StyleBlockAtWrittenIndex` | src/index.ts:196-198 | the index the stub writes selects that block |
| `Loaders.StyleLoadOfBlock` | src/index.ts:195-248 | block `i`'s text, `lang` and `scoped` are compiled with the file's directory as include path and the importer chain; a clean result is CSS with no watched files |
| `Loaders.StyleLoadWithoutBlock` | src/index.ts:196-204 | an index that names no block makes the load throw |
| `Loaders.LoadStyle` | src/index.ts:195-248 | no contract of its own; `StyleLoadOfBlock`, `StyleLoadWithoutBlock` and `StyleDiagnostics` characterise it |
| `Loaders.ImportedFile` | src/index.ts:210-221 | no contract of its own: the module under `node_modules` of the working directory when it exists, else the aliased url; `StyleLoadOfBlock` states that the compiler receives it |
| `Plugin.DefineFlags` | src/index.ts:17-21 | both feature flags are set to "true"/"false" by their options; every other define is kept |
| `Plugin.Setup` | src/index.ts:16-33 | sets the flags, forces the metafile when HTML generation is on, loads the rules (failing first with `loadRules`' error: an unparsable config or a rejected pattern), rejects a non-string seed, and otherwise returns a fresh generator seeded with the seed's UTF-8 bytes |
| `Plugin.DefaultsFillOnlyMissing` | src/index.ts:258-266 | `??=` keeps every field the user set, always sets the path prefix, and sets trim path and output file when an output directory is known |
| `Plugin.DefaultedIdempotent` | src/index.ts:264-266 | a later build end leaves the defaulted options unchanged |
| `Plugin.Defaulted` | src/index.ts:264-266 | no contract of its own; `DefaultsFillOnlyMissing` and `DefaultedIdempotent` characterise it |
| `Plugin.OutDir` | src/index.ts:258-262 | no contract of its own: `outdir`, else the directory of `outfile`, else none; `OnEnd` uses it |
| `Plugin.OnEnd` | src/index.ts:250-270 | does nothing unless HTML generation is on and there are no errors; otherwise stores the expanded and defaulted options and plans the page with them. The string shorthand is expanded with `ShorthandCorrected`, as `originalFile`, not as the code writes it (see "## Findings") |
| `Plugin.ShorthandAsWrittenNeverRenders` | src/index.ts:252-256 | as written, the string shorthand never yields a page |
| `Plugin.ShorthandCorrectedRenders` | src/index.ts:252-256 | with the path as `originalFile`, the shorthand yields a page whenever an output directory is known |
| `Plugin.StubStyleImportSelectsItsBlock` | src/index.ts:103 | for a path without `"` or a line break, the stub's import of style block `i` resolves to the style namespace with the stub's data, and its index selects block `i` |

## Left out

- The Vue compilers (`sfc.parse`, `compileScript`, `compileTemplate`, `compileStyleAsync`) and `pug.render` with its attribute-fixing regex are opaque parameters. The constant options `ssrCssVars: []` and `compilerOptions: { comments: false, whitespace: "condense" }` of `compileTemplate` are folded into the opaque `compile`. The missing-dependency error of `tryAsync` for pug is not modelled.
- File-system and path services are opaque `PathHost` functions. The two-argument `join` stands for the three-segment `path.join` in the style importer.
- SHA-256 is an uninterpreted function returning 32 bytes. The `crypto.randomBytes(32)` default seed is not modelled, since `setup` always passes `randomIdSeed`.
- `Random.Generator`: `seed` holds the UTF-8 bytes that `hash.update` sees, not the JavaScript string. `n` is a natural number; negative or fractional sizes are not modelled.
- The base64 encoding of a script's source map is not modelled; the encoded text is part of the compiled script.
- cheerio, html-minifier, `$.html()` and `writeFile` are not modelled. The page is described by its ordered head and body insertions. The `min` flag only reaches the minifier.
- Html.Insertions: the model assumes `head :last-child` and `body :last-child` each name one element. cheerio inserts nothing into an empty `<head>` or `<body>`. It inserts one copy after every nested element that is a last child.
- Html.GenerateIndexHtml: the original file counts as readable whenever `originalFile` is set. Other I/O failures of `readFile` are not modelled.
- The esbuild host is not modelled: callback registration, onLoad filters and namespaces, async scheduling, and concurrency between loads.
- `replaceRules` is the parameter `alias`, because its code is not part of this model.
- Regular-expression syntax is not modelled: whether `new RegExp(from)` accepts a pattern is the parameter `validPattern`.
- `decodeURIComponent` is the total parameter `decode`, so its `URIError` on malformed escapes is not modelled. Nor is `Object.assign`'s special handling of a `__proto__` key.
- Resolve.StyleSpecifierRoutesToStyle: stated, like `Plugin.StubStyleImportSelectsItsBlock`, only for `.vue` paths without `?`. For a path such as `/a?b/F.vue`, `getUrlParams` cuts at the path's own `?`. The first key becomes `b/F.vue?type`, so the import has no `type` and falls to the `file` namespace. This case is not proved.
- `Resolve.Lookup` sees only the parsed keys, not properties inherited from `Object.prototype`.
- `Loaders.StyleBlockAt`: only a canonical decimal index names a block. Index strings that name some other array property (e.g. "length") count as naming no block.
- Stub.UnescapePath: a `.vue` path containing `"` or a line break yields a stub whose import literals end early or do not parse. The model reads such a literal as `None` (`Stub.UnescapeEscapePath`), and the esbuild error that follows is not modelled. Escapes other than `\\` are also read as `None`.
- `Json.Quote`: Dafny characters are Unicode scalar values, so the escaping of lone surrogates is not modelled.
- build.js (a development script) and src/options.ts (type declarations only) are not modelled.

## Findings

| source | as written | input that shows it | evidently intended | confidence | as-written member | corrected member |
|---|---|---|---|---|---|---|
| src/index.ts:252-256 | the string form of `generateHTML` becomes `{ sourceFile: path }`, but `generateIndexHTML` reads `opts.originalFile` (src/html.ts:9, 54), so `readFile(undefined)` rejects | `generateHTML: "index.html"` with `outdir: "dist"` and the metafile on | `{ originalFile: path }` | high; not executed | `Plugin.ShorthandAsWrittenNeverRenders` | `Plugin.ShorthandCorrectedRenders` |

`Plugin.OnEnd` expands the shorthand with `Plugin.ShorthandCorrected`. `Plugin.ShorthandAsWritten` is the expansion as the code writes it.

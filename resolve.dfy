/**
 * The two `onResolve` callbacks of the plugin (src/index.ts:35-80): the
 * general resolver that makes import paths absolute after aliasing and
 * probes four fallback suffixes, and the `.vue` resolver that classifies a
 * virtual-module id by its `type` parameter.
 *
 * `replaceRules` is the parameter `alias`; `fileExists`, `path.isAbsolute`,
 * `path.join`, `path.normalize` and `process.cwd()` come from the host.
 */
module Resolve {
  import opened Wrappers
  import opened Text
  import opened Host
  import opened UrlParams
  import opened Sfc

  datatype Namespace = FileNamespace | SfcScript | SfcTemplate | SfcStyle

  /** What a resolver returns; the general resolver sets no `pluginData`. */
  datatype Resolved = Resolved(path: string, namespace: Namespace, pluginData: Option<PluginData>)

  /** The fallback suffixes, in the order they are probed. */
  const Possible: seq<string> := [".ts", "/index.ts", ".js", "/index.js"]

  /** `aliased` made absolute: kept when absolute, else joined to the working directory. */
  function FullPath(host: PathHost, alias: string -> string, path: string): string
  {
    var aliased := alias(path);
    if host.isAbsolute(aliased) then aliased else host.join(host.cwd, aliased)
  }

  /** The first `full + suffix` that exists, normalized; `None` when none does. */
  function FirstExisting(host: PathHost, full: string, suffixes: seq<string>): Option<string>
  {
    if suffixes == [] then None
    else if host.fileExists(full + suffixes[0]) then Some(host.normalize(full + suffixes[0]))
    else FirstExisting(host, full, suffixes[1..])
  }

  /** What the general resolver resolves `path` to, if anything. */
  function ResolveFile(host: PathHost, alias: string -> string, path: string): Option<string>
  {
    var full := FullPath(host, alias, path);
    if host.fileExists(full) then Some(host.normalize(full)) else FirstExisting(host, full, Possible)
  }

  /**
   * The probe picks the first suffix that exists: nothing when none exists,
   * and otherwise the suffix at the smallest position whose file exists.
   */
  lemma {:induction false} FirstExistingIsFirst(host: PathHost, full: string, suffixes: seq<string>)
    ensures FirstExisting(host, full, suffixes).None? <==>
      forall k :: 0 <= k < |suffixes| ==> !host.fileExists(full + suffixes[k])
    ensures FirstExisting(host, full, suffixes).Some? ==>
      exists k :: 0 <= k < |suffixes| && host.fileExists(full + suffixes[k])
        && FirstExisting(host, full, suffixes) == Some(host.normalize(full + suffixes[k]))
        && forall j :: 0 <= j < k ==> !host.fileExists(full + suffixes[j])
  {
    if suffixes != [] {
      var rest := suffixes[1..];
      FirstExistingIsFirst(host, full, rest);
      if !host.fileExists(full + suffixes[0]) {
        assert forall k :: 1 <= k < |suffixes| ==> suffixes[k] == rest[k - 1];
        if FirstExisting(host, full, rest).Some? {
          var k :| 0 <= k < |rest| && host.fileExists(full + rest[k])
            && FirstExisting(host, full, rest) == Some(host.normalize(full + rest[k]))
            && forall j :: 0 <= j < k ==> !host.fileExists(full + rest[j]);
          assert suffixes[k + 1] == rest[k];
          assert forall j :: 0 <= j < k + 1 ==> !host.fileExists(full + suffixes[j]) by {
            forall j | 0 <= j < k + 1
              ensures !host.fileExists(full + suffixes[j])
            {
              if j > 0 {
                assert suffixes[j] == rest[j - 1];
              }
            }
          }
        }
      }
    }
  }

  /** The general `onResolve` callback (src/index.ts:36-62), with its early return from the probe loop. */
  method ResolveGeneral(host: PathHost, alias: string -> string, path: string) returns (r: Option<Resolved>)
    ensures var full := FullPath(host, alias, path);
      && (host.fileExists(full) ==> r == Some(Resolved(host.normalize(full), FileNamespace, None)))
      && (!host.fileExists(full) ==>
            (r.None? <==> forall k :: 0 <= k < |Possible| ==> !host.fileExists(full + Possible[k])))
      && (!host.fileExists(full) && r.Some? ==>
            exists k :: 0 <= k < |Possible| && host.fileExists(full + Possible[k])
              && r == Some(Resolved(host.normalize(full + Possible[k]), FileNamespace, None))
              && forall j :: 0 <= j < k ==> !host.fileExists(full + Possible[j]))
    ensures r.None? <==> ResolveFile(host, alias, path).None?
    ensures r.Some? ==> r.value == Resolved(ResolveFile(host, alias, path).value, FileNamespace, None)
  {
    var aliased := alias(path);
    var fullPath := if host.isAbsolute(aliased) then aliased else host.join(host.cwd, aliased);
    FirstExistingIsFirst(host, fullPath, Possible);
    if !host.fileExists(fullPath) {
      for i := 0 to |Possible|
        invariant forall j :: 0 <= j < i ==> !host.fileExists(fullPath + Possible[j])
        invariant FirstExisting(host, fullPath, Possible[i..]) == FirstExisting(host, fullPath, Possible)
      {
        assert Possible[i..][1..] == Possible[i + 1..];
        var postfix := Possible[i];
        if host.fileExists(fullPath + postfix) {
          return Some(Resolved(host.normalize(fullPath + postfix), FileNamespace, None));
        }
      }
      return None;
    } else {
      return Some(Resolved(host.normalize(fullPath), FileNamespace, None));
    }
  }

  /** The namespace for the `type` parameter (src/index.ts:71-74). */
  function Classify(kind: Option<string>): (ns: Namespace)
    ensures ns == SfcScript <==> kind == Some("script")
    ensures ns == SfcTemplate <==> kind == Some("template")
    ensures ns == SfcStyle <==> kind == Some("style")
    ensures ns == FileNamespace <==> !(kind == Some("script") || kind == Some("template") || kind == Some("style"))
  {
    if kind == Some("script") then SfcScript
    else if kind == Some("template") then SfcTemplate
    else if kind == Some("style") then SfcStyle
    else FileNamespace
  }

  /** A property read `params.k`: `undefined` when the key is absent. */
  function Lookup(params: Params, k: string): Option<string>
  {
    if k in params then Some(params[k]) else None
  }

  /** `{ ...args.pluginData, index: params.index }` */
  function CarryIndex(importer: Option<PluginData>, index: Option<string>): PluginData
  {
    importer.GetOr(NoData).(index := index)
  }

  /** The `.vue` `onResolve` callback (src/index.ts:66-80). */
  function ResolveVue(host: PathHost, decode: string -> string, path: string, resolveDir: string,
                      importer: Option<PluginData>): Resolved
  {
    var params := GetUrlParams(path, decode);
    Resolved(GetFullPath(host, path, resolveDir), Classify(Lookup(params, "type")),
             Some(CarryIndex(importer, Lookup(params, "index"))))
  }

  /**
   * The `.vue` resolver keeps the importer's descriptor and scope id and
   * sets `index` to the parsed `index` parameter, or to nothing when there
   * is none.
   */
  lemma ResolveVueCarriesData(host: PathHost, decode: string -> string, path: string, resolveDir: string,
                              importer: Option<PluginData>)
    ensures
      var r := ResolveVue(host, decode, path, resolveDir, importer);
      var params := GetUrlParams(path, decode);
      && r.pluginData.Some?
      && r.pluginData.value.descriptor == (if importer.Some? then importer.value.descriptor else None)
      && r.pluginData.value.id == (if importer.Some? then importer.value.id else None)
      && (r.pluginData.value.index.Some? <==> "index" in params)
      && ("index" in params ==> r.pluginData.value.index == Some(params["index"]))
  {
  }

  /** `/\.vue/`: the path contains `.vue` somewhere. */
  predicate MatchesVue(path: string)
  {
    FindSub(path, ".vue") >= 0
  }

  /**
   * esbuild asks the callbacks in the order they were registered: the
   * general resolver first (unless `disableResolving`), then the `.vue`
   * resolver for paths matching `/\.vue/`; `None` leaves the path to esbuild.
   */
  function Route(host: PathHost, alias: string -> string, decode: string -> string, disableResolving: bool,
                 path: string, resolveDir: string, importer: Option<PluginData>): Option<Resolved>
  {
    var general := if disableResolving then None else ResolveFile(host, alias, path);
    if general.Some? then Some(Resolved(general.value, FileNamespace, None))
    else if MatchesVue(path) then Some(ResolveVue(host, decode, path, resolveDir, importer))
    else None
  }

  lemma VueInSpecifier(path: string, tail: string)
    requires EndsWith(path, ".vue")
    ensures MatchesVue(path + tail)
  {
    var s := path + tail;
    var k := |path| - 4;
    assert s[k..k + 4] == path[k..] == ".vue";
    assert OccursAt(s, ".vue", k);
  }

  /**
   * The id the stub writes for style block `i` of `<p>.vue` (with no `?` in
   * the path) reaches the `.vue` resolver whenever no file of that name
   * exists, and is classified as a style with `index` the decimal text of
   * `i`, keeping the stub's descriptor and scope id.
   */
  lemma StyleSpecifierRoutesToStyle(host: PathHost, alias: string -> string, decode: string -> string,
                                    disableResolving: bool, path: string, i: nat, resolveDir: string,
                                    data: PluginData)
    requires '?' !in path && EndsWith(path, ".vue")
    requires decode("style") == "style" && decode(NatToString(i)) == NatToString(i)
    requires disableResolving || ResolveFile(host, alias, path + "?type=style&index=" + NatToString(i)).None?
    ensures
      var r := Route(host, alias, decode, disableResolving, path + "?type=style&index=" + NatToString(i),
                     resolveDir, Some(data));
      && r.Some? && r.value.namespace == SfcStyle
      && r.value.pluginData == Some(data.(index := Some(NatToString(i))))
  {
    var d := NatToString(i);
    var tail := "?type=style&index=" + d;
    var spec := path + "?type=style&index=" + d;
    assert spec == path + tail;
    var params := map["type" := "style", "index" := d];
    ParseStyleQuery(path, i, decode);
    VueInSpecifier(path, tail);
    RouteToVueResolver(host, alias, decode, disableResolving, spec, resolveDir, Some(data));
    ResolveVueOfParams(host, decode, spec, resolveDir, Some(data), params);
    StyleParamsLookups(d);
    assert Classify(Some("style")) == SfcStyle;
    assert CarryIndex(Some(data), Some(d)) == data.(index := Some(d));
  }

  lemma StyleParamsLookups(d: string)
    ensures Lookup(map["type" := "style", "index" := d], "type") == Some("style")
    ensures Lookup(map["type" := "style", "index" := d], "index") == Some(d)
  {
    assert "type" != "index";
  }

  lemma RouteToVueResolver(host: PathHost, alias: string -> string, decode: string -> string, disableResolving: bool,
                           path: string, resolveDir: string, importer: Option<PluginData>)
    requires disableResolving || ResolveFile(host, alias, path).None?
    requires MatchesVue(path)
    ensures Route(host, alias, decode, disableResolving, path, resolveDir, importer)
      == Some(ResolveVue(host, decode, path, resolveDir, importer))
  {
  }

  lemma ResolveVueOfParams(host: PathHost, decode: string -> string, path: string, resolveDir: string,
                           importer: Option<PluginData>, params: Params)
    requires GetUrlParams(path, decode) == params
    ensures ResolveVue(host, decode, path, resolveDir, importer).namespace == Classify(Lookup(params, "type"))
    ensures ResolveVue(host, decode, path, resolveDir, importer).pluginData
      == Some(CarryIndex(importer, Lookup(params, "index")))
  {
  }
}

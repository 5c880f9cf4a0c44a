/**
 * The stub module the `.vue` loader writes (src/index.ts:83-119): a short
 * JavaScript program that imports the component's script, each of its
 * style blocks and its render function from virtual sub-modules of the
 * same file, attaches the render function, file name and scope id to the
 * script object, and exports it.
 */
module Stub {
  import opened Wrappers
  import opened Text
  import opened Json
  import opened Host
  import opened Random
  import opened Sfc

  /** `args.path.replace(/\\/g, "\\\\")`: every backslash doubled, so the path can sit in a string literal. */
  function EscapePath(path: string): string
  {
    ReplaceAll(path, '\\', "\\\\")
  }

  /** A character that ends a double-quoted JavaScript string literal (`"`) or is not allowed inside one (a raw CR or LF). */
  predicate BreaksLiteral(c: char)
  {
    c == '"' || c == '\n' || c == '\r'
  }

  /** A path that can sit between double quotes, once its backslashes are doubled. */
  predicate FitsInLiteral(path: string)
  {
    forall k :: 0 <= k < |path| ==> !BreaksLiteral(path[k])
  }

  /** `p` ahead of a reading, when there is one. */
  function Preceded(p: string, o: Option<string>): Option<string>
  {
    match o
    case Some(t) => Some(p + t)
    case None => None
  }

  /**
   * What the body of a double-quoted JavaScript string literal denotes, for
   * the one escape the stub writes, `\\`. `None` when the text cannot be the
   * body of such a literal: a `"` ends the literal early and a raw line
   * break is a syntax error. Escapes other than `\\` are outside the model
   * and are `None` as well.
   */
  function UnescapePath(s: string): Option<string>
  {
    if s == [] then Some([])
    else if BreaksLiteral(s[0]) then None
    else if s[0] == '\\' then
      if |s| >= 2 && s[1] == '\\' then Preceded(['\\'], UnescapePath(s[2..])) else None
    else Preceded([s[0]], UnescapePath(s[1..]))
  }

  /** One character of a path that fits in a literal, escaped, reads back as itself. */
  lemma UnescapeEscapedChar(c: char, tail: string)
    requires !BreaksLiteral(c)
    ensures UnescapePath(EscapePath([c]) + tail) == Preceded([c], UnescapePath(tail))
  {
    var s := EscapePath([c]) + tail;
    assert [c][1..] == [];
    if c == '\\' {
      assert EscapePath([c]) == "\\\\";
      assert s[0] == '\\' && s[1] == '\\' && s[2..] == tail;
    } else {
      assert EscapePath([c]) == [c];
      assert s[0] == c && s[1..] == tail;
    }
  }

  lemma PrecededPreceded(a: string, b: string, o: Option<string>)
    ensures Preceded(a, Preceded(b, o)) == Preceded(a + b, o)
  {
    if o.Some? {
      assert a + (b + o.value) == (a + b) + o.value;
    }
  }

  /** Escaping works character by character: the head's escape comes first. */
  lemma EscapeAtHead(path: string, rest: string)
    requires path != []
    ensures EscapePath(path) + rest == EscapePath([path[0]]) + (EscapePath(path[1..]) + rest)
  {
    assert path == [path[0]] + path[1..];
    ReplaceAllAppend([path[0]], path[1..], '\\', "\\\\");
  }

  lemma FitsInLiteralAtHead(path: string)
    requires path != []
    ensures FitsInLiteral(path) <==> !BreaksLiteral(path[0]) && FitsInLiteral(path[1..])
  {
    assert forall k :: 0 <= k < |path[1..]| ==> path[1..][k] == path[k + 1];
    if !FitsInLiteral(path) && !BreaksLiteral(path[0]) {
      var k :| 0 <= k < |path| && BreaksLiteral(path[k]);
      assert path[1..][k - 1] == path[k];
    }
  }

  /** Reading the escaped path back, ahead of any text, gives the original path followed by that text's reading. */
  lemma {:induction false} UnescapeEscapedPath(path: string, rest: string)
    requires FitsInLiteral(path)
    ensures UnescapePath(EscapePath(path) + rest) == Preceded(path, UnescapePath(rest))
  {
    if path == [] {
      assert EscapePath(path) + rest == rest;
      assert Preceded(path, UnescapePath(rest)) == UnescapePath(rest) by {
        if UnescapePath(rest).Some? {
          assert path + UnescapePath(rest).value == UnescapePath(rest).value;
        }
      }
    } else {
      var c, tail := path[0], path[1..];
      FitsInLiteralAtHead(path);
      EscapeAtHead(path, rest);
      UnescapeEscapedChar(c, EscapePath(tail) + rest);
      UnescapeEscapedPath(tail, rest);
      PrecededPreceded([c], tail, UnescapePath(rest));
      assert [c] + tail == path;
    }
  }

  /** A path with a `"` or a raw line break cannot be read back: the stub's literal ends early or does not parse. */
  lemma {:induction false} EscapedPathBreaksLiteral(path: string, rest: string)
    requires !FitsInLiteral(path)
    ensures UnescapePath(EscapePath(path) + rest) == None
  {
    var c, tail := path[0], path[1..];
    FitsInLiteralAtHead(path);
    EscapeAtHead(path, rest);
    if BreaksLiteral(c) {
      assert [c][1..] == [] && EscapePath([c]) == [c];
      assert (EscapePath(path) + rest)[0] == c;
    } else {
      EscapedPathBreaksLiteral(tail, rest);
      UnescapeEscapedChar(c, EscapePath(tail) + rest);
    }
  }

  lemma {:induction false} UnescapePlainText(s: string)
    requires FitsInLiteral(s) && '\\' !in s
    ensures UnescapePath(s) == Some(s)
  {
    if s != [] {
      assert '\\' !in s[1..];
      assert FitsInLiteral(s[1..]) by {
        assert forall k :: 0 <= k < |s[1..]| ==> s[1..][k] == s[k + 1];
      }
      assert !BreaksLiteral(s[0]);
      UnescapePlainText(s[1..]);
      assert [s[0]] + s[1..] == s;
    }
  }

  /**
   * Escaping loses nothing: the literal in the stub denotes exactly the
   * original path when the path fits in a literal, and nothing otherwise.
   */
  lemma UnescapeEscapePath(path: string)
    ensures FitsInLiteral(path) ==> UnescapePath(EscapePath(path)) == Some(path)
    ensures !FitsInLiteral(path) ==> UnescapePath(EscapePath(path)) == None
  {
    assert EscapePath(path) + [] == EscapePath(path);
    if FitsInLiteral(path) {
      UnescapeEscapedPath(path, []);
      assert Preceded(path, Some([])) == Some(path + []);
      assert path + [] == path;
    } else {
      EscapedPathBreaksLiteral(path, []);
    }
  }

  /** The module id of the `i`-th style block. */
  function StyleSpecifier(encPath: string, i: nat): string
  {
    encPath + "?type=style&index=" + NatToString(i)
  }

  function ScriptImport(encPath: string): string
  {
    "import script from \"" + encPath + "?type=script\";"
  }

  const EmptyScript := "const script = {};"

  /** The first statement: the script sub-module, or an empty object when there is no script. */
  function ScriptStatement(hasScript: bool, encPath: string): string
  {
    if hasScript then ScriptImport(encPath) else EmptyScript
  }

  /** The side-effect import of the `i`-th style block. */
  function StyleImport(encPath: string, i: nat): string
  {
    "import \"" + StyleSpecifier(encPath, i) + "\";"
  }

  /** The imports of the style blocks 0..n-1, in this order (`for...in` over an array visits "0", "1", ...). */
  function StyleImports(encPath: string, n: nat): seq<string>
  {
    if n == 0 then [] else StyleImports(encPath, n - 1) + [StyleImport(encPath, n - 1)]
  }

  /** `opts.renderSSR ? "ssrRender" : "render"` */
  function RenderName(renderSSR: bool): string
  {
    if renderSSR then "ssrRender" else "render"
  }

  function TemplateStatement(encPath: string, name: string): string
  {
    "import { " + name + " } from \"" + encPath + "?type=template\"; script." + name + " = " + name + ";"
  }

  function MetaStatement(filename: string, id: string): string
  {
    "script.__file = " + Quote(filename) + "; script.__scopeId = " + Quote(id) + ";"
  }

  const ExportStatement := "export default script;"

  /** The statements of the stub, in order. */
  function StubStatements(d: Descriptor, encPath: string, renderSSR: bool, filename: string, id: string): seq<string>
  {
    [ScriptStatement(HasScript(d), encPath)]
      + StyleImports(encPath, |d.styles|)
      + [TemplateStatement(encPath, RenderName(renderSSR)), MetaStatement(filename, id), ExportStatement]
  }

  function Concat(parts: seq<string>): string
  {
    if parts == [] then "" else Concat(parts[..|parts| - 1]) + parts[|parts| - 1]
  }

  /** The stub's `code`: its statements, one after the other. */
  function StubCode(d: Descriptor, encPath: string, renderSSR: bool, filename: string, id: string): string
  {
    Concat(StubStatements(d, encPath, renderSSR, filename, id))
  }

  lemma ConcatSnoc(parts: seq<string>, s: string)
    ensures Concat(parts + [s]) == Concat(parts) + s
  {
    assert (parts + [s])[..|parts|] == parts;
  }

  lemma {:induction false} ConcatAppend(a: seq<string>, b: seq<string>)
    ensures Concat(a + b) == Concat(a) + Concat(b)
    decreases |b|
  {
    if b == [] {
      assert a + b == a;
    } else {
      var init := b[..|b| - 1];
      assert a + b == (a + init) + [b[|b| - 1]];
      ConcatSnoc(a + init, b[|b| - 1]);
      ConcatAppend(a, init);
    }
  }

  /** The successive `code +=` of the stub loader (src/index.ts:94-111). */
  method BuildStub(d: Descriptor, encPath: string, renderSSR: bool, filename: string, id: string) returns (code: string)
    ensures code == StubCode(d, encPath, renderSSR, filename, id)
  {
    code := "";
    if HasScript(d) {
      code := code + ScriptImport(encPath);
    } else {
      code := code + EmptyScript;
    }
    ghost var first := ScriptStatement(HasScript(d), encPath);
    assert code == Concat([first]) by {
      ConcatSnoc([], first);
    }
    for i := 0 to |d.styles|
      invariant code == Concat([first] + StyleImports(encPath, i))
    {
      ConcatSnoc([first] + StyleImports(encPath, i), StyleImport(encPath, i));
      assert [first] + StyleImports(encPath, i + 1) == [first] + StyleImports(encPath, i) + [StyleImport(encPath, i)];
      code := code + StyleImport(encPath, i);
    }
    var renderFuncName := RenderName(renderSSR);
    ghost var imports := [first] + StyleImports(encPath, |d.styles|);
    code := code + TemplateStatement(encPath, renderFuncName);
    code := code + MetaStatement(filename, id);
    code := code + ExportStatement;
    ConcatThreeMore(imports, TemplateStatement(encPath, renderFuncName), MetaStatement(filename, id), ExportStatement);
  }

  lemma ConcatThreeMore(parts: seq<string>, a: string, b: string, c: string)
    ensures Concat(parts + [a, b, c]) == Concat(parts) + a + b + c
  {
    ConcatSnoc(parts, a);
    ConcatSnoc(parts + [a], b);
    ConcatSnoc(parts + [a] + [b], c);
    assert parts + [a, b, c] == parts + [a] + [b] + [c];
  }

  lemma {:induction false} StyleImportsShape(encPath: string, n: nat)
    ensures |StyleImports(encPath, n)| == n
    ensures forall i :: 0 <= i < n ==> StyleImports(encPath, n)[i] == StyleImport(encPath, i)
  {
    if n > 0 {
      StyleImportsShape(encPath, n - 1);
    }
  }

  /**
   * The layout of the stub: the script statement, then one import per style
   * block in ascending index order, then the template import, the metadata
   * and the default export.
   */
  lemma StubLayout(d: Descriptor, encPath: string, renderSSR: bool, filename: string, id: string)
    ensures
      var stmts := StubStatements(d, encPath, renderSSR, filename, id);
      var n := |d.styles|;
      && |stmts| == n + 4
      && stmts[0] == (if HasScript(d) then ScriptImport(encPath) else EmptyScript)
      && (forall i :: 0 <= i < n ==> stmts[i + 1] == StyleImport(encPath, i))
      && stmts[n + 1] == TemplateStatement(encPath, RenderName(renderSSR))
      && stmts[n + 2] == MetaStatement(filename, id)
      && stmts[n + 3] == ExportStatement
  {
    StyleImportsShape(encPath, |d.styles|);
  }

  /**
   * The stub starts with the import of `?type=script` exactly when the
   * descriptor has a script or a script-setup block, and with the empty
   * script object otherwise.
   */
  lemma StubBeginsWithScript(d: Descriptor, encPath: string, renderSSR: bool, filename: string, id: string)
    ensures
      var code := StubCode(d, encPath, renderSSR, filename, id);
      && (StartsWith(code, ScriptImport(encPath)) <==> HasScript(d))
      && (!HasScript(d) ==> StartsWith(code, EmptyScript))
  {
    var stmts := StubStatements(d, encPath, renderSSR, filename, id);
    var first := ScriptStatement(HasScript(d), encPath);
    var rest := stmts[1..];
    assert stmts == [first] + rest;
    ConcatBeginsWithFirst(first, rest);
    var code := Concat(stmts);
    if !HasScript(d) {
      assert code[0] == first[0] == 'c';
      assert ScriptImport(encPath)[0] == 'i';
    }
  }

  lemma ConcatBeginsWithFirst(first: string, rest: seq<string>)
    ensures StartsWith(Concat([first] + rest), first)
  {
    ConcatAppend([first], rest);
    ConcatSnoc([], first);
    assert [first] == [] + [first];
    assert (first + Concat(rest))[..|first|] == first;
  }

  /** Different indices give different style imports. */
  lemma StyleImportInjective(encPath: string, i: nat, j: nat)
    requires StyleImport(encPath, i) == StyleImport(encPath, j)
    ensures i == j
  {
    var pre := "import \"" + encPath + "?type=style&index=";
    var a, b := StyleImport(encPath, i), StyleImport(encPath, j);
    assert a == pre + NatToString(i) + "\";";
    assert b == pre + NatToString(j) + "\";";
    assert |NatToString(i)| == |NatToString(j)|;
    assert a[|pre|..|pre| + |NatToString(i)|] == NatToString(i);
    assert b[|pre|..|pre| + |NatToString(j)|] == NatToString(j);
    NatToStringInjective(i, j);
  }

  /** A style import begins `import "`, which no other statement of the stub does. */
  lemma StyleImportIsNoOtherStatement(d: Descriptor, encPath: string, renderSSR: bool, filename: string, id: string, i: nat)
    ensures StyleImport(encPath, i) != ScriptStatement(HasScript(d), encPath)
    ensures StyleImport(encPath, i) != TemplateStatement(encPath, RenderName(renderSSR))
    ensures StyleImport(encPath, i) != MetaStatement(filename, id)
    ensures StyleImport(encPath, i) != ExportStatement
  {
    var s := StyleImport(encPath, i);
    assert s[0] == 'i' && s[7] == '"';
    assert ScriptImport(encPath)[7] == 's';
    assert EmptyScript[0] == 'c';
    assert TemplateStatement(encPath, RenderName(renderSSR))[7] == '{';
    assert MetaStatement(filename, id)[0] == 's';
    assert ExportStatement[0] == 'e';
  }

  lemma {:induction false} StyleImportsCount(encPath: string, n: nat, i: nat)
    ensures multiset(StyleImports(encPath, n))[StyleImport(encPath, i)] == if i < n then 1 else 0
  {
    if n > 0 {
      var x, y := StyleImport(encPath, i), StyleImport(encPath, n - 1);
      var init := StyleImports(encPath, n - 1);
      StyleImportsCount(encPath, n - 1, i);
      assert StyleImports(encPath, n) == init + [y];
      MultisetSnoc(init, y, x);
      StyleImportEquality(encPath, n - 1, i);
    }
  }

  /** Two style imports are equal exactly when their indices are. */
  lemma StyleImportEquality(encPath: string, i: nat, j: nat)
    ensures StyleImport(encPath, i) == StyleImport(encPath, j) <==> i == j
  {
    if StyleImport(encPath, i) == StyleImport(encPath, j) {
      StyleImportInjective(encPath, i, j);
    }
  }

  lemma MultisetSnoc<T>(s: seq<T>, y: T, x: T)
    ensures multiset(s + [y])[x] == multiset(s)[x] + (if y == x then 1 else 0)
  {
    assert multiset(s + [y]) == multiset(s) + multiset{y};
  }

  /** The stub imports style block `i` exactly once when it exists and never otherwise. */
  lemma EachStyleImportedOnce(d: Descriptor, encPath: string, renderSSR: bool, filename: string, id: string, i: nat)
    ensures multiset(StubStatements(d, encPath, renderSSR, filename, id))[StyleImport(encPath, i)]
      == if i < |d.styles| then 1 else 0
  {
    StyleImportsCount(encPath, |d.styles|, i);
    StyleImportIsNoOtherStatement(d, encPath, renderSSR, filename, id, i);
  }

  /**
   * Whatever the descriptor, the stub ends by importing the render function
   * from `?type=template` under the render mode's name, recording the file
   * name and scope id, and exporting the script object.
   */
  lemma StubEndsWithTemplateAndExport(d: Descriptor, encPath: string, renderSSR: bool, filename: string, id: string)
    ensures EndsWith(StubCode(d, encPath, renderSSR, filename, id),
      TemplateStatement(encPath, RenderName(renderSSR)) + MetaStatement(filename, id) + ExportStatement)
  {
    var imports := [ScriptStatement(HasScript(d), encPath)] + StyleImports(encPath, |d.styles|);
    var t, m := TemplateStatement(encPath, RenderName(renderSSR)), MetaStatement(filename, id);
    ConcatAppend(imports, [t, m, ExportStatement]);
    ConcatThree(t, m, ExportStatement);
    EndsWithAppend(Concat(imports), t + m + ExportStatement);
  }

  lemma ConcatThree(a: string, b: string, c: string)
    ensures Concat([a, b, c]) == a + b + c
  {
    ConcatSnoc([], a);
    ConcatSnoc([a], b);
    ConcatSnoc([a, b], c);
    assert [a] == [] + [a] && [a, b] == [a] + [b] && [a, b, c] == [a, b] + [c];
  }

  lemma EndsWithAppend(a: string, b: string)
    ensures EndsWith(a + b, b)
  {
    assert (a + b)[|a + b| - |b|..] == b;
  }

  /** The query of a style id holds no backslash and nothing that breaks a literal. */
  lemma StyleQueryIsPlain(d: string)
    requires forall k :: 0 <= k < |d| ==> IsDigit(d[k])
    ensures '\\' !in "?type=style&index=" + d && FitsInLiteral("?type=style&index=" + d)
  {
    var q, tail := "?type=style&index=", "?type=style&index=" + d;
    assert forall k :: 0 <= k < |tail| ==> (k < |q| && tail[k] == q[k]) || (k >= |q| && tail[k] == d[k - |q|]);
  }

  /**
   * The module id of each style import, read as the string literal it sits
   * in, names the original path; for a path with a `"` or a line break the
   * import is broken.
   */
  lemma StyleSpecifierNamesPath(path: string, i: nat)
    ensures FitsInLiteral(path) ==>
      UnescapePath(StyleSpecifier(EscapePath(path), i)) == Some(path + "?type=style&index=" + NatToString(i))
    ensures !FitsInLiteral(path) ==> UnescapePath(StyleSpecifier(EscapePath(path), i)) == None
  {
    var d := NatToString(i);
    var tail := "?type=style&index=" + d;
    assert StyleSpecifier(EscapePath(path), i) == EscapePath(path) + tail;
    if FitsInLiteral(path) {
      StyleQueryIsPlain(d);
      UnescapePlainText(tail);
      UnescapeEscapedPath(path, tail);
      assert path + "?type=style&index=" + d == path + tail;
    } else {
      EscapedPathBreaksLiteral(path, tail);
    }
  }

  /** `"data-v-" + random(4).toString("hex")` */
  function ScopeIdOf(bytes: seq<byte>): string
  {
    "data-v-" + Hex(bytes)
  }

  /** A scope id from four bytes is `data-v-` and eight hexadecimal digits, and the digits give the bytes back. */
  lemma ScopeIdShape(bytes: seq<byte>)
    requires |bytes| == 4
    ensures
      var id := ScopeIdOf(bytes);
      && |id| == 15
      && StartsWith(id, "data-v-")
      && (forall i :: 7 <= i < 15 ==> IsHexDigit(id[i]))
      && Unhex(id[7..]) == Some(bytes)
  {
    var id := ScopeIdOf(bytes);
    assert id[..7] == "data-v-";
    assert id[7..] == Hex(bytes);
    UnhexHex(bytes);
  }

  /** Different draws give different scope ids. */
  lemma ScopeIdInjective(a: seq<byte>, b: seq<byte>)
    requires |a| == 4 && |b| == 4 && ScopeIdOf(a) == ScopeIdOf(b)
    ensures a == b
  {
    ScopeIdShape(a);
    ScopeIdShape(b);
  }

  /** `random(4)` turned into a scope id: one hash step of the shared generator, its first four bytes. */
  method NextScopeId(gen: Generator) returns (id: string)
    requires gen.Valid()
    modifies gen
    ensures gen.Valid()
    ensures id == ScopeIdOf(gen.hash(old(gen.state))[..4])
    ensures gen.state == gen.hash(old(gen.state)) && gen.steps == old(gen.steps) + 1
  {
    ghost var before := gen.state;
    var bytes := gen.RandomBytes(4);
    assert Steps(4) == 1;
    OutputStartsWithHashOfSeed(gen.hash, before, 4);
    id := ScopeIdOf(bytes[..]);
  }

  /** What the stub load returns to esbuild. */
  datatype StubLoad = StubLoad(contents: string, resolveDir: string, pluginData: PluginData, watchFiles: seq<string>)

  /**
   * The `onLoad` callback for `.vue` files (src/index.ts:83-119). The file's
   * text `source` and `sfc.parse` are inputs; `filename` is the path
   * relative to the working directory.
   */
  method LoadStub(host: PathHost, gen: Generator, parse: (string, string) -> Descriptor, source: string,
                  path: string, renderSSR: bool) returns (r: StubLoad)
    requires gen.Valid()
    modifies gen
    ensures gen.Valid() && gen.state == gen.hash(old(gen.state)) && gen.steps == old(gen.steps) + 1
    ensures
      var filename := host.relative(host.cwd, path);
      var d := parse(source, filename);
      var id := ScopeIdOf(gen.hash(old(gen.state))[..4]);
      r == StubLoad(StubCode(d, EscapePath(path), renderSSR, filename, id), host.dirname(path),
                    PluginData(Some(d), Some(id), None), [path])
  {
    var encPath := EscapePath(path);
    var filename := host.relative(host.cwd, path);
    var descriptor := parse(source, filename);
    var id := NextScopeId(gen);
    var code := BuildStub(descriptor, encPath, renderSSR, filename, id);
    return StubLoad(code, host.dirname(path), PluginData(Some(descriptor), Some(id), None), [path]);
  }
}

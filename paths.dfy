/**
 * `loadRules` and `replaceWildcard` from src/paths.ts: the path-mapping
 * entries of `tsconfig.json` become (pattern, replacement) rules appended
 * to the module-level `rules` list.
 *
 * Reading `tsconfig.json` and `JSON.parse` are the host's: their outcome is
 * the input `TsConfig`. Whether `new RegExp` accepts a pattern is the
 * parameter `validPattern`. `replaceRules`, which applies the rules, is not
 * part of this model.
 */
module Paths {
  import opened Wrappers
  import opened Text

  /**
   * `{ regex: new RegExp(from), replacement: to }`: `pattern` is the source
   * text of the regular expression, compiled without anchors and without
   * flags, and `replacement` the text that replaces a match.
   */
  datatype Rule = Rule(pattern: string, replacement: string)

  /** `compilerOptions.paths` in the order `for...in` visits it: each key with its destination list. */
  type PathMap = seq<(string, seq<string>)>

  /** What reading `tsconfig.json` from the working directory gives. */
  datatype TsConfig =
    | Missing                          // `fileExists("tsconfig.json")` is false
    | Unparsable                       // `JSON.parse` throws on its text
    | Parsed(paths: Option<PathMap>)   // `None` when `tsconfig?.compilerOptions?.paths` is falsy

  /** The errors `loadRules` rejects with. */
  datatype LoadError =
    | ConfigParseError                      // the `SyntaxError` of `JSON.parse`
    | PatternSyntaxError(pattern: string)   // the `SyntaxError` of `new RegExp(from)`

  /** `replaceWildcard(str, repl)`: every `*` becomes `repl` (src/paths.ts:19-21). */
  function ReplaceWildcard(str: string, repl: string): string
  {
    ReplaceAll(str, '*', repl)
  }

  /** `from`: the regular-expression text a key compiles to, each `*` a capturing group. */
  function PatternOf(key: string): string
  {
    ReplaceWildcard(key, "(.*)")
  }

  /** The rule one entry with a non-empty destination list yields: only the first destination is used. */
  function RuleFor(key: string, dests: seq<string>): Rule
    requires |dests| > 0
  {
    Rule(PatternOf(key), ReplaceWildcard(dests[0], "$1"))
  }

  /** Entry `i` has destinations, so the loop compiles its pattern, and `new RegExp` throws on it. */
  predicate Rejects(paths: PathMap, i: int, validPattern: string -> bool)
  {
    0 <= i < |paths| && |paths[i].1| > 0 && !validPattern(PatternOf(paths[i].0))
  }

  /** The position of the first entry whose pattern is rejected, or `|paths|` when there is none. */
  function FirstRejected(paths: PathMap, validPattern: string -> bool): (k: nat)
    ensures k <= |paths|
    ensures k < |paths| ==> Rejects(paths, k, validPattern)
    ensures forall j :: 0 <= j < k ==> !Rejects(paths, j, validPattern)
  {
    if paths == [] then 0
    else
      var init := paths[..|paths| - 1];
      var k := FirstRejected(init, validPattern);
      assert forall j :: 0 <= j < |init| ==> paths[j] == init[j];
      assert forall j :: 0 <= j < |init| ==> (Rejects(paths, j, validPattern) <==> Rejects(init, j, validPattern));
      if k < |init| then k
      else if Rejects(paths, |paths| - 1, validPattern) then |paths| - 1
      else |paths|
  }

  /** The rules `loadRules` has appended when it returns: those of the entries before the first rejected one. */
  function LoadedRules(config: TsConfig, validPattern: string -> bool): seq<Rule>
  {
    if config.Parsed? && config.paths.Some? then
      var paths := config.paths.value;
      RulesOf(paths[..FirstRejected(paths, validPattern)])
    else []
  }

  /** The error `loadRules` rejects with, if any. */
  function LoadErrorOf(config: TsConfig, validPattern: string -> bool): Option<LoadError>
  {
    match config
    case Missing => None
    case Unparsable => Some(ConfigParseError)
    case Parsed(paths) =>
      if paths.None? then None
      else
        var k := FirstRejected(paths.value, validPattern);
        if k < |paths.value| then Some(PatternSyntaxError(PatternOf(paths.value[k].0))) else None
  }

  /** The rules `loadRules` appends for `paths`, in key order. */
  function RulesOf(paths: PathMap): seq<Rule>
  {
    if paths == [] then []
    else
      var last := paths[|paths| - 1];
      RulesOf(paths[..|paths| - 1]) + (if |last.1| == 0 then [] else [RuleFor(last.0, last.1)])
  }

  /** The module-level `rules` array (src/paths.ts:6): never cleared. */
  class RuleList {
    var rules: seq<Rule>

    constructor ()
      ensures rules == []
    {
      rules := [];
    }

    /**
     * `loadRules()` (src/paths.ts:8-38). It rejects on an unparsable config,
     * and at the first entry whose pattern `new RegExp` rejects; the rules
     * of the entries before that one stay appended.
     */
    method LoadRules(config: TsConfig, validPattern: string -> bool) returns (r: Result<(), LoadError>)
      modifies this
      ensures r.Failure? <==> LoadErrorOf(config, validPattern).Some?
      ensures r.Failure? ==> r.error == LoadErrorOf(config, validPattern).value
      ensures rules == old(rules) + LoadedRules(config, validPattern)
    {
      match config {
        case Missing =>
          return Success(());
        case Unparsable =>
          return Failure(ConfigParseError);
        case Parsed(paths) =>
          if paths.None? {
            return Success(());
          }
          var k := PushRules(paths.value, validPattern);
          if k < |paths.value| {
            return Failure(PatternSyntaxError(PatternOf(paths.value[k].0)));
          }
          return Success(());
      }
    }

    /**
     * The `for...in` loop of src/paths.ts:23-37: it pushes one rule per entry
     * with destinations and stops at the first pattern `new RegExp` rejects,
     * whose position it returns (`|entries|` when it reaches the end).
     */
    method PushRules(entries: PathMap, validPattern: string -> bool) returns (k: nat)
      modifies this
      ensures k == FirstRejected(entries, validPattern)
      ensures rules == old(rules) + RulesOf(entries[..k])
    {
      k := 0;
      while k < |entries|
        invariant 0 <= k <= |entries|
        invariant rules == old(rules) + RulesOf(entries[..k])
        invariant k <= FirstRejected(entries, validPattern)
      {
        var key, dests := entries[k].0, entries[k].1;
        RulesOfSnoc(entries, k);
        if |dests| != 0 {
          var from := PatternOf(key);
          var to := ReplaceWildcard(dests[0], "$1");
          if !validPattern(from) {
            StopsAtFirstRejected(entries, k, validPattern);
            return;
          }
          rules := rules + [Rule(from, to)];
        }
        PassesBeforeFirstRejected(entries, k, validPattern);
        k := k + 1;
      }
    }
  }

  /** One more entry adds its rule, if it yields one. */
  lemma RulesOfSnoc(paths: PathMap, i: nat)
    requires i < |paths|
    ensures RulesOf(paths[..i + 1])
      == RulesOf(paths[..i]) + (if |paths[i].1| == 0 then [] else [RuleFor(paths[i].0, paths[i].1)])
  {
    assert paths[..i + 1][..i] == paths[..i];
  }

  /** An entry at or before the first rejected one that is rejected is the first rejected one. */
  lemma StopsAtFirstRejected(paths: PathMap, k: nat, validPattern: string -> bool)
    requires k <= FirstRejected(paths, validPattern) && Rejects(paths, k, validPattern)
    ensures k == FirstRejected(paths, validPattern)
  {
  }

  /** An entry before the first rejected one that is not rejected keeps the loop before it. */
  lemma PassesBeforeFirstRejected(paths: PathMap, k: nat, validPattern: string -> bool)
    requires k < |paths| && k <= FirstRejected(paths, validPattern) && !Rejects(paths, k, validPattern)
    ensures k + 1 <= FirstRejected(paths, validPattern)
  {
  }

  /** Every rule `loadRules` leaves appended has a pattern `new RegExp` accepts. */
  lemma LoadedRulesAreValid(config: TsConfig, validPattern: string -> bool, rule: Rule)
    requires rule in LoadedRules(config, validPattern)
    ensures validPattern(rule.pattern)
  {
    var paths := config.paths.value;
    var k := FirstRejected(paths, validPattern);
    var i := RuleComesFromEntry(paths[..k], rule);
    assert paths[..k][i] == paths[i];
    assert !Rejects(paths, i, validPattern);
  }

  /** When every pattern compiles, `loadRules` succeeds and appends the rules of all entries. */
  lemma AllValidLoadsAll(paths: PathMap, validPattern: string -> bool)
    requires forall key :: validPattern(PatternOf(key))
    ensures LoadErrorOf(Parsed(Some(paths)), validPattern) == None
    ensures LoadedRules(Parsed(Some(paths)), validPattern) == RulesOf(paths)
  {
    assert FirstRejected(paths, validPattern) == |paths|;
    assert paths[..|paths|] == paths;
  }

  /** The rules follow the key order: the rules of a concatenation are the concatenation of the rules. */
  lemma {:induction false} RulesOfAppend(a: PathMap, b: PathMap)
    ensures RulesOf(a + b) == RulesOf(a) + RulesOf(b)
    decreases |b|
  {
    if b == [] {
      assert a + b == a;
    } else {
      var init := b[..|b| - 1];
      assert (a + b)[..|a + b| - 1] == a + init;
      assert (a + b)[|a + b| - 1] == b[|b| - 1];
      RulesOfAppend(a, init);
    }
  }

  /** The entry at position `i` yields the rule `RuleFor` makes of it, or nothing when its destination list is empty. */
  predicate EntryYields(paths: PathMap, i: int, rule: Rule)
  {
    0 <= i < |paths| && |paths[i].1| > 0 && rule == RuleFor(paths[i].0, paths[i].1)
  }

  /** Every rule comes from an entry with a non-empty destination list. */
  lemma {:induction false} RuleComesFromEntry(paths: PathMap, rule: Rule) returns (i: int)
    requires rule in RulesOf(paths)
    ensures EntryYields(paths, i, rule)
  {
    var init := paths[..|paths| - 1];
    if rule in RulesOf(init) {
      i := RuleComesFromEntry(init, rule);
      assert paths[i] == init[i];
    } else {
      i := |paths| - 1;
    }
  }

  /** Every entry with a non-empty destination list yields its rule. */
  lemma {:induction false} EntryYieldsRule(paths: PathMap, i: int, rule: Rule)
    requires EntryYields(paths, i, rule)
    ensures rule in RulesOf(paths)
  {
    var init := paths[..|paths| - 1];
    if i < |paths| - 1 {
      assert paths[i] == init[i];
      EntryYieldsRule(init, i, rule);
    }
  }

  /**
   * A rule exists exactly for each entry with a non-empty destination list:
   * entries with no destination are skipped.
   */
  lemma RulesOfEntries(paths: PathMap, rule: Rule)
    ensures rule in RulesOf(paths) <==> exists i :: EntryYields(paths, i, rule)
  {
    if rule in RulesOf(paths) {
      var i := RuleComesFromEntry(paths, rule);
    }
    if exists i :: EntryYields(paths, i, rule) {
      var i :| EntryYields(paths, i, rule);
      EntryYieldsRule(paths, i, rule);
    }
  }

  /** Every `*` of a destination has become `$1`: no replacement still contains one. */
  lemma {:induction false} NoWildcardInReplacements(paths: PathMap)
    ensures forall j :: 0 <= j < |RulesOf(paths)| ==> '*' !in RulesOf(paths)[j].replacement
  {
    if paths != [] {
      NoWildcardInReplacements(paths[..|paths| - 1]);
    }
  }

  /**
   * `replaceWildcard` cuts the text at every `*` and joins the pieces with
   * the replacement; a key without `*` becomes a pattern equal to the key.
   */
  lemma ReplaceWildcardSplitsOnStar(str: string, repl: string)
    ensures ReplaceWildcard(str, repl) == Join(Split(str, '*'), repl)
    ensures '*' !in str ==> ReplaceWildcard(str, repl) == str
  {
    ReplaceAllIsSplitJoin(str, '*', repl);
  }
}

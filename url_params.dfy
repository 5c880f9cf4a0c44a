/**
 * `getUrlParams` and `getFullPath` from src/utils.ts: how a virtual-module
 * id such as `/a/Foo.vue?type=style&index=0` is decoded into its query
 * parameters, and how an import path is made absolute.
 *
 * `decodeURIComponent` is a parameter `decode`; the lemmas that need it
 * to leave a plain word unchanged say so in their `requires`.
 */
module UrlParams {
  import opened Text
  import opened Host

  type Params = map<string, string>

  /** `search.slice(search.indexOf('?') + 1)`: the text after the first `?`, or all of it when there is none. */
  function QueryOf(search: string): (q: string)
    ensures '?' !in search ==> q == search
  {
    search[IndexOf(search, '?') + 1..]
  }

  /** The key of one `&`-separated segment: the text before its first `=`. */
  function KeyOf(segment: string): string
  {
    Split(segment, '=')[0]
  }

  /**
   * The value of one segment before decoding: the text between its first and
   * second `=`. Without any `=` the destructured value is `undefined`, which
   * `decodeURIComponent` turns into its string form "undefined".
   */
  function RawValueOf(segment: string): string
  {
    var parts := Split(segment, '=');
    if |parts| >= 2 then parts[1] else "undefined"
  }

  /** The `reduce` over the segments: each one assigns its key, so a later key overwrites an earlier one. */
  function Collect(segments: seq<string>, decode: string -> string): Params
  {
    if segments == [] then map[]
    else
      var last := segments[|segments| - 1];
      Collect(segments[..|segments| - 1], decode)[KeyOf(last) := decode(RawValueOf(last))]
  }

  /** `getUrlParams(search)` (src/utils.ts:5-11). */
  function GetUrlParams(search: string, decode: string -> string): Params
  {
    Collect(Split(QueryOf(search), '&'), decode)
  }

  /** The position of the last segment whose key is `k`, or -1 when no segment has that key. */
  ghost function LastWithKey(segments: seq<string>, k: string): (i: int)
    ensures -1 <= i < |segments|
    ensures 0 <= i ==> KeyOf(segments[i]) == k
    ensures forall j :: i < j < |segments| ==> KeyOf(segments[j]) != k
  {
    if segments == [] then -1
    else if KeyOf(segments[|segments| - 1]) == k then |segments| - 1
    else LastWithKey(segments[..|segments| - 1], k)
  }

  /**
   * The parsed record has exactly the keys of the segments, and each key holds
   * the decoded value of the LAST segment with that key.
   */
  lemma {:induction false} CollectLastWins(segments: seq<string>, decode: string -> string, k: string)
    ensures k in Collect(segments, decode) <==> LastWithKey(segments, k) >= 0
    ensures k in Collect(segments, decode) ==>
      Collect(segments, decode)[k] == decode(RawValueOf(segments[LastWithKey(segments, k)]))
  {
    if segments != [] {
      var init := segments[..|segments| - 1];
      CollectLastWins(init, decode, k);
      if KeyOf(segments[|segments| - 1]) != k {
        assert LastWithKey(segments, k) == LastWithKey(init, k);
        if LastWithKey(init, k) >= 0 {
          assert segments[LastWithKey(init, k)] == init[LastWithKey(init, k)];
        }
      }
    }
  }

  /** Every segment produces an entry, the empty one as well (under the key ""). */
  lemma EverySegmentHasAnEntry(search: string, decode: string -> string, i: nat)
    requires i < |Split(QueryOf(search), '&')|
    ensures KeyOf(Split(QueryOf(search), '&')[i]) in GetUrlParams(search, decode)
  {
    var segments := Split(QueryOf(search), '&');
    CollectLastWins(segments, decode, KeyOf(segments[i]));
  }

  /** Only the text after the FIRST `?` is parsed; later `?` belong to the query. */
  lemma QueryAfterFirstQuestionMark(path: string, query: string)
    requires '?' !in path
    ensures QueryOf(path + "?" + query) == query
  {
    var s := path + "?" + query;
    assert s[|path|] == '?';
    assert s[..|path|] == path;
    assert IndexOf(s, '?') == |path|;
    assert s[|path| + 1..] == query;
  }

  lemma SplitWithoutSeparator(s: string, c: char)
    requires c !in s
    ensures Split(s, c) == [s]
  {
  }

  lemma SplitAtFirst(a: string, c: char, b: string)
    requires c !in a
    ensures Split(a + [c] + b, c) == [a] + Split(b, c)
  {
    var s := a + [c] + b;
    assert s[|a|] == c && s[..|a|] == a;
    assert IndexOf(s, c) == |a|;
    assert s[|a| + 1..] == b;
  }

  /** A `key=value` segment whose value has no further `=` parses to that key and value. */
  lemma KeyValueSegment(key: string, value: string)
    requires '=' !in key && '=' !in value
    ensures KeyOf(key + "=" + value) == key && RawValueOf(key + "=" + value) == value
  {
    SplitAtFirst(key, '=', value);
    SplitWithoutSeparator(value, '=');
  }

  /** A segment without `=` is a key of its own whose value is "undefined", the text of the missing value. */
  lemma SegmentWithoutEquals(segment: string)
    requires '=' !in segment
    ensures KeyOf(segment) == segment && RawValueOf(segment) == "undefined"
  {
    SplitWithoutSeparator(segment, '=');
  }

  /** Only the text between the first and the second `=` is the value; the rest of the segment is dropped. */
  lemma ValueStopsAtSecondEquals(key: string, value: string, rest: string)
    requires '=' !in key && '=' !in value
    ensures KeyOf(key + "=" + value + "=" + rest) == key
    ensures RawValueOf(key + "=" + value + "=" + rest) == value
  {
    var s := key + "=" + value + "=" + rest;
    assert s == key + ['='] + (value + ['='] + rest);
    SplitAtFirst(key, '=', value + ['='] + rest);
    SplitAtFirst(value, '=', rest);
  }

  lemma TwoSegments(path: string, first: string, second: string)
    requires '?' !in path && '&' !in first && '&' !in second
    ensures Split(QueryOf(path + "?" + first + "&" + second), '&') == [first, second]
  {
    assert path + "?" + first + "&" + second == path + "?" + (first + ['&'] + second);
    QueryAfterFirstQuestionMark(path, first + ['&'] + second);
    SplitAtFirst(first, '&', second);
    SplitWithoutSeparator(second, '&');
  }

  /** A query `k=v` after a `?`-free path parses to the one parameter `k` = `v`. */
  lemma {:induction false} ParseOneParam(path: string, k: string, v: string, decode: string -> string)
    requires '?' !in path
    requires '&' !in k && '=' !in k && '&' !in v && '=' !in v
    requires decode(v) == v
    ensures GetUrlParams(path + "?" + k + "=" + v, decode) == map[k := v]
  {
    var segment := k + "=" + v;
    assert path + "?" + k + "=" + v == path + "?" + segment;
    QueryAfterFirstQuestionMark(path, segment);
    NotInConcat(k + "=", v, '&');
    SplitWithoutSeparator(segment, '&');
    KeyValueSegment(k, v);
    assert [segment][..0] == [];
    assert Split(QueryOf(path + "?" + segment), '&') == [segment];
    assert GetUrlParams(path + "?" + segment, decode) == Collect([segment], decode);
    assert Collect([segment], decode) == Collect([], decode)[KeyOf(segment) := decode(RawValueOf(segment))];
  }

  lemma CollectTwo(first: string, second: string, decode: string -> string)
    ensures Collect([first, second], decode)
      == map[KeyOf(first) := decode(RawValueOf(first))][KeyOf(second) := decode(RawValueOf(second))]
  {
    var segments := [first, second];
    assert segments[..|segments| - 1] == [first] && segments[|segments| - 1] == second;
    assert [first][..0] == [];
    assert Collect([first], decode) == Collect([], decode)[KeyOf(first) := decode(RawValueOf(first))];
    assert Collect(segments, decode) == Collect([first], decode)[KeyOf(second) := decode(RawValueOf(second))];
  }

  /** A query `k1=v1&k2=v2` after a `?`-free path parses to exactly those two parameters. */
  lemma {:induction false} ParseTwoParams(path: string, k1: string, v1: string, k2: string, v2: string,
                                          decode: string -> string)
    requires '?' !in path
    requires '&' !in k1 && '=' !in k1 && '&' !in v1 && '=' !in v1
    requires '&' !in k2 && '=' !in k2 && '&' !in v2 && '=' !in v2
    requires decode(v1) == v1 && decode(v2) == v2
    ensures GetUrlParams(path + "?" + k1 + "=" + v1 + "&" + k2 + "=" + v2, decode) == map[k1 := v1, k2 := v2]
  {
    var first, second := k1 + "=" + v1, k2 + "=" + v2;
    assert path + "?" + k1 + "=" + v1 + "&" + k2 + "=" + v2 == path + "?" + first + "&" + second;
    NotInConcat(k1 + "=", v1, '&');
    NotInConcat(k2 + "=", v2, '&');
    TwoSegments(path, first, second);
    KeyValueSegment(k1, v1);
    KeyValueSegment(k2, v2);
    CollectTwo(first, second, decode);
  }

  /**
   * The ids the stub module writes, `<p>?type=<kind>`, parse to the single
   * parameter `type` whenever the file path has no `?` of its own.
   */
  lemma ParseTypeQuery(path: string, kind: string, decode: string -> string)
    requires '?' !in path
    requires '&' !in kind && '=' !in kind
    requires decode(kind) == kind
    ensures GetUrlParams(path + "?type=" + kind, decode) == map["type" := kind]
  {
    assert path + "?type=" + kind == path + "?" + "type" + "=" + kind;
    ParseOneParam(path, "type", kind, decode);
  }

  lemma NoSeparatorInDigits(i: nat)
    ensures '&' !in NatToString(i) && '=' !in NatToString(i)
  {
    var d := NatToString(i);
    assert forall j :: 0 <= j < |d| ==> IsDigit(d[j]);
  }

  /**
   * `<p>?type=style&index=<i>` parses to `type` "style" and `index` the
   * decimal text of `i`: the shape the stub writes for its i-th style block.
   */
  lemma ParseStyleQuery(path: string, i: nat, decode: string -> string)
    requires '?' !in path
    requires decode("style") == "style" && decode(NatToString(i)) == NatToString(i)
    ensures GetUrlParams(path + "?type=style&index=" + NatToString(i), decode)
      == map["type" := "style", "index" := NatToString(i)]
  {
    var d := NatToString(i);
    NoSeparatorInDigits(i);
    assert path + "?type=style&index=" + d == path + "?" + "type" + "=" + "style" + "&" + "index" + "=" + d;
    ParseTwoParams(path, "type", "style", "index", d, decode);
  }

  /** `getFullPath(args)` (src/utils.ts:22-24): an absolute path as it is, else joined to `resolveDir`. */
  function GetFullPath(host: PathHost, path: string, resolveDir: string): string
  {
    if host.isAbsolute(path) then path else host.join(resolveDir, path)
  }
}

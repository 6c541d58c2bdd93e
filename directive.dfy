/** pkg/parser/directive.go: recognising `ease:<name> key=value ...` lines
    in sanitised comments. The two regular expressions of the source are
    re-expressed as ASCII scanners over positions of the line:
      - `^ease:(\w+)` becomes `IsDirectiveLine` and `WordEnd`;
      - `([\w]*?)=([^ ]*)`, applied with FindAll, becomes `Matches`. */
module Directives {
  import opened Results
  import opened Text

  const DirectivePrefix: string := "ease"

  /** A parsed directive: its name and its key/value parameters. */
  datatype Directive = Directive(name: string, params: map<string, string>)

  /** Position of the first `c` at or after `from`, or `|s|`. */
  function IndexFrom(s: string, c: char, from: nat): (i: nat)
    requires from <= |s|
    ensures from <= i <= |s|
    decreases |s| - from
  {
    if from == |s| || s[from] == c then from else IndexFrom(s, c, from + 1)
  }

  /** `IndexFrom` stops at a `c`, or at the end, and skips no `c`. */
  lemma {:induction false} IndexFromSpec(s: string, c: char, from: nat)
    requires from <= |s|
    ensures var i := IndexFrom(s, c, from);
      && (i < |s| ==> s[i] == c)
      && forall k :: from <= k < i ==> s[k] != c
    decreases |s| - from
  {
    if from < |s| && s[from] != c {
      IndexFromSpec(s, c, from + 1);
    }
  }

  /** End of the run of word characters starting at `from`. */
  function WordEnd(s: string, from: nat): (e: nat)
    requires from <= |s|
    ensures from <= e <= |s|
    ensures forall k :: from <= k < e ==> IsWordChar(s[k])
    ensures e < |s| ==> !IsWordChar(s[e])
    decreases |s| - from
  {
    if from == |s| || !IsWordChar(s[from]) then from else WordEnd(s, from + 1)
  }

  /** Start of the run of word characters ending at `end`, not going
      back past `lo`. */
  function WordStart(s: string, lo: nat, end: nat): (k: nat)
    requires lo <= end <= |s|
    ensures lo <= k <= end
    decreases end
  {
    if end == lo || !IsWordChar(s[end - 1]) then end else WordStart(s, lo, end - 1)
  }

  /** `WordStart` goes back over word characters only, and as far as they
      go unless `lo` stops it. */
  lemma {:induction false} WordStartSpec(s: string, lo: nat, end: nat)
    requires lo <= end <= |s|
    ensures var k := WordStart(s, lo, end);
      && (forall i :: k <= i < end ==> IsWordChar(s[i]))
      && (lo < k ==> !IsWordChar(s[k - 1]))
    decreases end
  {
    if end > lo && IsWordChar(s[end - 1]) {
      WordStartSpec(s, lo, end - 1);
    }
  }

  /** End of the run of non-space characters starting at `from`. */
  function NonSpaceEnd(s: string, from: nat): (e: nat)
    requires from <= |s|
    ensures from <= e <= |s|
    decreases |s| - from
  {
    if from == |s| || s[from] == ' ' then from else NonSpaceEnd(s, from + 1)
  }

  /** `NonSpaceEnd` stops at a space, or at the end, and skips no space. */
  lemma {:induction false} NonSpaceEndSpec(s: string, from: nat)
    requires from <= |s|
    ensures var e := NonSpaceEnd(s, from);
      && (forall k :: from <= k < e ==> s[k] != ' ')
      && (e < |s| ==> s[e] == ' ')
    decreases |s| - from
  {
    if from < |s| && s[from] != ' ' {
      NonSpaceEndSpec(s, from + 1);
    }
  }

  /** The matches of `([\w]*?)=([^ ]*)` in `s` from position `from`, left
      to right. The leftmost match ends at the first `=`; its key is the
      word-character run just before that `=` (the lazy `*?` only
      shortens a match that has a later start, and the leftmost start
      wins), its value the run of non-space characters after it; the
      search resumes where the value ends. */
  function Matches(s: string, from: nat): seq<(string, string)>
    requires from <= |s|
    decreases |s| - from
  {
    var j := IndexFrom(s, '=', from);
    if j == |s| then []
    else
      var k := WordStart(s, from, j);
      var e := NonSpaceEnd(s, j + 1);
      [(s[k..j], s[j + 1..e])] + Matches(s, e)
  }

  /** All key/value matches of a comment line. */
  function KeyValues(s: string): seq<(string, string)> {
    Matches(s, 0)
  }

  /** A map built from pairs in order: a later pair overwrites an earlier
      one with the same key. */
  function ToMap<K, V>(kvs: seq<(K, V)>): map<K, V> {
    if kvs == [] then map[]
    else ToMap(kvs[..|kvs| - 1])[kvs[|kvs| - 1].0 := kvs[|kvs| - 1].1]
  }

  /** `parseDirectiveParams`: the key/value map of a comment line. */
  method ParseDirectiveParams(params: string) returns (result: map<string, string>)
    ensures result == ToMap(KeyValues(params))
  {
    var kv := KeyValues(params);
    result := map[];
    for i := 0 to |kv|
      invariant result == ToMap(kv[..i])
    {
      assert kv[..i + 1][..i] == kv[..i];
      result := result[kv[i].0 := kv[i].1];
    }
    assert kv[..|kv|] == kv;
  }

  /** The line matches `^ease:\w`. */
  predicate IsDirectiveLine(comment: string) {
    |comment| > |DirectivePrefix| + 1 &&
    comment[..|DirectivePrefix| + 1] == DirectivePrefix + ":" &&
    IsWordChar(comment[|DirectivePrefix| + 1])
  }

  /** `tryParseDirective`: a directive when the line starts with `ease:`
      and at least one word character, otherwise nothing. The name is the
      whole word-character run after `ease:`. */
  function TryParseDirective(comment: string): (r: Option<Directive>)
    ensures r.Some? <==> IsDirectiveLine(comment)
    ensures r.Some? ==>
      var n := r.value.name;
      && |n| > 0 && (forall k :: 0 <= k < |n| ==> IsWordChar(n[k]))
      && |DirectivePrefix| + 1 + |n| <= |comment|
      && comment[..|DirectivePrefix| + 1 + |n|] == DirectivePrefix + ":" + n
      && (|DirectivePrefix| + 1 + |n| < |comment| ==> !IsWordChar(comment[|DirectivePrefix| + 1 + |n|]))
    ensures r.Some? ==> r.value.params == ToMap(KeyValues(comment))
  {
    if !IsDirectiveLine(comment) then None
    else
      var start := |DirectivePrefix| + 1;
      var e := WordEnd(comment, start);
      var name := comment[start..e];
      assert comment[..e] == comment[..start] + name;
      Some(Directive(name, ToMap(KeyValues(comment))))
  }

  /** Key `k` is in `ToMap(kvs)` exactly when some pair has key `k`, and it
      maps to the value of the LAST such pair. */
  lemma {:induction false} ToMapLastWins<K, V>(kvs: seq<(K, V)>, k: K)
    ensures k in ToMap(kvs) <==> exists i :: 0 <= i < |kvs| && kvs[i].0 == k
    ensures forall i ::
      (0 <= i < |kvs| && kvs[i].0 == k && (forall j :: i < j < |kvs| ==> kvs[j].0 != k)) ==>
      k in ToMap(kvs) && ToMap(kvs)[k] == kvs[i].1
  {
    if kvs != [] {
      var init := kvs[..|kvs| - 1];
      ToMapLastWins(init, k);
      assert forall i :: 0 <= i < |init| ==> init[i] == kvs[i];
    }
  }

  /** `ToMap` of two pairs: the second is applied last. */
  lemma ToMapPair<K, V>(a: (K, V), b: (K, V))
    ensures ToMap([a, b]) == map[a.0 := a.1][b.0 := b.1]
  {
    assert [a, b][..1] == [a];
    assert [a][..0] == [];
    assert ToMap([a]) == ToMap([a][..0])[a.0 := a.1];
    assert ToMap([a, b]) == ToMap([a, b][..1])[b.0 := b.1];
  }

  /** `ToMap` of a concatenation: the second part overrides the first. */
  lemma {:induction false} ToMapAppend<K, V>(a: seq<(K, V)>, b: seq<(K, V)>)
    ensures ToMap(a + b) == ToMap(a) + ToMap(b)
    decreases |b|
  {
    if b == [] {
      assert a + b == a;
    } else {
      var binit := b[..|b| - 1];
      assert (a + b)[..|a + b| - 1] == a + binit;
      ToMapAppend(a, binit);
    }
  }

  /** `kv` is a word-character key and a space-free value that occur in
      `s` as `key=value` at or after `from`. */
  ghost predicate PairFound(s: string, from: nat, kv: (string, string)) {
    && (forall k :: 0 <= k < |kv.0| ==> IsWordChar(kv.0[k]))
    && ' ' !in kv.1
    && exists p :: from <= p && OccursAt(s, kv.0 + "=" + kv.1, p)
  }

  /** A pair found after `from` is found after any earlier position. */
  lemma PairFoundEarlier(s: string, lo: nat, from: nat, kv: (string, string))
    requires lo <= from && PairFound(s, from, kv)
    ensures PairFound(s, lo, kv)
  {
    var p :| from <= p && OccursAt(s, kv.0 + "=" + kv.1, p);
    assert lo <= p;
  }

  /** The first pair read from `from`, when there is an `=` ahead. */
  lemma FirstPairFound(s: string, from: nat)
    requires from <= |s| && IndexFrom(s, '=', from) < |s|
    ensures var j := IndexFrom(s, '=', from);
      PairFound(s, from, (s[WordStart(s, from, j)..j], s[j + 1..NonSpaceEnd(s, j + 1)]))
  {
    var j := IndexFrom(s, '=', from);
    var k := WordStart(s, from, j);
    var e := NonSpaceEnd(s, j + 1);
    IndexFromSpec(s, '=', from);
    WordStartSpec(s, from, j);
    NonSpaceEndSpec(s, j + 1);
    SlicePairFound(s, from, k, j, e);
  }

  /** Word characters before an `=` and non-spaces after it make a pair
      found at the word's start. */
  lemma SlicePairFound(s: string, from: nat, k: nat, j: nat, e: nat)
    requires from <= k <= j < e <= |s| && s[j] == '='
    requires forall i :: k <= i < j ==> IsWordChar(s[i])
    requires forall i :: j + 1 <= i < e ==> s[i] != ' '
    ensures PairFound(s, from, (s[k..j], s[j + 1..e]))
  {
    var key, value := s[k..j], s[j + 1..e];
    assert forall c :: 0 <= c < |key| ==> key[c] == s[k + c];
    assert forall c :: 0 <= c < |value| ==> value[c] == s[j + 1 + c];
    SplitOccurs(s, k, j, e);
  }

  /** The slice `s[k..e]` around an `=` at `j` is its two halves joined
      by that `=`. */
  lemma SplitOccurs(s: string, k: nat, j: nat, e: nat)
    requires k <= j < e <= |s| && s[j] == '='
    ensures OccursAt(s, s[k..j] + "=" + s[j + 1..e], k)
  {
    assert s[k..e] == s[k..j] + [s[j]] + s[j + 1..e];
  }

  /** Each extracted pair is a word-character key and a space-free value
      that occur in the line as `key=value` at or after `from`. */
  lemma {:induction false} MatchesShape(s: string, from: nat)
    requires from <= |s|
    ensures forall i :: 0 <= i < |Matches(s, from)| ==> PairFound(s, from, Matches(s, from)[i])
    decreases |s| - from
  {
    var j := IndexFrom(s, '=', from);
    if j < |s| {
      var e := NonSpaceEnd(s, j + 1);
      var rest := Matches(s, e);
      MatchesShape(s, e);
      MatchesFirst(s, from);
      FirstPairFound(s, from);
      forall i | 0 <= i < |Matches(s, from)|
        ensures PairFound(s, from, Matches(s, from)[i])
      {
        if i > 0 {
          assert Matches(s, from)[i] == rest[i - 1];
          PairFoundEarlier(s, from, e, rest[i - 1]);
        }
      }
    }
  }

  /** A pair as `([\w]*?)=([^ ]*)` extracts it from `s`: a key of word
      characters, a value without a space, and the two joined by `=`
      somewhere in `s`. */
  ghost predicate ExtractedFrom(s: string, kv: (string, string)) {
    && (forall k :: 0 <= k < |kv.0| ==> IsWordChar(kv.0[k]))
    && ' ' !in kv.1
    && exists p :: OccursAt(s, kv.0 + "=" + kv.1, p)
  }

  /** The same for a whole line. */
  lemma KeyValuesShape(s: string)
    ensures forall i :: 0 <= i < |KeyValues(s)| ==> ExtractedFrom(s, KeyValues(s)[i])
  {
    MatchesShape(s, 0);
    forall i | 0 <= i < |KeyValues(s)|
      ensures ExtractedFrom(s, KeyValues(s)[i])
    {
      var kv := KeyValues(s)[i];
      assert PairFound(s, 0, kv);
      var p :| 0 <= p && OccursAt(s, kv.0 + "=" + kv.1, p);
    }
  }

  /** A line yields no key/value pair exactly when it holds no `=`. */
  lemma KeyValuesEmptyIff(s: string)
    ensures KeyValues(s) == [] <==> '=' !in s
  {
    var j := IndexFrom(s, '=', 0);
    IndexFromSpec(s, '=', 0);
    if '=' in s {
      var k :| 0 <= k < |s| && s[k] == '=';
      assert j <= k;
    }
  }

  /** Hence a directive line without `=` has an empty parameter map. */
  lemma NoEqualsNoParams(comment: string)
    requires IsDirectiveLine(comment) && '=' !in comment
    ensures TryParseDirective(comment).value.params == map[]
  {
    KeyValuesEmptyIff(comment);
  }

  /** Parameters written back as text: ` key=value` for each pair. */
  function RenderParams(kvs: seq<(string, string)>): string {
    if kvs == [] then ""
    else " " + kvs[0].0 + "=" + kvs[0].1 + RenderParams(kvs[1..])
  }

  /** A pair the scanner can read back: a word-character key and a value
      without spaces. */
  predicate Renderable(kv: (string, string)) {
    (forall i :: 0 <= i < |kv.0| ==> IsWordChar(kv.0[i])) && ' ' !in kv.1
  }

  /** Position facts of one rendered pair ` key=value` at `q`. */
  lemma RenderedPairAt(s: string, q: nat, key: string, value: string, rest: string)
    requires q <= |s| && s[q..] == " " + key + "=" + value + rest
    ensures q + 2 + |key| + |value| <= |s|
    ensures s[q] == ' '
    ensures s[q + 1..q + 1 + |key|] == key
    ensures s[q + 1 + |key|] == '='
    ensures s[q + 2 + |key|..q + 2 + |key| + |value|] == value
    ensures s[q + 2 + |key| + |value|..] == rest
  {
    var t := " " + key + "=" + value + rest;
    assert s[q..][0] == t[0];
    assert s[q..][1 + |key|] == t[1 + |key|];
    assert s[q + 1..q + 1 + |key|] == s[q..][1..1 + |key|] == t[1..1 + |key|];
    assert s[q + 2 + |key|..q + 2 + |key| + |value|] == t[2 + |key|..2 + |key| + |value|];
    assert s[q + 2 + |key| + |value|..] == t[2 + |key| + |value|..];
  }

  /** `Matches` when there is an `=` at or after `from`. */
  lemma MatchesFirst(s: string, from: nat)
    requires from <= |s| && IndexFrom(s, '=', from) < |s|
    ensures var j := IndexFrom(s, '=', from);
      var e := NonSpaceEnd(s, j + 1);
      Matches(s, from) == [(s[WordStart(s, from, j)..j], s[j + 1..e])] + Matches(s, e)
  {
  }

  /** The first match after `from`, when ` key=value` sits at `q`, is
      followed by a space or the end, and nothing between `from` and `q`
      is `=`: it is `(key, value)`, and the search resumes after it. */
  lemma PairMatch(s: string, from: nat, q: nat, key: string, value: string)
    requires from <= q && q + 2 + |key| + |value| <= |s|
    requires forall i :: from <= i < q ==> s[i] != '='
    requires s[q] == ' ' && s[q + 1..q + 1 + |key|] == key && s[q + 1 + |key|] == '='
    requires s[q + 2 + |key|..q + 2 + |key| + |value|] == value
    requires q + 2 + |key| + |value| < |s| ==> s[q + 2 + |key| + |value|] == ' '
    requires Renderable((key, value))
    ensures Matches(s, from) == [(key, value)] + Matches(s, q + 2 + |key| + |value|)
  {
    var eq := q + 1 + |key|;
    var e := q + 2 + |key| + |value|;
    PairKeyAt(s, from, q, key);
    PairValueAt(s, eq, value);
    assert s[eq + 1..e] == value by {
      assert eq + 1 == q + 2 + |key|;
    }
    MatchesAt(s, from, q + 1, eq, e);
    LeadingPair(Matches(s, from), s[q + 1..eq], s[eq + 1..e], key, value, Matches(s, e));
  }

  /** `Matches` once the first `=` at or after `from`, the start of its key
      and the end of its value are known. */
  lemma MatchesAt(s: string, from: nat, k: nat, j: nat, e: nat)
    requires from <= |s| && j == IndexFrom(s, '=', from) && j < |s|
    requires k == WordStart(s, from, j) && e == NonSpaceEnd(s, j + 1)
    ensures Matches(s, from) == [(s[k..j], s[j + 1..e])] + Matches(s, e)
  {
    MatchesFirst(s, from);
  }

  /** A list led by `(k, v)` is led by `(key, value)` when they are equal. */
  lemma LeadingPair(m: seq<(string, string)>, k: string, v: string, key: string, value: string, rest: seq<(string, string)>)
    requires m == [(k, v)] + rest && k == key && v == value
    ensures m == [(key, value)] + rest
  {
  }

  /** With ` key=` at `q` and no `=` from `from` to `q`, the first `=` is
      the one after the key, and the word run before it is the key. */
  lemma PairKeyAt(s: string, from: nat, q: nat, key: string)
    requires from <= q && q + 1 + |key| < |s|
    requires forall i :: from <= i < q ==> s[i] != '='
    requires s[q] == ' ' && s[q + 1..q + 1 + |key|] == key && s[q + 1 + |key|] == '='
    requires forall i :: 0 <= i < |key| ==> IsWordChar(key[i])
    ensures IndexFrom(s, '=', from) == q + 1 + |key|
    ensures WordStart(s, from, q + 1 + |key|) == q + 1
    ensures s[q + 1..q + 1 + |key|] == key
  {
    var eq := q + 1 + |key|;
    forall i | q + 1 <= i < eq ensures IsWordChar(s[i]) && s[i] != '=' {
      assert s[i] == s[q + 1..eq][i - q - 1];
    }
    IndexFromSpec(s, '=', from);
    WordStartSpec(s, from, eq);
  }

  /** With a space-free `value` after the `=` at `eq`, followed by a space
      or the end, the value run is exactly `value`. */
  lemma PairValueAt(s: string, eq: nat, value: string)
    requires eq + 1 + |value| <= |s|
    requires s[eq + 1..eq + 1 + |value|] == value && ' ' !in value
    requires eq + 1 + |value| < |s| ==> s[eq + 1 + |value|] == ' '
    ensures NonSpaceEnd(s, eq + 1) == eq + 1 + |value|
  {
    var e := eq + 1 + |value|;
    forall i | eq + 1 <= i < e ensures s[i] != ' ' {
      assert s[i] == s[eq + 1..e][i - eq - 1];
    }
    NonSpaceEndSpec(s, eq + 1);
  }


  /** `s` holds, from position `q` to its end, the rendering of `kvs`,
      stated position by position. */
  predicate RenderedAt(s: string, q: nat, kvs: seq<(string, string)>)
    decreases |kvs|
  {
    if kvs == [] then q == |s|
    else
      var key, value := kvs[0].0, kvs[0].1;
      var e := q + 2 + |key| + |value|;
      && e <= |s|
      && s[q] == ' ' && s[q + 1..q + 1 + |key|] == key && s[q + 1 + |key|] == '='
      && s[q + 2 + |key|..e] == value
      && RenderedAt(s, e, kvs[1..])
  }

  /** A suffix equal to the rendering satisfies `RenderedAt`. */
  lemma {:induction false} RenderedAtSuffix(s: string, q: nat, kvs: seq<(string, string)>)
    requires q <= |s| && s[q..] == RenderParams(kvs)
    ensures RenderedAt(s, q, kvs)
    decreases |kvs|
  {
    if kvs != [] {
      var rest := RenderParams(kvs[1..]);
      RenderedPairAt(s, q, kvs[0].0, kvs[0].1, rest);
      RenderedAtSuffix(s, q + 2 + |kvs[0].0| + |kvs[0].1|, kvs[1..]);
    }
  }

  /** Reading back rendered parameters gives the same pairs, in order,
      whatever precedes them (from `from` on), as long as that holds no
      `=`. */
  lemma {:induction false} MatchesRoundTrip(s: string, from: nat, q: nat, kvs: seq<(string, string)>)
    requires from <= q <= |s|
    requires forall i :: from <= i < q ==> s[i] != '='
    requires RenderedAt(s, q, kvs)
    requires forall i :: 0 <= i < |kvs| ==> Renderable(kvs[i])
    ensures Matches(s, from) == kvs
    decreases |kvs|
  {
    if kvs == [] {
      IndexFromSpec(s, '=', from);
    } else {
      var key, value := kvs[0].0, kvs[0].1;
      var e := q + 2 + |key| + |value|;
      assert Renderable(kvs[0]);
      assert e < |s| ==> s[e] == ' ' by {
        if e < |s| {
          assert kvs[1..] != [];
        }
      }
      PairMatch(s, from, q, key, value);
      MatchesRoundTrip(s, e, e, kvs[1..]);
      assert kvs == [(key, value)] + kvs[1..];
    }
  }

  /** For a whole line: `lead` followed by rendered parameters reads back
      as those parameters. */
  lemma KeyValuesRoundTrip(lead: string, kvs: seq<(string, string)>)
    requires '=' !in lead
    requires forall i :: 0 <= i < |kvs| ==> Renderable(kvs[i])
    ensures KeyValues(lead + RenderParams(kvs)) == kvs
  {
    var s := lead + RenderParams(kvs);
    assert s[|lead|..] == RenderParams(kvs);
    RenderedAtSuffix(s, |lead|, kvs);
    MatchesRoundTrip(s, 0, |lead|, kvs);
  }

  /** `ease:api method=<m> path=<p>` is the directive `api` with parameters
      `method` and `path`, for any space-free values, as in
      `ease:api method=POST path=/api/todos`. */
  lemma ApiDirectiveExample(m: string, p: string)
    requires ' ' !in m && ' ' !in p
    ensures TryParseDirective("ease:api" + RenderParams([("method", m), ("path", p)]))
      == Some(Directive("api", map["method" := m, "path" := p]))
  {
    var kvs := [("method", m), ("path", p)];
    assert RenderParams(kvs)[0] == ' ';
    ApiName(RenderParams(kvs));
    KeyValuesRoundTrip("ease:api", kvs);
    ToMapPair(kvs[0], kvs[1]);
  }

  /** `ease:api` followed by nothing or a space names the directive `api`. */
  lemma ApiName(rest: string)
    requires rest != [] ==> rest[0] == ' '
    ensures TryParseDirective("ease:api" + rest) == Some(Directive("api", ToMap(KeyValues("ease:api" + rest))))
  {
    var line := "ease:api" + rest;
    assert WordEnd(line, 8) == 8;
    assert WordEnd(line, 5) == 8;
    assert line[5..8] == "api";
  }

  /** A key given twice on one line keeps its last value. */
  lemma RepeatedKeyLastWins(a: string, b: string)
    requires ' ' !in a && ' ' !in b
    ensures ToMap(KeyValues("ease:api" + RenderParams([("method", a), ("method", b)]))) == map["method" := b]
  {
    var kvs := [("method", a), ("method", b)];
    KeyValuesRoundTrip("ease:api", kvs);
    ToMapPair(kvs[0], kvs[1]);
  }

  /** A value runs to the next space, so it may contain `=` (`a==b` gives
      `a` the value `=b`), and it may be empty (`c=`). */
  lemma ValueEdgeCases()
    ensures KeyValues("ease:x" + RenderParams([("a", "=b"), ("c", "")])) == [("a", "=b"), ("c", "")]
  {
    KeyValuesRoundTrip("ease:x", [("a", "=b"), ("c", "")]);
  }

  /** The name is the word run after `ease:`: `ease:api-x` is named `api`. */
  lemma NameStopsAtNonWord()
    ensures TryParseDirective("ease:api-x").Some?
    ensures TryParseDirective("ease:api-x").value.name == "api"
  {
    assert WordEnd("ease:api-x", 5) == 8;
  }

  /** Lines that do not start with `ease:` and a word character are not
      directives. */
  lemma NotDirectives()
    ensures TryParseDirective("Creates a new todo") == None
    ensures TryParseDirective("ease:") == None
    ensures TryParseDirective("ease: api") == None
  {
    assert "Creates a new todo"[..5][0] == 'C';
    assert "ease: api"[5] == ' ';
  }
}

/** The handful of Go `strings` operations the analysis core relies on,
    over `string` (= `seq<char>`); only ASCII behaviour is modelled. */
module Text {

  /** ASCII word character, the `\w` class of Go's regular expressions:
      `[0-9A-Za-z_]`. */
  predicate IsWordChar(c: char) {
    ('0' <= c <= '9') || ('A' <= c <= 'Z') || ('a' <= c <= 'z') || c == '_'
  }

  /** Number of leading characters of `s` that belong to `cut`. */
  function TrimStart(s: string, cut: set<char>): (i: nat)
    ensures i <= |s|
    ensures forall k :: 0 <= k < i ==> s[k] in cut
    ensures i < |s| ==> s[i] !in cut
  {
    if s == [] || s[0] !in cut then 0 else 1 + TrimStart(s[1..], cut)
  }

  /** End of `s[lo..]` once trailing characters of `cut` are dropped. */
  function TrimEnd(s: string, cut: set<char>, lo: nat): (j: nat)
    requires lo <= |s|
    ensures lo <= j <= |s|
    ensures forall k :: j <= k < |s| ==> s[k] in cut
    ensures lo < j ==> s[j - 1] !in cut
    decreases |s|
  {
    if |s| == lo || s[|s| - 1] !in cut then |s|
    else TrimEnd(s[..|s| - 1], cut, lo)
  }

  /** `strings.Trim(s, cutset)`: drops every leading and trailing
      character that belongs to `cut`. */
  function Trim(s: string, cut: set<char>): (r: string)
    ensures exists i, j ::
      && 0 <= i <= j <= |s| && r == s[i..j]
      && (forall k :: 0 <= k < i ==> s[k] in cut)
      && (forall k :: j <= k < |s| ==> s[k] in cut)
    ensures r != [] ==> r[0] !in cut && r[|r| - 1] !in cut
  {
    var i := TrimStart(s, cut);
    var j := TrimEnd(s, cut, i);
    s[i..j]
  }

  /** Start of the run of non-`/` characters that ends at `i`. */
  function NameStart(path: string, i: nat): (k: nat)
    requires i <= |path|
    ensures k <= i
    ensures forall j :: k <= j < i ==> path[j] != '/'
    ensures k > 0 ==> path[k - 1] == '/'
  {
    if i == 0 || path[i - 1] == '/' then i else NameStart(path, i - 1)
  }

  /** `path[strings.LastIndex(path, "/")+1:]`: the text after the last `/`,
      or all of `path` when it has none. */
  function AfterLastSlash(path: string): (r: string)
    ensures '/' !in r
    ensures |r| <= |path| && r == path[|path| - |r|..]
  {
    path[NameStart(path, |path|)..]
  }

  /** The name is the whole text after the last `/`: the character before
      it, if any, is a `/`. */
  lemma AfterLastSlashMaximal(path: string)
    ensures var r := AfterLastSlash(path);
      |r| < |path| ==> path[|path| - |r| - 1] == '/'
  {
  }

  /** `sub` occurs in `s` starting at index `i`. */
  predicate OccursAt(s: string, sub: string, i: int) {
    0 <= i && i + |sub| <= |s| && s[i..i + |sub|] == sub
  }

  /** `strings.Contains(s, sub)`. */
  function Contains(s: string, sub: string): (r: bool)
    ensures r <==> exists i :: OccursAt(s, sub, i)
  {
    if |s| < |sub| then false
    else if s[..|sub|] == sub then assert OccursAt(s, sub, 0); true
    else
      var r := Contains(s[1..], sub);
      assert forall i :: OccursAt(s[1..], sub, i) <==> OccursAt(s, sub, i + 1);
      assert !OccursAt(s, sub, 0);
      assert forall i :: OccursAt(s, sub, i) ==> OccursAt(s[1..], sub, i - 1);
      r
  }

  /** `strings.ReplaceAll(s, from, to)` for one-character `from` and `to`. */
  function ReplaceChar(s: string, from: char, to: char): (r: string)
    ensures |r| == |s|
    ensures forall i :: 0 <= i < |s| ==> r[i] == if s[i] == from then to else s[i]
  {
    if s == [] then [] else [if s[0] == from then to else s[0]] + ReplaceChar(s[1..], from, to)
  }

  /** `strings.ToLower` restricted to ASCII letters: each upper-case letter
      becomes its lower-case letter, every other character stays. */
  function ToLowerAscii(s: string): (r: string)
    ensures |r| == |s|
    ensures forall i :: 0 <= i < |s| ==> !('A' <= r[i] <= 'Z')
    ensures forall i :: 0 <= i < |s| && 'A' <= s[i] <= 'Z' ==> r[i] as int == s[i] as int - 'A' as int + 'a' as int
    ensures forall i :: 0 <= i < |s| && !('A' <= s[i] <= 'Z') ==> r[i] == s[i]
  {
    if s == [] then []
    else [if 'A' <= s[0] <= 'Z' then (s[0] as int + 32) as char else s[0]] + ToLowerAscii(s[1..])
  }

  /** Trimming a text whose ends are outside `cut`, between a prefix and a
      suffix made of `cut` characters, gives back the text. */
  lemma TrimSurrounded(pre: string, s: string, post: string, cut: set<char>)
    requires forall k :: 0 <= k < |pre| ==> pre[k] in cut
    requires forall k :: 0 <= k < |post| ==> post[k] in cut
    requires s != [] && s[0] !in cut && s[|s| - 1] !in cut
    ensures Trim(pre + s + post, cut) == s
  {
    var t := pre + s + post;
    var i := TrimStart(t, cut);
    assert t[|pre|] == s[0];
    assert i == |pre|;
    var j := TrimEnd(t, cut, i);
    var e := |pre| + |s|;
    assert t[e - 1] == s[|s| - 1];
    assert j == e;
    assert t[i..j] == s;
  }
}

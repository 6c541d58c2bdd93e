/** pkg/parser/decl.go: the declaration wrapper that splits the comments
    attached to a declaration into documentation text and directives. */
module Declarations {
  import opened Results
  import opened Text
  import opened Directives

  /** The characters `strings.Trim(line, "/ ")` removes at both ends. */
  const CommentCut: set<char> := {'/', ' '}

  /** A comment line with its `//` markers and surrounding spaces removed. */
  function Sanitize(line: string): string {
    Trim(line, CommentCut)
  }

  /** The lines of the comment groups, in order; a nil group (`None`)
      contributes nothing. */
  function Lines(groups: seq<Option<seq<string>>>): seq<string> {
    if groups == [] then []
    else
      var last := groups[|groups| - 1];
      Lines(groups[..|groups| - 1]) + (if last.Some? then last.value else [])
  }

  /** What one line adds to the documentation: nothing for a directive,
      otherwise its sanitised text and a newline. */
  function LineDoc(line: string): string {
    var t := Sanitize(line);
    if TryParseDirective(t).None? then t + "\n" else ""
  }

  /** What one line adds to the directives: its directive, under its name. */
  function LineEntries(line: string): seq<(string, Directive)> {
    var d := TryParseDirective(Sanitize(line));
    if d.Some? then [(d.value.name, d.value)] else []
  }

  /** The per-line contributions `f(line)` of some lines, concatenated in
      order. */
  function Flatten<T>(f: string -> seq<T>, lines: seq<string>): seq<T> {
    if lines == [] then [] else Flatten(f, lines[..|lines| - 1]) + f(lines[|lines| - 1])
  }

  /** The documentation text of some lines: every line that is not a
      directive, sanitised and followed by a newline, in order. */
  function DocOf(lines: seq<string>): string {
    Flatten(LineDoc, lines)
  }

  /** The directives of some lines, in order, each with its name. */
  function EntriesOf(lines: seq<string>): seq<(string, Directive)> {
    Flatten(LineEntries, lines)
  }

  /** The directive map: by name, a later directive replacing an earlier one. */
  function DirectivesOf(lines: seq<string>): map<string, Directive> {
    ToMap(EntriesOf(lines))
  }

  class Decl {
    const comments: seq<Option<seq<string>>>
    const name: string
    var parsed: bool
    var doc: string
    var directives: map<string, Directive>

    /** Before parsing, nothing is recorded; after it, the documentation
        and directives are those of the comments. */
    ghost predicate Valid()
      reads this
    {
      && (parsed ==> doc == DocOf(Lines(comments)) && directives == DirectivesOf(Lines(comments)))
      && (!parsed ==> doc == "" && directives == map[])
    }

    /** `newDeclaration(ident, comments...)`: a nil ident gives the empty name. */
    constructor (ident: Option<string>, comments: seq<Option<seq<string>>>)
      ensures Valid() && !parsed
      ensures this.comments == comments
      ensures name == if ident.Some? then ident.value else ""
    {
      this.comments := comments;
      name := if ident.Some? then ident.value else "";
      parsed := false;
      doc := "";
      directives := map[];
    }

    /** `parse`: runs once. Each line of each non-nil group is sanitised;
        a directive is stored under its name, any other line is appended to
        the documentation followed by a newline. */
    method Parse()
      requires Valid()
      modifies this
      ensures Valid() && parsed
      ensures doc == DocOf(Lines(comments)) && directives == DirectivesOf(Lines(comments))
      ensures old(parsed) ==> doc == old(doc) && directives == old(directives)
    {
      if parsed {
        return;
      }
      for g := 0 to |comments|
        invariant doc == DocOf(Lines(comments[..g]))
        invariant directives == DirectivesOf(Lines(comments[..g]))
      {
        LinesStep(comments, g);
        if comments[g].Some? {
          ParseLines(comments[g].value, Lines(comments[..g]));
        } else {
          assert Lines(comments[..g]) + [] == Lines(comments[..g]);
        }
      }
      assert comments[..|comments|] == comments;
      parsed := true;
    }

    /** The body of `parse` for one comment group: each line is sanitised;
        a directive is stored under its name, any other line is appended to
        the documentation followed by a newline. */
    method ParseLines(group: seq<string>, ghost before: seq<string>)
      requires doc == DocOf(before) && directives == DirectivesOf(before)
      modifies this
      ensures doc == DocOf(before + group) && directives == DirectivesOf(before + group)
      ensures parsed == old(parsed)
    {
      assert before + group[..0] == before;
      for l := 0 to |group|
        invariant doc == DocOf(before + group[..l])
        invariant directives == DirectivesOf(before + group[..l])
        invariant parsed == old(parsed)
      {
        var trimmed := Sanitize(group[l]);
        var directive := TryParseDirective(trimmed);
        RunSnoc(before, group, l);
        LineStep(before + group[..l], group[l]);
        if directive.Some? {
          directives := directives[directive.value.name := directive.value];
        } else {
          doc := doc + trimmed + "\n";
        }
      }
      assert group[..|group|] == group;
    }

    /** `Doc`: the documentation text, parsing first if needed. */
    method Doc() returns (d: string)
      requires Valid()
      modifies this
      ensures Valid() && parsed
      ensures d == DocOf(Lines(comments))
    {
      Parse();
      d := doc;
    }

    /** `Directive(name)`: the directive stored under `name`, if any. */
    method Directive(key: string) returns (d: Option<Directive>, found: bool)
      requires Valid()
      modifies this
      ensures Valid() && parsed
      ensures found <==> key in DirectivesOf(Lines(comments))
      ensures found ==> d == Some(DirectivesOf(Lines(comments))[key])
      ensures !found ==> d == None
    {
      Parse();
      found := key in directives;
      d := if found then Some(directives[key]) else None;
    }
  }

  /** One more comment group adds its lines, a nil group none. */
  lemma LinesStep(groups: seq<Option<seq<string>>>, g: nat)
    requires g < |groups|
    ensures Lines(groups[..g + 1]) == Lines(groups[..g]) + (if groups[g].Some? then groups[g].value else [])
  {
    assert groups[..g + 1][..g] == groups[..g];
  }

  /** The lines before a group followed by one more line of it. */
  lemma RunSnoc(before: seq<string>, group: seq<string>, l: nat)
    requires l < |group|
    ensures before + group[..l + 1] == (before + group[..l]) + [group[l]]
  {
    assert group[..l + 1] == group[..l] + [group[l]];
  }

  /** One more line: a directive replaces the entry under its name, any
      other line appends its sanitised text and a newline. */
  lemma LineStep(lines: seq<string>, line: string)
    ensures TryParseDirective(Sanitize(line)).Some? ==>
      DocOf(lines + [line]) == DocOf(lines) &&
      DirectivesOf(lines + [line]) == DirectivesOf(lines)[TryParseDirective(Sanitize(line)).value.name := TryParseDirective(Sanitize(line)).value]
    ensures TryParseDirective(Sanitize(line)).None? ==>
      DocOf(lines + [line]) == DocOf(lines) + Sanitize(line) + "\n" && DirectivesOf(lines + [line]) == DirectivesOf(lines)
  {
    FlattenSnoc(LineDoc, lines, line);
    FlattenSnoc(LineEntries, lines, line);
    ToMapAppend(EntriesOf(lines), LineEntries(line));
    var d := TryParseDirective(Sanitize(line));
    if d.Some? {
      ToMapSingle(d.value.name, d.value);
    }
  }

  /** Contributions of consecutive line runs are concatenated: lines
      contribute independently and in order. */
  lemma {:induction false} FlattenAppend<T>(f: string -> seq<T>, a: seq<string>, b: seq<string>)
    ensures Flatten(f, a + b) == Flatten(f, a) + Flatten(f, b)
    decreases |b|
  {
    if b == [] {
      assert a + b == a;
    } else {
      var binit := b[..|b| - 1];
      assert (a + b)[..|a + b| - 1] == a + binit;
      FlattenAppend(f, a, binit);
    }
  }

  /** Hence the documentation of consecutive line runs is the
      concatenation of their documentation. */
  lemma DocOfAppend(a: seq<string>, b: seq<string>)
    ensures DocOf(a + b) == DocOf(a) + DocOf(b)
  {
    FlattenAppend(LineDoc, a, b);
  }

  /** And the directives of a later run replace those of an earlier run
      with the same name. */
  lemma DirectivesOfAppend(a: seq<string>, b: seq<string>)
    ensures DirectivesOf(a + b) == DirectivesOf(a) + DirectivesOf(b)
  {
    FlattenAppend(LineEntries, a, b);
    ToMapAppend(EntriesOf(a), EntriesOf(b));
  }

  /** One line on its own: a directive line yields that directive under its
      name and no text; any other line yields its sanitised text and a
      newline, and no directive. */
  lemma OneLine(line: string)
    ensures TryParseDirective(Sanitize(line)).Some? ==>
      DocOf([line]) == "" &&
      DirectivesOf([line]) == map[TryParseDirective(Sanitize(line)).value.name := TryParseDirective(Sanitize(line)).value]
    ensures TryParseDirective(Sanitize(line)).None? ==>
      DocOf([line]) == Sanitize(line) + "\n" && DirectivesOf([line]) == map[]
  {
    assert [line][..0] == [];
    assert Flatten(LineDoc, [line]) == [] + LineDoc(line);
    assert Flatten(LineEntries, [line]) == [] + LineEntries(line);
    var d := TryParseDirective(Sanitize(line));
    if d.Some? {
      assert EntriesOf([line]) == [(d.value.name, d.value)];
      var e := [(d.value.name, d.value)];
      assert e[..0] == [];
      assert ToMap(e) == ToMap(e[..0])[d.value.name := d.value];
    }
  }

  /** Appending one line appends its contribution. */
  lemma FlattenSnoc<T>(f: string -> seq<T>, lines: seq<string>, line: string)
    ensures Flatten(f, lines + [line]) == Flatten(f, lines) + f(line)
  {
    assert (lines + [line])[..|lines|] == lines;
  }

  /** An item is contributed by the lines exactly when some line contributes it. */
  lemma {:induction false} FlattenMembers<T>(f: string -> seq<T>, lines: seq<string>, x: T)
    ensures x in Flatten(f, lines) <==> exists i :: 0 <= i < |lines| && x in f(lines[i])
  {
    if lines != [] {
      var init := lines[..|lines| - 1];
      FlattenMembers(f, init, x);
      assert forall i :: 0 <= i < |init| ==> init[i] == lines[i];
    }
  }

  /** `ToMap` of one pair. */
  lemma ToMapSingle<K, V>(k: K, v: V)
    ensures ToMap([(k, v)]) == map[k := v]
  {
    assert [(k, v)][..0] == [];
  }

  /** A line yields an entry exactly when it parses to that entry's
      directive, stored under the directive's name. */
  lemma LineEntriesIff(line: string, x: (string, Directive))
    ensures x in LineEntries(line) <==> TryParseDirective(Sanitize(line)) == Some(x.1) && x.0 == x.1.name
  {
  }

  /** Each directive entry comes from a line that parses to it, and each
      line that parses to a directive yields an entry. */
  lemma EntriesOfSpec(lines: seq<string>)
    ensures forall x :: x in EntriesOf(lines) <==>
      exists i :: 0 <= i < |lines| && TryParseDirective(Sanitize(lines[i])) == Some(x.1) && x.0 == x.1.name
  {
    forall x
      ensures x in EntriesOf(lines) <==>
        exists i :: 0 <= i < |lines| && TryParseDirective(Sanitize(lines[i])) == Some(x.1) && x.0 == x.1.name
    {
      FlattenMembers(LineEntries, lines, x);
      forall i | 0 <= i < |lines|
        ensures x in LineEntries(lines[i]) <==> TryParseDirective(Sanitize(lines[i])) == Some(x.1) && x.0 == x.1.name
      {
        LineEntriesIff(lines[i], x);
      }
    }
  }

  /** `Directive(name)` finds something exactly when some comment line,
      once sanitised, is a directive with that name. */
  lemma DirectiveFoundIff(lines: seq<string>, key: string)
    ensures key in DirectivesOf(lines) <==>
      exists i :: 0 <= i < |lines| && TryParseDirective(Sanitize(lines[i])).Some?
        && TryParseDirective(Sanitize(lines[i])).value.name == key
  {
    if key in DirectivesOf(lines) {
      DirectiveFromLine(lines, key);
    } else if exists i :: (0 <= i < |lines| && TryParseDirective(Sanitize(lines[i])).Some?
        && TryParseDirective(Sanitize(lines[i])).value.name == key) {
      var i :| 0 <= i < |lines| && TryParseDirective(Sanitize(lines[i])).Some?
        && TryParseDirective(Sanitize(lines[i])).value.name == key;
      LineDirectiveFound(lines, i);
    }
  }

  /** A name in the directive map is that of a line's directive. */
  lemma DirectiveFromLine(lines: seq<string>, key: string)
    requires key in DirectivesOf(lines)
    ensures exists i :: (0 <= i < |lines| && TryParseDirective(Sanitize(lines[i])).Some?
      && TryParseDirective(Sanitize(lines[i])).value.name == key)
  {
    var e := EntriesOf(lines);
    ToMapLastWins(e, key);
    var j :| 0 <= j < |e| && e[j].0 == key;
    FlattenMembers(LineEntries, lines, e[j]);
    var i :| 0 <= i < |lines| && e[j] in LineEntries(lines[i]);
    LineEntriesIff(lines[i], e[j]);
  }

  /** The directive a line parses to is in the directive map under its
      name. */
  lemma LineDirectiveFound(lines: seq<string>, i: nat)
    requires i < |lines| && TryParseDirective(Sanitize(lines[i])).Some?
    ensures TryParseDirective(Sanitize(lines[i])).value.name in DirectivesOf(lines)
  {
    var e := EntriesOf(lines);
    var d := TryParseDirective(Sanitize(lines[i])).value;
    LineEntriesIff(lines[i], (d.name, d));
    FlattenMembers(LineEntries, lines, (d.name, d));
    var j :| 0 <= j < |e| && e[j] == (d.name, d);
    ToMapHasKey(e, j);
    assert d.name in DirectivesOf(lines);
  }

  /** Every key of the pairs is a key of their map. */
  lemma ToMapHasKey<K, V>(kvs: seq<(K, V)>, j: nat)
    requires j < |kvs|
    ensures kvs[j].0 in ToMap(kvs)
  {
    ToMapLastWins(kvs, kvs[j].0);
  }

  /** Nil comment groups contribute no line. */
  lemma NilGroupsSkipped(groups: seq<Option<seq<string>>>)
    ensures Lines(groups + [None]) == Lines(groups)
    ensures Lines([None] + groups) == Lines(groups)
    decreases |groups|
  {
    assert (groups + [None])[..|groups|] == groups;
    if groups != [] {
      var init := groups[..|groups| - 1];
      assert ([None] + groups)[..|groups|] == [None] + init;
      NilGroupsSkipped(init);
    }
  }

  /** A comment line `// s` sanitises to `s` when `s` neither starts nor
      ends with a slash or a space. */
  lemma SanitizeComment(s: string)
    requires s != [] && s[0] !in CommentCut && s[|s| - 1] !in CommentCut
    ensures Sanitize("// " + s) == s
  {
    TrimSurrounded("// ", s, "", CommentCut);
    assert "// " + s + "" == "// " + s;
  }

  /** A rendered `ease:api` line starts with `e` and ends with the last
      character of the path. */
  lemma ApiLineEnds(m: string, p: string)
    requires p != []
    ensures var line := "ease:api" + RenderParams([("method", m), ("path", p)]);
      line != [] && line[0] == 'e' && line[|line| - 1] == p[|p| - 1]
  {
    var r := RenderParams([("method", m), ("path", p)]);
    assert [("method", m), ("path", p)][1..] == [("path", p)];
    assert [("path", p)][1..] == [];
    assert RenderParams([("path", p)]) == " " + "path" + "=" + p + "";
    assert r == " " + "method" + "=" + m + RenderParams([("path", p)]);
  }

  /** A bare comment marker `//` sanitises to the empty line. */
  lemma SanitizeMarker()
    ensures Sanitize("//") == ""
  {
    assert TrimStart("//"[2..], CommentCut) == 0;
    assert TrimStart("//"[1..], CommentCut) == 1;
  }

  /** Three lines contribute, in order, what each contributes alone. */
  lemma ThreeLines(a: string, e: string, b: string)
    ensures DocOf([a, e, b]) == DocOf([a]) + DocOf([e]) + DocOf([b])
    ensures DirectivesOf([a, e, b]) == DirectivesOf([a]) + DirectivesOf([e]) + DirectivesOf([b])
  {
    assert [a, e, b] == [a] + [e] + [b];
    DocOfAppend([a], [e]);
    DocOfAppend([a] + [e], [b]);
    DirectivesOfAppend([a], [e]);
    DirectivesOfAppend([a] + [e], [b]);
  }

  /** An `//ease:api method=m path=p` comment line adds no text and the
      `api` directive. */
  lemma ApiCommentLine(m: string, p: string)
    requires ' ' !in m && ' ' !in p && p != [] && p[|p| - 1] != '/'
    ensures DocOf(["//" + ("ease:api" + RenderParams([("method", m), ("path", p)]))]) == ""
    ensures DirectivesOf(["//" + ("ease:api" + RenderParams([("method", m), ("path", p)]))])
      == map["api" := Directive("api", map["method" := m, "path" := p])]
  {
    var line := "ease:api" + RenderParams([("method", m), ("path", p)]);
    ApiLineEnds(m, p);
    TrimSurrounded("//", line, "", CommentCut);
    assert "//" + line + "" == "//" + line;
    ApiDirectiveExample(m, p);
    OneLine("//" + line);
  }

  /** A `// text` comment line that is no directive adds the text and a
      newline, and no directive. */
  lemma TextCommentLine(text: string)
    requires text != [] && text[0] !in CommentCut && text[|text| - 1] !in CommentCut
    requires !IsDirectiveLine(text)
    ensures DocOf(["// " + text]) == text + "\n" && DirectivesOf(["// " + text]) == map[]
  {
    SanitizeComment(text);
    OneLine("// " + text);
  }

  /** An empty `//` comment line adds an empty line and no directive. */
  lemma EmptyCommentLine()
    ensures DocOf(["//"]) == "\n" && DirectivesOf(["//"]) == map[]
  {
    SanitizeMarker();
    OneLine("//");
  }

  /** The doc comment of `Create` in the todo example: a text line, an
      empty `//` line and an `//ease:api` line give the text and an empty
      line, each newline-terminated, as documentation and the `api`
      directive; the `//` and the spaces next to it are trimmed away before
      a line is classified. */
  lemma ServiceCommentExample(text: string, m: string, p: string)
    requires text != [] && text[0] !in CommentCut && text[|text| - 1] !in CommentCut
    requires !IsDirectiveLine(text)
    requires ' ' !in m && ' ' !in p && p != [] && p[|p| - 1] != '/'
    ensures DocOf(["// " + text, "//", "//" + ("ease:api" + RenderParams([("method", m), ("path", p)]))]) == text + "\n" + "\n"
    ensures DirectivesOf(["// " + text, "//", "//" + ("ease:api" + RenderParams([("method", m), ("path", p)]))])
      == map["api" := Directive("api", map["method" := m, "path" := p])]
  {
    var a, e, b := "// " + text, "//", "//" + ("ease:api" + RenderParams([("method", m), ("path", p)]));
    ThreeLines(a, e, b);
    TextCommentLine(text);
    EmptyCommentLine();
    ApiCommentLine(m, p);
    assert DirectivesOf([a]) + DirectivesOf([e]) == map[];
  }
}

/** The part of Go's syntax tree (`go/ast`) the parser reads: type
    expressions, fields, function and general declarations, import specs,
    file-scope objects and files. Positions, bodies and everything else the
    parser never looks at are dropped. */
module Syntax {
  import opened Results

  /** A type expression: an identifier, `*X`, `[]X`, `map[K]V`, a qualified
      identifier `x.Sel` (the qualifier is always an identifier in the
      parsed files), or anything else (function types, interfaces, ...). */
  datatype Expr =
    | Ident(name: string)
    | Star(x: Expr)
    | ArrayT(elt: Expr)
    | MapT(key: Expr, value: Expr)
    | Selector(qualifier: string, sel: string)
    | Other

  /** A field of a parameter, result or receiver list: its names (possibly
      none) and its type. */
  datatype Field = Field(names: seq<string>, typ: Expr)

  /** A function declaration. `recv` is the receiver field when there is a
      receiver list; `results` is `None` when the result list is nil, which
      is the case for a function with no results. Doc comments are the
      lines of the attached comment group, if any. */
  datatype FuncDecl = FuncDecl(
    name: string,
    doc: Option<seq<string>>,
    recv: Option<Field>,
    params: seq<Field>,
    results: Option<seq<Field>>)

  /** An import: its optional local name and its path literal, quotes
      included. */
  datatype ImportSpec = ImportSpec(name: Option<string>, path: string)

  /** A spec inside a general declaration. */
  datatype Spec = TypeSpec(name: string) | ValueSpec | ImportSpecDecl

  /** A top-level declaration. */
  datatype Decl =
    | FuncD(fn: FuncDecl)
    | GenDecl(doc: Option<seq<string>>, specs: seq<Spec>)
    | BadDecl

  /** The kind of a file-scope object. */
  datatype ObjKind = BadObj | PkgObj | ConObj | TypObj | VarObj | FunObj | LblObj

  /** A file-scope object; `specName` is the name of its type spec when it
      is a type. */
  datatype Object = Object(kind: ObjKind, specName: string)

  /** A source file: its imports, its declarations and, when resolved, the
      objects of its scope (in the order the scope is iterated). */
  datatype File = File(imports: seq<ImportSpec>, decls: seq<Decl>, scope: Option<seq<Object>>)

  /** Go identifiers never contain a dot. */
  predicate IsIdentName(n: string) {
    '.' !in n
  }
}

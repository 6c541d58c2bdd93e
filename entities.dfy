/** The entity model of pkg/parser: packages, types and variables, with
    their names, the predicates the generators rely on, and the variable
    kind bit flags. The SHA-256 hex digest used for aliases
    (pkg/crypto/hash.go) is not modelled: every operation that needs it
    takes the digest function as a parameter `hash`. */
module Entities {
  import opened Text
  import opened Flag

  /** A hex-encoded SHA-256 digest: 64 characters. */
  type Digest = s: string | |s| == 64
    witness "0000000000000000000000000000000000000000000000000000000000000000"

  /** The digest function, kept abstract. */
  type Hasher = string -> Digest

  /** `crypto.Prefix(s, n)`: the first `n` characters of the digest of `s`. */
  function Prefix(hash: Hasher, s: string, n: nat): (r: string)
    requires n <= 64
    ensures |r| == n
  {
    hash(s)[..n]
  }

  /** `aliasSuffixSize`: digest characters appended to aliases. */
  const AliasSuffixSize: nat := 4

  const ContextTypeName: string := "context.Context"
  const ErrorTypeName: string := "error"

  /** The names of Go's universe scope (`types.Universe`): predeclared
      types, constants, the zero value and builtin functions. */
  const Universe: set<string> := {
    "bool", "byte", "complex64", "complex128", "error", "float32", "float64",
    "int", "int8", "int16", "int32", "int64", "rune", "string",
    "uint", "uint8", "uint16", "uint32", "uint64", "uintptr", "any", "comparable",
    "true", "false", "iota", "nil",
    "append", "cap", "clear", "close", "complex", "copy", "delete", "imag", "len",
    "make", "max", "min", "new", "panic", "print", "println", "real", "recover"
  }

  /** `IsBuiltin(typeName)`: the name is declared in the universe scope. */
  predicate IsBuiltin(name: string) {
    name in Universe
  }

  /** A package, identified by its import path. */
  class Package {
    const name: string
    const path: string
    var alias: string
    var aliased: bool

    /** The alias every call of `Alias` yields. */
    function AliasValue(hash: Hasher): string {
      name + "_" + Prefix(hash, path, AliasSuffixSize)
    }

    /** The cached alias, once computed, is the alias of this package. */
    ghost predicate Valid(hash: Hasher)
      reads this
    {
      aliased ==> alias == AliasValue(hash)
    }

    /** `newPackage(path)`: the short name is the text after the last `/`. */
    constructor (path: string)
      ensures this.path == path
      ensures name == AfterLastSlash(path)
      ensures !aliased && alias == ""
    {
      this.path := path;
      name := AfterLastSlash(path);
      alias := "";
      aliased := false;
    }

    /** `Alias`: `<name>_<first 4 digest characters of the path>`, computed
        on the first call and returned from the cache afterwards. */
    method Alias(hash: Hasher) returns (a: string)
      requires Valid(hash)
      modifies this
      ensures Valid(hash) && aliased
      ensures a == alias == AliasValue(hash)
      ensures old(aliased) ==> alias == old(alias)
    {
      if !aliased {
        alias := name + "_" + Prefix(hash, path, AliasSuffixSize);
        aliased := true;
      }
      a := alias;
    }
  }

  /** `fullyQualifiedName(pkg, name)`: the name alone without a package,
      otherwise `<path>.<name>`. */
  function FullyQualifiedName(pkg: Package?, name: string): (r: string)
    ensures pkg == null ==> r == name
    ensures pkg != null ==> |r| == |pkg.path| + 1 + |name| && r[|pkg.path|] == '.'
  {
    if pkg == null then name else pkg.path + "." + name
  }

  /** A named type, qualified by its package unless it is a builtin. */
  class Type {
    const pkg: Package?
    const name: string
    var alias: string
    var aliased: bool

    /** `String()`. */
    function String(): string {
      FullyQualifiedName(pkg, name)
    }

    /** `IsBuiltin()`: the type has no package. */
    predicate IsBuiltin() {
      pkg == null
    }

    /** `IsError()`: the type's string is `error`. */
    predicate IsError() {
      String() == ErrorTypeName
    }

    /** `IsContext()`: the type's string is `context.Context`. */
    predicate IsContext() {
      String() == ContextTypeName
    }

    /** The alias every call of `Alias` yields: empty for a package-less
        type, otherwise `<lower-cased name>_<first 4 digest characters of
        the type's string>`. */
    function AliasValue(hash: Hasher): string {
      if pkg == null then ""
      else ToLowerAscii(name) + "_" + Prefix(hash, String(), AliasSuffixSize)
    }

    ghost predicate Valid(hash: Hasher)
      reads this
    {
      (aliased ==> alias == AliasValue(hash)) && (!aliased ==> alias == "")
    }

    /** `newType(pkg, ident)`. */
    constructor (pkg: Package?, name: string)
      ensures this.pkg == pkg && this.name == name
      ensures !aliased && alias == ""
    {
      this.pkg := pkg;
      this.name := name;
      alias := "";
      aliased := false;
    }

    /** `Alias`: computed on the first call, cached afterwards. */
    method Alias(hash: Hasher) returns (a: string)
      requires Valid(hash)
      modifies this
      ensures Valid(hash) && aliased
      ensures a == alias == AliasValue(hash)
      ensures pkg == null ==> a == ""
      ensures old(aliased) ==> alias == old(alias)
    {
      if !aliased {
        if pkg != null {
          alias := ToLowerAscii(name) + "_" + Prefix(hash, String(), AliasSuffixSize);
        }
        aliased := true;
      }
      a := alias;
    }

    /** `Declaration`: the bare name for a package-less type, otherwise the
        package alias, a dot and the name. */
    method Declaration(hash: Hasher) returns (d: string)
      requires pkg != null ==> pkg.Valid(hash)
      modifies pkg
      ensures pkg != null ==> pkg.Valid(hash)
      ensures pkg == null ==> d == name
      ensures pkg != null ==> d == pkg.AliasValue(hash) + "." + name
    {
      if pkg == null {
        return name;
      }
      var a := pkg.Alias(hash);
      d := a + "." + name;
    }
  }

  /** `IsError` holds exactly for the package-less type named `error`: a
      qualified type's string always holds a dot, which `error` does not. */
  lemma IsErrorIff(t: Type)
    ensures t.IsError() <==> t.pkg == null && t.name == "error"
  {
  }

  /** `IsContext` holds exactly for the type `Context` of the package whose
      path is `context`, or for a package-less type literally named
      `context.Context`. */
  lemma IsContextIff(t: Type)
    ensures t.IsContext() <==>
      || (t.pkg != null && t.pkg.path == "context" && t.name == "Context")
      || (t.pkg == null && t.name == ContextTypeName)
  {
    if t.pkg != null {
      var p := t.pkg.path;
      if t.IsContext() {
        var s := t.String();
        assert s == p + "." + t.name;
        assert s[|p|] == '.';
        assert p == s[..7] == "context";
        assert t.name == s[8..] == "Context";
      }
    }
  }

  /** `VarKind` bit flags. */
  const VarKindUnknown: bv8 := 0
  const VarKindIdent: bv8 := 1
  const VarKindBuiltin: bv8 := 2
  const VarKindPointer: bv8 := 4
  const VarKindSlice: bv8 := 8
  const VarKindSliceOfPointer: bv8 := 16
  const VarKindMap: bv8 := 32

  /** The six kinds other than Unknown. */
  const Kinds: seq<bv8> := [VarKindIdent, VarKindBuiltin, VarKindPointer, VarKindSlice, VarKindSliceOfPointer, VarKindMap]

  /** Each kind is a single bit of its own: `1 << iota`. */
  lemma KindsAreDistinctBits()
    ensures forall i :: 0 <= i < |Kinds| ==> Kinds[i] == (1 as bv8) << i
    ensures forall i, j :: 0 <= i < |Kinds| && 0 <= j < |Kinds| && i != j ==> Kinds[i] & Kinds[j] == 0
  {
    forall i | 0 <= i < |Kinds| ensures Kinds[i] == (1 as bv8) << i {
      if i == 0 {} else if i == 1 {} else if i == 2 {} else if i == 3 {} else if i == 4 {} else {}
    }
  }

  /** A variable, parameter, result or receiver: its name, its kind bits
      and its underlying type (null when the type expression is not one
      the walker understands). */
  datatype Var = Var(name: string, kind: bv8, underlying: Type?) {
    /** `IsPointer`: the Pointer bit is set. */
    predicate IsPointer() {
      IsSet(kind, VarKindPointer)
    }
  }

  /** `IsPointer` tests exactly the Pointer bit. */
  lemma IsPointerIff(v: Var)
    ensures v.IsPointer() <==> v.kind & 4 != 0
    ensures !Var(v.name, v.kind & !VarKindPointer, v.underlying).IsPointer()
  {
  }
}

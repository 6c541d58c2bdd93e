/** The type-shape walker shared by `FileResult.parseType`
    (pkg/parser/result.go) and `scopedTypeResolver.parseType`
    (pkg/parser/resolver.go), as a specification: it descends through `*`,
    `[]` and `map` to the identifier that names the underlying type, OR-ing
    in one kind bit per step. The two walkers differ only in the bits a
    qualified identifier `x.Sel` adds: none in result.go, `VarKindIdent` in
    resolver.go; that difference is the `selectorBits` parameter. */
module Shapes {
  import opened Results
  import opened Flag
  import opened Entities
  import opened Syntax

  /** Where the walk ends: the identifier naming the underlying type, the
      package in effect for it (before a builtin name drops it) and the kind
      bits accumulated on the way down. */
  datatype Leaf = Leaf(pkg: Package?, name: string, kind: bv8)

  /** The walk over `e`, starting with the package `pkg`, the import map
      `imports` and the bits `kind`; `None` for an expression the walker does
      not understand. */
  function Walk(e: Expr, pkg: Package?, imports: map<string, Package>, kind: bv8, selectorBits: bv8): Option<Leaf> {
    match e
    case Ident(n) => Some(Leaf(pkg, n, kind))
    case Star(x) =>
      Walk(x, pkg, imports, if IsSet(kind, VarKindSlice) then kind | VarKindSliceOfPointer else kind | VarKindPointer, selectorBits)
    case ArrayT(elt) => Walk(elt, pkg, imports, kind | VarKindSlice, selectorBits)
    case MapT(_, value) => Walk(value, pkg, imports, kind | VarKindMap, selectorBits)
    case Selector(x, sel) => Some(Leaf(if x in imports then imports[x] else null, sel, kind | selectorBits))
    case Other => None
  }

  /** The package the leaf's type is registered under: none for a name of
      the universe scope. */
  function LeafPackage(l: Leaf): Package? {
    if IsBuiltin(l.name) then null else l.pkg
  }

  /** The final kind bits, once the leaf identifier resolved to a type that
      has a package (`Ident`) or not (`Builtin`). */
  function FinalKind(leafKind: bv8, builtin: bool): bv8 {
    leafKind | (if builtin then VarKindBuiltin else VarKindIdent)
  }

  /** Reference definition of the Pointer bit: a `*` reached before any
      `[]` (a `*` under a `[]` is a slice of pointers instead). */
  predicate DirectPointer(e: Expr, sliced: bool) {
    match e
    case Star(x) => !sliced || DirectPointer(x, sliced)
    case ArrayT(elt) => DirectPointer(elt, true)
    case MapT(_, value) => DirectPointer(value, sliced)
    case _ => false
  }

  /** Reference definition of the SliceOfPointer bit: a `*` reached after
      some `[]`. */
  predicate PointerUnderSlice(e: Expr, sliced: bool) {
    match e
    case Star(x) => sliced || PointerUnderSlice(x, sliced)
    case ArrayT(elt) => PointerUnderSlice(elt, true)
    case MapT(_, value) => PointerUnderSlice(value, sliced)
    case _ => false
  }

  /** Reference definition of the Slice and Map bits: a `[]`, resp. a
      `map`, on the way to the leaf. */
  predicate HasArray(e: Expr) {
    match e
    case Star(x) => HasArray(x)
    case ArrayT(_) => true
    case MapT(_, value) => HasArray(value)
    case _ => false
  }

  predicate HasMap(e: Expr) {
    match e
    case Star(x) => HasMap(x)
    case ArrayT(elt) => HasMap(elt)
    case MapT(_, _) => true
    case _ => false
  }

  /** `r` holds every bit of `k`. */
  predicate Includes(r: bv8, k: bv8) {
    r & k == k
  }

  /** The walk never clears a bit: the bits it starts with are in the
      result. */
  lemma {:induction false} WalkKeepsBits(e: Expr, pkg: Package?, imports: map<string, Package>, kind: bv8, sb: bv8)
    requires Walk(e, pkg, imports, kind, sb).Some?
    ensures Includes(Walk(e, pkg, imports, kind, sb).value.kind, kind)
    decreases e, 1
  {
    if e.Star? || e.ArrayT? || e.MapT? {
      KeepsBitsStep(e, pkg, imports, kind, sb);
    } else {
      KeepsBitsLeaf(e, pkg, imports, kind, sb);
    }
  }

  /** A walk that stops at once keeps the bits it starts with. */
  lemma KeepsBitsLeaf(e: Expr, pkg: Package?, imports: map<string, Package>, kind: bv8, sb: bv8)
    requires e.Ident? || e.Selector?
    ensures Includes(Walk(e, pkg, imports, kind, sb).value.kind, kind)
  {
    if e.Ident? {
      IncludesSelf(kind);
    } else {
      IncludesSelf(kind | sb);
      BitsOfOrPart(kind | sb, kind, sb);
    }
  }

  /** Every value holds its own bits. */
  lemma IncludesSelf(k: bv8)
    ensures Includes(k, k)
  {
  }

  /** The bit a qualifier step ORs in. */
  function StepBit(e: Expr, kind: bv8): bv8
    requires e.Star? || e.ArrayT? || e.MapT?
  {
    if e.ArrayT? then VarKindSlice
    else if e.MapT? then VarKindMap
    else if IsSet(kind, VarKindSlice) then VarKindSliceOfPointer else VarKindPointer
  }

  /** The operand a qualifier step descends into. */
  function StepInner(e: Expr): (r: Expr)
    requires e.Star? || e.ArrayT? || e.MapT?
    ensures r < e
  {
    if e.ArrayT? then e.elt else if e.MapT? then e.value else e.x
  }

  /** One qualifier step is a walk of its operand with the step's bit OR-ed in. */
  lemma WalkStep(e: Expr, pkg: Package?, imports: map<string, Package>, kind: bv8, sb: bv8)
    requires e.Star? || e.ArrayT? || e.MapT?
    ensures Walk(e, pkg, imports, kind, sb) == Walk(StepInner(e), pkg, imports, kind | StepBit(e, kind), sb)
  {
  }

  lemma {:induction false} KeepsBitsStep(e: Expr, pkg: Package?, imports: map<string, Package>, kind: bv8, sb: bv8)
    requires e.Star? || e.ArrayT? || e.MapT?
    requires Walk(e, pkg, imports, kind, sb).Some?
    ensures Includes(Walk(e, pkg, imports, kind, sb).value.kind, kind)
    decreases e, 0
  {
    var bit := StepBit(e, kind);
    WalkStep(e, pkg, imports, kind, sb);
    WalkKeepsBits(StepInner(e), pkg, imports, kind | bit, sb);
    BitsOfOrPart(Walk(e, pkg, imports, kind, sb).value.kind, kind, bit);
  }

  /** The four qualifier bits of `k`. */
  predicate QualifierBits(k: bv8, slice: bool, map_: bool, pointer: bool, sliceOfPointer: bool) {
    && (IsSet(k, VarKindSlice) <==> slice)
    && (IsSet(k, VarKindMap) <==> map_)
    && (IsSet(k, VarKindPointer) <==> pointer)
    && (IsSet(k, VarKindSliceOfPointer) <==> sliceOfPointer)
  }

  /** OR-ing in bits that hold no qualifier bit changes no qualifier bit. */
  lemma OrOtherBits(k: bv8, x: bv8)
    requires !IsSet(x, VarKindSlice) && !IsSet(x, VarKindMap)
    requires !IsSet(x, VarKindPointer) && !IsSet(x, VarKindSliceOfPointer)
    ensures QualifierBits(k | x, IsSet(k, VarKindSlice), IsSet(k, VarKindMap),
      IsSet(k, VarKindPointer), IsSet(k, VarKindSliceOfPointer))
  {
    IsSetOr(k, x, VarKindSlice);
    IsSetOr(k, x, VarKindMap);
    IsSetOr(k, x, VarKindPointer);
    IsSetOr(k, x, VarKindSliceOfPointer);
  }

  /** OR-ing in one qualifier bit sets that bit and no other qualifier bit. */
  lemma OrQualifier(k: bv8, bit: bv8)
    requires bit == VarKindSlice || bit == VarKindMap || bit == VarKindPointer || bit == VarKindSliceOfPointer
    ensures QualifierBits(k | bit,
      IsSet(k, VarKindSlice) || bit == VarKindSlice,
      IsSet(k, VarKindMap) || bit == VarKindMap,
      IsSet(k, VarKindPointer) || bit == VarKindPointer,
      IsSet(k, VarKindSliceOfPointer) || bit == VarKindSliceOfPointer)
  {
    IsSetOr(k, bit, VarKindSlice);
    IsSetOr(k, bit, VarKindMap);
    IsSetOr(k, bit, VarKindPointer);
    IsSetOr(k, bit, VarKindSliceOfPointer);
  }

  /** The shape facts the four qualifier bits record. */
  predicate ShapeBits(e: Expr, kind: bv8, k: bv8) {
    QualifierBits(k,
      IsSet(kind, VarKindSlice) || HasArray(e),
      IsSet(kind, VarKindMap) || HasMap(e),
      IsSet(kind, VarKindPointer) || DirectPointer(e, IsSet(kind, VarKindSlice)),
      IsSet(kind, VarKindSliceOfPointer) || PointerUnderSlice(e, IsSet(kind, VarKindSlice)))
  }

  /** Each qualifier bit is set exactly when the expression has the
      matching shape or the bit was already set; the selector bits carry no
      qualifier bit. In particular the Pointer bit is set exactly for a
      pointer not under a slice. */
  lemma {:induction false} WalkBits(e: Expr, pkg: Package?, imports: map<string, Package>, kind: bv8, sb: bv8)
    requires !IsSet(sb, VarKindSlice) && !IsSet(sb, VarKindMap)
    requires !IsSet(sb, VarKindPointer) && !IsSet(sb, VarKindSliceOfPointer)
    requires Walk(e, pkg, imports, kind, sb).Some?
    ensures ShapeBits(e, kind, Walk(e, pkg, imports, kind, sb).value.kind)
    decreases e, 1
  {
    if e.Star? || e.ArrayT? || e.MapT? {
      WalkBitsStep(e, pkg, imports, kind, sb);
    } else if e.Selector? {
      OrOtherBits(kind, sb);
    }
  }

  lemma {:induction false} WalkBitsStep(e: Expr, pkg: Package?, imports: map<string, Package>, kind: bv8, sb: bv8)
    requires !IsSet(sb, VarKindSlice) && !IsSet(sb, VarKindMap)
    requires !IsSet(sb, VarKindPointer) && !IsSet(sb, VarKindSliceOfPointer)
    requires e.Star? || e.ArrayT? || e.MapT?
    requires Walk(e, pkg, imports, kind, sb).Some?
    ensures ShapeBits(e, kind, Walk(e, pkg, imports, kind, sb).value.kind)
    decreases e, 0
  {
    WalkStep(e, pkg, imports, kind, sb);
    WalkBits(StepInner(e), pkg, imports, kind | StepBit(e, kind), sb);
    ShapeBitsStep(e, kind, Walk(e, pkg, imports, kind, sb).value.kind);
  }

  /** The shape facts of a qualifier step follow from those of its
      operand, once the step's bit is OR-ed in. */
  lemma ShapeBitsStep(e: Expr, kind: bv8, k: bv8)
    requires e.Star? || e.ArrayT? || e.MapT?
    requires ShapeBits(StepInner(e), kind | StepBit(e, kind), k)
    ensures ShapeBits(e, kind, k)
  {
    var sliced := IsSet(kind, VarKindSlice);
    if e.Star? {
      var bit := if sliced then VarKindSliceOfPointer else VarKindPointer;
      OrQualifier(kind, bit);
      assert DirectPointer(e, sliced) == (!sliced || DirectPointer(e.x, sliced));
      assert PointerUnderSlice(e, sliced) == (sliced || PointerUnderSlice(e.x, sliced));
    } else if e.ArrayT? {
      OrQualifier(kind, VarKindSlice);
    } else {
      OrQualifier(kind, VarKindMap);
    }
  }

  /** `[]*T`: Slice, SliceOfPointer and the leaf bit, never Pointer. */
  lemma SliceOfPointers(n: string, pkg: Package?, imports: map<string, Package>, sb: bv8, builtin: bool)
    ensures Walk(ArrayT(Star(Ident(n))), pkg, imports, VarKindUnknown, sb)
      == Some(Leaf(pkg, n, VarKindSlice | VarKindSliceOfPointer))
    ensures !builtin ==>
      (FinalKind(VarKindSlice | VarKindSliceOfPointer, builtin) == VarKindSlice | VarKindSliceOfPointer | VarKindIdent)
    ensures !IsSet(FinalKind(VarKindSlice | VarKindSliceOfPointer, builtin), VarKindPointer)
  {
    WalkStep(ArrayT(Star(Ident(n))), pkg, imports, VarKindUnknown, sb);
    WalkStep(Star(Ident(n)), pkg, imports, VarKindSlice, sb);
  }

  /** `*T` sets the Pointer bit; `map[K]*V` too, the key being ignored. */
  lemma PointerShapes(n: string, key: Expr, pkg: Package?, imports: map<string, Package>, sb: bv8)
    ensures Walk(Star(Ident(n)), pkg, imports, VarKindUnknown, sb) == Some(Leaf(pkg, n, VarKindPointer))
    ensures Walk(MapT(key, Star(Ident(n))), pkg, imports, VarKindUnknown, sb)
      == Some(Leaf(pkg, n, VarKindMap | VarKindPointer))
  {
    WalkStep(Star(Ident(n)), pkg, imports, VarKindUnknown, sb);
    WalkStep(MapT(key, Star(Ident(n))), pkg, imports, VarKindUnknown, sb);
    WalkStep(Star(Ident(n)), pkg, imports, VarKindMap, sb);
  }

  /** A qualifier that is not an imported name leaves the leaf without a
      package, so the type counts as builtin; an expression of another kind
      gives nothing. */
  lemma UnknownQualifierAndOther(x: string, sel: string, pkg: Package?, imports: map<string, Package>, kind: bv8, sb: bv8)
    requires x !in imports
    ensures Walk(Selector(x, sel), pkg, imports, kind, sb) == Some(Leaf(null, sel, kind | sb))
    ensures LeafPackage(Walk(Selector(x, sel), pkg, imports, kind, sb).value) == null
    ensures Walk(Other, pkg, imports, kind, sb).None?
  {
  }

  /** The two walkers disagree on a qualified name: for `alias.Name`,
      result.go adds only the leaf bit, resolver.go also adds Ident, so a
      qualified builtin-flagged type carries Ident there. */
  lemma SelectorBitsDiffer(x: string, sel: string, pkg: Package?, imports: map<string, Package>)
    ensures FinalKind(Walk(Selector(x, sel), pkg, imports, 0, 0).value.kind, true) == VarKindBuiltin
    ensures FinalKind(Walk(Selector(x, sel), pkg, imports, 0, VarKindIdent).value.kind, true)
      == VarKindIdent | VarKindBuiltin
    ensures forall b :: FinalKind(Walk(Selector(x, sel), pkg, imports, 0, VarKindIdent).value.kind, b) & VarKindIdent != 0
  {
  }
}

/** pkg/generator/context.go: the helpers templates call to name things in
    generated code. `Identifier(prefix, key)` yields a name unique to `key`,
    fixed by the first call for that key; `Declaration` qualifies a type or
    function of another package with its package's identifier. The output
    directory and the emission of files are not modelled. */
module GeneratorContext {
  import opened Text
  import opened Entities
  import opened Collection

  /** `identifierPrefixLength`: digest characters in an identifier. */
  const IdentifierPrefixLength: nat := 6

  /** The identifier made for a new key: the prefix with every `-` turned
      into `_`, an `_`, and the first six digest characters of the key. */
  function NewIdentifier(hash: Hasher, prefix: string, key: string): (id: string)
    ensures |id| == |prefix| + 1 + IdentifierPrefixLength
    ensures forall i :: 0 <= i < |prefix| ==> id[i] != '-' && (prefix[i] != '-' ==> id[i] == prefix[i])
    ensures id[|prefix|] == '_'
    ensures id[|prefix| + 1..] == hash(key)[..IdentifierPrefixLength]
  {
    ReplaceChar(prefix, '-', '_') + "_" + Prefix(hash, key, IdentifierPrefixLength)
  }

  /** What `Identifier(prefix, key)` returns given the identifiers made so
      far: the stored one for a known key, a new one otherwise. */
  function IdentifierIn(s: Store<string>, hash: Hasher, prefix: string, key: string): string
    requires s.Valid()
  {
    if key in s.indexes then s.Get(key) else NewIdentifier(hash, prefix, key)
  }

  /** What `Declaration` returns given the identifiers made so far. */
  function DeclarationIn(s: Store<string>, hash: Hasher, pkg: Package?, name: string): string
    requires s.Valid()
    reads pkg
  {
    if pkg == null then name else IdentifierIn(s, hash, pkg.name, pkg.path) + "." + name
  }

  /** `id` ends with the digest prefix `d` of some key. */
  predicate EndsWithDigest(id: string, d: string) {
    |id| >= 1 + IdentifierPrefixLength && |d| >= IdentifierPrefixLength &&
    id[|id| - IdentifierPrefixLength..] == d[..IdentifierPrefixLength]
  }

  /** Every stored identifier ends with the digest prefix of its own key. */
  ghost predicate Consistent(s: Store<string>, hash: Hasher) {
    && s.Valid()
    && forall k :: k in s.indexes ==> EndsWithDigest(s.Get(k), hash(k))
  }

  /** The generation context: the digest function and the identifiers made
      so far. */
  class Context {
    const hash: Hasher
    const identifiers: Set<string>

    ghost predicate Valid()
      reads this, identifiers
    {
      identifiers.Valid() && Consistent(identifiers.Model(), hash)
    }

    /** `newContext`: no identifier yet. */
    constructor (hash: Hasher)
      ensures Valid() && fresh(identifiers) && identifiers.Model() == Empty()
      ensures this.hash == hash
    {
      this.hash := hash;
      identifiers := new Set<string>();
    }

    /** `Identifier(prefix, key)`: the identifier stored for `key`, made and
        stored on the first call for it. */
    method Identifier(prefix: string, key: string) returns (id: string)
      requires Valid()
      modifies identifiers
      ensures Valid()
      ensures id == IdentifierIn(old(identifiers.Model()), hash, prefix, key)
      ensures identifiers.Model() == old(identifiers.Model()).Put(key, id)
    {
      ghost var before := identifiers.Model();
      var supplier := () => NewIdentifier(hash, prefix, key);
      ghost var invoked: bool;
      id, invoked := identifiers.SetLazy(key, supplier);
      PutSpec(before, key, id);
      IdentifierConsistent(before, hash, prefix, key);
    }

    /** `Declaration(decl)`: the bare name for a declaration without a
        package, otherwise the package's identifier (keyed by its path,
        prefixed by its name), a dot and the name. */
    method Declaration(pkg: Package?, name: string) returns (d: string)
      requires Valid()
      modifies identifiers
      ensures Valid()
      ensures d == DeclarationIn(old(identifiers.Model()), hash, pkg, name)
      ensures pkg == null ==> identifiers.Model() == old(identifiers.Model())
      ensures pkg != null ==>
        identifiers.Model() == old(identifiers.Model()).Put(pkg.path, IdentifierIn(old(identifiers.Model()), hash, pkg.name, pkg.path))
    {
      if pkg == null {
        return name;
      }
      var id := Identifier(pkg.name, pkg.path);
      d := id + "." + name;
    }
  }

  /** Identifiers are memoised per key: once a key has one, a later call
      returns it whatever the prefix, and stores nothing new. */
  lemma IdentifierMemoised(s: Store<string>, hash: Hasher, first: string, later: string, key: string)
    requires s.Valid()
    ensures s.Put(key, IdentifierIn(s, hash, first, key)).Valid()
    ensures IdentifierIn(s.Put(key, IdentifierIn(s, hash, first, key)), hash, later, key) == IdentifierIn(s, hash, first, key)
    ensures var s' := s.Put(key, IdentifierIn(s, hash, first, key)); s'.Put(key, IdentifierIn(s', hash, later, key)) == s'
  {
    PutSpec(s, key, IdentifierIn(s, hash, first, key));
  }

  /** Storing an identifier made by `Identifier` keeps every stored
      identifier ending with its key's digest prefix. */
  lemma IdentifierConsistent(s: Store<string>, hash: Hasher, prefix: string, key: string)
    requires Consistent(s, hash)
    ensures Consistent(s.Put(key, IdentifierIn(s, hash, prefix, key)), hash)
  {
    var id := IdentifierIn(s, hash, prefix, key);
    var s' := s.Put(key, id);
    PutSpec(s, key, id);
    forall k | k in s'.indexes
      ensures EndsWithDigest(s'.Get(k), hash(k))
    {
      if k in s.indexes {
        assert s'.Get(k) == s.Get(k);
      } else {
        assert k == key && s'.Get(k) == id;
        NewIdentifierSuffix(hash, prefix, key);
      }
    }
  }

  /** A new identifier ends with the digest prefix of its key. */
  lemma NewIdentifierSuffix(hash: Hasher, prefix: string, key: string)
    ensures EndsWithDigest(NewIdentifier(hash, prefix, key), hash(key))
  {
    var id := NewIdentifier(hash, prefix, key);
    assert id[|id| - IdentifierPrefixLength..] == id[|prefix| + 1..];
  }

  /** Two declarations of one package share one qualifier: the first fixes
      the package's identifier and the second reuses it, whatever the
      names. */
  lemma SharedQualifier(s: Store<string>, hash: Hasher, pkg: Package, first: string, second: string)
    requires s.Valid()
    ensures s.Put(pkg.path, IdentifierIn(s, hash, pkg.name, pkg.path)).Valid()
    ensures var q := IdentifierIn(s, hash, pkg.name, pkg.path);
      && DeclarationIn(s, hash, pkg, first) == q + "." + first
      && DeclarationIn(s.Put(pkg.path, q), hash, pkg, second) == q + "." + second
  {
    IdentifierMemoised(s, hash, pkg.name, pkg.name, pkg.path);
  }
}

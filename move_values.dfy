/**
 * Address remapping inside Move modules: rewriting the address leaves of a
 * constant value (`module_remap_constant_addresses`), building the mapping
 * from two address vectors, and rewriting a compiled module's address table
 * and constant pool in place (`module_remap_addresses`).
 *
 * A compiled module is reduced to what remapping touches: its self-address
 * index and name, its address-identifier table and its constant pool.
 * Constant (de)serialization is foreign and is a `ConstantCodec` value.
 */
module MoveValues {
  import opened Wrappers

  const ADDRESS_LIMIT: nat := 0x1_0000_0000_0000_0000_0000_0000_0000_0000_0000_0000_0000_0000_0000_0000_0000_0000

  /** A 32-byte account address, as a number. */
  type AccountAddress = a: nat | a < ADDRESS_LIMIT

  type Bytes = seq<bv8>

  /** Module names travel as their UTF-8 bytes. */
  type Identifier = Bytes

  /** The VM status of a `PartialVMError`. */
  datatype StatusCode =
    | ValueDeserializationError
    | ValueSerializationError
    | CyclicModuleDependency
    | TypeResolutionFailure
    | Foreign(code: nat)          // raised by VM code outside this model

  /** A Move constant value: address leaves, vectors, and every other variant. */
  datatype MoveValue =
    | Address(addr: AccountAddress)
    | Vector(elems: seq<MoveValue>)
    | Other(fields: seq<MoveValue>)   // scalars (no fields), signers and structs; never looked into

  type AddressMapping = map<AccountAddress, AccountAddress>

  /** One lookup in the mapping; an address that is not a key stays as it is. */
  function RemapAddress(a: AccountAddress, mapping: AddressMapping): AccountAddress
  {
    if a in mapping then mapping[a] else a
  }

  function MapAddresses(s: seq<AccountAddress>, mapping: AddressMapping): (r: seq<AccountAddress>)
    ensures |r| == |s| && forall i :: 0 <= i < |s| ==> r[i] == RemapAddress(s[i], mapping)
  {
    seq(|s|, i requires 0 <= i < |s| => RemapAddress(s[i], mapping))
  }

  /** `module_remap_constant_addresses` with the closure that looks an address up in `mapping`. */
  function RemapValue(v: MoveValue, mapping: AddressMapping): MoveValue
  {
    match v
    case Address(a) => Address(RemapAddress(a, mapping))
    case Vector(vals) => Vector(seq(|vals|, i requires 0 <= i < |vals| => RemapValue(vals[i], mapping)))
    case Other(_) => v
  }

  /** Same variants and vector lengths all the way down, and equal `Other` parts; address leaves may differ. */
  predicate SameShape(v: MoveValue, w: MoveValue)
  {
    match v
    case Address(_) => w.Address?
    case Vector(vals) => w.Vector? && |w.elems| == |vals| && forall i :: 0 <= i < |vals| ==> SameShape(vals[i], w.elems[i])
    case Other(_) => w == v
  }

  function Flatten(xs: seq<seq<AccountAddress>>): seq<AccountAddress>
  {
    if xs == [] then [] else xs[0] + Flatten(xs[1..])
  }

  /** The address leaves reachable through vectors, left to right. */
  function Addresses(v: MoveValue): seq<AccountAddress>
  {
    match v
    case Address(a) => [a]
    case Vector(vals) => Flatten(seq(|vals|, i requires 0 <= i < |vals| => Addresses(vals[i])))
    case Other(_) => []
  }

  lemma {:induction false} FlattenMap(xs: seq<seq<AccountAddress>>, ys: seq<seq<AccountAddress>>, mapping: AddressMapping)
    requires |xs| == |ys| && forall i :: 0 <= i < |xs| ==> ys[i] == MapAddresses(xs[i], mapping)
    ensures Flatten(ys) == MapAddresses(Flatten(xs), mapping)
  {
    if xs != [] {
      FlattenMap(xs[1..], ys[1..], mapping);
    }
  }

  lemma {:induction false} FlattenMember(xs: seq<seq<AccountAddress>>, i: nat, a: AccountAddress)
    requires i < |xs| && a in xs[i]
    ensures a in Flatten(xs)
  {
    if i > 0 {
      FlattenMember(xs[1..], i - 1, a);
    }
  }

  /**
   * Remapping keeps the value's shape (variants, vector lengths, `Other` parts)
   * and replaces its address leaves, in order, by their single lookups.
   */
  lemma {:induction false} RemapValueSpec(v: MoveValue, mapping: AddressMapping)
    ensures SameShape(v, RemapValue(v, mapping))
    ensures Addresses(RemapValue(v, mapping)) == MapAddresses(Addresses(v), mapping)
  {
    match v
    case Address(a) =>
    case Vector(vals) =>
      var r := RemapValue(v, mapping);
      forall i | 0 <= i < |vals|
        ensures SameShape(vals[i], r.elems[i])
        ensures Addresses(r.elems[i]) == MapAddresses(Addresses(vals[i]), mapping)
      {
        RemapValueSpec(vals[i], mapping);
      }
      FlattenMap(seq(|vals|, i requires 0 <= i < |vals| => Addresses(vals[i])),
                 seq(|vals|, i requires 0 <= i < |vals| => Addresses(r.elems[i])), mapping);
    case Other(_) =>
  }

  /** A value none of whose reachable addresses is a key is left unchanged. */
  lemma {:induction false} RemapUnmapped(v: MoveValue, mapping: AddressMapping)
    requires forall a :: a in Addresses(v) ==> a !in mapping
    ensures RemapValue(v, mapping) == v
  {
    match v
    case Address(a) =>
    case Vector(vals) =>
      var xs := seq(|vals|, i requires 0 <= i < |vals| => Addresses(vals[i]));
      forall i | 0 <= i < |vals| ensures RemapValue(vals[i], mapping) == vals[i] {
        forall a | a in Addresses(vals[i]) ensures a !in mapping {
          FlattenMember(xs, i, a);
        }
        RemapUnmapped(vals[i], mapping);
      }
      assert RemapValue(v, mapping).elems == vals;
    case Other(_) =>
  }

  /** With no chains (no target is itself a key) remapping twice is remapping once. */
  lemma {:induction false} RemapIdempotentWithoutChains(v: MoveValue, mapping: AddressMapping)
    requires forall a :: a in mapping ==> mapping[a] !in mapping
    ensures RemapValue(RemapValue(v, mapping), mapping) == RemapValue(v, mapping)
  {
    match v
    case Address(a) =>
    case Vector(vals) =>
      var once := RemapValue(v, mapping);
      forall i | 0 <= i < |vals| ensures RemapValue(once.elems[i], mapping) == once.elems[i] {
        RemapIdempotentWithoutChains(vals[i], mapping);
      }
      assert RemapValue(once, mapping).elems == once.elems;
    case Other(_) =>
  }

  /** Lookups are not chained: with `a -> b` and `b -> c`, `a` becomes `b`, not `c`. */
  lemma SingleLookup(a: AccountAddress, b: AccountAddress, c: AccountAddress)
    requires a != b
    ensures RemapValue(Address(a), map[a := b, b := c]) == Address(b)
  {
  }

  // ---------------------------------------------------------------------------
  // The mapping
  // ---------------------------------------------------------------------------

  /** `zip_eq(old, new).collect::<HashMap<_, _>>()`: later pairs overwrite earlier ones. */
  function ZipMapping(olds: seq<AccountAddress>, news: seq<AccountAddress>): AddressMapping
    requires |olds| == |news|
  {
    if olds == [] then map[]
    else ZipMapping(olds[..|olds| - 1], news[..|news| - 1])[olds[|olds| - 1] := news[|news| - 1]]
  }

  /** The keys are the old addresses; each maps to the new address paired with its last occurrence. */
  lemma {:induction false} ZipMappingLastWins(olds: seq<AccountAddress>, news: seq<AccountAddress>, a: AccountAddress)
    requires |olds| == |news|
    ensures a in ZipMapping(olds, news) <==> a in olds
    ensures a in olds ==>
      exists j :: (0 <= j < |olds| && olds[j] == a
        && ZipMapping(olds, news)[a] == news[j]
        && forall k :: j < k < |olds| ==> olds[k] != a)
  {
    if olds != [] {
      var n := |olds| - 1;
      ZipMappingLastWins(olds[..n], news[..n], a);
      assert forall k :: 0 <= k < n ==> olds[..n][k] == olds[k] && news[..n][k] == news[k];
      assert olds == olds[..n] + [olds[n]];
      if a in olds && a != olds[n] {
        var j :| 0 <= j < n && olds[..n][j] == a && ZipMapping(olds[..n], news[..n])[a] == news[..n][j]
          && forall k :: j < k < n ==> olds[..n][k] != a;
        assert ZipMapping(olds, news)[a] == news[j];
      }
    }
  }

  // ---------------------------------------------------------------------------
  // Compiled modules
  // ---------------------------------------------------------------------------

  /** The type of a constant; opaque here. */
  type SignatureToken(==)

  datatype Constant = Constant(signature: SignatureToken, data: Bytes)

  /** `Constant::deserialize_constant` and `MoveValue::simple_serialize`. */
  datatype ConstantCodec = ConstantCodec(
    deserialize: Constant -> Option<MoveValue>,
    serialize: MoveValue -> Option<Bytes>)

  /**
   * A compiled module: the parts address remapping reads or rewrites, and
   * `otherTables`, everything else (handles, signatures, code), kept opaque.
   */
  datatype ModuleData = ModuleData(
    selfAddressIndex: nat,
    name: Identifier,
    addressIdentifiers: seq<AccountAddress>,
    constantPool: seq<Constant>,
    otherTables: Bytes)

  /** A module as the bytecode deserializer yields it: its self handle points into its address table. */
  type CompiledModuleData = d: ModuleData | d.selfAddressIndex < |d.addressIdentifiers|
    witness ModuleData(0, [], [0], [], [])

  /** The module's own address. */
  function SelfAddress(d: CompiledModuleData): AccountAddress
  {
    d.addressIdentifiers[d.selfAddressIndex]
  }

  /** Remap the addresses of one constant and re-encode it; either step can fail. */
  function RemapConstant(c: Constant, mapping: AddressMapping, codec: ConstantCodec): Result<Constant, StatusCode>
  {
    match codec.deserialize(c)
    case None => Failure(ValueDeserializationError)
    case Some(value) =>
      match codec.serialize(RemapValue(value, mapping))
      case None => Failure(ValueSerializationError)
      case Some(bytes) => Success(Constant(c.signature, bytes))
  }

  /** The per-constant step of the remapping loop, as a function value for `CollectAll`. */
  function ConstantStep(mapping: AddressMapping, codec: ConstantCodec): Constant -> Result<Constant, StatusCode>
  {
    c => RemapConstant(c, mapping, codec)
  }

  /** The module `module_remap_addresses` is meant to produce. */
  function RemapModuleData(d: CompiledModuleData, mapping: AddressMapping, codec: ConstantCodec): Result<CompiledModuleData, StatusCode>
  {
    match CollectAll(d.constantPool, ConstantStep(mapping, codec))
    case Failure(e) => Failure(e)
    case Success(cs) => Success(d.(addressIdentifiers := MapAddresses(d.addressIdentifiers, mapping), constantPool := cs))
  }

  /**
   * Remapping rewrites only the address table and the constant pool: the self
   * handle, the name and every other table are kept, and so are the table sizes.
   */
  lemma RemapModuleDataKeeps(d: CompiledModuleData, mapping: AddressMapping, codec: ConstantCodec)
    requires RemapModuleData(d, mapping, codec).Success?
    ensures var after := RemapModuleData(d, mapping, codec).value;
      && after.selfAddressIndex == d.selfAddressIndex
      && after.name == d.name
      && after.otherTables == d.otherTables
      && |after.addressIdentifiers| == |d.addressIdentifiers|
      && |after.constantPool| == |d.constantPool|
      && SelfAddress(after) == RemapAddress(SelfAddress(d), mapping)
  {
    CollectAllSpec(d.constantPool, ConstantStep(mapping, codec));
  }

  /** `collect::<PartialVMResult<Vec<_>>>()`: every element converted in order, or the first error. */
  function CollectAll<A, B>(xs: seq<A>, f: A -> Result<B, StatusCode>): Result<seq<B>, StatusCode>
  {
    if xs == [] then Success([])
    else
      match f(xs[0])
      case Failure(e) => Failure(e)
      case Success(y) =>
        match CollectAll(xs[1..], f)
        case Failure(e) => Failure(e)
        case Success(rest) => Success([y] + rest)
  }

  /** Collecting succeeds when every conversion does, element by element; otherwise it fails with the first failure. */
  lemma {:induction false} CollectAllSpec<A, B>(xs: seq<A>, f: A -> Result<B, StatusCode>)
    ensures CollectAll(xs, f).Success? <==> forall k :: 0 <= k < |xs| ==> f(xs[k]).Success?
    ensures CollectAll(xs, f).Success? ==>
      |CollectAll(xs, f).value| == |xs| && forall k :: 0 <= k < |xs| ==> f(xs[k]) == Success(CollectAll(xs, f).value[k])
    ensures CollectAll(xs, f).Failure? ==>
      exists j :: 0 <= j < |xs| && f(xs[j]) == Failure(CollectAll(xs, f).error)
        && forall k :: 0 <= k < j ==> f(xs[k]).Success?
  {
    if xs != [] {
      CollectAllSpec(xs[1..], f);
      assert forall k :: 1 <= k < |xs| ==> xs[1..][k - 1] == xs[k];
      var r := CollectAll(xs, f);
      if f(xs[0]).Success? && CollectAll(xs[1..], f).Failure? {
        var j :| 0 <= j < |xs[1..]| && f(xs[1..][j]) == Failure(CollectAll(xs[1..], f).error)
          && forall k :: 0 <= k < j ==> f(xs[1..][k]).Success?;
        assert f(xs[j + 1]) == Failure(r.error);
      }
      if r.Success? {
        forall k | 0 <= k < |xs| ensures f(xs[k]) == Success(r.value[k]) {
          if k > 0 { assert r.value[k] == CollectAll(xs[1..], f).value[k - 1]; }
        }
      }
    }
  }

  /** If the element at `j` fails and all before it succeed, collecting fails with its error. */
  lemma CollectAllFirstFailure<A, B>(xs: seq<A>, f: A -> Result<B, StatusCode>, j: nat)
    requires j < |xs| && f(xs[j]).Failure? && forall k :: 0 <= k < j ==> f(xs[k]).Success?
    ensures CollectAll(xs, f) == Failure(f(xs[j]).error)
  {
    CollectAllSpec(xs, f);
    var i :| 0 <= i < |xs| && f(xs[i]) == Failure(CollectAll(xs, f).error)
      && forall k :: 0 <= k < i ==> f(xs[k]).Success?;
    assert i == j;
  }

  /** A compiled module whose address table and constant pool are updated in place. */
  class CompiledModule {
    const selfAddressIndex: nat
    const name: Identifier
    const addressIdentifiers: array<AccountAddress>
    const constantPool: array<Constant>
    const otherTables: Bytes

    /** The module's current contents as a value. */
    function Data(): ModuleData
      reads addressIdentifiers, constantPool
    {
      ModuleData(selfAddressIndex, name, addressIdentifiers[..], constantPool[..], otherTables)
    }

    /** Build the mutable module from what the deserializer produced. */
    constructor (d: CompiledModuleData)
      ensures Data() == d
      ensures fresh(addressIdentifiers) && fresh(constantPool)
    {
      selfAddressIndex := d.selfAddressIndex;
      name := d.name;
      otherTables := d.otherTables;
      addressIdentifiers := new AccountAddress[|d.addressIdentifiers|](i requires 0 <= i < |d.addressIdentifiers| => d.addressIdentifiers[i]);
      constantPool := new Constant[|d.constantPool|](i requires 0 <= i < |d.constantPool| => d.constantPool[i]);
    }

    /**
     * `module_remap_addresses`: rewrite every entry of the address table by one
     * lookup, then every constant, in order. A constant that fails to decode or
     * encode stops the rewrite there: the table and the constants before it
     * stay rewritten, the rest are untouched.
     */
    method RemapAddresses(mapping: AddressMapping, codec: ConstantCodec) returns (r: Result<(), StatusCode>)
      modifies addressIdentifiers, constantPool
      ensures forall i :: 0 <= i < addressIdentifiers.Length ==>
        addressIdentifiers[i] == RemapAddress(old(addressIdentifiers[i]), mapping)
      ensures r.Success? ==>
        forall k :: 0 <= k < constantPool.Length ==> RemapConstant(old(constantPool[k]), mapping, codec) == Success(constantPool[k])
      ensures r.Failure? ==>
        exists j :: 0 <= j < constantPool.Length
          && RemapConstant(old(constantPool[j]), mapping, codec) == Failure(r.error)
          && (forall k :: 0 <= k < j ==> RemapConstant(old(constantPool[k]), mapping, codec) == Success(constantPool[k]))
          && (forall k :: j <= k < constantPool.Length ==> constantPool[k] == old(constantPool[k]))
      ensures selfAddressIndex < addressIdentifiers.Length ==>
        var before: CompiledModuleData := old(Data());
        match RemapModuleData(before, mapping, codec)
        case Success(after) => r.Success? && Data() == after
        case Failure(e) => r == Failure(e)
    {
      for i := 0 to addressIdentifiers.Length
        invariant forall k :: 0 <= k < i ==> addressIdentifiers[k] == RemapAddress(old(addressIdentifiers[k]), mapping)
        invariant forall k :: i <= k < addressIdentifiers.Length ==> addressIdentifiers[k] == old(addressIdentifiers[k])
        invariant constantPool[..] == old(constantPool[..])
      {
        var addr := addressIdentifiers[i];
        if addr in mapping {
          addressIdentifiers[i] := mapping[addr];
        }
      }
      assert addressIdentifiers[..] == MapAddresses(old(addressIdentifiers[..]), mapping);
      ghost var pool := constantPool[..];
      ghost var remap := ConstantStep(mapping, codec);
      for i := 0 to constantPool.Length
        invariant forall k :: 0 <= k < i ==> RemapConstant(pool[k], mapping, codec) == Success(constantPool[k])
        invariant forall k :: i <= k < constantPool.Length ==> constantPool[k] == pool[k]
        invariant addressIdentifiers[..] == MapAddresses(old(addressIdentifiers[..]), mapping)
      {
        var value := codec.deserialize(constantPool[i]);
        if value.None? {
          CollectAllFirstFailure(pool, remap, i);
          return Failure(ValueDeserializationError);
        }
        var bytes := codec.serialize(RemapValue(value.value, mapping));
        if bytes.None? {
          CollectAllFirstFailure(pool, remap, i);
          return Failure(ValueSerializationError);
        }
        constantPool[i] := Constant(constantPool[i].signature, bytes.value);
      }
      CollectAllSpec(pool, remap);
      assert constantPool[..] == CollectAll(pool, remap).value;
      return Success(());
    }
  }
}

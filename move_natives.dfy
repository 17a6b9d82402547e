/**
 * The natives of `moveos_std::move_module`: their gas charges, their abort
 * codes, and the order in which they fail. The Move VM pieces they call
 * (bytecode (de)serializer, dependency sort, bytecode verifier, MoveOS
 * verifier, compatibility checker) are foreign and form a `MoveToolchain`.
 */
module MoveNatives {
  import opened Wrappers
  import opened MoveValues

  const E_ADDRESS_NOT_MATCH_WITH_SIGNER: nat := 1
  const E_MODULE_VERIFICATION_ERROR: nat := 2
  const E_MODULE_INCOMPATIBLE: nat := 3
  const E_LENGTH_NOT_MATCH: nat := 4

  /** The abort code `error::invalid_argument(reason)`. */
  datatype AbortCode = InvalidArgument(reason: nat)

  /** `NativeResult::ok(cost, values)` or `NativeResult::err(cost, abort_code)`. */
  datatype NativeResult<T> = Ok(cost: nat, value: T) | Abort(cost: nat, code: AbortCode)

  /** What a native returns: a result, or a `PartialVMError` with its status. */
  type NativeOutcome<T> = Result<NativeResult<T>, StatusCode>

  /** A native's gas parameters: a base charge and a charge per byte. */
  datatype GasParameters = GasParameters(base: nat, perByte: nat)

  datatype ModuleId = ModuleId(address: AccountAddress, name: Identifier)

  /** The Move VM and MoveOS code the natives call. */
  datatype MoveToolchain = MoveToolchain(
    deserialize: Bytes -> Result<CompiledModuleData, StatusCode>,             // CompiledModule::deserialize
    serialize: ModuleData -> Option<Bytes>,                                   // CompiledModule::serialize
    sortByDependencyOrder: seq<CompiledModuleData> -> Option<seq<CompiledModuleData>>,
    verifyBundle: seq<CompiledModuleData> -> Result<(), StatusCode>,          // verify_module_bundle_for_publication
    verifyModule: CompiledModuleData -> Option<bool>,                         // MoveOS verifier: has an init function, or an error
    compatible: (CompiledModuleData, CompiledModuleData) -> bool,             // Compatibility::full_check().check(old, new)
    constants: ConstantCodec)

  // ---------------------------------------------------------------------------
  // Per-byte charges
  // ---------------------------------------------------------------------------

  /** The bytes in a bundle. */
  function TotalLength(bundle: seq<Bytes>): nat
  {
    if bundle == [] then 0 else TotalLength(bundle[..|bundle| - 1]) + |bundle[|bundle| - 1]|
  }

  /** The `cost += per_byte * len` loop over a bundle, starting from the base charge. */
  method ChargePerByte(gas: GasParameters, bundle: seq<Bytes>) returns (cost: nat)
    ensures cost == gas.base + gas.perByte * TotalLength(bundle)
  {
    cost := gas.base;
    for i := 0 to |bundle|
      invariant cost == gas.base + gas.perByte * TotalLength(bundle[..i])
    {
      assert bundle[..i + 1][..i] == bundle[..i];
      cost := cost + gas.perByte * |bundle[i]|;
    }
    assert bundle[..|bundle|] == bundle;
  }

  // ---------------------------------------------------------------------------
  // module_name_inner
  // ---------------------------------------------------------------------------

  /** The module's name and a charge per byte of it; a deserialization error is returned as is. */
  function ModuleNameInner(gas: GasParameters, byteCodes: Bytes, tc: MoveToolchain): (r: NativeOutcome<Identifier>)
    ensures tc.deserialize(byteCodes).Failure? ==> r == Failure(tc.deserialize(byteCodes).error)
    ensures tc.deserialize(byteCodes).Success? ==>
      var name := tc.deserialize(byteCodes).value.name;
      r == Success(Ok(gas.base + gas.perByte * |name|, name))
  {
    match tc.deserialize(byteCodes)
    case Failure(e) => Failure(e)
    case Success(m) =>
      var cost := gas.base + if gas.perByte > 0 then gas.perByte * |m.name| else 0;
      Success(Ok(cost, m.name))
  }

  // ---------------------------------------------------------------------------
  // check_compatibililty_inner
  // ---------------------------------------------------------------------------

  /** Deserialize the new then the old module and abort with code 3 when the upgrade is incompatible. */
  function CheckCompatibilityInner(gas: GasParameters, newBytes: Bytes, oldBytes: Bytes, tc: MoveToolchain): (r: NativeOutcome<()>)
    ensures r.Failure? <==> tc.deserialize(newBytes).Failure? || tc.deserialize(oldBytes).Failure?
    ensures tc.deserialize(newBytes).Failure? ==> r == Failure(tc.deserialize(newBytes).error)
    ensures tc.deserialize(newBytes).Success? && tc.deserialize(oldBytes).Failure? ==>
      r == Failure(tc.deserialize(oldBytes).error)
    ensures r.Success? ==> r.value.cost == gas.base + gas.perByte * (|newBytes| + |oldBytes|)
    ensures r.Success? ==>
      (r.value.Ok? <==> tc.compatible(tc.deserialize(oldBytes).value, tc.deserialize(newBytes).value))
    ensures r.Success? && r.value.Abort? ==> r.value.code == InvalidArgument(E_MODULE_INCOMPATIBLE)
  {
    var cost := gas.base + gas.perByte * |newBytes| + gas.perByte * |oldBytes|;
    match tc.deserialize(newBytes)
    case Failure(e) => Failure(e)
    case Success(newModule) =>
      match tc.deserialize(oldBytes)
      case Failure(e) => Failure(e)
      case Success(oldModule) =>
        if tc.compatible(oldModule, newModule) then Success(Ok(cost, ()))
        else Success(Abort(cost, InvalidArgument(E_MODULE_INCOMPATIBLE)))
  }

  // ---------------------------------------------------------------------------
  // sort_and_verify_modules_inner
  // ---------------------------------------------------------------------------

  /** The names of all the modules, and of those with an init function, in bundle order. */
  datatype BundleNames = BundleNames(names: seq<Identifier>, initNames: seq<Identifier>)

  /** Check one more module: its address, then the MoveOS verifier. */
  function CheckModule(acc: BundleNames, m: CompiledModuleData, account: AccountAddress,
                       verifyModule: CompiledModuleData -> Option<bool>): Result<BundleNames, AbortCode>
  {
    if SelfAddress(m) != account then Failure(InvalidArgument(E_ADDRESS_NOT_MATCH_WITH_SIGNER))
    else
      match verifyModule(m)
      case None => Failure(InvalidArgument(E_MODULE_VERIFICATION_ERROR))
      case Some(hasInit) =>
        Success(BundleNames(acc.names + [m.name], if hasInit then acc.initNames + [m.name] else acc.initNames))
  }

  /** Carry a failure forward, or check the next module. */
  function CheckAfter(prev: Result<BundleNames, AbortCode>, m: CompiledModuleData, account: AccountAddress,
                      verifyModule: CompiledModuleData -> Option<bool>): Result<BundleNames, AbortCode>
  {
    if prev.Failure? then prev else CheckModule(prev.value, m, account, verifyModule)
  }

  /** Check the sorted modules in order; the first module that fails decides the abort code. */
  function CheckModules(ms: seq<CompiledModuleData>, account: AccountAddress,
                        verifyModule: CompiledModuleData -> Option<bool>): Result<BundleNames, AbortCode>
  {
    if ms == [] then Success(BundleNames([], []))
    else CheckAfter(CheckModules(ms[..|ms| - 1], account, verifyModule), ms[|ms| - 1], account, verifyModule)
  }

  /** A module passes when it lives at the account and the MoveOS verifier accepts it. */
  ghost predicate Passes(m: CompiledModuleData, account: AccountAddress, verifyModule: CompiledModuleData -> Option<bool>)
  {
    SelfAddress(m) == account && verifyModule(m).Some?
  }

  /** The names of the modules the MoveOS verifier reports an init function for, in order. */
  function InitNames(ms: seq<CompiledModuleData>, verifyModule: CompiledModuleData -> Option<bool>): seq<Identifier>
  {
    if ms == [] then []
    else InitNames(ms[..|ms| - 1], verifyModule) + (if verifyModule(ms[|ms| - 1]) == Some(true) then [ms[|ms| - 1].name] else [])
  }

  lemma CheckModulesStep(ms: seq<CompiledModuleData>, i: nat, account: AccountAddress,
                         verifyModule: CompiledModuleData -> Option<bool>)
    requires i < |ms|
    ensures CheckModules(ms[..i + 1], account, verifyModule)
         == CheckAfter(CheckModules(ms[..i], account, verifyModule), ms[i], account, verifyModule)
  {
    assert ms[..i + 1][..i] == ms[..i];
  }

  /** Once a prefix fails, the whole bundle fails with the same code. */
  lemma {:induction false} CheckModulesPrefixFailure(ms: seq<CompiledModuleData>, j: nat, account: AccountAddress,
                                                     verifyModule: CompiledModuleData -> Option<bool>)
    requires j <= |ms| && CheckModules(ms[..j], account, verifyModule).Failure?
    ensures CheckModules(ms, account, verifyModule) == CheckModules(ms[..j], account, verifyModule)
    decreases |ms| - j
  {
    if j == |ms| {
      assert ms[..j] == ms;
    } else {
      CheckModulesStep(ms, j, account, verifyModule);
      CheckModulesPrefixFailure(ms, j + 1, account, verifyModule);
    }
  }

  /** One step of the check, in terms of `Passes`. */
  lemma CheckAfterSpec(prev: Result<BundleNames, AbortCode>, m: CompiledModuleData, account: AccountAddress,
                       verifyModule: CompiledModuleData -> Option<bool>)
    ensures prev.Failure? ==> CheckAfter(prev, m, account, verifyModule) == prev
    ensures prev.Success? ==>
      (CheckAfter(prev, m, account, verifyModule).Success? <==> Passes(m, account, verifyModule))
    ensures prev.Success? && Passes(m, account, verifyModule) ==>
      CheckAfter(prev, m, account, verifyModule).value
        == BundleNames(prev.value.names + [m.name],
                       prev.value.initNames + (if verifyModule(m) == Some(true) then [m.name] else []))
    ensures prev.Success? && !Passes(m, account, verifyModule) ==>
      CheckAfter(prev, m, account, verifyModule).error
        == InvalidArgument(if SelfAddress(m) != account then E_ADDRESS_NOT_MATCH_WITH_SIGNER else E_MODULE_VERIFICATION_ERROR)
  {
  }

  lemma {:induction false} CheckModulesPass(ms: seq<CompiledModuleData>, account: AccountAddress,
                                            verifyModule: CompiledModuleData -> Option<bool>)
    ensures CheckModules(ms, account, verifyModule).Success?
        <==> forall k :: 0 <= k < |ms| ==> Passes(ms[k], account, verifyModule)
  {
    if ms != [] {
      var n := |ms| - 1;
      var prefix := ms[..n];
      CheckModulesPass(prefix, account, verifyModule);
      var prev := CheckModules(prefix, account, verifyModule);
      CheckAfterSpec(prev, ms[n], account, verifyModule);
      assert forall k :: 0 <= k < n ==> prefix[k] == ms[k];
      if prev.Failure? {
        var k :| 0 <= k < n && !Passes(prefix[k], account, verifyModule);
        assert !Passes(ms[k], account, verifyModule);
      }
    }
  }

  lemma {:induction false} CheckModulesNames(ms: seq<CompiledModuleData>, account: AccountAddress,
                                             verifyModule: CompiledModuleData -> Option<bool>)
    requires CheckModules(ms, account, verifyModule).Success?
    ensures var out := CheckModules(ms, account, verifyModule).value;
      |out.names| == |ms| && (forall k :: 0 <= k < |ms| ==> out.names[k] == ms[k].name)
        && out.initNames == InitNames(ms, verifyModule)
  {
    if ms != [] {
      var n := |ms| - 1;
      var prefix := ms[..n];
      var prev := CheckModules(prefix, account, verifyModule);
      CheckAfterSpec(prev, ms[n], account, verifyModule);
      CheckModulesNames(prefix, account, verifyModule);
      assert forall k :: 0 <= k < n ==> prefix[k] == ms[k];
    }
  }

  lemma {:induction false} CheckModulesRejects(ms: seq<CompiledModuleData>, account: AccountAddress,
                                               verifyModule: CompiledModuleData -> Option<bool>)
    ensures CheckModules(ms, account, verifyModule).Failure? ==>
      exists j :: 0 <= j < |ms| && !Passes(ms[j], account, verifyModule)
        && (forall k :: 0 <= k < j ==> Passes(ms[k], account, verifyModule))
        && CheckModules(ms, account, verifyModule).error
           == InvalidArgument(if SelfAddress(ms[j]) != account then E_ADDRESS_NOT_MATCH_WITH_SIGNER else E_MODULE_VERIFICATION_ERROR)
  {
    if ms != [] {
      var n := |ms| - 1;
      var prefix := ms[..n];
      var prev := CheckModules(prefix, account, verifyModule);
      CheckAfterSpec(prev, ms[n], account, verifyModule);
      if prev.Failure? {
        CheckModulesRejects(prefix, account, verifyModule);
        var j :| 0 <= j < n && !Passes(prefix[j], account, verifyModule)
          && (forall k :: 0 <= k < j ==> Passes(prefix[k], account, verifyModule))
          && prev.error == InvalidArgument(if SelfAddress(prefix[j]) != account then E_ADDRESS_NOT_MATCH_WITH_SIGNER else E_MODULE_VERIFICATION_ERROR);
        assert forall k :: 0 <= k <= j ==> prefix[k] == ms[k];
      } else {
        CheckModulesPass(prefix, account, verifyModule);
        assert forall k :: 0 <= k < n ==> prefix[k] == ms[k];
      }
    }
  }

  /**
   * The bundle is accepted exactly when every module passes; the names are
   * then all the names in order and the init names those with an init
   * function. Otherwise the first module that fails gives code 1 (wrong
   * address) or 2 (rejected by the verifier).
   */
  lemma CheckModulesSpec(ms: seq<CompiledModuleData>, account: AccountAddress,
                         verifyModule: CompiledModuleData -> Option<bool>)
    ensures CheckModules(ms, account, verifyModule).Success?
        <==> forall k :: 0 <= k < |ms| ==> Passes(ms[k], account, verifyModule)
    ensures CheckModules(ms, account, verifyModule).Success? ==>
      var out := CheckModules(ms, account, verifyModule).value;
      |out.names| == |ms| && (forall k :: 0 <= k < |ms| ==> out.names[k] == ms[k].name)
        && out.initNames == InitNames(ms, verifyModule)
    ensures CheckModules(ms, account, verifyModule).Failure? ==>
      exists j :: 0 <= j < |ms| && !Passes(ms[j], account, verifyModule)
        && (forall k :: 0 <= k < j ==> Passes(ms[k], account, verifyModule))
        && CheckModules(ms, account, verifyModule).error
           == InvalidArgument(if SelfAddress(ms[j]) != account then E_ADDRESS_NOT_MATCH_WITH_SIGNER else E_MODULE_VERIFICATION_ERROR)
  {
    CheckModulesPass(ms, account, verifyModule);
    if CheckModules(ms, account, verifyModule).Success? {
      CheckModulesNames(ms, account, verifyModule);
    }
    CheckModulesRejects(ms, account, verifyModule);
  }

  /** Deserialize the bundle, sort it by dependencies and run the bytecode verifier on it. */
  function PrepareBundle(modules: seq<Bytes>, tc: MoveToolchain): Result<seq<CompiledModuleData>, StatusCode>
  {
    match CollectAll(modules, tc.deserialize)
    case Failure(e) => Failure(e)
    case Success(compiled) =>
      match tc.sortByDependencyOrder(compiled)
      case None => Failure(CyclicModuleDependency)
      case Some(sorted) =>
        match tc.verifyBundle(sorted)
        case Failure(e) => Failure(e)
        case Success(_) => Success(sorted)
  }

  /** `native_sort_and_verify_modules_inner` on its arguments. */
  function SortAndVerifyModules(gas: GasParameters, modules: seq<Bytes>, account: AccountAddress, tc: MoveToolchain): NativeOutcome<BundleNames>
  {
    var cost := gas.base + gas.perByte * TotalLength(modules);
    match PrepareBundle(modules, tc)
    case Failure(e) => Failure(e)
    case Success(sorted) =>
      match CheckModules(sorted, account, tc.verifyModule)
      case Failure(code) => Success(Abort(cost, code))
      case Success(names) => Success(Ok(cost, names))
  }

  /**
   * Charge for the bundle, deserialize it, sort it by dependencies, run the
   * bytecode verifier, then check each sorted module's address and run the
   * MoveOS verifier on it, collecting names and init names.
   */
  method SortAndVerifyModulesInner(gas: GasParameters, modules: seq<Bytes>, account: AccountAddress, tc: MoveToolchain)
    returns (r: NativeOutcome<BundleNames>)
    ensures r == SortAndVerifyModules(gas, modules, account, tc)
  {
    var cost := ChargePerByte(gas, modules);
    var prepared := PrepareBundle(modules, tc);
    if prepared.Failure? {
      return Failure(prepared.error);
    }
    var ms := prepared.value;
    var names: seq<Identifier> := [];
    var initNames: seq<Identifier> := [];
    for i := 0 to |ms|
      invariant CheckModules(ms[..i], account, tc.verifyModule) == Success(BundleNames(names, initNames))
    {
      CheckModulesStep(ms, i, account, tc.verifyModule);
      var m := ms[i];
      if SelfAddress(m) != account {
        CheckModulesPrefixFailure(ms, i + 1, account, tc.verifyModule);
        return Success(Abort(cost, InvalidArgument(E_ADDRESS_NOT_MATCH_WITH_SIGNER)));
      }
      var result := tc.verifyModule(m);
      if result.None? {
        CheckModulesPrefixFailure(ms, i + 1, account, tc.verifyModule);
        return Success(Abort(cost, InvalidArgument(E_MODULE_VERIFICATION_ERROR)));
      }
      if result.value {
        initNames := initNames + [m.name];
      }
      names := names + [m.name];
    }
    assert ms[..|ms|] == ms;
    return Success(Ok(cost, BundleNames(names, initNames)));
  }

  // ---------------------------------------------------------------------------
  // request_init_functions
  // ---------------------------------------------------------------------------

  /** The module ids of `names` under `account`. */
  function IdsOf(account: AccountAddress, names: seq<Identifier>): set<ModuleId>
  {
    set n | n in names :: ModuleId(account, n)
  }

  /** The native context: the set of modules whose init function is requested. */
  class NativeModuleContext {
    var initFunctions: set<ModuleId>

    constructor ()
      ensures initFunctions == {}
    {
      initFunctions := {};
    }

    /**
     * `request_init_functions`: charge per name byte and record each name as a
     * module of `account`. A name that is not a valid identifier stops the
     * native with TYPE_RESOLUTION_FAILURE, keeping the names recorded before it.
     */
    method RequestInitFunctions(gas: GasParameters, names: seq<Identifier>, account: AccountAddress,
                                isIdentifier: Identifier -> bool) returns (r: Result<nat, StatusCode>)
      modifies this
      ensures old(initFunctions) <= initFunctions
      ensures r.Success? <==> forall k :: 0 <= k < |names| ==> isIdentifier(names[k])
      ensures r.Success? ==>
        r.value == gas.base + gas.perByte * TotalLength(names)
        && initFunctions == old(initFunctions) + IdsOf(account, names)
      ensures r.Failure? ==>
        r.error == TypeResolutionFailure
        && exists j :: (0 <= j < |names| && !isIdentifier(names[j])
             && (forall k :: 0 <= k < j ==> isIdentifier(names[k]))
             && initFunctions == old(initFunctions) + IdsOf(account, names[..j]))
    {
      var cost := gas.base;
      for i := 0 to |names|
        invariant cost == gas.base + gas.perByte * TotalLength(names[..i])
        invariant forall k :: 0 <= k < i ==> isIdentifier(names[k])
        invariant initFunctions == old(initFunctions) + IdsOf(account, names[..i])
      {
        assert names[..i + 1] == names[..i] + [names[i]];
        cost := cost + gas.perByte * |names[i]|;
        if !isIdentifier(names[i]) {
          return Failure(TypeResolutionFailure);
        }
        initFunctions := initFunctions + {ModuleId(account, names[i])};
      }
      assert names[..|names|] == names;
      return Success(cost);
    }
  }

  // ---------------------------------------------------------------------------
  // remap_module_addresses_inner
  // ---------------------------------------------------------------------------

  /** Remap one module and serialize it again. */
  function RemapAndSerialize(d: CompiledModuleData, mapping: AddressMapping, tc: MoveToolchain): Result<Bytes, StatusCode>
  {
    match RemapModuleData(d, mapping, tc.constants)
    case Failure(e) => Failure(e)
    case Success(remapped) =>
      match tc.serialize(remapped)
      case None => Failure(ValueSerializationError)
      case Some(bytes) => Success(bytes)
  }

  /** The per-module step of the remapping loop, as a function value for `CollectAll`. */
  function RemapStep(mapping: AddressMapping, tc: MoveToolchain): CompiledModuleData -> Result<Bytes, StatusCode>
  {
    (d: CompiledModuleData) => RemapAndSerialize(d, mapping, tc)
  }

  /** `remap_module_addresses_inner` on its arguments. */
  function RemapModuleAddresses(gas: GasParameters, modules: seq<Bytes>, olds: seq<AccountAddress>,
                                news: seq<AccountAddress>, tc: MoveToolchain): NativeOutcome<seq<Bytes>>
  {
    if |olds| != |news| then Success(Abort(gas.base, InvalidArgument(E_LENGTH_NOT_MATCH)))
    else
      var mapping := ZipMapping(olds, news);
      match CollectAll(modules, tc.deserialize)
      case Failure(e) => Failure(e)
      case Success(compiled) =>
        match CollectAll(compiled, RemapStep(mapping, tc))
        case Failure(e) => Failure(e)
        case Success(out) => Success(Ok(gas.base + gas.perByte * TotalLength(modules), out))
  }

  /**
   * A successful remap returns one binary per input module, in order: that
   * module deserialized, remapped through the zipped mapping and serialized.
   * A length mismatch aborts with code 4 charging only the base, whatever
   * the modules are.
   */
  lemma RemapModuleAddressesSpec(gas: GasParameters, modules: seq<Bytes>, olds: seq<AccountAddress>,
                                 news: seq<AccountAddress>, tc: MoveToolchain)
    ensures |olds| != |news| ==>
      RemapModuleAddresses(gas, modules, olds, news, tc) == Success(Abort(gas.base, InvalidArgument(E_LENGTH_NOT_MATCH)))
    ensures (RemapModuleAddresses(gas, modules, olds, news, tc).Success?
             && RemapModuleAddresses(gas, modules, olds, news, tc).value.Ok?) ==>
      var out := RemapModuleAddresses(gas, modules, olds, news, tc).value.value;
      |olds| == |news| && |out| == |modules|
      && forall i :: 0 <= i < |modules| ==>
           tc.deserialize(modules[i]).Success?
           && RemapAndSerialize(tc.deserialize(modules[i]).value, ZipMapping(olds, news), tc) == Success(out[i])
  {
    if |olds| == |news| {
      var mapping := ZipMapping(olds, news);
      CollectAllSpec(modules, tc.deserialize);
      if CollectAll(modules, tc.deserialize).Success? {
        var compiled := CollectAll(modules, tc.deserialize).value;
        CollectAllSpec(compiled, RemapStep(mapping, tc));
      }
    }
  }

  /** One round of the remapping loop: remap a fresh copy of the module in place, then serialize it. */
  method RemapAndSerializeModule(d: CompiledModuleData, mapping: AddressMapping, tc: MoveToolchain)
    returns (r: Result<Bytes, StatusCode>)
    ensures r == RemapAndSerialize(d, mapping, tc)
  {
    var m := new CompiledModule(d);
    var res := m.RemapAddresses(mapping, tc.constants);
    if res.Failure? {
      return Failure(res.error);
    }
    var binary := tc.serialize(m.Data());
    if binary.None? {
      return Failure(ValueSerializationError);
    }
    return Success(binary.value);
  }

  /**
   * Check the lengths, charge for the bundle, deserialize every module, then
   * remap each module in place and serialize it, stopping at the first error.
   */
  method RemapModuleAddressesInner(gas: GasParameters, modules: seq<Bytes>, olds: seq<AccountAddress>,
                                   news: seq<AccountAddress>, tc: MoveToolchain) returns (r: NativeOutcome<seq<Bytes>>)
    ensures r == RemapModuleAddresses(gas, modules, olds, news, tc)
  {
    if |olds| != |news| {
      return Success(Abort(gas.base, InvalidArgument(E_LENGTH_NOT_MATCH)));
    }
    var mapping := ZipMapping(olds, news);
    var cost := ChargePerByte(gas, modules);
    var compiled := CollectAll(modules, tc.deserialize);
    if compiled.Failure? {
      return Failure(compiled.error);
    }
    var ds := compiled.value;
    ghost var step := RemapStep(mapping, tc);
    var out: seq<Bytes> := [];
    for i := 0 to |ds|
      invariant |out| == i
      invariant forall k :: 0 <= k < i ==> RemapAndSerialize(ds[k], mapping, tc) == Success(out[k])
    {
      var binary := RemapAndSerializeModule(ds[i], mapping, tc);
      if binary.Failure? {
        CollectAllFirstFailure(ds, step, i);
        return Failure(binary.error);
      }
      out := out + [binary.value];
    }
    CollectAllSpec(ds, step);
    assert CollectAll(ds, step).value == out;
    return Success(Ok(cost, out));
  }
}

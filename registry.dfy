/**
 * `getProviders()`: the provider modules found in the providers directory,
 * keyed by their `name`, computed on first use and cached for the life of
 * the process. Loading a module is an oracle (the module it exports, or the
 * error `require` threw); the installed providers are a fixed table.
 */
module ProviderRegistry {
  import opened Wrappers
  import opened Providers
  import Amazon
  import Apigee

  /** account.js, or index.js, its older copy. */
  datatype Version = Current | Legacy

  /** What `require` gave for one file of the providers directory. */
  datatype ModuleLoad = Loaded(exports: Provider) | LoadFailed(error: string)

  /** The providers object: names in the order they were first registered, and each name's module. */
  datatype Registry = Registry(names: seq<string>, byName: map<string, Provider>)

  const Empty := Registry([], map[])

  /** `providers[module.name] = module`: a new name goes last, a known one keeps its place. */
  function Register(r: Registry, p: Provider): Registry {
    Registry(if p.name in r.byName then r.names else r.names + [p.name], r.byName[p.name := p])
  }

  /** The providers registered from a run of loads: failures and modules without a name are passed over. */
  function RegistryOf(loads: seq<ModuleLoad>): Registry
    decreases |loads|
  {
    if loads == [] then Empty
    else
      var before := RegistryOf(loads[..|loads| - 1]);
      var last := loads[|loads| - 1];
      if last.Loaded? && last.exports.name != "" then Register(before, last.exports) else before
  }

  predicate NoDup(s: seq<string>) {
    forall i, j :: 0 <= i < j < |s| ==> s[i] != s[j]
  }

  /** Each registered name is listed once, and every module sits under its own name. */
  ghost predicate Consistent(r: Registry) {
    NoDup(r.names) && (forall n :: n in r.byName <==> n in r.names)
    && forall n :: n in r.byName ==> r.byName[n].name == n
  }

  /** A module is registered under a name exactly when some load produced a module with that (non-empty) name. */
  predicate LoadedAs(loads: seq<ModuleLoad>, i: int, n: string) {
    0 <= i < |loads| && loads[i].Loaded? && loads[i].exports.name == n
  }

  lemma {:induction false} RegistryOfConsistent(loads: seq<ModuleLoad>)
    ensures Consistent(RegistryOf(loads))
    ensures forall n :: n in RegistryOf(loads).byName <==> n != "" && exists i :: LoadedAs(loads, i, n)
    decreases |loads|
  {
    if loads != [] {
      var init := loads[..|loads| - 1];
      RegistryOfConsistent(init);
      var before := RegistryOf(init);
      var last := loads[|loads| - 1];
      forall n ensures (n in RegistryOf(loads).byName <==> n != "" && exists i :: LoadedAs(loads, i, n)) {
        if n in RegistryOf(loads).byName {
          if n in before.byName {
            var i :| LoadedAs(init, i, n);
            assert LoadedAs(loads, i, n);
          } else {
            assert LoadedAs(loads, |loads| - 1, n);
          }
        }
        if n != "" && exists i :: LoadedAs(loads, i, n) {
          var i :| LoadedAs(loads, i, n);
          if i < |loads| - 1 {
            assert LoadedAs(init, i, n);
          }
        }
      }
    }
  }

  /** A registered module carries the name it is registered under, and that name is not empty. */
  lemma RegisteredUnderOwnName(loads: seq<ModuleLoad>, n: string)
    requires n in RegistryOf(loads).byName
    ensures RegistryOf(loads).byName[n].name == n && n != ""
  {
    RegistryOfConsistent(loads);
  }

  /** When two loads carry the same name, the later module wins. */
  lemma {:induction false} RegistryOfLatest(loads: seq<ModuleLoad>, i: nat)
    requires i < |loads| && loads[i].Loaded? && loads[i].exports.name != ""
    requires forall j :: i < j < |loads| ==> !LoadedAs(loads, j, loads[i].exports.name)
    ensures loads[i].exports.name in RegistryOf(loads).byName
    ensures RegistryOf(loads).byName[loads[i].exports.name] == loads[i].exports
    decreases |loads|
  {
    RegistryOfConsistent(loads);
    assert LoadedAs(loads, i, loads[i].exports.name);
    if i < |loads| - 1 {
      var init := loads[..|loads| - 1];
      assert forall j :: i < j < |init| ==> !LoadedAs(init, j, loads[i].exports.name) by {
        forall j | i < j < |init| ensures !LoadedAs(init, j, loads[i].exports.name) {
          assert !LoadedAs(loads, j, loads[i].exports.name);
        }
      }
      assert !LoadedAs(loads, |loads| - 1, loads[i].exports.name);
      RegistryOfLatest(init, i);
    }
  }

  /** The modules of the providers directory, in directory order. */
  const Installed: seq<ModuleLoad> := [Loaded(Amazon.Descriptor), Loaded(Apigee.Descriptor)]

  /** The installed providers: `a127 account providers` lists amazon then apigee. */
  lemma InstalledRegistry()
    ensures RegistryOf(Installed).names == [Amazon.Name, Apigee.Name]
    ensures RegistryOf(Installed).byName == map[Amazon.Name := Amazon.Descriptor, Apigee.Name := Apigee.Descriptor]
  {
    assert Installed[..1] == [Loaded(Amazon.Descriptor)];
    assert Installed[..1][..0] == [];
    var first := RegistryOf(Installed[..1]);
    assert Amazon.Descriptor.name == Amazon.Name && Amazon.Name[0] == 'a';
    assert RegistryOf(Installed[..1][..0]) == Empty;
    assert Installed[..1][|Installed[..1]| - 1] == Loaded(Amazon.Descriptor);
    assert first == Register(Empty, Amazon.Descriptor);
    assert first == Registry([Amazon.Name], map[Amazon.Name := Amazon.Descriptor]);
    assert Apigee.Descriptor.name == Apigee.Name && Apigee.Name[0] == 'a';
    assert Amazon.Name[1] != Apigee.Name[1];
    assert Apigee.Name !in first.byName;
    assert RegistryOf(Installed) == Register(first, Apigee.Descriptor);
  }

  /** The index of the first failed load, or the number of loads when none failed. */
  function FirstFailure(loads: seq<ModuleLoad>): (k: nat)
    ensures k <= |loads|
    ensures k < |loads| ==> loads[k].LoadFailed?
    ensures forall j :: 0 <= j < k ==> loads[j].Loaded?
    decreases |loads|
  {
    if loads == [] then 0
    else if loads[0].LoadFailed? then 0
    else 1 + FirstFailure(loads[1..])
  }

  /** The process-wide `providers` variable. */
  class ProviderCache {
    var providers: Option<Registry>

    constructor()
      ensures providers.None?
    {
      providers := None;
    }

    /**
     * `getProviders()`. The object is assigned to the cache before it is
     * filled, so when account.js rethrows a load error under debug the
     * cache keeps the providers registered so far and later calls return
     * them; index.js only logs the error.
     */
    method GetProviders(version: Version, debug: bool, loads: seq<ModuleLoad>) returns (r: Result<Registry>)
      modifies this
      ensures old(providers).Some? ==> r == Ok(old(providers).value) && providers == old(providers)
      ensures old(providers).None? ==>
        var k := FirstFailure(loads);
        if version == Current && debug && k < |loads| then
          r == Err(loads[k].error) && providers == Some(RegistryOf(loads[..k]))
        else
          r == Ok(RegistryOf(loads)) && providers == Some(RegistryOf(loads))
    {
      if providers.Some? {
        return Ok(providers.value);
      }
      var registry := Empty;
      providers := Some(registry);
      var i := 0;
      while i < |loads|
        invariant 0 <= i <= |loads|
        invariant registry == RegistryOf(loads[..i]) && providers == Some(registry)
        invariant version == Current && debug ==> FirstFailure(loads) >= i
        decreases |loads| - i
      {
        assert loads[..i + 1][..i] == loads[..i];
        match loads[i] {
          case Loaded(exports) =>
            if exports.name != "" {
              registry := Register(registry, exports);
              providers := Some(registry);
            }
          case LoadFailed(error) =>
            if version == Current && debug {
              FirstFailureAt(loads, i);
              return Err(error);
            }
        }
        i := i + 1;
      }
      assert loads[..|loads|] == loads;
      r := Ok(registry);
    }
  }

  lemma {:induction false} FirstFailureAt(loads: seq<ModuleLoad>, i: nat)
    requires i < |loads| && loads[i].LoadFailed? && FirstFailure(loads) >= i
    ensures FirstFailure(loads) == i
  {
  }
}

/** The cop registry: which cop (directive-name resolver) is responsible for a
    configuration record or a module, and asking a cop for a record's keyword. */
module Cops {
  import opened Wrappers
  import opened Host
  import CoreCop

  /** The `get_directive` function a cop carries. */
  datatype Strategy = CoreStrategy | DefaultStrategy

  /** `struct lint_cop`: a name, the module it was last handed out for, and its
      `get_directive` function. */
  class Cop {
    const name: string
    const strategy: Strategy
    var m: Option<Module>

    constructor (name: string, strategy: Strategy)
      ensures this.name == name && this.strategy == strategy && m == None
    {
      this.name := name;
      this.strategy := strategy;
      m := None;
    }
  }

  /** `module_providers`: cops chosen by module name. */
  const ModuleProviders: seq<(string, Strategy)> := [("core", CoreStrategy)]

  /** `config_providers`: cops chosen by record name, for records the symbol
      table does not know. */
  const ConfigProviders: seq<(string, Strategy)> :=
    [("GroupID", CoreStrategy), ("GroupName", CoreStrategy),
     ("UserID", CoreStrategy), ("UserName", CoreStrategy)]

  /** Scans a provider table for `name` and gives the first entry's cop. */
  function Provider(table: seq<(string, Strategy)>, name: string): (r: Option<Strategy>)
    ensures r.None? <==> forall i :: 0 <= i < |table| ==> table[i].0 != name
    ensures r.Some? ==> (name, r.value) in table
    ensures r.Some? ==> exists i :: 0 <= i < |table| && table[i] == (name, r.value) &&
                                    forall j :: 0 <= j < i ==> table[j].0 != name
  {
    if table == [] then None
    else if table[0].0 == name then Some(table[0].1)
    else
      var r := Provider(table[1..], name);
      assert r.Some? ==> exists i :: 0 <= i < |table| && table[i] == (name, r.value) &&
                                     forall j :: 0 <= j < i ==> table[j].0 != name by {
        if r.Some? {
          var k :| 0 <= k < |table[1..]| && table[1..][k] == (name, r.value) &&
                   forall j :: 0 <= j < k ==> table[1..][j].0 != name;
          assert table[k + 1] == (name, r.value);
          assert forall j :: 1 <= j < k + 1 ==> table[j].0 == table[1..][j - 1].0;
        }
      }
      r
  }

  /** The cop `lint_cop_get_module_cop` hands out for a (non-NULL) module. */
  function ModuleStrategy(m: Module): (r: Strategy)
    ensures r == CoreStrategy <==> m.name == "core"
  {
    match Provider(ModuleProviders, m.name)
    case Some(s) => s
    case None => DefaultStrategy
  }

  /** How `lint_cop_get_config_cop` finds a record's cop: through the module
      the symbol table names as the record's owner, or straight from the fixed
      `config_providers` table. */
  datatype CopChoice = ViaModule(owner: Module) | ViaTable(strategy: Strategy)

  /** The cop a choice ends in. */
  function ChoiceStrategy(ch: CopChoice): Strategy {
    match ch
    case ViaModule(owner) => ModuleStrategy(owner)
    case ViaTable(s) => s
  }

  /** Which cop a record gets. `symbols` is the host's conftable symbol
      table, from directive name to the module that registered it. */
  function ConfigCopChoice(c: Option<ConfigRec>, symbols: map<string, Module>): (r: Result<CopChoice, Errno>)
    ensures r == Failure(EINVAL) <==>
      c.None? || c.value.name.None? || c.value.configType != ConfParam
    ensures r.Success? || r == Failure(EINVAL) || r == Failure(ENOENT)
    ensures c.Some? && c.value.name.Some? && c.value.configType == ConfParam ==>
      var name := c.value.name.value;
      && (name in symbols ==> r == Success(ViaModule(symbols[name])))
      && (name !in symbols ==> (r.Success? <==> name in CoreCop.InternalNames))
      && (name !in symbols && r.Success? ==> r.value == ViaTable(CoreStrategy))
  {
    if c.None? || c.value.name.None? || c.value.configType != ConfParam then Failure(EINVAL)
    else
      var name := c.value.name.value;
      if name in symbols then Success(ViaModule(symbols[name]))
      else
        match Provider(ConfigProviders, name)
        case Some(s) => Success(ViaTable(s))
        case None => Failure(ENOENT)
  }

  /** The static cops and the lookups that hand them out. The core cop and the
      default cop are single shared instances. */
  class Registry {
    const core: Cop
    const defaultCop: Cop

    ghost predicate Valid()
      reads this
    {
      && core != defaultCop
      && core.name == "core" && core.strategy == CoreStrategy
      && defaultCop.strategy == DefaultStrategy
    }

    /** The static initial state: both cops have no module yet. */
    constructor ()
      ensures Valid() && core.m == None && defaultCop.m == None
      ensures fresh(core) && fresh(defaultCop)
    {
      core := new Cop("core", CoreStrategy);
      defaultCop := new Cop("default", DefaultStrategy);
    }

    /** The shared instance behind a strategy. */
    function CopFor(s: Strategy): (cop: Cop)
      reads this
      requires Valid()
      ensures cop.strategy == s
    {
      if s == CoreStrategy then core else defaultCop
    }

    /** `lint_cop_get_core_cop`: the one core cop, on every call. */
    method GetCoreCop() returns (cop: Cop)
      requires Valid()
      ensures cop == core && cop.name == "core"
    {
      cop := core;
    }

    /** `lint_cop_get_module_cop`: EINVAL for NULL; otherwise the cop for the
      module's name, whose `m` is set to the module. */
    method GetModuleCop(m: Option<Module>) returns (r: Result<Cop, Errno>)
      requires Valid()
      modifies core`m, defaultCop`m
      ensures m.None? ==> r == Failure(EINVAL) && unchanged(core, defaultCop)
      ensures m.Some? ==> r == Success(CopFor(ModuleStrategy(m.value))) && r.value.m == m
      ensures m.Some? ==> CopFor(if ModuleStrategy(m.value) == CoreStrategy then DefaultStrategy else CoreStrategy).m
                          == old(CopFor(if ModuleStrategy(m.value) == CoreStrategy then DefaultStrategy else CoreStrategy).m)
    {
      if m.None? {
        return Failure(EINVAL);
      }
      var cop: Cop;
      if Provider(ModuleProviders, m.value.name).Some? {
        cop := GetCoreCop();
      } else {
        cop := defaultCop;
      }
      cop.m := m;
      r := Success(cop);
    }

    /** `lint_cop_get_config_cop`: the cop for a record, by the symbol table
      first and the fixed table second. Only the symbol-table path goes
      through `lint_cop_get_module_cop` and so sets the cop's `m`. */
    method GetConfigCop(c: Option<ConfigRec>, symbols: map<string, Module>) returns (r: Result<Cop, Errno>)
      requires Valid()
      modifies core`m, defaultCop`m
      ensures ConfigCopChoice(c, symbols).Failure? ==>
        r == Failure(ConfigCopChoice(c, symbols).error) && unchanged(core, defaultCop)
      ensures ConfigCopChoice(c, symbols).Success? ==>
        r == Success(CopFor(ChoiceStrategy(ConfigCopChoice(c, symbols).value)))
      ensures ConfigCopChoice(c, symbols).Success? && ConfigCopChoice(c, symbols).value.ViaModule? ==>
        r.value.m == Some(ConfigCopChoice(c, symbols).value.owner)
      ensures ConfigCopChoice(c, symbols).Success? && ConfigCopChoice(c, symbols).value.ViaModule? ==>
        var other := if ChoiceStrategy(ConfigCopChoice(c, symbols).value) == CoreStrategy then DefaultStrategy else CoreStrategy;
        CopFor(other).m == old(CopFor(other).m)
      ensures ConfigCopChoice(c, symbols).Success? && ConfigCopChoice(c, symbols).value.ViaTable? ==>
        unchanged(core, defaultCop)
    {
      if c.None? || c.value.name.None? || c.value.configType != ConfParam {
        return Failure(EINVAL);
      }
      var name := c.value.name.value;
      if name in symbols {
        r := GetModuleCop(Some(symbols[name]));
        return;
      }
      if Provider(ConfigProviders, name).Some? {
        var cop := GetCoreCop();
        r := Success(cop);
      } else {
        r := Failure(ENOENT);
      }
    }
  }

  /** `lint_cop_get_directive`: EINVAL when the cop, pool or record is NULL;
      otherwise whatever the cop's own `get_directive` gives for the record:
      the core cop resolves it as `CoreCop.DirectiveFor`, the default cop
      hands the record's name back unchanged. */
  function GetDirective(cop: Cop?, p: Option<Pool>, c: Option<ConfigRec>): (r: Result<string, Errno>)
    requires c.Some? ==> c.value.name.Some?
    ensures r == Failure(EINVAL) <==> cop == null || p.None? || c.None?
    ensures cop != null && p.Some? && c.Some? && cop.strategy == CoreStrategy ==>
      r == CoreCop.DirectiveFor(c.value.name.value)
    ensures cop != null && p.Some? && c.Some? && cop.strategy == DefaultStrategy ==>
      r == Success(c.value.name.value)
  {
    if cop == null || p.None? || c.None? then Failure(EINVAL)
    else match cop.strategy
      case CoreStrategy => CoreCop.DirectiveFor(c.value.name.value)
      case DefaultStrategy => Success(c.value.name.value)
  }
}

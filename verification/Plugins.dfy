/**
 The plugin registry (plugins.rs): a later entry of a name hides the earlier ones. The scan that
 lists the visible plugins of a capability, and the update of a configuration file.
*/
module Plugins {
  import opened Dedup
  import opened Option

  datatype Plugin = Plugin(
    name: string, command: string, args: seq<string>, capabilities: seq<string>, source: Option<string>)

  predicate HasCapability(p: Plugin, capability: string) {
    capability in p.capabilities
  }

  /** The last entry with the name. */
  function FindPlugin(plugins: seq<Plugin>, name: string): (r: Option<Plugin>) {
    if plugins == [] then None
    else
      var last := plugins[|plugins| - 1];
      if last.name == name then Some(last) else FindPlugin(plugins[..|plugins| - 1], name)
  }

  /** Position k holds the last entry of its name. */
  ghost predicate LastOfName(plugins: seq<Plugin>, k: int) {
    0 <= k < |plugins| && forall j | k < j < |plugins| :: plugins[j].name != plugins[k].name
  }

  lemma {:induction false} FindPluginIsLast(plugins: seq<Plugin>, k: int)
    requires LastOfName(plugins, k)
    ensures FindPlugin(plugins, plugins[k].name) == Some(plugins[k])
  {
    if k < |plugins| - 1 {
      var front := plugins[..|plugins| - 1];
      assert forall j | 0 <= j < |front| :: front[j] == plugins[j];
      FindPluginIsLast(front, k);
    }
  }

  lemma {:induction false} FoundIsLast(plugins: seq<Plugin>, name: string) returns (k: int)
    requires FindPlugin(plugins, name).Some?
    ensures LastOfName(plugins, k) && plugins[k] == FindPlugin(plugins, name).value && plugins[k].name == name
  {
    k := |plugins| - 1;
    if plugins[k].name != name {
      k := FoundIsLast(plugins[..k], name);
    }
  }

  /** A later list hides an earlier one, name by name: the merge of two configurations. */
  lemma {:induction false} FindInMerged(first: seq<Plugin>, second: seq<Plugin>, name: string)
    ensures FindPlugin(first + second, name)
         == if FindPlugin(second, name).Some? then FindPlugin(second, name) else FindPlugin(first, name)
  {
    if second == [] {
      assert first + second == first;
    } else {
      assert (first + second)[..|first + second| - 1] == first + second[..|second| - 1];
      FindInMerged(first, second[..|second| - 1], name);
    }
  }

  // ---------------------------------------------------------------- the scan

  function Reversed(s: seq<Plugin>): (r: seq<Plugin>)
    ensures |r| == |s| && forall i | 0 <= i < |s| :: r[i] == s[|s| - 1 - i]
  {
    seq(|s|, i requires 0 <= i < |s| => s[|s| - 1 - i])
  }

  /** The positions the scan keeps: last of their name, with the capability. */
  ghost predicate Visible(plugins: seq<Plugin>, capability: string, k: int) {
    LastOfName(plugins, k) && HasCapability(plugins[k], capability)
  }

  /** The plugins at the visible positions from k on, in their order. */
  ghost function ResolvedFrom(plugins: seq<Plugin>, capability: string, k: nat): seq<Plugin>
    decreases |plugins| - k
  {
    if k >= |plugins| then []
    else (if Visible(plugins, capability, k) then [plugins[k]] else []) + ResolvedFrom(plugins, capability, k + 1)
  }

  ghost function NamesFrom(plugins: seq<Plugin>, k: nat): set<string> {
    set j | k <= j < |plugins| :: plugins[j].name
  }

  lemma {:induction false} NamesStep(plugins: seq<Plugin>, k: nat)
    requires k < |plugins|
    ensures NamesFrom(plugins, k) == NamesFrom(plugins, k + 1) + {plugins[k].name}
    ensures plugins[k].name !in NamesFrom(plugins, k + 1) <==> LastOfName(plugins, k)
  {
  }

  /** The backward scan with a set of seen names gives the visible plugins in their original order. */
  method ResolvedPluginsWithCapability(plugins: seq<Plugin>, capability: string) returns (r: seq<Plugin>)
    ensures r == ResolvedFrom(plugins, capability, 0)
  {
    var resolved: seq<Plugin> := [];
    var seen: set<string> := {};
    for k := |plugins| downto 0
      invariant seen == NamesFrom(plugins, k)
      invariant Reversed(resolved) == ResolvedFrom(plugins, capability, k)
    {
      var plugin := plugins[k];
      NamesStep(plugins, k);
      var inserted := plugin.name !in seen;
      seen := seen + {plugin.name};
      if inserted && HasCapability(plugin, capability) {
        assert Reversed(resolved + [plugin]) == [plugin] + Reversed(resolved);
        resolved := resolved + [plugin];
      }
    }
    r := Reversed(resolved);
  }

  /** Position k of the registry is listed. */
  lemma {:induction false} VisibleIsListed(plugins: seq<Plugin>, capability: string, low: nat, k: nat)
    requires low <= k && Visible(plugins, capability, k)
    ensures plugins[k] in ResolvedFrom(plugins, capability, low)
    decreases |plugins| - low
  {
    if low < k {
      VisibleIsListed(plugins, capability, low + 1, k);
    }
  }

  /** r holds the plugins at the positions `at`, which are visible, increasing and not below `low`. */
  ghost predicate Listed(plugins: seq<Plugin>, capability: string, low: nat, r: seq<Plugin>, at: seq<nat>) {
    && |at| == |r|
    && (forall i | 0 <= i < |r| :: low <= at[i] && Visible(plugins, capability, at[i]) && r[i] == plugins[at[i]])
    && (forall i, j | 0 <= i < j < |r| :: at[i] < at[j])
  }

  /** The list picks visible positions in increasing order. */
  lemma {:induction false} ListedIsVisible(plugins: seq<Plugin>, capability: string, low: nat) returns (at: seq<nat>)
    ensures Listed(plugins, capability, low, ResolvedFrom(plugins, capability, low), at)
    decreases |plugins| - low
  {
    at := [];
    if low < |plugins| {
      var rest := ListedIsVisible(plugins, capability, low + 1);
      if Visible(plugins, capability, low) {
        at := [low] + rest;
        ListedCons(plugins, capability, low, ResolvedFrom(plugins, capability, low + 1), rest);
      } else {
        at := rest;
        assert ResolvedFrom(plugins, capability, low) == [] + ResolvedFrom(plugins, capability, low + 1);
      }
    }
  }

  lemma {:induction false} ListedCons(plugins: seq<Plugin>, capability: string, low: nat, r: seq<Plugin>, at: seq<nat>)
    requires Visible(plugins, capability, low) && Listed(plugins, capability, low + 1, r, at)
    ensures Listed(plugins, capability, low, [plugins[low]] + r, [low] + at)
  {
  }

  /** A plugin is listed exactly when it is what its own name finds and it has the capability;
      the names are distinct and the order is that of the registry. */
  lemma {:induction false} ResolvedAgreesWithLookup(plugins: seq<Plugin>, capability: string) returns (at: seq<nat>)
    ensures var r := ResolvedFrom(plugins, capability, 0);
      && (forall p :: p in r <==> FindPlugin(plugins, p.name) == Some(p) && HasCapability(p, capability))
      && (forall i, j | 0 <= i < j < |r| :: r[i].name != r[j].name)
      && |at| == |r| && (forall i | 0 <= i < |r| :: at[i] < |plugins| && r[i] == plugins[at[i]])
      && (forall i, j | 0 <= i < j < |r| :: at[i] < at[j])
  {
    var r := ResolvedFrom(plugins, capability, 0);
    at := ListedIsVisible(plugins, capability, 0);
    forall p ensures p in r <==> FindPlugin(plugins, p.name) == Some(p) && HasCapability(p, capability) {
      if p in r {
        var i :| 0 <= i < |r| && r[i] == p;
        FindPluginIsLast(plugins, at[i]);
      }
      if FindPlugin(plugins, p.name) == Some(p) && HasCapability(p, capability) {
        var k := FoundIsLast(plugins, p.name);
        VisibleIsListed(plugins, capability, 0, k);
      }
    }
    forall i, j | 0 <= i < j < |r| ensures r[i].name != r[j].name {
      assert Visible(plugins, capability, at[i]) && at[i] < at[j];
    }
  }

  // ---------------------------------------------------------------- upsert

  /** An element of the `plugins` array: an object that loads as a plugin, the same without the
      field `name` (it loads with an empty name), or any other JSON value with the string its
      field `name` holds, if there is one. */
  datatype Element =
    | PluginElement(plugin: Plugin)
    | NamelessElement(rest: Plugin)
    | OtherElement(name: Option<string>, value: nat)

  function ElementName(e: Element): Option<string> {
    match e
    case PluginElement(p) => Some(p.name)
    case NamelessElement(_) => None
    case OtherElement(name, _) => name
  }

  /** The field `plugins` of the configuration object. */
  datatype PluginsField = Missing | List(elements: seq<Element>) | NotAnArray

  /** `retain`. */
  function WithoutName(elements: seq<Element>, name: string): seq<Element> {
    if elements == [] then []
    else (if ElementName(elements[0]) == Some(name) then [] else [elements[0]]) + WithoutName(elements[1..], name)
  }

  function Upserted(elements: seq<Element>, plugin: Plugin): seq<Element> {
    WithoutName(elements, plugin.name) + [PluginElement(plugin)]
  }

  class ConfigFile {
    var field: PluginsField

    /** `upsert_plugin_config`; false is the error for a field that is no array. */
    method Upsert(plugin: Plugin) returns (ok: bool)
      modifies this
      ensures ok == !old(field).NotAnArray?
      ensures field == match old(field)
        case Missing => List([PluginElement(plugin)])
        case List(elements) => List(Upserted(elements, plugin))
        case NotAnArray => NotAnArray
    {
      if field.NotAnArray? {
        return false;
      }
      if field.Missing? {
        field := List([]);
      }
      field := List(WithoutName(field.elements, plugin.name));
      field := List(field.elements + [PluginElement(plugin)]);
      ok := true;
    }
  }

  function LoadedElement(e: Element): seq<Plugin> {
    match e
    case PluginElement(p) => [p]
    case NamelessElement(p) => [p.(name := "")]
    case OtherElement(_, _) => []
  }

  /** The file is readable as a configuration when no element is refused. */
  predicate Loads(elements: seq<Element>) {
    forall e <- elements :: !e.OtherElement?
  }

  /** The registry that the elements give. */
  function Loaded(elements: seq<Element>): seq<Plugin> {
    if elements == [] then [] else LoadedElement(elements[0]) + Loaded(elements[1..])
  }

  lemma {:induction false} WithoutNameMembers(elements: seq<Element>, name: string)
    ensures forall e :: e in WithoutName(elements, name) <==> e in elements && ElementName(e) != Some(name)
  {
    if elements != [] {
      WithoutNameMembers(elements[1..], name);
      assert forall e :: e in elements <==> e == elements[0] || e in elements[1..];
    }
  }

  lemma {:induction false} WithoutNameKeeps(elements: seq<Element>, name: string)
    requires forall e <- elements :: ElementName(e) != Some(name)
    ensures WithoutName(elements, name) == elements
  {
    if elements != [] {
      WithoutNameKeeps(elements[1..], name);
    }
  }

  lemma {:induction false} WithoutNameOfConcat(a: seq<Element>, b: seq<Element>, name: string)
    ensures WithoutName(a + b, name) == WithoutName(a, name) + WithoutName(b, name)
  {
    if a == [] {
      assert a + b == b;
    } else {
      assert (a + b)[1..] == a[1..] + b;
      WithoutNameOfConcat(a[1..], b, name);
    }
  }

  /** The update is idempotent, replaces every element of the name by the new one and drops no other. */
  lemma {:induction false} UpsertTwice(elements: seq<Element>, plugin: Plugin)
    ensures Upserted(Upserted(elements, plugin), plugin) == Upserted(elements, plugin)
    ensures forall e :: e in Upserted(elements, plugin) <==>
        e == PluginElement(plugin) || (e in elements && ElementName(e) != Some(plugin.name))
  {
    var kept := WithoutName(elements, plugin.name);
    WithoutNameMembers(elements, plugin.name);
    WithoutNameKeeps(kept, plugin.name);
    WithoutNameOfConcat(kept, [PluginElement(plugin)], plugin.name);
  }

  lemma {:induction false} LoadedOfConcat(a: seq<Element>, b: seq<Element>)
    ensures Loaded(a + b) == Loaded(a) + Loaded(b)
  {
    if a == [] {
      assert a + b == b;
    } else {
      assert (a + b)[1..] == a[1..] + b;
      LoadedOfConcat(a[1..], b);
    }
  }

  lemma {:induction false} FindInOne(e: Element, name: string)
    ensures FindPlugin(LoadedElement(e), name).Some? <==> LoadedElement(e) != [] && LoadedElement(e)[0].name == name
  {
  }

  /** Later elements hide the first one. */
  lemma {:induction false} FindInElements(e: Element, rest: seq<Element>, name: string)
    ensures FindPlugin(Loaded([e] + rest), name)
         == if FindPlugin(Loaded(rest), name).Some? then FindPlugin(Loaded(rest), name)
            else FindPlugin(LoadedElement(e), name)
  {
    assert ([e] + rest)[1..] == rest;
    FindInMerged(LoadedElement(e), Loaded(rest), name);
  }

  lemma {:induction false} WithoutNameUnfolds(e: Element, rest: seq<Element>, name: string)
    ensures WithoutName([e] + rest, name)
         == if ElementName(e) == Some(name) then WithoutName(rest, name) else [e] + WithoutName(rest, name)
  {
    assert ([e] + rest)[1..] == rest;
    assert [] + WithoutName(rest, name) == WithoutName(rest, name);
  }

  lemma {:induction false} SameFind(e: Element, rest: seq<Element>, kept: seq<Element>, name: string, other: string)
    requires other != name && FindPlugin(Loaded(kept), other) == FindPlugin(Loaded(rest), other)
    ensures FindPlugin(Loaded(if ElementName(e) == Some(name) then kept else [e] + kept), other)
         == FindPlugin(Loaded([e] + rest), other)
  {
    FindInElements(e, rest, other);
    FindInElements(e, kept, other);
    FindInOne(e, other);
  }

  /** Removing a name leaves what every other name finds. */
  lemma {:induction false} WithoutNameLookup(elements: seq<Element>, name: string, other: string)
    requires other != name
    ensures FindPlugin(Loaded(WithoutName(elements, name)), other) == FindPlugin(Loaded(elements), other)
  {
    if elements != [] {
      var e, rest := elements[0], elements[1..];
      assert elements == [e] + rest;
      WithoutNameLookup(rest, name, other);
      WithoutNameUnfolds(e, rest, name);
      SameFind(e, rest, WithoutName(rest, name), name, other);
    }
  }

  /** After the update the new plugin is what its name finds; every other name finds what it did,
      and a file that could be read can be read again. */
  lemma {:induction false} UpsertLookup(elements: seq<Element>, plugin: Plugin, name: string)
    ensures FindPlugin(Loaded(Upserted(elements, plugin)), name)
         == if name == plugin.name then Some(plugin) else FindPlugin(Loaded(elements), name)
    ensures Loads(elements) ==> Loads(Upserted(elements, plugin))
  {
    var kept, added := WithoutName(elements, plugin.name), PluginElement(plugin);
    if name != plugin.name {
      WithoutNameLookup(elements, plugin.name, name);
    }
    LoadedOfConcat(kept, [added]);
    assert Loaded([added]) == LoadedElement(added) + Loaded([added][1..]) == [plugin];
    FindInMerged(Loaded(kept), [plugin], name);
    FindInOne(added, name);
    WithoutNameMembers(elements, plugin.name);
  }

  /** The elements of other names stay in their order, and the new one comes last. */
  lemma {:induction false} UpsertKeepsOrder(elements: seq<Element>, plugin: Plugin) returns (kept: seq<Element>, at: seq<nat>)
    ensures Upserted(elements, plugin) == kept + [PluginElement(plugin)] && Picks(kept, elements, at)
  {
    kept := WithoutName(elements, plugin.name);
    at := KeptAt(elements, plugin.name);
  }

  lemma {:induction false} KeptAt(elements: seq<Element>, name: string) returns (at: seq<nat>)
    ensures Picks(WithoutName(elements, name), elements, at)
  {
    at := [];
    if elements != [] {
      var rest := KeptAt(elements[1..], name);
      var kept := WithoutName(elements[1..], name);
      if ElementName(elements[0]) == Some(name) {
        PickLater(kept, elements, rest);
        assert WithoutName(elements, name) == [] + kept == kept;
        at := Shifted(rest, false);
      } else {
        PickFirst(kept, elements, rest);
        at := Shifted(rest, true);
      }
    }
  }

  /** Which elements are there afterwards: the new one, and those that do not have its name. An
      element without a name has none, whatever else it holds. */
  lemma {:induction false} UpsertDropsByName(elements: seq<Element>, plugin: Plugin, e: Element)
    ensures e in Upserted(elements, plugin) <==>
      || e == PluginElement(plugin)
      || (e in elements && match e
          case PluginElement(p) => p.name != plugin.name
          case NamelessElement(_) => true
          case OtherElement(name, _) => name != Some(plugin.name))
  {
    WithoutNameMembers(elements, plugin.name);
  }

  /** An element without a name is found under the empty name only. */
  lemma {:induction false} NamelessIsEmpty(p: Plugin, name: string)
    ensures FindPlugin(Loaded([NamelessElement(p)]), name) == if name == "" then Some(p.(name := "")) else None
  {
    var e := NamelessElement(p);
    assert [e][1..] == [] && Loaded([e]) == LoadedElement(e) + Loaded([]) == [p.(name := "")];
    FindInOne(e, name);
  }
}

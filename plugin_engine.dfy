// The plugin engine: the registry of loaded plugins with their enabled state,
// the depth-first topological sort that orders plugins after the plugins they
// depend on, the dependency check, and initialization in that order.
// Loading assemblies and running a plugin's own code are outside the model:
// loading becomes `Register`, and the outcome of a plugin's initialization is
// a parameter.

module PluginEngines {
  import opened Common
  import opened Text

  /** A loaded plugin (`IAriaPlugin`); a null dependency list is empty. */
  datatype Plugin = Plugin(pluginId: string, pluginName: string, version: string, description: string, author: string,
                           dependencies: seq<string>)

  datatype PluginInfo = PluginInfo(pluginId: string, pluginName: string, version: string, description: string,
                                   author: string, dependencies: seq<string>, isEnabled: bool, isLoaded: bool,
                                   errorMessage: Option<string>)

  function IdsOf(s: seq<Plugin>): set<string> {
    set i | 0 <= i < |s| :: s[i].pluginId
  }

  predicate DistinctIds(s: seq<Plugin>) {
    forall i, j :: 0 <= i < j < |s| ==> s[i].pluginId != s[j].pluginId
  }

  /** `plugins.FirstOrDefault(p => p.PluginId == id)`. */
  function FindPlugin(plugins: seq<Plugin>, id: string): (k: Option<nat>)
    ensures k.Some? ==> k.value < |plugins| && plugins[k.value].pluginId == id
    ensures k.None? <==> id !in IdsOf(plugins)
  {
    if plugins == [] then None
    else if plugins[0].pluginId == id then Some(0)
    else
      assert IdsOf(plugins) == {plugins[0].pluginId} + IdsOf(plugins[1..]) by {
        assert forall i :: 1 <= i < |plugins| ==> plugins[i] == plugins[1..][i - 1];
      }
      match FindPlugin(plugins[1..], id)
      case None => None
      case Some(k) => Some(k + 1)
  }

  // ---------------------------------------------------------------------------
  // The dependency graph
  // ---------------------------------------------------------------------------

  /** Plugin `a` lists `b`, a loaded plugin, among its dependencies. */
  ghost predicate DependsOn(plugins: seq<Plugin>, a: string, b: string) {
    b in IdsOf(plugins) && exists k :: 0 <= k < |plugins| && plugins[k].pluginId == a && b in plugins[k].dependencies
  }

  ghost predicate IsPath(plugins: seq<Plugin>, path: seq<string>) {
    forall i :: 0 <= i < |path| - 1 ==> DependsOn(plugins, path[i], path[i + 1])
  }

  /** `a` depends on `b`, directly or through other plugins, or is `b`. */
  ghost predicate Reaches(plugins: seq<Plugin>, a: string, b: string) {
    exists path :: IsPath(plugins, path) && |path| > 0 && path[0] == a && path[|path| - 1] == b
  }

  /** No plugin depends, through any chain, on a plugin that depends on it. */
  ghost predicate Acyclic(plugins: seq<Plugin>) {
    forall a, b :: DependsOn(plugins, a, b) ==> !Reaches(plugins, b, a)
  }

  /** Some plugin before position `i` has id `d`. */
  predicate PlacedBefore(sorted: seq<Plugin>, i: int, d: string) {
    exists m :: 0 <= m < i && m < |sorted| && sorted[m].pluginId == d
  }

  /** Every loaded dependency of a sorted plugin comes before it, unless it
    * depends back on that plugin (a cycle). */
  ghost predicate DepsPlaced(plugins: seq<Plugin>, sorted: seq<Plugin>) {
    forall i, j :: 0 <= i < |sorted| && 0 <= j < |sorted[i].dependencies| && sorted[i].dependencies[j] in IdsOf(plugins) ==>
      PlacedBefore(sorted, i, sorted[i].dependencies[j]) || Reaches(plugins, sorted[i].dependencies[j], sorted[i].pluginId)
  }

  /** The state of the sort between visits: `visited` holds the ids of the
    * plugins placed so far, each loaded and placed once. */
  ghost predicate SortState(plugins: seq<Plugin>, sorted: seq<Plugin>, visited: set<string>) {
    && visited == IdsOf(sorted)
    && DistinctIds(sorted)
    && (forall i :: 0 <= i < |sorted| ==> sorted[i] in plugins)
    && DepsPlaced(plugins, sorted)
  }

  lemma SubsetCard<T>(a: set<T>, b: set<T>, x: T)
    requires a <= b && x in b && x !in a
    ensures |a| < |b|
  {
    assert b == a + (b - a);
    assert x in b - a;
  }

  /** Placing more plugins after the sorted ones keeps what holds of them. */
  lemma ExtendKeepsPlaced(sorted: seq<Plugin>, longer: seq<Plugin>, i: int, d: string)
    requires sorted <= longer && PlacedBefore(sorted, i, d) && i <= |sorted|
    ensures PlacedBefore(longer, i, d)
  {
    var m :| 0 <= m < i && m < |sorted| && sorted[m].pluginId == d;
    assert longer[m] == sorted[m];
  }

  /** A dependency that is on the visiting stack depends back on the plugin. */
  lemma StackReaches(plugins: seq<Plugin>, stack: seq<string>, p: string, m: nat)
    requires IsPath(plugins, stack) && m < |stack| && DependsOn(plugins, stack[|stack| - 1], p)
    ensures Reaches(plugins, stack[m], p)
  {
    var path := stack[m..] + [p];
    assert IsPath(plugins, path) by {
      forall i | 0 <= i < |path| - 1 ensures DependsOn(plugins, path[i], path[i + 1]) {
        if i < |path| - 2 {
          assert path[i] == stack[m + i] && path[i + 1] == stack[m + i + 1];
        }
      }
    }
  }

  lemma SelfReaches(plugins: seq<Plugin>, p: string)
    ensures Reaches(plugins, p, p)
  {
    assert IsPath(plugins, [p]);
  }

  /** Appending the plugin whose loaded dependencies are all placed or on the
    * stack keeps the sort state. */
  lemma AppendKeepsState(plugins: seq<Plugin>, sorted: seq<Plugin>, visited: set<string>, p: Plugin,
                         visiting: set<string>, stack: seq<string>)
    requires SortState(plugins, sorted, visited) && p in plugins && p.pluginId !in visited
    requires forall x :: x in stack <==> x in visiting
    requires IsPath(plugins, stack) && (|stack| > 0 ==> DependsOn(plugins, stack[|stack| - 1], p.pluginId))
    requires forall j :: 0 <= j < |p.dependencies| && p.dependencies[j] in IdsOf(plugins) ==>
      p.dependencies[j] in visited || p.dependencies[j] in visiting + {p.pluginId}
    ensures SortState(plugins, sorted + [p], visited + {p.pluginId})
  {
    var s := sorted + [p];
    assert IdsOf(s) == IdsOf(sorted) + {p.pluginId} by {
      assert forall i :: 0 <= i < |sorted| ==> s[i] == sorted[i];
      assert s[|sorted|] == p;
      forall x | x in IdsOf(s) ensures x in IdsOf(sorted) + {p.pluginId} {
        var i :| 0 <= i < |s| && s[i].pluginId == x;
      }
      forall x | x in IdsOf(sorted) ensures x in IdsOf(s) {
        var i :| 0 <= i < |sorted| && sorted[i].pluginId == x;
        assert s[i].pluginId == x;
      }
    }
    forall i, j | 0 <= i < |s| && 0 <= j < |s[i].dependencies| && s[i].dependencies[j] in IdsOf(plugins)
      ensures PlacedBefore(s, i, s[i].dependencies[j]) || Reaches(plugins, s[i].dependencies[j], s[i].pluginId)
    {
      var d := s[i].dependencies[j];
      if i < |sorted| {
        assert s[i] == sorted[i];
        if PlacedBefore(sorted, i, d) {
          ExtendKeepsPlaced(sorted, s, i, d);
        }
      } else if d in visited {
        var m :| 0 <= m < |sorted| && sorted[m].pluginId == d;
        assert s[m] == sorted[m];
      } else if d == p.pluginId {
        SelfReaches(plugins, d);
      } else {
        var m :| 0 <= m < |stack| && stack[m] == d;
        StackReaches(plugins, stack, p.pluginId, m);
      }
    }
  }

  /** The local function `Visit` of `TopologicalSort`: a plugin already placed,
    * or on the stack (a cycle), is skipped; otherwise its loaded dependencies
    * are visited in order and the plugin is placed after them. */
  method Visit(plugins: seq<Plugin>, p: Plugin, sorted0: seq<Plugin>, visited0: set<string>,
               visiting: set<string>, ghost stack: seq<string>)
    returns (sorted: seq<Plugin>, visited: set<string>)
    requires DistinctIds(plugins) && p in plugins
    requires SortState(plugins, sorted0, visited0)
    requires visiting <= IdsOf(plugins) && visiting !! visited0
    requires forall x :: x in stack <==> x in visiting
    requires IsPath(plugins, stack) && (|stack| > 0 ==> DependsOn(plugins, stack[|stack| - 1], p.pluginId))
    ensures SortState(plugins, sorted, visited)
    ensures sorted0 <= sorted && visited0 <= visited && visited !! visiting
    ensures p.pluginId in visiting || p.pluginId in visited
    decreases |IdsOf(plugins) - visited0 - visiting|
  {
    if p.pluginId in visited0 || p.pluginId in visiting {
      return sorted0, visited0;
    }
    var inner := visiting + {p.pluginId};
    ghost var innerStack := stack + [p.pluginId];
    assert p.pluginId in IdsOf(plugins) by {
      var k :| 0 <= k < |plugins| && plugins[k] == p;
    }
    assert IsPath(plugins, innerStack) by {
      forall i | 0 <= i < |innerStack| - 1 ensures DependsOn(plugins, innerStack[i], innerStack[i + 1]) {
        if i < |stack| - 1 {
          assert innerStack[i] == stack[i] && innerStack[i + 1] == stack[i + 1];
        }
      }
    }
    sorted, visited := sorted0, visited0;
    for i := 0 to |p.dependencies|
      invariant SortState(plugins, sorted, visited)
      invariant sorted0 <= sorted && visited0 <= visited && visited !! inner
      invariant forall j :: 0 <= j < i && p.dependencies[j] in IdsOf(plugins) ==>
        p.dependencies[j] in visited || p.dependencies[j] in inner
    {
      match FindPlugin(plugins, p.dependencies[i]) {
        case Some(k) =>
          assert DependsOn(plugins, p.pluginId, plugins[k].pluginId) by {
            var w :| 0 <= w < |plugins| && plugins[w] == p;
          }
          SubsetCard(IdsOf(plugins) - visited - inner, IdsOf(plugins) - visited0 - visiting, p.pluginId);
          sorted, visited := Visit(plugins, plugins[k], sorted, visited, inner, innerStack);
        case None =>
      }
    }
    AppendKeepsState(plugins, sorted, visited, p, visiting, stack);
    sorted := sorted + [p];
    visited := visited + {p.pluginId};
  }

  /** `TopologicalSort`: every loaded plugin exactly once, each after the loaded
    * plugins it depends on unless they form a cycle with it. */
  method TopologicalSort(plugins: seq<Plugin>) returns (sorted: seq<Plugin>)
    requires DistinctIds(plugins)
    ensures forall p :: p in sorted <==> p in plugins
    ensures DistinctIds(sorted)
    ensures DepsPlaced(plugins, sorted)
  {
    sorted := [];
    var visited: set<string> := {};
    for i := 0 to |plugins|
      invariant SortState(plugins, sorted, visited)
      invariant forall j :: 0 <= j < i ==> plugins[j].pluginId in visited
    {
      sorted, visited := Visit(plugins, plugins[i], sorted, visited, {}, []);
    }
    forall p | p in plugins ensures p in sorted {
      var j :| 0 <= j < |plugins| && plugins[j] == p;
      var m :| 0 <= m < |sorted| && sorted[m].pluginId == p.pluginId;
      var k :| 0 <= k < |plugins| && plugins[k] == sorted[m];
    }
  }

  /** Every loaded dependency of a sorted plugin is placed before it. */
  predicate DepsFirst(ids: set<string>, sorted: seq<Plugin>) {
    forall i, j :: 0 <= i < |sorted| && 0 <= j < |sorted[i].dependencies| && sorted[i].dependencies[j] in ids ==>
      PlacedBefore(sorted, i, sorted[i].dependencies[j])
  }

  /** Without cycles, every loaded dependency of a plugin is placed before it. */
  lemma DependenciesFirst(plugins: seq<Plugin>, sorted: seq<Plugin>)
    requires Acyclic(plugins) && DepsPlaced(plugins, sorted)
    requires forall i :: 0 <= i < |sorted| ==> sorted[i] in plugins
    ensures DepsFirst(IdsOf(plugins), sorted)
  {
    forall i, j | 0 <= i < |sorted| && 0 <= j < |sorted[i].dependencies| && sorted[i].dependencies[j] in IdsOf(plugins)
      ensures PlacedBefore(sorted, i, sorted[i].dependencies[j])
    {
      var k :| 0 <= k < |plugins| && plugins[k] == sorted[i];
      assert DependsOn(plugins, sorted[i].pluginId, sorted[i].dependencies[j]);
    }
  }

  /** The order `InitializePluginsAsync` visits the plugins in. */
  method InitializationOrder(plugins: seq<Plugin>) returns (sorted: seq<Plugin>)
    requires DistinctIds(plugins)
    ensures forall p :: p in sorted <==> p in plugins
    ensures DistinctIds(sorted)
    ensures Acyclic(plugins) ==> DepsFirst(IdsOf(plugins), sorted)
  {
    sorted := TopologicalSort(plugins);
    if Acyclic(plugins) {
      DependenciesFirst(plugins, sorted);
    }
  }

  // ---------------------------------------------------------------------------
  // Enabled state and dependency check
  // ---------------------------------------------------------------------------

  /** `GetPluginEnabledState`: the saved state of a plugin, enabled when none
    * is saved. */
  function SavedState(saved: map<string, bool>, id: string): (r: bool)
    ensures !r ==> id in saved && !saved[id]
  {
    if id in saved then saved[id] else true
  }

  /** `IsEnabled`: a blank id is never enabled; a loaded plugin answers from
    * its info, any other id from the saved state. */
  function IsEnabledIn(infos: map<string, PluginInfo>, saved: map<string, bool>, id: string): (r: bool)
    ensures IsBlank(id) ==> !r
    ensures !IsBlank(id) && id in infos ==> (r <==> infos[id].isEnabled)
    ensures !IsBlank(id) && id !in infos ==> (r <==> SavedState(saved, id))
  {
    !IsBlank(id) && (if id in infos then infos[id].isEnabled else SavedState(saved, id))
  }

  /** The core application is always present as a dependency, whatever the case. */
  predicate IsCore(d: string) {
    EqualsIgnoreCase(d, "core")
  }

  /** Every dependency is the core or a loaded, enabled plugin. */
  predicate DependenciesMet(ids: set<string>, infos: map<string, PluginInfo>, saved: map<string, bool>, p: Plugin) {
    forall j :: 0 <= j < |p.dependencies| ==>
      IsCore(p.dependencies[j]) || (p.dependencies[j] in ids && IsEnabledIn(infos, saved, p.dependencies[j]))
  }

  /** `CheckDependencies`: stops at the first dependency that is neither the
    * core nor loaded and enabled. */
  method CheckDependencies(loaded: seq<Plugin>, infos: map<string, PluginInfo>, saved: map<string, bool>, p: Plugin)
    returns (ok: bool)
    ensures ok <==> forall j :: 0 <= j < |p.dependencies| ==>
      IsCore(p.dependencies[j]) || (p.dependencies[j] in IdsOf(loaded) && IsEnabledIn(infos, saved, p.dependencies[j]))
    ensures ok == DependenciesMet(IdsOf(loaded), infos, saved, p)
  {
    for i := 0 to |p.dependencies|
      invariant forall j :: 0 <= j < i ==>
        IsCore(p.dependencies[j]) || (p.dependencies[j] in IdsOf(loaded) && IsEnabledIn(infos, saved, p.dependencies[j]))
    {
      var d := p.dependencies[i];
      if IsCore(d) {
        continue;
      }
      if FindPlugin(loaded, d).None? {
        return false;
      }
      if !IsEnabledIn(infos, saved, d) {
        return false;
      }
    }
    return true;
  }

  const DependenciesMissing: string := "required dependencies not found"

  /** One plugin of `InitializePluginsAsync`: a disabled plugin is skipped; one
    * whose dependencies are not met is disabled with an error message; otherwise
    * the plugin is initialized, and `initError` is the message of the exception
    * its initialization throws, if any. */
  function InitStep(ids: set<string>, infos: map<string, PluginInfo>, saved: map<string, bool>, p: Plugin,
                    initError: Option<string>): (r: map<string, PluginInfo>)
    requires p.pluginId in infos
    ensures r.Keys == infos.Keys
    ensures forall k :: k in infos && k != p.pluginId ==> r[k] == infos[k]
    ensures forall k :: k in infos ==> r[k].pluginId == infos[k].pluginId
    ensures forall k :: IsEnabledIn(r, saved, k) ==> IsEnabledIn(infos, saved, k)
    ensures IsEnabledIn(r, saved, p.pluginId) ==> DependenciesMet(ids, r, saved, p)
    ensures IsEnabledIn(infos, saved, p.pluginId) && !DependenciesMet(ids, infos, saved, p) ==>
      !r[p.pluginId].isEnabled && r[p.pluginId].errorMessage == Some(DependenciesMissing)
  {
    var id := p.pluginId;
    if !IsEnabledIn(infos, saved, id) then infos
    else if !DependenciesMet(ids, infos, saved, p) then
      infos[id := infos[id].(isEnabled := false, errorMessage := Some(DependenciesMissing))]
    else if initError.Some? then
      var r := infos[id := infos[id].(errorMessage := initError)];
      assert forall k :: IsEnabledIn(r, saved, k) == IsEnabledIn(infos, saved, k);
      r
    else infos
  }

  /** Initializing the plugin at position `i` of the sorted order keeps every
    * earlier plugin that is still enabled with its dependencies met: those
    * dependencies come earlier still, so the step does not touch them. */
  lemma {:induction false} InitStepKeepsMet(plugins: seq<Plugin>, sorted: seq<Plugin>, infos: map<string, PluginInfo>,
                                            saved: map<string, bool>, i: nat, initError: Option<string>)
    requires DepsFirst(IdsOf(plugins), sorted) && DistinctIds(sorted)
    requires i < |sorted| && sorted[i].pluginId in infos
    requires forall m :: 0 <= m < i && IsEnabledIn(infos, saved, sorted[m].pluginId) ==>
      DependenciesMet(IdsOf(plugins), infos, saved, sorted[m])
    ensures var r := InitStep(IdsOf(plugins), infos, saved, sorted[i], initError);
      forall m :: 0 <= m <= i && IsEnabledIn(r, saved, sorted[m].pluginId) ==>
        DependenciesMet(IdsOf(plugins), r, saved, sorted[m])
  {
    var ids := IdsOf(plugins);
    var r := InitStep(ids, infos, saved, sorted[i], initError);
    forall m | 0 <= m < i && IsEnabledIn(r, saved, sorted[m].pluginId)
      ensures DependenciesMet(ids, r, saved, sorted[m])
    {
      var q := sorted[m];
      assert IsEnabledIn(infos, saved, q.pluginId);
      forall j | 0 <= j < |q.dependencies|
        ensures IsCore(q.dependencies[j]) || (q.dependencies[j] in ids && IsEnabledIn(r, saved, q.dependencies[j]))
      {
        var d := q.dependencies[j];
        if !IsCore(d) {
          assert d in ids && IsEnabledIn(infos, saved, d);
          var m' :| 0 <= m' < m && sorted[m'].pluginId == d;
          assert d != sorted[i].pluginId;
        }
      }
    }
  }

  /** What holds of every sorted plugin holds of every loaded one. */
  lemma EveryPluginSorted(plugins: seq<Plugin>, sorted: seq<Plugin>, infos: map<string, PluginInfo>,
                          saved: map<string, bool>)
    requires forall p :: p in sorted <==> p in plugins
    requires forall m :: 0 <= m < |sorted| && IsEnabledIn(infos, saved, sorted[m].pluginId) ==>
      DependenciesMet(IdsOf(plugins), infos, saved, sorted[m])
    ensures forall k :: 0 <= k < |plugins| && IsEnabledIn(infos, saved, plugins[k].pluginId) ==>
      DependenciesMet(IdsOf(plugins), infos, saved, plugins[k])
  {
    forall k | 0 <= k < |plugins| && IsEnabledIn(infos, saved, plugins[k].pluginId)
      ensures DependenciesMet(IdsOf(plugins), infos, saved, plugins[k])
    {
      assert plugins[k] in sorted;
      var m :| 0 <= m < |sorted| && sorted[m] == plugins[k];
    }
  }

  /** The body of the loop of `InitializePluginsAsync` for one plugin. */
  method InitializeOne(loaded: seq<Plugin>, infos: map<string, PluginInfo>, saved: map<string, bool>, p: Plugin,
                       initError: Option<string>) returns (r: map<string, PluginInfo>)
    requires p.pluginId in infos
    ensures r == InitStep(IdsOf(loaded), infos, saved, p, initError)
  {
    var id := p.pluginId;
    if !IsEnabledIn(infos, saved, id) {
      return infos;
    }
    var ok := CheckDependencies(loaded, infos, saved, p);
    if !ok {
      return infos[id := infos[id].(isEnabled := false, errorMessage := Some(DependenciesMissing))];
    }
    if initError.Some? {
      return infos[id := infos[id].(errorMessage := initError)];
    }
    return infos;
  }

  // ---------------------------------------------------------------------------
  // The engine
  // ---------------------------------------------------------------------------

  /** `PluginEngine`: the loaded plugins, their infos by id, and the saved
    * enabled states (the `PluginStates` table). The source keeps the plugins
    * in a `ConcurrentDictionary`, whose enumeration order is unspecified; the
    * model keeps them in load order, one order the dictionary may give. */
  class PluginEngine {
    var plugins: seq<Plugin>
    var infos: map<string, PluginInfo>
    var savedStates: map<string, bool>

    predicate Valid()
      reads this`plugins, this`infos
    {
      && DistinctIds(plugins)
      && infos.Keys == IdsOf(plugins)
      && (forall id :: id in infos ==> infos[id].pluginId == id)
    }

    constructor(saved: map<string, bool>)
      ensures Valid() && plugins == [] && infos == map[] && savedStates == saved
    {
      plugins := [];
      infos := map[];
      savedStates := saved;
    }

    function IsEnabled(id: string): bool
      reads this`infos, this`savedStates
    {
      IsEnabledIn(infos, savedStates, id)
    }

    /** `IsLoaded`. */
    function IsLoaded(id: string): (r: bool)
      reads this`plugins
      ensures r <==> !IsBlank(id) && exists k :: 0 <= k < |plugins| && plugins[k].pluginId == id
    {
      !IsBlank(id) && FindPlugin(plugins, id).Some?
    }

    /** `GetPlugin`. */
    function GetPlugin(id: string): (r: Option<Plugin>)
      reads this`plugins
      ensures r.Some? ==> r.value in plugins && r.value.pluginId == id && !IsBlank(id)
      ensures r.None? ==> IsBlank(id) || id !in IdsOf(plugins)
    {
      if IsBlank(id) then None
      else match FindPlugin(plugins, id)
        case None => None
        case Some(k) => Some(plugins[k])
    }

    /** The bookkeeping of `LoadPluginFromDll` for one plugin it found: a
      * plugin whose id is already loaded is skipped; otherwise it is loaded
      * with the saved enabled state. */
    method Register(p: Plugin)
      requires Valid()
      modifies this`plugins, this`infos
      ensures Valid() && savedStates == old(savedStates)
      ensures p.pluginId in old(infos) ==> plugins == old(plugins) && infos == old(infos)
      ensures p.pluginId !in old(infos) ==>
        && plugins == old(plugins) + [p]
        && infos == old(infos)[p.pluginId := PluginInfo(p.pluginId, p.pluginName, p.version, p.description, p.author,
                                                        p.dependencies, SavedState(savedStates, p.pluginId), true, None)]
    {
      if p.pluginId in infos {
        return;
      }
      var s := plugins + [p];
      assert IdsOf(s) == IdsOf(plugins) + {p.pluginId} by {
        assert s[|plugins|] == p;
        forall x | x in IdsOf(s) ensures x in IdsOf(plugins) + {p.pluginId} {
          var i :| 0 <= i < |s| && s[i].pluginId == x;
        }
        forall x | x in IdsOf(plugins) ensures x in IdsOf(s) {
          var i :| 0 <= i < |plugins| && plugins[i].pluginId == x;
          assert s[i].pluginId == x;
        }
      }
      plugins := s;
      infos := infos[p.pluginId := PluginInfo(p.pluginId, p.pluginName, p.version, p.description, p.author,
                                              p.dependencies, SavedState(savedStates, p.pluginId), true, None)];
    }

    /** `LoadPlugins` over the plugins found in the folder's assemblies. */
    method Load(found: seq<Plugin>)
      requires Valid()
      modifies this`plugins, this`infos
      ensures Valid() && savedStates == old(savedStates)
      ensures old(plugins) <= plugins
      ensures IdsOf(plugins) == IdsOf(old(plugins)) + IdsOf(found)
    {
      for i := 0 to |found|
        invariant Valid() && savedStates == old(savedStates)
        invariant old(plugins) <= plugins
        invariant IdsOf(plugins) == IdsOf(old(plugins)) + IdsOf(found[..i])
      {
        assert IdsOf(found[..i + 1]) == IdsOf(found[..i]) + {found[i].pluginId} by {
          var a, b := found[..i], found[..i + 1];
          assert b[i] == found[i];
          forall x | x in IdsOf(b) ensures x in IdsOf(a) + {found[i].pluginId} {
            var k :| 0 <= k < |b| && b[k].pluginId == x;
            if k < i { assert a[k] == b[k]; }
          }
          forall x | x in IdsOf(a) ensures x in IdsOf(b) {
            var k :| 0 <= k < |a| && a[k].pluginId == x;
            assert b[k] == a[k];
          }
        }
        Register(found[i]);
      }
      assert found[..|found|] == found;
    }

    /** `EnablePlugin` and `DisablePlugin`: a blank id is invalid, an id that is
      * not loaded is not found; otherwise the flag is set and saved. */
    method SetEnabled(id: string, enabled: bool) returns (r: Result<bool>)
      requires Valid()
      modifies this`infos, this`savedStates
      ensures Valid() && plugins == old(plugins)
      ensures IsBlank(id) ==> r == Failure(Validation("invalid plugin id")) && unchanged(this)
      ensures !IsBlank(id) && id !in old(infos) ==> r == Failure(PluginNotFound(id)) && unchanged(this)
      ensures !IsBlank(id) && id in old(infos) ==>
        && r == Success(true)
        && infos == old(infos)[id := old(infos)[id].(isEnabled := enabled)]
        && savedStates == old(savedStates)[id := enabled]
        && IsEnabled(id) == enabled
    {
      if IsBlank(id) {
        return Failure(Validation("invalid plugin id"));
      }
      if id !in infos {
        return Failure(PluginNotFound(id));
      }
      infos := infos[id := infos[id].(isEnabled := enabled)];
      savedStates := savedStates[id := enabled];
      return Success(true);
    }

    /** `GetEnabledPlugins`, in the order of `plugins` (see the class comment). */
    function EnabledPlugins(): (r: seq<Plugin>)
      reads this
      ensures forall p :: p in r <==> p in plugins && IsEnabled(p.pluginId)
    {
      Filter(plugins, infos, savedStates)
    }

    /** `InitializePluginsAsync`: the plugins in dependency order; `initError`
      * gives the message of the exception a plugin's own initialization
      * throws. No plugin is enabled by it, and when the dependencies form no
      * cycle every plugin left enabled has its dependencies loaded and enabled. */
    method InitializePlugins(initError: string -> Option<string>)
      requires Valid()
      modifies this`infos
      ensures Valid() && plugins == old(plugins) && savedStates == old(savedStates)
      ensures infos.Keys == old(infos).Keys
      ensures forall id :: IsEnabled(id) ==> old(IsEnabled(id))
      ensures Acyclic(plugins) ==> forall k :: 0 <= k < |plugins| && IsEnabledIn(infos, savedStates, plugins[k].pluginId) ==>
        DependenciesMet(IdsOf(plugins), infos, savedStates, plugins[k])
    {
      infos := InitializeAll(plugins, infos, savedStates, initError);
    }

    /** `ShutdownAllAsync`: every plugin is shut down and forgotten. */
    method ShutdownAll()
      requires Valid()
      modifies this`plugins, this`infos
      ensures Valid() && plugins == [] && infos == map[] && savedStates == old(savedStates)
    {
      plugins := [];
      infos := map[];
    }
  }

  /** The loop of `InitializePluginsAsync` over the plugins in dependency
    * order, on the infos it updates. */
  method InitializeAll(plugins: seq<Plugin>, infos: map<string, PluginInfo>, saved: map<string, bool>,
                       initError: string -> Option<string>) returns (cur: map<string, PluginInfo>)
    requires DistinctIds(plugins) && infos.Keys == IdsOf(plugins)
    requires forall id :: id in infos ==> infos[id].pluginId == id
    ensures cur.Keys == infos.Keys && forall id :: id in cur ==> cur[id].pluginId == id
    ensures forall id :: IsEnabledIn(cur, saved, id) ==> IsEnabledIn(infos, saved, id)
    ensures Acyclic(plugins) ==> forall k :: 0 <= k < |plugins| && IsEnabledIn(cur, saved, plugins[k].pluginId) ==>
      DependenciesMet(IdsOf(plugins), cur, saved, plugins[k])
  {
    var sorted := InitializationOrder(plugins);
    var ids := IdsOf(plugins);
    ghost var ordered := DepsFirst(ids, sorted);
    cur := infos;
    for i := 0 to |sorted|
      invariant cur.Keys == infos.Keys == ids
      invariant forall id :: id in cur ==> cur[id].pluginId == id
      invariant forall id :: IsEnabledIn(cur, saved, id) ==> IsEnabledIn(infos, saved, id)
      invariant ordered ==> forall m :: 0 <= m < i && IsEnabledIn(cur, saved, sorted[m].pluginId) ==>
        DependenciesMet(ids, cur, saved, sorted[m])
    {
      var p := sorted[i];
      assert p.pluginId in cur by {
        assert p in sorted;
        var k :| 0 <= k < |plugins| && plugins[k] == p;
      }
      if ordered {
        InitStepKeepsMet(plugins, sorted, cur, saved, i, initError(p.pluginId));
      }
      cur := InitializeOne(plugins, cur, saved, p, initError(p.pluginId));
    }
    if ordered {
      EveryPluginSorted(plugins, sorted, cur, saved);
    }
  }

  /** The plugins enabled according to `infos` and `saved`, in order. */
  function Filter(plugins: seq<Plugin>, infos: map<string, PluginInfo>, saved: map<string, bool>): (r: seq<Plugin>)
    ensures forall p :: p in r <==> p in plugins && IsEnabledIn(infos, saved, p.pluginId)
    ensures |r| <= |plugins|
  {
    if plugins == [] then []
    else
      var rest := Filter(plugins[1..], infos, saved);
      assert forall p :: p in plugins <==> p == plugins[0] || p in plugins[1..];
      if IsEnabledIn(infos, saved, plugins[0].pluginId) then [plugins[0]] + rest else rest
  }
}

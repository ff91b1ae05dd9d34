// The navigation engine: a registry of views by name, a back stack of the
// views navigated to, and the current view and its parameter.
// Creating the view object, its view model and showing it in the main frame
// is WPF work; its only effect here is that it may fail, which a
// `createError` parameter stands for.

module NavigationEngines {
  import opened Common
  import opened Text

  /** The view's type and its optional view model type, by name. */
  datatype ViewRegistration = ViewRegistration(viewType: string, viewModelType: Option<string>)

  /** A registry entry: the name as first registered (the dictionary keeps
    * the key it was created with) and the latest registration. */
  datatype RegisteredView = RegisteredView(name: string, registration: ViewRegistration)

  /** A back-stack entry. A parameter is an opaque token. */
  datatype NavigationEntry = NavigationEntry(viewName: string, parameter: Option<string>)

  /** The arguments of the `Navigated` event. */
  datatype NavigationEvent = NavigationEvent(fromView: string, toView: string, parameter: Option<string>)

  /** The registry's `StringComparer.OrdinalIgnoreCase`: names with the same
    * key are the same view. */
  function Key(name: string): string {
    ToLower(name)
  }

  function Reverse<T>(s: seq<T>): (r: seq<T>)
    ensures |r| == |s|
    ensures forall i :: 0 <= i < |s| ==> r[i] == s[|s| - 1 - i]
  {
    if s == [] then [] else Reverse(s[1..]) + [s[0]]
  }

  function ViewNames(entries: seq<NavigationEntry>): (r: seq<string>)
    ensures |r| == |entries|
    ensures forall i :: 0 <= i < |entries| ==> r[i] == entries[i].viewName
  {
    if entries == [] then [] else [entries[0].viewName] + ViewNames(entries[1..])
  }

  /** The exception a navigation or registration throws, as an error value. */
  function ArgumentNull(parameter: string): Error {
    Custom("ArgumentNullException", parameter)
  }

  function InvalidOperation(message: string): Error {
    Custom("InvalidOperationException", message)
  }

  const NoMainFrame := "the navigation host is not set; call SetMainFrame first"

  function ViewNotFound(viewName: string): string {
    "view '" + viewName + "' not found; register it first"
  }

  /** The top of the stack is the current view, and no two neighbouring
    * entries name the same view. */
  ghost predicate CoherentStack(stack: seq<NavigationEntry>, currentView: string) {
    (|stack| > 0 ==> stack[|stack| - 1].viewName == currentView)
    && forall i :: 0 <= i < |stack| - 1 ==> stack[i].viewName != stack[i + 1].viewName
  }

  /** On a coherent stack the entry below the top names another view, and
    * dropping the top leaves a coherent stack whose top is that entry. */
  lemma BackStep(stack: seq<NavigationEntry>, currentView: string)
    requires |stack| >= 2 && CoherentStack(stack, currentView)
    ensures stack[|stack| - 2].viewName != currentView
    ensures stack[..|stack| - 2] + [stack[|stack| - 2]] == stack[..|stack| - 1]
    ensures CoherentStack(stack[..|stack| - 1], stack[|stack| - 2].viewName)
  {
    assert stack[|stack| - 2].viewName != stack[|stack| - 1].viewName;
  }

  class NavigationEngine {
    /** Registered views, keyed by `Key` of their name. */
    var registry: map<string, RegisteredView>
    /** The back stack, bottom first: the top is the last element. */
    var stack: seq<NavigationEntry>
    var currentView: string
    var currentParameter: Option<string>
    var hasMainFrame: bool

    /** Every entry sits under its own key, and no blank name is registered. */
    ghost predicate Valid()
      reads this`registry
    {
      forall k :: k in registry ==> Key(registry[k].name) == k && !IsBlank(registry[k].name)
    }

    /** What the push rule keeps. */
    ghost predicate Coherent()
      reads this`stack, this`currentView
    {
      CoherentStack(stack, currentView)
    }

    constructor()
      ensures registry == map[] && stack == [] && currentView == ""
      ensures currentParameter.None? && !hasMainFrame
      ensures Valid() && Coherent()
    {
      registry := map[];
      stack := [];
      currentView := "";
      currentParameter := None;
      hasMainFrame := false;
    }

    /** There is a page to go back to only when the stack holds the current
      * view and at least one more. */
    function CanGoBack(): (r: bool)
      reads this`stack
      ensures r <==> |NavigationHistory()| > 1
    {
      |stack| > 1
    }

    /** The stack's enumeration (top first), reversed: the oldest entry first. */
    function NavigationHistory(): (r: seq<string>)
      reads this`stack
      ensures r == ViewNames(stack)
    {
      Reverse(ViewNames(Reverse(stack)))
    }

    /** Whether `name` is registered, compared case-insensitively. */
    function IsViewRegistered(name: string): (r: bool)
      reads this`registry
      requires Valid()
      ensures r <==> !IsBlank(name) && exists k :: k in registry && EqualsIgnoreCase(registry[k].name, name)
    {
      if IsBlank(name) then false
      else
        assert Key(name) in registry ==> EqualsIgnoreCase(registry[Key(name)].name, name);
        Key(name) in registry
    }

    /** The registration navigation would use for `name`. */
    function Lookup(name: string): (r: Option<ViewRegistration>)
      reads this`registry
      requires Valid()
      ensures r.Some? <==> IsViewRegistered(name)
    {
      if !IsBlank(name) && Key(name) in registry then Some(registry[Key(name)].registration) else None
    }

    /** The registered names; every one is registered, and every registered
      * name matches one of them case-insensitively. */
    function RegisteredViews(): (r: set<string>)
      reads this`registry
      requires Valid()
      ensures forall n :: n in r ==> IsViewRegistered(n)
      ensures forall n :: IsViewRegistered(n) ==> exists m :: m in r && EqualsIgnoreCase(m, n)
    {
      var r := set k | k in registry :: registry[k].name;
      assert forall n :: n in r ==> Key(n) in registry && EqualsIgnoreCase(registry[Key(n)].name, n);
      assert forall n :: IsViewRegistered(n) ==> registry[Key(n)].name in r && EqualsIgnoreCase(registry[Key(n)].name, n);
      r
    }

    method SetMainFrame()
      modifies this`hasMainFrame
      ensures hasMainFrame
      ensures registry == old(registry) && stack == old(stack)
      ensures currentView == old(currentView) && currentParameter == old(currentParameter)
    {
      hasMainFrame := true;
    }

    /** A blank name throws; otherwise the name now resolves to `registration`
      * whatever its case, replacing an earlier one, and every other name
      * resolves as before. */
    method RegisterView(name: string, registration: ViewRegistration) returns (thrown: Option<Error>)
      requires Valid()
      modifies this`registry
      ensures Valid()
      ensures thrown.Some? <==> IsBlank(name)
      ensures thrown.Some? ==> thrown.value == ArgumentNull("name") && registry == old(registry)
      ensures thrown.None? ==> Lookup(name) == Some(registration)
      ensures forall n :: !EqualsIgnoreCase(n, name) ==> Lookup(n) == old(Lookup(n))
      ensures stack == old(stack) && currentView == old(currentView)
      ensures currentParameter == old(currentParameter) && hasMainFrame == old(hasMainFrame)
    {
      if IsBlank(name) {
        return Some(ArgumentNull("name"));
      }
      var k := Key(name);
      var kept := if k in registry then registry[k].name else name;
      assert Key(kept) == k && !IsBlank(kept);
      registry := registry[k := RegisteredView(kept, registration)];
      thrown := None;
    }

    /** A blank name is ignored; otherwise the name no longer resolves, and
      * every other name resolves as before. */
    method UnregisterView(name: string)
      requires Valid()
      modifies this`registry
      ensures Valid()
      ensures !IsViewRegistered(name)
      ensures IsBlank(name) ==> registry == old(registry)
      ensures forall n :: !EqualsIgnoreCase(n, name) ==> Lookup(n) == old(Lookup(n))
      ensures stack == old(stack) && currentView == old(currentView)
      ensures currentParameter == old(currentParameter) && hasMainFrame == old(hasMainFrame)
    {
      if !IsBlank(name) {
        registry := registry - {Key(name)};
      }
    }

    /** Empties the back stack; the current view stays. */
    method ClearHistory()
      modifies this`stack
      ensures stack == [] && !CanGoBack()
      ensures registry == old(registry) && currentView == old(currentView)
      ensures currentParameter == old(currentParameter) && hasMainFrame == old(hasMainFrame)
    {
      stack := [];
    }

    /** What stops `NavigateToAsync`, in the order it checks: a blank name, a
      * missing main frame, an unknown view, then a failure to create the view. */
    function NavigationFailure(viewName: string, createError: Option<string>): (e: Option<Error>)
      reads this`registry, this`hasMainFrame
      requires Valid()
      ensures e.None? <==> !IsBlank(viewName) && hasMainFrame && IsViewRegistered(viewName) && createError.None?
      ensures IsBlank(viewName) ==> e == Some(ArgumentNull("viewName"))
      ensures !IsBlank(viewName) && !hasMainFrame ==> e == Some(InvalidOperation(NoMainFrame))
      ensures !IsBlank(viewName) && hasMainFrame && !IsViewRegistered(viewName) ==>
                e == Some(InvalidOperation(ViewNotFound(viewName)))
    {
      if IsBlank(viewName) then Some(ArgumentNull("viewName"))
      else if !hasMainFrame then Some(InvalidOperation(NoMainFrame))
      else if !IsViewRegistered(viewName) then Some(InvalidOperation(ViewNotFound(viewName)))
      else if createError.Some? then Some(InvalidOperation(createError.value))
      else None
    }

    /** `NavigateToAsync`. Whatever `NavigationFailure` names is thrown and
      * changes nothing. Otherwise the view becomes current with its parameter,
      * and an entry is pushed unless the view was already current (compared
      * by ordinal name). */
    method NavigateTo(viewName: string, parameter: Option<string>, createError: Option<string>)
      returns (r: Result<NavigationEvent>)
      requires Valid()
      modifies this`stack, this`currentView, this`currentParameter
      ensures Valid()
      ensures r.Failure? <==> old(NavigationFailure(viewName, createError)).Some?
      ensures r.Failure? ==> r.error == old(NavigationFailure(viewName, createError)).value
      ensures r.Failure? ==> stack == old(stack) && currentView == old(currentView) && currentParameter == old(currentParameter)
      ensures r.Success? ==> r.value == NavigationEvent(old(currentView), viewName, parameter)
      ensures r.Success? ==> currentView == viewName && currentParameter == parameter
      ensures r.Success? ==> stack == old(stack) + (if old(currentView) == viewName then [] else [NavigationEntry(viewName, parameter)])
      ensures old(Coherent()) ==> Coherent()
    {
      var failure := NavigationFailure(viewName, createError);
      if failure.Some? {
        return Failure(failure.value);
      }
      var previousView := currentView;
      if currentView != viewName {
        stack := stack + [NavigationEntry(viewName, parameter)];
      }
      currentView := viewName;
      currentParameter := parameter;
      r := Success(NavigationEvent(previousView, viewName, parameter));
    }

    /** `NavigateBackAsync`. With at most one entry nothing happens. Otherwise
      * the top entry and the one below it are popped and the engine navigates
      * to the one below, which pushes it again. On a coherent stack a
      * successful step back therefore just drops the top entry. A failed
      * navigation leaves both entries popped and the current view unchanged. */
    method NavigateBack(createError: Option<string>) returns (r: Option<Result<NavigationEvent>>)
      requires Valid()
      modifies this`stack, this`currentView, this`currentParameter
      ensures Valid()
      ensures r.None? <==> |old(stack)| <= 1
      ensures r.None? ==> stack == old(stack) && currentView == old(currentView) && currentParameter == old(currentParameter)
      ensures r.Some? ==> |old(stack)| >= 2
      ensures r.Some? && r.value.Failure? ==>
                stack == old(stack)[..|old(stack)| - 2] && currentView == old(currentView)
      ensures r.Some? && r.value.Success? ==>
                var previous := old(stack)[|old(stack)| - 2];
                currentView == previous.viewName && currentParameter == previous.parameter
      ensures r.Some? && r.value.Success? && old(Coherent()) ==>
                stack == old(stack)[..|old(stack)| - 1] && Coherent()
      ensures registry == old(registry) && hasMainFrame == old(hasMainFrame)
    {
      if !CanGoBack() {
        return None;
      }
      ghost var s0 := stack;
      ghost var wasCoherent := Coherent();
      var previous := PopTwo();
      if wasCoherent {
        BackStep(s0, currentView);
      }
      var res := NavigateTo(previous.viewName, previous.parameter, createError);
      r := Some(res);
    }

    /** The two pops of `NavigateBackAsync`; the second popped entry is returned. */
    method PopTwo() returns (previous: NavigationEntry)
      requires |stack| >= 2
      modifies this`stack
      ensures stack == old(stack)[..|old(stack)| - 2] && previous == old(stack)[|old(stack)| - 2]
    {
      stack := stack[..|stack| - 1];
      previous := stack[|stack| - 1];
      stack := stack[..|stack| - 1];
    }
  }
}

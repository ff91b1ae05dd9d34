// The rule engine: form rules registered per form id on top of the rules the
// form's schema declares, selected by trigger and run in priority order.
// Expression evaluation is done by an external evaluator (NCalc); here its
// verdict on the normalized text is a parameter. What a rule does to the form
// goes through the UI renderer; here it becomes an `Effect` record.

module RuleEngines {
  import opened Common
  import opened Text
  import opened Linq
  import opened Numeric

  datatype Rule = Rule(
    id: string,
    trigger: string,
    dependsOn: Option<string>,
    condition: string,
    action: string,
    target: string,
    value: Option<string>,
    priority: int)

  predicate DistinctIds(rules: seq<Rule>) {
    forall i, j :: 0 <= i < j < |rules| ==> rules[i].id != rules[j].id
  }

  // ---------------------------------------------------------------------------
  // Registration
  // ---------------------------------------------------------------------------

  /** `rules.RemoveAll(r => r.Id == id)`. */
  function WithoutId(rules: seq<Rule>, id: string): (r: seq<Rule>)
    ensures forall x :: x in r <==> x in rules && x.id != id
    ensures |r| <= |rules|
  {
    if rules == [] then []
    else (if rules[0].id == id then [] else [rules[0]]) + WithoutId(rules[1..], id)
  }

  lemma {:induction false} WithoutIdKeepsDistinct(rules: seq<Rule>, id: string)
    requires DistinctIds(rules)
    ensures DistinctIds(WithoutId(rules, id))
  {
    if rules != [] {
      WithoutIdKeepsDistinct(rules[1..], id);
      var rest := WithoutId(rules[1..], id);
      forall j | 0 <= j < |rest|
        ensures rest[j].id != rules[0].id
      {
        assert rest[j] in rules[1..];
      }
    }
  }

  /** The rule list after `RegisterRule`: any rule with the same id removed,
    * then the rule appended. */
  function Registered(rules: seq<Rule>, rule: Rule): (r: seq<Rule>)
    ensures forall x :: x in r <==> x == rule || (x in rules && x.id != rule.id)
    ensures r[|r| - 1] == rule
  {
    WithoutId(rules, rule.id) + [rule]
  }

  /** Registering by id keeps the ids of a form's rules distinct: the new rule
    * is the only one with its id. */
  lemma RegisteredKeepsDistinct(rules: seq<Rule>, rule: Rule)
    requires DistinctIds(rules)
    ensures DistinctIds(Registered(rules, rule))
  {
    var w := WithoutId(rules, rule.id);
    WithoutIdKeepsDistinct(rules, rule.id);
    forall j | 0 <= j < |w|
      ensures w[j].id != rule.id
    {
      assert w[j] in w;
    }
  }

  // ---------------------------------------------------------------------------
  // Selection
  // ---------------------------------------------------------------------------

  /** `Where(r => r.Trigger.Equals(trigger, OrdinalIgnoreCase))`. */
  function OnTrigger(rules: seq<Rule>, trigger: string): (r: seq<Rule>)
    ensures forall x :: x in r <==> x in rules && EqualsIgnoreCase(x.trigger, trigger)
  {
    if rules == [] then []
    else (if EqualsIgnoreCase(rules[0].trigger, trigger) then [rules[0]] else []) + OnTrigger(rules[1..], trigger)
  }

  function Priority(r: Rule): int {
    r.priority
  }

  /** The rules a trigger runs: those whose trigger matches, ordered by priority. */
  function Applicable(rules: seq<Rule>, trigger: string): seq<Rule> {
    ByKeyIsPreorder(Priority);
    SortBy(OnTrigger(rules, trigger), ByKey(Priority))
  }

  /** Exactly the rules with a matching trigger run, and a lower priority runs first. */
  lemma ApplicableRules(rules: seq<Rule>, trigger: string)
    ensures forall x :: x in Applicable(rules, trigger) <==> x in rules && EqualsIgnoreCase(x.trigger, trigger)
    ensures forall i, j :: 0 <= i < j < |Applicable(rules, trigger)| ==>
              Applicable(rules, trigger)[i].priority <= Applicable(rules, trigger)[j].priority
    ensures KeepsTiesInOrder(Applicable(rules, trigger), OnTrigger(rules, trigger), ByKey(Priority))
  {
    var a := Applicable(rules, trigger);
    ByKeyIsPreorder(Priority);
    forall x
      ensures x in a <==> x in rules && EqualsIgnoreCase(x.trigger, trigger)
    {
      SortByMembers(OnTrigger(rules, trigger), ByKey(Priority), x);
    }
    forall i, j | 0 <= i < j < |a|
      ensures a[i].priority <= a[j].priority
    {
      assert ByKey(Priority)(a[i], a[j]);
      assert Priority(a[i]) == a[i].priority && Priority(a[j]) == a[j].priority;
    }
  }

  // ---------------------------------------------------------------------------
  // Text rewriting
  // ---------------------------------------------------------------------------

  /** Operators rewritten into the evaluator's syntax, in this order. */
  function NormalizeCondition(condition: string): string {
    var s1 := Replace(condition, "==", "=");
    var s2 := Replace(s1, "!=", "<>");
    var s3 := Replace(s2, "&&", " AND ");
    var s4 := Replace(s3, "||", " OR ");
    var s5 := Replace(s4, "!", " NOT ");
    var s6 := Replace(s5, "null", "NULL");
    var s7 := Replace(s6, "true", "True");
    Replace(s7, "false", "False")
  }

  /** A text holding a pattern holds the pattern's first character. */
  lemma {:induction false} ContainsHead(s: string, pattern: string)
    requires |pattern| > 0 && Contains(s, pattern)
    ensures pattern[0] in s
    decreases |s|
  {
    if !(pattern <= s) {
      ContainsHead(s[1..], pattern);
    } else {
      assert s[0] == pattern[0];
    }
  }

  /** Replacing a one-character pattern by text without it removes it. */
  lemma {:induction false} ReplaceRemovesChar(s: string, c: char, replacement: string)
    requires c !in replacement
    ensures c !in Replace(s, [c], replacement)
    decreases |s|
  {
    if s != [] {
      ReplaceRemovesChar(s[1..], c, replacement);
    }
  }

  /** Replacement never brings in a character that neither side has. */
  lemma {:induction false} ReplaceKeepsAbsent(s: string, pattern: string, replacement: string, c: char)
    requires |pattern| > 0 && c !in s && c !in replacement
    ensures c !in Replace(s, pattern, replacement)
    decreases |s|
  {
    if pattern <= s {
      ReplaceKeepsAbsent(s[|pattern|..], pattern, replacement, c);
    } else if s != [] {
      ReplaceKeepsAbsent(s[1..], pattern, replacement, c);
    }
  }

  /** No `!` survives normalization: `!=` has become `<>` and every other `!`
    * has become `NOT`. */
  lemma NormalizeRemovesBang(condition: string)
    ensures '!' !in NormalizeCondition(condition)
  {
    var s1 := Replace(condition, "==", "=");
    var s2 := Replace(s1, "!=", "<>");
    var s3 := Replace(s2, "&&", " AND ");
    var s4 := Replace(s3, "||", " OR ");
    var s5 := Replace(s4, "!", " NOT ");
    ReplaceRemovesChar(s4, '!', " NOT ");
    var s6 := Replace(s5, "null", "NULL");
    ReplaceKeepsAbsent(s5, "null", "NULL", '!');
    var s7 := Replace(s6, "true", "True");
    ReplaceKeepsAbsent(s6, "true", "True", '!');
    ReplaceKeepsAbsent(s7, "false", "False", '!');
  }

  /** A pattern whose first character is absent is not replaced. */
  lemma ReplaceWithoutHead(s: string, pattern: string, replacement: string)
    requires |pattern| > 0 && pattern[0] !in s
    ensures Replace(s, pattern, replacement) == s
  {
    if Contains(s, pattern) {
      ContainsHead(s, pattern);
    }
    ReplaceAbsent(s, pattern, replacement);
  }

  /** A condition with none of the rewritten operators or words passes through unchanged. */
  lemma NormalizeIdentity(condition: string)
    requires '=' !in condition && '!' !in condition && '&' !in condition && '|' !in condition
    requires !Contains(condition, "null") && !Contains(condition, "true") && !Contains(condition, "false")
    ensures NormalizeCondition(condition) == condition
  {
    ReplaceWithoutHead(condition, "==", "=");
    ReplaceWithoutHead(condition, "!=", "<>");
    ReplaceWithoutHead(condition, "&&", " AND ");
    ReplaceWithoutHead(condition, "||", " OR ");
    ReplaceWithoutHead(condition, "!", " NOT ");
    ReplaceAbsent(condition, "null", "NULL");
    ReplaceAbsent(condition, "true", "True");
    ReplaceAbsent(condition, "false", "False");
  }

  /** The form's data: each field's key and its value's text (`None` is null). */
  type Context = seq<(string, Option<string>)>

  /** `kvp.Value?.ToString() ?? ""`. */
  function ValueText(v: Option<string>): string {
    v.GetOr("")
  }

  /** One key's two placeholder spellings, `[key]` and `{key}`, replaced. */
  function ReplaceKey(template: string, key: string, value: Option<string>): string {
    Replace(Replace(template, "[" + key + "]", ValueText(value)), "{" + key + "}", ValueText(value))
  }

  /** Every key of the context substituted in turn. */
  function ReplaceVariables(template: string, context: Context): (r: string)
    ensures context == [] ==> r == template
    ensures '[' !in template && '{' !in template ==> r == template
    decreases |context|
  {
    if context == [] then template
    else
      var key := context[0].0;
      assert '[' !in template && '{' !in template ==> ReplaceKey(template, key, context[0].1) == template by {
        if '[' !in template && '{' !in template {
          ReplaceWithoutHead(template, "[" + key + "]", ValueText(context[0].1));
          ReplaceWithoutHead(template, "{" + key + "}", ValueText(context[0].1));
        }
      }
      ReplaceVariables(ReplaceKey(template, key, context[0].1), context[1..])
  }

  /** A template without `[` or `{` has no placeholder and comes back as it is. */
  lemma {:induction false} NoPlaceholdersUnchanged(template: string, context: Context)
    requires '[' !in template && '{' !in template
    ensures ReplaceVariables(template, context) == template
    decreases |context|
  {
    if context != [] {
      var key := context[0].0;
      ReplaceWithoutHead(template, "[" + key + "]", ValueText(context[0].1));
      ReplaceWithoutHead(template, "{" + key + "}", ValueText(context[0].1));
      NoPlaceholdersUnchanged(template, context[1..]);
    }
  }

  /** `[key]` becomes the key's value text, or "" for null. */
  lemma SubstitutesBracketed(key: string, value: Option<string>)
    requires '{' !in ValueText(value)
    ensures ReplaceVariables("[" + key + "]", [(key, value)]) == ValueText(value)
  {
    var p := "[" + key + "]";
    assert Replace(p[|p|..], p, ValueText(value)) == [];
    assert Replace(p, p, ValueText(value)) == ValueText(value);
    ReplaceWithoutHead(ValueText(value), "{" + key + "}", ValueText(value));
  }

  /** `{key}` becomes the key's value text, or "" for null. */
  lemma SubstitutesBraced(key: string, value: Option<string>)
    requires '[' !in key
    ensures ReplaceVariables("{" + key + "}", [(key, value)]) == ValueText(value)
  {
    var p := "{" + key + "}";
    assert '[' !in p;
    ReplaceWithoutHead(p, "[" + key + "]", ValueText(value));
    assert Replace(p[|p|..], p, ValueText(value)) == [];
  }

  // ---------------------------------------------------------------------------
  // Running rules
  // ---------------------------------------------------------------------------

  /** What a rule asks the UI renderer to do. */
  datatype Effect =
    | Visibility(target: string, visible: bool)
    | Enablement(target: string, enabled: bool)
    | FieldValue(target: string, value: Option<string>)
    | FieldError(target: string, message: string)

  const InvalidValue := "the value is not valid"

  /** `EvaluateCondition`: a blank condition holds; otherwise the evaluator's
    * verdict on the normalized text, where anything but `true` (a non-boolean
    * result or an exception, `None`) is false. */
  function EvaluateCondition(condition: string, evaluate: string -> Option<bool>): (r: bool)
    ensures IsBlank(condition) ==> r
    ensures !IsBlank(condition) ==> (r <==> evaluate(NormalizeCondition(condition)) == Some(true))
  {
    if IsBlank(condition) then true
    else evaluate(NormalizeCondition(condition)) == Some(true)
  }

  /** An expression the normalization leaves alone: no operator or literal it rewrites. */
  predicate AlreadyNormal(expression: string) {
    && '=' !in expression && '!' !in expression && '&' !in expression && '|' !in expression
    && !Contains(expression, "null") && !Contains(expression, "true") && !Contains(expression, "false")
  }

  /** `EvaluateExpression`: a blank expression is null; otherwise NCalc's
    * result on the normalized text (`None` for null or an exception).
    * `evaluate` is NCalc with the form's values bound as parameters (null
    * as 0) and the registered functions available; the text itself is not
    * rewritten with the values. */
  function EvaluateExpression(expression: string, evaluate: string -> Option<string>): (r: Option<string>)
    ensures IsBlank(expression) ==> r.None?
    ensures !IsBlank(expression) ==> r == evaluate(NormalizeCondition(expression))
    ensures !IsBlank(expression) && AlreadyNormal(expression) ==> r == evaluate(expression)
  {
    if IsBlank(expression) then None
    else
      if AlreadyNormal(expression) then NormalizeIdentity(expression); evaluate(NormalizeCondition(expression))
      else evaluate(NormalizeCondition(expression))
  }

  /** The value a `setvalue` rule writes: placeholders are substituted only
    * when the text holds a `[` or a `{`. */
  function SetValueText(value: Option<string>, context: Context): Option<string> {
    if value.Some? && !IsBlank(value.value) && (Contains(value.value, "[") || Contains(value.value, "{"))
    then Some(ReplaceVariables(value.value, context))
    else value
  }

  /** The guard changes nothing: a `setvalue` rule writes its text with every
    * placeholder substituted. */
  lemma SetValueSubstitutes(value: Option<string>, context: Context)
    ensures SetValueText(value, context) == if value.Some? then Some(ReplaceVariables(value.value, context)) else None
  {
    if value.Some? && !(!IsBlank(value.value) && (Contains(value.value, "[") || Contains(value.value, "{"))) {
      ContainsCharIffIn(value.value, '[');
      ContainsCharIffIn(value.value, '{');
      if IsBlank(value.value) {
        assert forall i :: 0 <= i < |value.value| ==> IsWhiteSpace(value.value[i]);
      }
      NoPlaceholdersUnchanged(value.value, context);
    }
  }

  /** Whether a rule reaches its action: its condition holds (or is blank),
    * it has a target and there is a renderer to act on. */
  predicate Fires(rule: Rule, hasRenderer: bool, holds: string -> Option<bool>) {
    (IsBlank(rule.condition) || holds(NormalizeCondition(rule.condition)) == Some(true))
    && !IsBlank(rule.target) && hasRenderer
  }

  /** `ExecuteRule`: nothing when the condition fails; otherwise the action's
    * effect, none without a target or a renderer, and none for `required`,
    * `optional` or an unknown action. */
  function ExecuteRule(rule: Rule, context: Context, hasRenderer: bool,
                       holds: string -> Option<bool>, evaluate: string -> Option<string>): (r: seq<Effect>)
    ensures |r| <= 1
    ensures r != [] ==> hasRenderer && !IsBlank(rule.target) && r[0].target == rule.target
    ensures r != [] ==> IsBlank(rule.condition) || holds(NormalizeCondition(rule.condition)) == Some(true)
    ensures !Fires(rule, hasRenderer, holds) ==> r == []
    ensures Fires(rule, hasRenderer, holds) ==> var action := ToLower(rule.action);
      && (action == "show" ==> r == [Visibility(rule.target, true)])
      && (action == "hide" ==> r == [Visibility(rule.target, false)])
      && (action == "enable" ==> r == [Enablement(rule.target, true)])
      && (action == "disable" ==> r == [Enablement(rule.target, false)])
      && (action == "setvalue" ==>
            r == [FieldValue(rule.target, if rule.value.Some? then Some(ReplaceVariables(rule.value.value, context)) else None)])
      && (action == "calculate" && IsNullOrBlank(rule.value) ==> r == [])
      && (action == "calculate" && !IsNullOrBlank(rule.value) ==>
            r == [FieldValue(rule.target, EvaluateExpression(rule.value.value, evaluate))])
      && (action == "validate" ==> r == [FieldError(rule.target, rule.value.GetOr(InvalidValue))])
      && (action == "clear" ==> r == [FieldValue(rule.target, None)])
      && (action !in ["show", "hide", "enable", "disable", "setvalue", "calculate", "validate", "clear"] ==> r == [])
  {
    SetValueSubstitutes(rule.value, context);
    if !IsBlank(rule.condition) && !EvaluateCondition(rule.condition, holds) then []
    else if IsBlank(rule.target) || !hasRenderer then []
    else
      var action := ToLower(rule.action);
      if action == "show" then [Visibility(rule.target, true)]
      else if action == "hide" then [Visibility(rule.target, false)]
      else if action == "enable" then [Enablement(rule.target, true)]
      else if action == "disable" then [Enablement(rule.target, false)]
      else if action == "setvalue" then [FieldValue(rule.target, SetValueText(rule.value, context))]
      else if action == "calculate" then
        (if IsNullOrBlank(rule.value) then []
         else [FieldValue(rule.target, EvaluateExpression(rule.value.value, evaluate))])
      else if action == "validate" then [FieldError(rule.target, rule.value.GetOr(InvalidValue))]
      else if action == "clear" then [FieldValue(rule.target, None)]
      else []
  }

  /** Some rule of `rules` names `target`, and it is not blank. */
  predicate Targets(rules: seq<Rule>, target: string) {
    exists x :: x in rules && x.target == target && !IsBlank(x.target)
  }

  lemma TargetsOfTail(rules: seq<Rule>, target: string)
    requires rules != [] && Targets(rules[1..], target)
    ensures Targets(rules, target)
  {
    var x :| x in rules[1..] && x.target == target && !IsBlank(x.target);
    assert x in rules;
  }

  /** The effects of the first rule, then those of the rest, all name a rule's target. */
  lemma EffectsTargets(rules: seq<Rule>, first: seq<Effect>, rest: seq<Effect>)
    requires rules != [] && |first| <= 1
    requires first != [] ==> !IsBlank(rules[0].target) && first[0].target == rules[0].target
    requires forall e :: e in rest ==> Targets(rules[1..], e.target)
    ensures forall e :: e in first + rest ==> Targets(rules, e.target)
  {
    forall e | e in first + rest ensures Targets(rules, e.target) {
      if e in first {
        assert e == first[0] && rules[0] in rules;
      } else {
        TargetsOfTail(rules, e.target);
      }
    }
  }

  /** The effects of running `rules` in order. */
  function RulesEffects(rules: seq<Rule>, context: Context, hasRenderer: bool,
                        holds: string -> Option<bool>, evaluate: string -> Option<string>): (r: seq<Effect>)
    ensures !hasRenderer ==> r == []
    ensures forall e :: e in r ==> Targets(rules, e.target)
  {
    if rules == [] then []
    else
      var first := ExecuteRule(rules[0], context, hasRenderer, holds, evaluate);
      var rest := RulesEffects(rules[1..], context, hasRenderer, holds, evaluate);
      EffectsTargets(rules, first, rest);
      first + rest
  }

  /** A function the evaluator can call: one of the built-ins, or one the
    * application registered (a handle standing for the delegate). */
  datatype FunctionRef = BuiltIn(name: string) | Delegate(handle: nat)

  const BuiltInNames: seq<string> :=
    ["today", "now", "min", "max", "sum", "avg", "round", "abs", "isempty",
     "isnumber", "tonumber", "iif", "pips", "profit", "percent", "rr"]

  class RuleEngine {
    /** Registered rules by form id. */
    var rules: map<string, seq<Rule>>
    /** Evaluator functions by lower-cased name. */
    var functions: map<string, FunctionRef>

    ghost predicate Valid()
      reads this
    {
      forall f :: f in rules ==> !IsBlank(f) && DistinctIds(rules[f])
    }

    /** A fresh engine has no registered rules and every built-in function,
      * each under its own (lower-case) name. */
    constructor()
      ensures Valid() && rules == map[]
      ensures functions.Keys == set n | n in BuiltInNames
      ensures forall n :: n in BuiltInNames ==> functions[n] == BuiltIn(n)
    {
      rules := map[];
      functions := map n | n in BuiltInNames :: BuiltIn(n);
    }

    /** The function a call by `name` reaches: names are lower-cased both when
      * registering and when calling. */
    function ResolveFunction(name: string): Option<FunctionRef>
      reads this
    {
      if ToLower(name) in functions then Some(functions[ToLower(name)]) else None
    }

    /** A blank name is ignored; otherwise the name, in any case, now reaches
      * `f`, and every other name reaches what it reached before. */
    method RegisterFunction(name: string, f: FunctionRef)
      modifies this
      ensures rules == old(rules)
      ensures IsBlank(name) ==> functions == old(functions)
      ensures !IsBlank(name) ==> forall n :: EqualsIgnoreCase(n, name) ==> ResolveFunction(n) == Some(f)
      ensures forall n :: !EqualsIgnoreCase(n, name) ==> ResolveFunction(n) == old(ResolveFunction(n))
    {
      if !IsBlank(name) {
        functions := functions[ToLower(name) := f];
      }
    }

    /** The rules registered for a form, none when it has none. */
    function RegisteredRules(formId: string): seq<Rule>
      reads this
    {
      if formId in rules then rules[formId] else []
    }

    /** A blank form id is ignored. Otherwise the rule replaces any of that
      * form's rules with its id and comes last; other forms are untouched. */
    method RegisterRule(formId: string, rule: Rule)
      requires Valid()
      modifies this
      ensures Valid()
      ensures IsBlank(formId) ==> rules == old(rules)
      ensures !IsBlank(formId) ==> RegisteredRules(formId) == Registered(old(RegisteredRules(formId)), rule)
      ensures !IsBlank(formId) ==> rule in RegisteredRules(formId)
      ensures forall f :: f != formId ==> RegisteredRules(f) == old(RegisteredRules(f))
      ensures functions == old(functions)
    {
      if IsBlank(formId) {
        return;
      }
      var current := RegisteredRules(formId);
      RegisteredKeepsDistinct(current, rule);
      rules := rules[formId := Registered(current, rule)];
    }

    /** A blank form id is ignored; otherwise the form loses its registered rules. */
    method UnregisterRules(formId: string)
      requires Valid()
      modifies this
      ensures Valid()
      ensures !IsBlank(formId) ==> RegisteredRules(formId) == []
      ensures forall f :: f != formId ==> RegisteredRules(f) == old(RegisteredRules(f))
      ensures functions == old(functions)
    {
      if !IsBlank(formId) {
        rules := rules - {formId};
      }
    }

    /** `GetRules`: the schema's rules for the form, then the registered ones. */
    function GetRules(formId: string, schemaRules: seq<Rule>): (r: seq<Rule>)
      reads this
      ensures |r| == |schemaRules| + |RegisteredRules(formId)|
      ensures r[..|schemaRules|] == schemaRules && r[|schemaRules|..] == RegisteredRules(formId)
    {
      schemaRules + RegisteredRules(formId)
    }

    /** `ApplyRules`: with a blank form id nothing happens; otherwise each
      * applicable rule is run in priority order. Without a renderer the form's
      * data is empty and no rule has an effect. */
    method ApplyRules(formId: string, trigger: string, schemaRules: seq<Rule>, hasRenderer: bool,
                      formData: Context, holds: string -> Option<bool>, evaluate: string -> Option<string>)
      returns (effects: seq<Effect>)
      ensures IsBlank(formId) ==> effects == []
      ensures !IsBlank(formId) ==>
                effects == RulesEffects(Applicable(GetRules(formId, schemaRules), trigger),
                                        if hasRenderer then formData else [], hasRenderer, holds, evaluate)
      ensures !hasRenderer ==> effects == []
    {
      if IsBlank(formId) {
        return [];
      }
      var applicable := Applicable(GetRules(formId, schemaRules), trigger);
      var context := if hasRenderer then formData else [];
      effects := [];
      var i := |applicable|;
      // Effects are gathered from the last rule back so that each step is one
      // unfolding of RulesEffects; the rules still run first to last.
      while i > 0
        invariant 0 <= i <= |applicable|
        invariant effects == RulesEffects(applicable[i..], context, hasRenderer, holds, evaluate)
      {
        i := i - 1;
        assert applicable[i..][1..] == applicable[i + 1..];
        effects := ExecuteRule(applicable[i], context, hasRenderer, holds, evaluate) + effects;
      }
      assert applicable[0..] == applicable;
    }
  }

  // ---------------------------------------------------------------------------
  // Built-in functions
  // ---------------------------------------------------------------------------

  /** An argument as `Convert.ToDecimal` reads it: null is zero. */
  function Num(a: Option<real>): (r: real)
    ensures a.None? ==> r == 0.0
    ensures a.Some? ==> r == a.value
  {
    a.GetOr(0.0)
  }

  function NonNull(args: seq<Option<real>>): (r: seq<real>)
    ensures forall x :: x in r <==> Some(x) in args
  {
    if args == [] then []
    else (if args[0].Some? then [args[0].value] else []) + NonNull(args[1..])
  }

  function SumOf(xs: seq<real>): real {
    if xs == [] then 0.0 else xs[0] + SumOf(xs[1..])
  }

  function MinOf(xs: seq<real>): (r: real)
    requires xs != []
    ensures r in xs && forall x :: x in xs ==> r <= x
  {
    if |xs| == 1 then xs[0]
    else
      var m := MinOf(xs[1..]);
      assert forall x :: x in xs ==> x == xs[0] || x in xs[1..];
      if xs[0] <= m then xs[0] else m
  }

  function MaxOf(xs: seq<real>): (r: real)
    requires xs != []
    ensures r in xs && forall x :: x in xs ==> x <= r
  {
    if |xs| == 1 then xs[0]
    else
      var m := MaxOf(xs[1..]);
      assert forall x :: x in xs ==> x == xs[0] || x in xs[1..];
      if xs[0] >= m then xs[0] else m
  }

  /** `min`: 0 with no arguments; the least non-null argument; `None` (the
    * evaluator's exception) when every argument is null. */
  function BuiltInMin(args: seq<Option<real>>): (r: Option<real>)
    ensures args == [] ==> r == Some(0.0)
    ensures args != [] ==> (r.None? <==> NonNull(args) == [])
    ensures args != [] && r.Some? ==> Some(r.value) in args && forall x :: Some(x) in args ==> r.value <= x
  {
    if args == [] then Some(0.0)
    else if NonNull(args) == [] then None
    else Some(MinOf(NonNull(args)))
  }

  /** `max`, the mirror of `min`. */
  function BuiltInMax(args: seq<Option<real>>): (r: Option<real>)
    ensures args == [] ==> r == Some(0.0)
    ensures args != [] ==> (r.None? <==> NonNull(args) == [])
    ensures args != [] && r.Some? ==> Some(r.value) in args && forall x :: Some(x) in args ==> x <= r.value
  {
    if args == [] then Some(0.0)
    else if NonNull(args) == [] then None
    else Some(MaxOf(NonNull(args)))
  }

  /** `sum`: the sum of the non-null arguments. */
  function BuiltInSum(args: seq<Option<real>>): (r: real)
    ensures args == [] ==> r == 0.0
    ensures args != [] ==> r == Num(args[0]) + BuiltInSum(args[1..])
  {
    assert args != [] ==> SumOf(NonNull(args)) == Num(args[0]) + SumOf(NonNull(args[1..])) by {
      if args != [] {
        var rest := NonNull(args[1..]);
        var head := if args[0].Some? then [args[0].value] else [];
        assert NonNull(args) == head + rest;
        if args[0].Some? {
          assert (head + rest)[0] == args[0].value && (head + rest)[1..] == rest;
        } else {
          assert head + rest == rest;
        }
      }
    }
    SumOf(NonNull(args))
  }

  /** `avg`: 0 with no arguments; `None` when every argument is null. */
  function BuiltInAvg(args: seq<Option<real>>): (r: Option<real>)
    ensures args != [] ==> (r.None? <==> NonNull(args) == [])
  {
    if args == [] then Some(0.0)
    else if NonNull(args) == [] then None
    else Some(BuiltInSum(args) / |NonNull(args)| as real)
  }

  lemma {:induction false} SumBounds(xs: seq<real>, lo: real, hi: real)
    requires forall x :: x in xs ==> lo <= x <= hi
    ensures |xs| as real * lo <= SumOf(xs) <= |xs| as real * hi
  {
    if xs != [] {
      assert xs[0] in xs;
      assert forall x :: x in xs[1..] ==> x in xs;
      SumBounds(xs[1..], lo, hi);
    }
  }

  /** The average lies between the least and the greatest argument. */
  lemma AvgBetweenMinAndMax(args: seq<Option<real>>)
    requires NonNull(args) != []
    ensures BuiltInMin(args).value <= BuiltInAvg(args).value <= BuiltInMax(args).value
  {
    AverageBetween(NonNull(args), MinOf(NonNull(args)), MaxOf(NonNull(args)));
  }

  lemma AverageBetween(xs: seq<real>, lo: real, hi: real)
    requires xs != [] && forall x :: x in xs ==> lo <= x <= hi
    ensures lo <= SumOf(xs) / |xs| as real <= hi
  {
    SumBounds(xs, lo, hi);
    DivBetween(SumOf(xs), |xs|, lo, hi);
  }

  lemma DivBetween(s: real, n: nat, lo: real, hi: real)
    requires n > 0 && n as real * lo <= s <= n as real * hi
    ensures lo <= s / n as real <= hi
  {
  }

  /** `abs` of the first argument; 0 with none. */
  function BuiltInAbs(args: seq<Option<real>>): (r: real)
    ensures r >= 0.0
    ensures args != [] ==> (r == Num(args[0]) || r == -Num(args[0]))
  {
    if args == [] then 0.0 else Abs(Num(args[0]))
  }

  /** `pips(price1, price2[, pipSize])`: the distance in pips, the pip size
    * 0.0001 unless given; 0 with fewer than two arguments, and `None` (a
    * division by zero) for a zero pip size. */
  function BuiltInPips(args: seq<Option<real>>): (r: Option<real>)
    ensures |args| < 2 ==> r == Some(0.0)
    ensures |args| >= 2 ==> var size := if |args| > 2 then Num(args[2]) else 0.0001;
              (r.None? <==> size == 0.0)
              && (r.Some? ==> r.value * size == Abs(Num(args[0]) - Num(args[1])))
              && (r.Some? && size > 0.0 ==> r.value >= 0.0)
  {
    if |args| < 2 then Some(0.0)
    else
      var size := if |args| > 2 then Num(args[2]) else 0.0001;
      if size == 0.0 then None
      else
        DivMul(Abs(Num(args[0]) - Num(args[1])), size);
        Some(Abs(Num(args[0]) - Num(args[1])) / size)
  }

  /** `profit(entry, exit, volume, direction)`: the price move in the trade's
    * favour (direction 1 is a buy) times volume times one standard lot. */
  function BuiltInProfit(args: seq<Option<real>>): real {
    if |args| < 4 then 0.0
    else
      var entry := Num(args[0]);
      var exit := Num(args[1]);
      var volume := Num(args[2]);
      var diff := if RoundToEven(Num(args[3])) == 1 then exit - entry else entry - exit;
      diff * volume * 100000.0
  }

  /** Turning a buy into a sell negates the profit. */
  lemma ProfitDirection(entry: real, exit: real, volume: real)
    ensures BuiltInProfit([Some(entry), Some(exit), Some(volume), Some(1.0)])
         == -BuiltInProfit([Some(entry), Some(exit), Some(volume), Some(2.0)])
    ensures BuiltInProfit([Some(entry), Some(exit), Some(volume), Some(1.0)]) == (exit - entry) * volume * 100000.0
  {
    RoundToEvenOfInteger(1);
    RoundToEvenOfInteger(2);
    assert (entry - exit) * volume * 100000.0 == -((exit - entry) * volume * 100000.0);
  }

  /** `percent(value, total)`: value as a percentage of total; 0 for a zero
    * total or fewer than two arguments. */
  function BuiltInPercent(args: seq<Option<real>>): (r: real)
    ensures |args| >= 2 && Num(args[1]) != 0.0 ==> r * Num(args[1]) == Num(args[0]) * 100.0
    ensures |args| < 2 || Num(args[1]) == 0.0 ==> r == 0.0
  {
    if |args| < 2 then 0.0
    else
      var value := Num(args[0]);
      var total := Num(args[1]);
      if total == 0.0 then 0.0
      else
        DivMul(value, total);
        (value / total) * 100.0
  }

  /** `rr(entry, stopLoss, takeProfit)`: reward over risk rounded to two
    * decimals; 0 when the risk is 0 or arguments are missing. */
  function BuiltInRR(args: seq<Option<real>>): (r: real)
    ensures r >= 0.0
    ensures |args| < 3 || Num(args[0]) == Num(args[1]) ==> r == 0.0
  {
    if |args| < 3 then 0.0
    else
      var entry := Num(args[0]);
      var risk := Abs(entry - Num(args[1]));
      if risk == 0.0 then 0.0
      else
        var x := Abs(Num(args[2]) - entry) / risk;
        assert x * TwoDecimals >= 0.0;
        Round(x, TwoDecimals)
  }

  /** A nonzero-risk `rr` is within half a hundredth of the exact ratio. */
  lemma RRIsRoundedRatio(entry: real, stopLoss: real, takeProfit: real)
    requires entry != stopLoss
    ensures var exact := Abs(takeProfit - entry) / Abs(entry - stopLoss);
            -0.005 <= BuiltInRR([Some(entry), Some(stopLoss), Some(takeProfit)]) - exact <= 0.005
  {
    var exact := Abs(takeProfit - entry) / Abs(entry - stopLoss);
    RoundIsNearest(exact, TwoDecimals);
  }
}

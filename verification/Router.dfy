/**
 The route engine (internal/app/router/engine.go): the values a `when` expression sees
 and the first-match walk over the configured routes.
 */
module Router {
  import opened Common
  import opened Strings
  import opened Kanban

  datatype Event = Event(
    kind: string, cardID: string, cardIDValid: bool, listAfter: string, listAfterID: string,
    listName: string, listID: string, comment: string)

  datatype Decision = Decision(route: string, do: string, reason: string)

  const DROP := "drop"
  const DISPATCH := "dispatch"
  const TERMINATE := "terminate"
  const NOTIFY_DEPARTURE := "notify_departure"

  // ------------------------------------------------------------- the kanban object

  datatype RoleNamesValue = RoleNamesValue(
    plan: string, action: string, done: string,
    planReview: string, actionReview: string, generic: string, exception: string)

  /** The `kanban` object: the derived lists and the role names. */
  datatype KanbanValue = KanbanValue(
    planLists: seq<string>, actionLists: seq<string>, waitLists: seq<string>, doneLists: seq<string>,
    planListIDs: seq<string>, actionListIDs: seq<string>, waitListIDs: seq<string>, doneListIDs: seq<string>,
    prefixes: seq<string>, names: RoleNamesValue)

  function NormaliseAll(names: seq<string>): seq<string> {
    seq(|names|, i requires 0 <= i < |names| => NormaliseName(names[i]))
  }

  /** Without a view every list is empty and every name blank. */
  ghost predicate IsKanbanValue(k: KanbanValue, view: Option<Resolved>) {
    match view
    case None => k == KanbanValue([], [], [], [], [], [], [], [], [], RoleNamesValue("", "", "", "", "", "", ""))
    case Some(v) =>
      && k.planLists == NormaliseAll([v.plan.name])
      && k.actionLists == NormaliseAll([v.action.name])
      && k.doneLists == NormaliseAll([v.done.name])
      && k.waitLists == NormaliseAll([v.wait.planReview.name, v.wait.actionReview.name, v.wait.generic.name,
                                      v.wait.exception.name] + v.unclaimedListNames)
      && k.planListIDs == v.planListIDs && k.actionListIDs == v.actionListIDs
      && k.waitListIDs == v.waitListIDs && k.doneListIDs == v.doneListIDs
      && k.prefixes == v.agentCommentPrefixes
      && k.names == RoleNamesValue(v.plan.name, v.action.name, v.done.name, v.wait.planReview.name,
                                   v.wait.actionReview.name, v.wait.generic.name, v.wait.exception.name)
  }

  // ---------------------------------------------------------------- expressions

  datatype Value = BoolVal(b: bool) | StringVal(s: string) | ListVal(items: seq<string>) | NullVal

  /** An expression yields a value or raises a diagnostic. */
  datatype Outcome = Yields(value: Value) | Fails

  datatype ActionAttr = Type | CardID | CardIDValid | ListAfter | ListAfterID | ListName | ListID | Comment

  datatype KanbanAttr =
    | PlanLists | ActionLists | WaitLists | DoneLists
    | PlanListIDs | ActionListIDs | WaitListIDs | DoneListIDs | AgentCommentPrefixes
    | PlanName | ActionName | DoneName | PlanReviewName | ActionReviewName | GenericName | ExceptionName

  /** A `when` expression. `Unsupported` is any that cannot be evaluated: a misspelt attribute, say. */
  datatype Expr =
    | Const(value: Value)
    | Action(attr: ActionAttr)
    | KanbanAttribute(of: KanbanAttr)
    | Unsupported
    | Equal(left: Expr, right: Expr)
    | Not(operand: Expr)
    | And(left: Expr, right: Expr)
    | Or(left: Expr, right: Expr)
    | ContainsCall(list: Expr, item: Expr)
    | LowerCall(arg: Expr)
    | TrimSpaceCall(arg: Expr)
    | AnyPrefix(prefixes: Expr, subject: Expr)  // anytrue([for p in prefixes : startswith(subject, p)])

  /** `strict` says whether `&&` and `||` evaluate a right operand the left one already decides. */
  datatype Env = Env(ev: Event, kanban: KanbanValue, strict: bool)

  function ActionValue(ev: Event, attr: ActionAttr): Value {
    match attr
    case Type => StringVal(ev.kind)
    case CardID => StringVal(ev.cardID)
    case CardIDValid => BoolVal(ev.cardIDValid)
    case ListAfter => StringVal(ev.listAfter)
    case ListAfterID => StringVal(ev.listAfterID)
    case ListName => StringVal(ev.listName)
    case ListID => StringVal(ev.listID)
    case Comment => StringVal(ev.comment)
  }

  function KanbanAttrValue(k: KanbanValue, attr: KanbanAttr): Value {
    match attr
    case PlanLists => ListVal(k.planLists)
    case ActionLists => ListVal(k.actionLists)
    case WaitLists => ListVal(k.waitLists)
    case DoneLists => ListVal(k.doneLists)
    case PlanListIDs => ListVal(k.planListIDs)
    case ActionListIDs => ListVal(k.actionListIDs)
    case WaitListIDs => ListVal(k.waitListIDs)
    case DoneListIDs => ListVal(k.doneListIDs)
    case AgentCommentPrefixes => ListVal(k.prefixes)
    case PlanName => StringVal(k.names.plan)
    case ActionName => StringVal(k.names.action)
    case DoneName => StringVal(k.names.done)
    case PlanReviewName => StringVal(k.names.planReview)
    case ActionReviewName => StringVal(k.names.actionReview)
    case GenericName => StringVal(k.names.generic)
    case ExceptionName => StringVal(k.names.exception)
  }

  /** An expression reads the names of the view's roles. */
  ghost predicate ReadsNames(k: KanbanValue, v: Resolved) {
    && KanbanAttrValue(k, PlanName) == StringVal(v.plan.name)
    && KanbanAttrValue(k, ActionName) == StringVal(v.action.name)
    && KanbanAttrValue(k, DoneName) == StringVal(v.done.name)
    && KanbanAttrValue(k, PlanReviewName) == StringVal(v.wait.planReview.name)
    && KanbanAttrValue(k, ActionReviewName) == StringVal(v.wait.actionReview.name)
    && KanbanAttrValue(k, GenericName) == StringVal(v.wait.generic.name)
    && KanbanAttrValue(k, ExceptionName) == StringVal(v.wait.exception.name)
  }

  lemma NamesAreRead(k: KanbanValue, v: Resolved)
    requires k.names == RoleNamesValue(v.plan.name, v.action.name, v.done.name, v.wait.planReview.name,
                                       v.wait.actionReview.name, v.wait.generic.name, v.wait.exception.name)
    ensures ReadsNames(k, v)
  {
  }

  /** The derived lists and names of a view. */
  method BuildKanbanValue(view: Option<Resolved>) returns (k: KanbanValue)
    ensures IsKanbanValue(k, view)
    ensures view.Some? ==> ReadsNames(k, view.value)
  {
    k := DeriveLists(view);
    if view.Some? {
      NamesAreRead(k, view.value);
    }
  }

  /** The derived lists, appended to step by step. */
  method DeriveLists(view: Option<Resolved>) returns (k: KanbanValue)
    ensures IsKanbanValue(k, view)
  {
    var planNames: seq<string>, actionNames: seq<string> := [], [];
    var waitNames: seq<string>, doneNames: seq<string> := [], [];
    var planIDs: seq<string>, actionIDs: seq<string> := [], [];
    var waitIDs: seq<string>, doneIDs: seq<string> := [], [];
    var prefixes: seq<string> := [];
    var names := RoleNamesValue("", "", "", "", "", "", "");
    if view.Some? {
      var v := view.value;
      planNames := planNames + [NormaliseName(v.plan.name)];
      actionNames := actionNames + [NormaliseName(v.action.name)];
      doneNames := doneNames + [NormaliseName(v.done.name)];
      waitNames := waitNames + [NormaliseName(v.wait.planReview.name), NormaliseName(v.wait.actionReview.name),
                                NormaliseName(v.wait.generic.name), NormaliseName(v.wait.exception.name)];
      ghost var fixed := [v.wait.planReview.name, v.wait.actionReview.name, v.wait.generic.name,
                          v.wait.exception.name];
      var unclaimed := v.unclaimedListNames;
      for i := 0 to |unclaimed|
        invariant waitNames == NormaliseAll(fixed + unclaimed[..i])
      {
        waitNames := waitNames + [NormaliseName(unclaimed[i])];
      }
      assert unclaimed[..|unclaimed|] == unclaimed;
      planIDs := planIDs + v.planListIDs;
      actionIDs := actionIDs + v.actionListIDs;
      waitIDs := waitIDs + v.waitListIDs;
      doneIDs := doneIDs + v.doneListIDs;
      prefixes := prefixes + v.agentCommentPrefixes;
      names := RoleNamesValue(v.plan.name, v.action.name, v.done.name, v.wait.planReview.name,
                              v.wait.actionReview.name, v.wait.generic.name, v.wait.exception.name);
    }
    k := KanbanValue(planNames, actionNames, waitNames, doneNames, planIDs, actionIDs, waitIDs, doneIDs,
                     prefixes, names);
  }

  predicate StartsWithAny(s: string, prefixes: seq<string>) {
    exists p :: p in prefixes && HasPrefix(s, p)
  }

  /** `left && right` when `unit` is true, `left || right` when it is false. */
  function Connective(left: Outcome, right: Outcome, unit: bool, strict: bool): Outcome {
    if left.Fails? || !left.value.BoolVal? then Fails
    else if !strict && left.value.b != unit then left
    else if right.Fails? || !right.value.BoolVal? then Fails
    else if left.value.b == unit then right
    else left
  }

  function Eval(e: Expr, env: Env): Outcome {
    match e
    case Const(v) => Yields(v)
    case Action(attr) => Yields(ActionValue(env.ev, attr))
    case KanbanAttribute(attr) => Yields(KanbanAttrValue(env.kanban, attr))
    case Unsupported => Fails
    case Equal(l, r) =>
      var (x, y) := (Eval(l, env), Eval(r, env));
      if x.Fails? || y.Fails? then Fails else Yields(BoolVal(x.value == y.value))
    case Not(o) =>
      var x := Eval(o, env);
      if x.Fails? || !x.value.BoolVal? then Fails else Yields(BoolVal(!x.value.b))
    case And(l, r) => Connective(Eval(l, env), Eval(r, env), true, env.strict)
    case Or(l, r) => Connective(Eval(l, env), Eval(r, env), false, env.strict)
    case ContainsCall(l, i) =>
      var (x, y) := (Eval(l, env), Eval(i, env));
      if x.Fails? || y.Fails? || !x.value.ListVal? || !y.value.StringVal? then Fails
      else Yields(BoolVal(y.value.s in x.value.items))
    case LowerCall(a) =>
      var x := Eval(a, env);
      if x.Fails? || !x.value.StringVal? then Fails else Yields(StringVal(ToLower(x.value.s)))
    case TrimSpaceCall(a) =>
      var x := Eval(a, env);
      if x.Fails? || !x.value.StringVal? then Fails else Yields(StringVal(TrimSpace(x.value.s)))
    case AnyPrefix(ps, a) =>
      var (x, y) := (Eval(ps, env), Eval(a, env));
      if x.Fails? || y.Fails? || !x.value.ListVal? || !y.value.StringVal? then Fails
      else Yields(BoolVal(StartsWithAny(y.value.s, x.value.items)))
  }

  ghost predicate IsBool(e: Expr, env: Env) { Eval(e, env).Yields? && Eval(e, env).value.BoolVal? }

  ghost predicate IsTrue(e: Expr, env: Env) { Eval(e, env) == Yields(BoolVal(true)) }

  /**
   A conjunction is true when both sides are; it fails when a side is no bool, the right one
   counting only if it is evaluated. A disjunction is true when a side is and it does not fail.
   */
  lemma ConnectivesMean(l: Expr, r: Expr, env: Env)
    ensures IsTrue(And(l, r), env) <==> IsTrue(l, env) && IsTrue(r, env)
    ensures Eval(And(l, r), env).Fails?
        <==> !IsBool(l, env) || (!IsBool(r, env) && (env.strict || IsTrue(l, env)))
    ensures Eval(Or(l, r), env).Fails?
        <==> !IsBool(l, env) || (!IsBool(r, env) && (env.strict || !IsTrue(l, env)))
    ensures IsTrue(Or(l, r), env)
        <==> !Eval(Or(l, r), env).Fails? && (IsTrue(l, env) || IsTrue(r, env))
    ensures !Eval(And(l, r), env).Fails? ==> IsBool(And(l, r), env)
    ensures !Eval(Or(l, r), env).Fails? ==> IsBool(Or(l, r), env)
  {
    assert Eval(And(l, r), env) == Connective(Eval(l, env), Eval(r, env), true, env.strict);
    assert Eval(Or(l, r), env) == Connective(Eval(l, env), Eval(r, env), false, env.strict);
  }

  // --------------------------------------------------------------- the first match

  datatype Route = Route(name: string, cond: Expr, do: string, reason: string)

  const NO_MATCH := Decision("", DROP, "router_no_route_matched")

  /** The guard yields the boolean true: not null, not another type, no diagnostic. */
  predicate Fires(r: Route, env: Env) { Eval(r.cond, env) == Yields(BoolVal(true)) }

  function DecisionOf(r: Route): Decision { Decision(r.name, r.do, r.reason) }

  function FirstMatch(routes: seq<Route>, env: Env): Decision {
    if routes == [] then NO_MATCH
    else if Fires(routes[0], env) then DecisionOf(routes[0])
    else FirstMatch(routes[1..], env)
  }

  /** Route `k` fires and no earlier one does. */
  ghost predicate FirstAt(routes: seq<Route>, env: Env, k: nat) {
    && k < |routes| && Fires(routes[k], env)
    && forall j :: 0 <= j < k ==> !Fires(routes[j], env)
  }

  lemma {:induction false} FirstMatchAt(routes: seq<Route>, env: Env, k: nat)
    requires FirstAt(routes, env, k)
    ensures FirstMatch(routes, env) == DecisionOf(routes[k])
  {
    if k > 0 {
      assert !Fires(routes[0], env);
      assert FirstAt(routes[1..], env, k - 1) by {
        forall j | 0 <= j < k - 1 ensures !Fires(routes[1..][j], env) {
          assert !Fires(routes[j + 1], env);
        }
      }
      FirstMatchAt(routes[1..], env, k - 1);
    }
  }

  /** The decision is that of the first route that fires, and the synthetic drop when none does. */
  lemma {:induction false} FirstMatchIsFirst(routes: seq<Route>, env: Env) returns (k: nat)
    ensures k <= |routes| && forall j :: 0 <= j < k ==> !Fires(routes[j], env)
    ensures k < |routes| ==> FirstAt(routes, env, k) && FirstMatch(routes, env) == DecisionOf(routes[k])
    ensures k == |routes| ==> FirstMatch(routes, env) == NO_MATCH
  {
    if routes == [] || Fires(routes[0], env) {
      k := 0;
    } else {
      var rest := FirstMatchIsFirst(routes[1..], env);
      k := rest + 1;
      forall j | 0 <= j < k ensures !Fires(routes[j], env) {
        assert j > 0 ==> !Fires(routes[1..][j - 1], env);
      }
    }
  }

  /** The walk: skip on a diagnostic, on null, on a value that is not a bool, and on false. */
  method Evaluate(routes: seq<Route>, kanban: KanbanValue, ev: Event, strict: bool) returns (d: Decision)
    ensures d == FirstMatch(routes, Env(ev, kanban, strict))
    ensures var env := Env(ev, kanban, strict);
            || (exists k: nat :: FirstAt(routes, env, k)
                                 && d.route == routes[k].name && d.do == routes[k].do && d.reason == routes[k].reason)
            || (d == Decision("", "drop", "router_no_route_matched")
                && forall k :: 0 <= k < |routes| ==> Eval(routes[k].cond, env) != Yields(BoolVal(true)))
  {
    var env := Env(ev, kanban, strict);
    ghost var first := FirstMatchIsFirst(routes, env);
    for i := 0 to |routes|
      invariant FirstMatch(routes, env) == FirstMatch(routes[i..], env)
    {
      assert routes[i..][1..] == routes[i + 1..];
      var out := Eval(routes[i].cond, env);
      if out.Fails? {
        continue;
      }
      if out.value.NullVal? || !out.value.BoolVal? {
        continue;
      }
      if out.value.b {
        return DecisionOf(routes[i]);
      }
    }
    assert routes[|routes|..] == [];
    return NO_MATCH;
  }

  /**
   Inserting routes that fail, yield null or a value that is not a bool, or yield false,
   anywhere, never changes the decision.
   */
  lemma {:induction false} SilentRoutesDoNotMatter(before: seq<Route>, extra: seq<Route>, after: seq<Route>, env: Env)
    requires forall r :: r in extra ==> !Fires(r, env)
    ensures FirstMatch(before + extra + after, env) == FirstMatch(before + after, env)
    decreases |before|, |extra|
  {
    var all := before + extra + after;
    if before != [] {
      assert all[1..] == before[1..] + extra + after;
      assert (before + after)[1..] == before[1..] + after;
      SilentRoutesDoNotMatter(before[1..], extra, after, env);
    } else if extra != [] {
      assert extra[0] in extra;
      assert all[1..] == before + extra[1..] + after;
      SilentRoutesDoNotMatter(before, extra[1..], after, env);
    } else {
      assert all == before + after;
    }
  }
}

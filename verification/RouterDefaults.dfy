/**
 The default routes (internal/app/router/defaults.go) and their agreement with the
 resolved board: what the first-match walk decides is what the list's category calls for.
 */
module RouterDefaults {
  import opened Common
  import opened Strings
  import opened Names
  import opened Kanban
  import opened KanbanCategories
  import opened Router
  import opened DispatcherModel

  function TypeIs(kind: string): Expr { Equal(Action(Type), Const(StringVal(kind))) }

  function IsBlank(attr: ActionAttr): Expr { Equal(Action(attr), Const(StringVal(""))) }

  /** The event names the list by an id among `ids` or, in lower case, by a name among `names`. */
  function InLists(ids: KanbanAttr, id: ActionAttr, names: KanbanAttr, name: ActionAttr): Expr {
    Or(ContainsCall(KanbanAttribute(ids), Action(id)), ContainsCall(KanbanAttribute(names), LowerCall(Action(name))))
  }

  function MovedTo(ids: KanbanAttr, names: KanbanAttr): Expr {
    And(TypeIs("updateCard"), InLists(ids, ListAfterID, names, ListAfter))
  }

  function CreatedIn(ids: KanbanAttr, names: KanbanAttr): Expr {
    And(TypeIs("createCard"), InLists(ids, ListID, names, ListName))
  }

  function SelfComment(): Expr {
    And(TypeIs("commentCard"), AnyPrefix(KanbanAttribute(AgentCommentPrefixes), TrimSpaceCall(Action(Comment))))
  }

  function DefaultRoutes(): (routes: seq<Route>)
    ensures |routes| == 15
  {
    [ Route("no_card_id", IsBlank(CardID), DROP, "no_card_id"),
      Route("invalid_card_id", And(Not(IsBlank(CardID)), Not(Action(CardIDValid))), DROP, "invalid_card_id"),
      Route("updateCard_no_list_move", And(And(TypeIs("updateCard"), IsBlank(ListAfterID)), IsBlank(ListAfter)),
            DROP, "updateCard_no_list_move"),
      Route("moved_to_done", MovedTo(DoneListIDs, DoneLists), TERMINATE, "moved_to_done"),
      Route("moved_to_plan_list", MovedTo(PlanListIDs, PlanLists), DISPATCH, "moved_to_active_list"),
      Route("moved_to_action_list", MovedTo(ActionListIDs, ActionLists), DISPATCH, "moved_to_active_list"),
      Route("moved_to_wait_list",
            And(TypeIs("updateCard"), Or(Not(IsBlank(ListAfterID)), Not(IsBlank(ListAfter)))),
            NOTIFY_DEPARTURE, "moved_to_non_active_list"),
      Route("created_in_plan_list", CreatedIn(PlanListIDs, PlanLists), DISPATCH, "created_in_active_list"),
      Route("created_in_action_list", CreatedIn(ActionListIDs, ActionLists), DISPATCH, "created_in_active_list"),
      Route("created_in_non_active_list", TypeIs("createCard"), DROP, "created_in_non_active_list"),
      Route("agent_self_comment", SelfComment(), DROP, "agent_self_comment"),
      Route("human_comment", TypeIs("commentCard"), DISPATCH, "human_comment"),
      Route("card_deleted", TypeIs("deleteCard"), TERMINATE, "card_deleted"),
      Route("deleteComment_not_handled", TypeIs("deleteComment"), DROP, "deleteComment_not_handled"),
      Route("unsupported_action_type", Const(BoolVal(true)), DROP, "unsupported_action_type") ]
  }

  /** The dispatcher's reading of a `do` token; an unknown one drops. */
  function RouteActionFromDo(do: string): RouteAction {
    if do == DISPATCH then RouteDispatch
    else if do == TERMINATE then RouteTerminate
    else if do == NOTIFY_DEPARTURE then RouteNotifyDeparture
    else RouteDrop
  }

  ghost function Routed(env: Env): RouteAction { RouteActionFromDo(FirstMatch(DefaultRoutes(), env).do) }

  // ------------------------------------------------------- what the guards mean

  ghost predicate Listed(ids: seq<string>, id: string, names: seq<string>, name: string) {
    id in ids || ToLower(name) in names
  }

  lemma TypeIsMeans(kind: string, env: Env)
    ensures Eval(TypeIs(kind), env) == Yields(BoolVal(env.ev.kind == kind))
  {
  }

  lemma InListsMeans(ids: KanbanAttr, id: ActionAttr, names: KanbanAttr, name: ActionAttr, env: Env)
    requires KanbanAttrValue(env.kanban, ids).ListVal? && KanbanAttrValue(env.kanban, names).ListVal?
    requires ActionValue(env.ev, id).StringVal? && ActionValue(env.ev, name).StringVal?
    ensures Eval(InLists(ids, id, names, name), env)
         == Yields(BoolVal(Listed(KanbanAttrValue(env.kanban, ids).items, ActionValue(env.ev, id).s,
                                  KanbanAttrValue(env.kanban, names).items, ActionValue(env.ev, name).s)))
  {
    var lower := LowerCall(Action(name));
    var byId := ContainsCall(KanbanAttribute(ids), Action(id));
    var byName := ContainsCall(KanbanAttribute(names), lower);
    assert Eval(Action(name), env) == Yields(ActionValue(env.ev, name));
    assert Eval(lower, env) == Yields(StringVal(ToLower(ActionValue(env.ev, name).s)));
    assert Eval(KanbanAttribute(names), env) == Yields(KanbanAttrValue(env.kanban, names));
    assert Eval(byName, env)
        == Yields(BoolVal(ToLower(ActionValue(env.ev, name).s) in KanbanAttrValue(env.kanban, names).items));
    assert Eval(Action(id), env) == Yields(ActionValue(env.ev, id));
    assert Eval(KanbanAttribute(ids), env) == Yields(KanbanAttrValue(env.kanban, ids));
    assert Eval(byId, env) == Yields(BoolVal(ActionValue(env.ev, id).s in KanbanAttrValue(env.kanban, ids).items));
  }

  lemma IsBlankMeans(attr: ActionAttr, env: Env)
    requires ActionValue(env.ev, attr).StringVal?
    ensures Eval(IsBlank(attr), env) == Yields(BoolVal(ActionValue(env.ev, attr).s == ""))
    ensures Eval(Not(IsBlank(attr)), env) == Yields(BoolVal(ActionValue(env.ev, attr).s != ""))
  {
    assert Eval(IsBlank(attr), env) == Yields(BoolVal(ActionValue(env.ev, attr).s == ""));
  }

  lemma SelfCommentMeans(env: Env)
    ensures Eval(SelfComment(), env)
         == Yields(BoolVal(env.ev.kind == "commentCard"
                           && StartsWithAny(TrimSpace(env.ev.comment), env.kanban.prefixes)))
  {
    TypeIsMeans("commentCard", env);
    var trimmed := TrimSpaceCall(Action(Comment));
    assert Eval(Action(Comment), env) == Yields(StringVal(env.ev.comment));
    assert Eval(trimmed, env) == Yields(StringVal(TrimSpace(env.ev.comment)));
    var prefixes := KanbanAttribute(AgentCommentPrefixes);
    assert Eval(prefixes, env) == Yields(ListVal(env.kanban.prefixes));
    assert Eval(AnyPrefix(prefixes, trimmed), env)
        == Yields(BoolVal(StartsWithAny(TrimSpace(env.ev.comment), env.kanban.prefixes)));
  }

  /** When route `k` of the table fires. */
  ghost predicate Guard(k: nat, env: Env)
    requires k < 15
  {
    var (ev, kv) := (env.ev, env.kanban);
    match k
    case 0 => ev.cardID == ""
    case 1 => ev.cardID != "" && !ev.cardIDValid
    case 2 => ev.kind == "updateCard" && ev.listAfterID == "" && ev.listAfter == ""
    case 3 => ev.kind == "updateCard" && Listed(kv.doneListIDs, ev.listAfterID, kv.doneLists, ev.listAfter)
    case 4 => ev.kind == "updateCard" && Listed(kv.planListIDs, ev.listAfterID, kv.planLists, ev.listAfter)
    case 5 => ev.kind == "updateCard" && Listed(kv.actionListIDs, ev.listAfterID, kv.actionLists, ev.listAfter)
    case 6 => ev.kind == "updateCard" && (ev.listAfterID != "" || ev.listAfter != "")
    case 7 => ev.kind == "createCard" && Listed(kv.planListIDs, ev.listID, kv.planLists, ev.listName)
    case 8 => ev.kind == "createCard" && Listed(kv.actionListIDs, ev.listID, kv.actionLists, ev.listName)
    case 9 => ev.kind == "createCard"
    case 10 => ev.kind == "commentCard" && StartsWithAny(TrimSpace(ev.comment), kv.prefixes)
    case 11 => ev.kind == "commentCard"
    case 12 => ev.kind == "deleteCard"
    case 13 => ev.kind == "deleteComment"
    case _ => true
  }

  lemma MoveGuardMeans(k: nat, env: Env)
    requires 3 <= k < 6
    ensures Fires(DefaultRoutes()[k], env) <==> Guard(k, env)
  {
    TypeIsMeans("updateCard", env);
    if k == 3 {
      InListsMeans(DoneListIDs, ListAfterID, DoneLists, ListAfter, env);
    } else if k == 4 {
      InListsMeans(PlanListIDs, ListAfterID, PlanLists, ListAfter, env);
    } else {
      InListsMeans(ActionListIDs, ListAfterID, ActionLists, ListAfter, env);
    }
  }

  lemma CreateGuardMeans(k: nat, env: Env)
    requires k == 7 || k == 8
    ensures Fires(DefaultRoutes()[k], env) <==> Guard(k, env)
  {
    TypeIsMeans("createCard", env);
    if k == 7 {
      InListsMeans(PlanListIDs, ListID, PlanLists, ListName, env);
    } else {
      InListsMeans(ActionListIDs, ListID, ActionLists, ListName, env);
    }
  }

  lemma CardGuardMeans(k: nat, env: Env)
    requires k < 2
    ensures Fires(DefaultRoutes()[k], env) <==> Guard(k, env)
  {
    IsBlankMeans(CardID, env);
    assert Eval(Action(CardIDValid), env) == Yields(BoolVal(env.ev.cardIDValid));
    assert Eval(Not(Action(CardIDValid)), env) == Yields(BoolVal(!env.ev.cardIDValid));
  }

  lemma NoListGuardMeans(k: nat, env: Env)
    requires k == 2 || k == 6
    ensures Fires(DefaultRoutes()[k], env) <==> Guard(k, env)
  {
    TypeIsMeans("updateCard", env);
    IsBlankMeans(ListAfterID, env);
    IsBlankMeans(ListAfter, env);
    var noId := And(TypeIs("updateCard"), IsBlank(ListAfterID));
    assert Eval(noId, env) == Yields(BoolVal(env.ev.kind == "updateCard" && env.ev.listAfterID == ""));
    var some := Or(Not(IsBlank(ListAfterID)), Not(IsBlank(ListAfter)));
    assert Eval(some, env) == Yields(BoolVal(env.ev.listAfterID != "" || env.ev.listAfter != ""));
  }

  lemma GuardMeans(k: nat, env: Env)
    requires k < 15
    ensures Fires(DefaultRoutes()[k], env) <==> Guard(k, env)
  {
    if k < 2 {
      CardGuardMeans(k, env);
    } else if k == 2 || k == 6 {
      NoListGuardMeans(k, env);
    } else if k < 6 {
      MoveGuardMeans(k, env);
    } else if k < 9 {
      CreateGuardMeans(k, env);
    } else if k == 10 {
      SelfCommentMeans(env);
    } else if k == 9 {
      TypeIsMeans("createCard", env);
    } else if k == 11 {
      TypeIsMeans("commentCard", env);
    } else if k == 12 {
      TypeIsMeans("deleteCard", env);
    } else if k == 13 {
      TypeIsMeans("deleteComment", env);
    }
  }

  /** The first guard that holds decides. */
  lemma DecidedBy(k: nat, env: Env)
    requires k < 15 && Guard(k, env) && forall j: nat :: j < k ==> !Guard(j, env)
    ensures FirstMatch(DefaultRoutes(), env) == DecisionOf(DefaultRoutes()[k])
  {
    GuardMeans(k, env);
    forall j: nat | j < k ensures !Fires(DefaultRoutes()[j], env) {
      GuardMeans(j, env);
    }
    FirstMatchAt(DefaultRoutes(), env, k);
  }

  // ------------------------------------------------- agreement with the resolved view

  /** The environment of an event on a card with a valid id, under the view of a resolved board. */
  ghost predicate OnBoard(env: Env, v: Resolved, boardID: string, c: Config, lists: seq<BoardList>) {
    && ValidConfig(c) && IsView(v, boardID, c, lists) && UniqueIds(lists)
    && IsKanbanValue(env.kanban, Some(v))
    && env.ev.cardID != "" && env.ev.cardIDValid
  }

  /** What a card's move into a list of a category calls for. */
  function MoveActionFor(category: Category): RouteAction {
    match category
    case CategoryDone => RouteTerminate
    case CategoryPlan => RouteDispatch
    case CategoryAction => RouteDispatch
    case CategoryWait => RouteNotifyDeparture
    case CategoryUnknown => RouteDrop
  }

  /** The one name a derived name list of a role holds. */
  lemma RoleListed(names: seq<string>, role: string, name: string)
    requires names == NormaliseAll([role])
    ensures ToLower(name) in names <==> NormaliseName(name) == NormaliseName(role) && TrimSpace(name) == name
  {
    assert names == [NormaliseName(role)];
    LowerHit(name, role);
  }

  lemma TrimKeepsLength(s: string)
    ensures |TrimSpace(s)| == |s| ==> TrimSpace(s) == s
  {
  }

  /** The router lower-cases without trimming: it finds a role by its name only when no blank surrounds it. */
  lemma LowerHit(name: string, role: string)
    ensures ToLower(name) == NormaliseName(role)
        <==> NormaliseName(name) == NormaliseName(role) && TrimSpace(name) == name
  {
    if ToLower(name) == NormaliseName(role) {
      LowerTrim(name);
      LowerTrim(TrimSpace(role));
      TrimIsIdempotent(role);
      assert ToLower(TrimSpace(name)) == ToLower(name);
      assert |TrimSpace(name)| == |name|;
      TrimKeepsLength(name);
    }
  }

  /** The route a move takes, by the first list of the table that holds the target. */
  lemma MoveTakes(env: Env)
    requires env.ev.cardID != "" && env.ev.cardIDValid && env.ev.kind == "updateCard"
    ensures var (ev, kv) := (env.ev, env.kanban);
            Routed(env) ==
              if ev.listAfterID == "" && ev.listAfter == "" then RouteDrop
              else if Listed(kv.doneListIDs, ev.listAfterID, kv.doneLists, ev.listAfter) then RouteTerminate
              else if Listed(kv.planListIDs, ev.listAfterID, kv.planLists, ev.listAfter) then RouteDispatch
              else if Listed(kv.actionListIDs, ev.listAfterID, kv.actionLists, ev.listAfter) then RouteDispatch
              else RouteNotifyDeparture
  {
    var k := if Guard(2, env) then 2 else if Guard(3, env) then 3 else if Guard(4, env) then 4
             else if Guard(5, env) then 5 else 6;
    DecidedBy(k, env);
  }

  lemma CreateTakes(env: Env)
    requires env.ev.cardID != "" && env.ev.cardIDValid && env.ev.kind == "createCard"
    ensures var (ev, kv) := (env.ev, env.kanban);
            Routed(env) ==
              if Listed(kv.planListIDs, ev.listID, kv.planLists, ev.listName) then RouteDispatch
              else if Listed(kv.actionListIDs, ev.listID, kv.actionLists, ev.listName) then RouteDispatch
              else RouteDrop
  {
    DecidedBy(if Guard(7, env) then 7 else if Guard(8, env) then 8 else 9, env);
  }

  /** The keys of plan, action and done are not blank and differ. */
  lemma ThreeKeys(c: Config)
    requires ValidConfig(c)
    ensures NormaliseName(c.plan) != "" && NormaliseName(c.action) != "" && NormaliseName(c.done) != ""
    ensures NormaliseName(c.plan) != NormaliseName(c.action) && NormaliseName(c.plan) != NormaliseName(c.done)
    ensures NormaliseName(c.action) != NormaliseName(c.done)
  {
    var names := RoleNames(c);
    assert names[0] == c.plan && names[1] == c.action && names[6] == c.done;
    assert !Collide(names, 0, 1) && !Collide(names, 0, 6) && !Collide(names, 1, 6);
    assert TrimSpace(names[0]) != "" && TrimSpace(names[1]) != "" && TrimSpace(names[6]) != "";
  }

  /** By name, plan, action and done are told by their keys. */
  lemma CategoryByKey(v: Resolved, c: Config, name: string)
    requires ValidConfig(c) && NamedAs(v, c)
    ensures CategoryForListName(v, name) == CategoryPlan <==> NormaliseName(name) == NormaliseName(v.plan.name)
    ensures CategoryForListName(v, name) == CategoryAction <==> NormaliseName(name) == NormaliseName(v.action.name)
    ensures CategoryForListName(v, name) == CategoryDone <==> NormaliseName(name) == NormaliseName(v.done.name)
  {
    ThreeKeys(c);
  }

  /** What the routes make of a name: they do not trim it. */
  function RoutedName(v: Resolved, name: string): Category {
    if TrimSpace(name) == name then CategoryForListName(v, name) else CategoryUnknown
  }

  lemma RoleIdsAreOnBoard(v: Resolved, boardID: string, c: Config, lists: seq<BoardList>, id: string)
    requires AllResolve(c, lists) && IsView(v, boardID, c, lists) && id !in IdsOf(lists)
    ensures id !in v.planListIDs && id !in v.actionListIDs && id !in v.doneListIDs
  {
    RoleIdsOnBoard(c, lists);
    var ids := RoleIds(RoleMatches(c, lists));
    assert ids[0] in ids && ids[1] in ids && ids[6] in ids;
  }

  /** An id is given, or no list of the board has the empty one. */
  ghost predicate IdTells(lists: seq<BoardList>, id: string) { id != "" || "" !in IdsOf(lists) }

  /** By id, plan, action and done are told by the id lists. */
  lemma CategoryByHeldId(v: Resolved, boardID: string, c: Config, lists: seq<BoardList>, id: string)
    requires ValidConfig(c) && IsView(v, boardID, c, lists) && UniqueIds(lists) && IdTells(lists, id)
    ensures id in v.planListIDs <==> CategoryForListID(v, id) == CategoryPlan
    ensures id in v.actionListIDs <==> CategoryForListID(v, id) == CategoryAction
    ensures id in v.doneListIDs <==> CategoryForListID(v, id) == CategoryDone
  {
    if id == "" {
      RoleIdsAreOnBoard(v, boardID, c, lists, id);
    }
    ThreeIds(v, boardID, c, lists);
  }

  lemma ThreeIds(v: Resolved, boardID: string, c: Config, lists: seq<BoardList>)
    requires ValidConfig(c) && IsView(v, boardID, c, lists) && UniqueIds(lists)
    ensures v.planListIDs == [v.plan.id] && v.actionListIDs == [v.action.id] && v.doneListIDs == [v.done.id]
    ensures v.plan.id != v.action.id && v.plan.id != v.done.id && v.action.id != v.done.id
  {
    BoardPartition(v, boardID, c, lists);
    var ids := [v.plan.id, v.action.id, v.wait.planReview.id, v.wait.actionReview.id, v.wait.generic.id,
                v.wait.exception.id, v.done.id];
    assert ids[0] != ids[1] && ids[0] != ids[6] && ids[1] != ids[6];
  }

  /** The derived lists of plan, action and done find what the id or the name, as routed, has as its category. */
  lemma FoundByEither(env: Env, v: Resolved, boardID: string, c: Config, lists: seq<BoardList>,
                      id: string, name: string)
    requires OnBoard(env, v, boardID, c, lists) && IdTells(lists, id)
    ensures Listed(env.kanban.planListIDs, id, env.kanban.planLists, name)
        <==> CategoryForListID(v, id) == CategoryPlan || RoutedName(v, name) == CategoryPlan
    ensures Listed(env.kanban.actionListIDs, id, env.kanban.actionLists, name)
        <==> CategoryForListID(v, id) == CategoryAction || RoutedName(v, name) == CategoryAction
    ensures Listed(env.kanban.doneListIDs, id, env.kanban.doneLists, name)
        <==> CategoryForListID(v, id) == CategoryDone || RoutedName(v, name) == CategoryDone
  {
    RoleNamesOfView(v, boardID, c, lists);
    CategoryByKey(v, c, name);
    CategoryByHeldId(v, boardID, c, lists, id);
    RoleListed(env.kanban.planLists, v.plan.name, name);
    RoleListed(env.kanban.actionLists, v.action.name, name);
    RoleListed(env.kanban.doneLists, v.done.name, name);
  }

  // ------------------------------------------------ what the derived lists hold

  /** The attribute of the kanban object is a list that holds the string. */
  ghost predicate Holds(k: KanbanValue, attr: KanbanAttr, s: string) {
    KanbanAttrValue(k, attr).ListVal? && s in KanbanAttrValue(k, attr).items
  }

  lemma {:induction false} NormalisedIn(names: seq<string>, key: string)
    ensures key in NormaliseAll(names) <==> exists n :: n in names && NormaliseName(n) == key
  {
    if key in NormaliseAll(names) {
      var i :| 0 <= i < |names| && NormaliseAll(names)[i] == key;
      assert names[i] in names;
    }
    if n :| n in names && NormaliseName(n) == key {
      var i :| 0 <= i < |names| && names[i] == n;
      assert NormaliseAll(names)[i] == key;
    }
  }

  ghost predicate WaitKey(v: Resolved, key: string) {
    || key == NormaliseName(v.wait.planReview.name) || key == NormaliseName(v.wait.actionReview.name)
    || key == NormaliseName(v.wait.generic.name) || key == NormaliseName(v.wait.exception.name)
    || Unclaims(v, key)
  }

  lemma WaitNames(k: KanbanValue, v: Resolved, key: string)
    requires IsKanbanValue(k, Some(v))
    ensures key in k.waitLists <==> WaitKey(v, key)
  {
    var fixed := [v.wait.planReview.name, v.wait.actionReview.name, v.wait.generic.name, v.wait.exception.name];
    NormalisedIn(fixed + v.unclaimedListNames, key);
    assert forall n :: n in fixed + v.unclaimedListNames <==> n in fixed || n in v.unclaimedListNames;
    assert fixed[0] in fixed && fixed[1] in fixed && fixed[2] in fixed && fixed[3] in fixed;
  }

  /** A key of wait is not that of plan, action or done. */
  lemma WaitKeysDiffer(v: Resolved, boardID: string, c: Config, lists: seq<BoardList>, key: string)
    requires ValidConfig(c) && IsView(v, boardID, c, lists) && UniqueIds(lists) && WaitKey(v, key)
    ensures key != NormaliseName(v.plan.name) && key != NormaliseName(v.action.name)
    ensures key != NormaliseName(v.done.name)
  {
    RoleNamesOfView(v, boardID, c, lists);
    if Unclaims(v, key) {
      UnclaimedHasNoRole(v, boardID, c, lists, key);
    } else {
      WaitRolesDiffer(c, key);
    }
  }

  lemma WaitRolesDiffer(c: Config, key: string)
    requires ValidConfig(c)
    requires key == NormaliseName(c.planReview) || key == NormaliseName(c.actionReview)
             || key == NormaliseName(c.generic) || key == NormaliseName(c.exception)
    ensures key != NormaliseName(c.plan) && key != NormaliseName(c.action) && key != NormaliseName(c.done)
  {
    var names := RoleNames(c);
    RoleNameIsOneOf(c);
    var r := if key == NormaliseName(c.planReview) then 2 else if key == NormaliseName(c.actionReview) then 3
             else if key == NormaliseName(c.generic) then 4 else 5;
    assert NormaliseName(names[r]) == key;
    assert !Collide(names, 0, r) && !Collide(names, 1, r) && !Collide(names, r, 6);
  }

  lemma RoleNameIsOneOf(c: Config)
    ensures var names := RoleNames(c);
            && names[0] == c.plan && names[1] == c.action && names[2] == c.planReview && names[3] == c.actionReview
            && names[4] == c.generic && names[5] == c.exception && names[6] == c.done
  {
  }

  lemma UnclaimedHasNoRole(v: Resolved, boardID: string, c: Config, lists: seq<BoardList>, key: string)
    requires IsView(v, boardID, c, lists) && UniqueIds(lists) && Unclaims(v, key)
    ensures !HasRoleName(c, key)
  {
    var rest := Unclaimed(lists, Claimed(c, lists));
    var n :| n in v.unclaimedListNames && NormaliseName(n) == key;
    var i :| 0 <= i < |rest| && NamesOf(rest)[i] == n;
    UnclaimedLists(lists, Claimed(c, lists));
    assert rest[i] in rest;
    ClaimedIffNamed(c, lists, rest[i]);
  }

  lemma WaitByName(v: Resolved, boardID: string, c: Config, lists: seq<BoardList>, name: string)
    requires ValidConfig(c) && IsView(v, boardID, c, lists) && UniqueIds(lists) && HasText(name)
    ensures CategoryForListName(v, name) == CategoryWait <==> WaitKey(v, NormaliseName(name))
  {
    BlankIffNoText(name);
    if WaitKey(v, NormaliseName(name)) {
      WaitKeysDiffer(v, boardID, c, lists, NormaliseName(name));
    }
  }

  lemma HeldNames(k: KanbanValue, v: Resolved, key: string)
    requires IsKanbanValue(k, Some(v))
    ensures Holds(k, PlanLists, key) <==> key == NormaliseName(v.plan.name)
    ensures Holds(k, ActionLists, key) <==> key == NormaliseName(v.action.name)
    ensures Holds(k, WaitLists, key) <==> WaitKey(v, key)
    ensures Holds(k, DoneLists, key) <==> key == NormaliseName(v.done.name)
  {
    WaitNames(k, v, key);
    assert k.planLists == [NormaliseName(v.plan.name)] && k.actionLists == [NormaliseName(v.action.name)];
    assert k.doneLists == [NormaliseName(v.done.name)];
  }

  /** The names in the derived lists are those whose category, by name, is the list's. */
  lemma DerivedNamesAreCategories(k: KanbanValue, v: Resolved, boardID: string, c: Config, lists: seq<BoardList>,
                                  name: string)
    requires ValidConfig(c) && IsView(v, boardID, c, lists) && UniqueIds(lists) && IsKanbanValue(k, Some(v))
    requires HasText(name)
    ensures Holds(k, PlanLists, NormaliseName(name)) <==> CategoryForListName(v, name) == CategoryPlan
    ensures Holds(k, ActionLists, NormaliseName(name)) <==> CategoryForListName(v, name) == CategoryAction
    ensures Holds(k, WaitLists, NormaliseName(name)) <==> CategoryForListName(v, name) == CategoryWait
    ensures Holds(k, DoneLists, NormaliseName(name)) <==> CategoryForListName(v, name) == CategoryDone
  {
    RoleNamesOfView(v, boardID, c, lists);
    CategoryByKey(v, c, name);
    WaitByName(v, boardID, c, lists, name);
    HeldNames(k, v, NormaliseName(name));
  }

  /** An id stands in one of the four id lists at most. */
  lemma IdsAreApart(v: Resolved, boardID: string, c: Config, lists: seq<BoardList>, id: string)
    requires ValidConfig(c) && IsView(v, boardID, c, lists) && UniqueIds(lists) && id in v.waitListIDs
    ensures id !in v.planListIDs && id !in v.actionListIDs && id !in v.doneListIDs
  {
    BoardPartition(v, boardID, c, lists);
    NoDupCounts(IdsOf(lists), id);
    var all := multiset(v.planListIDs + v.actionListIDs + v.waitListIDs + v.doneListIDs);
    assert all == multiset(v.planListIDs) + multiset(v.actionListIDs) + multiset(v.waitListIDs)
                  + multiset(v.doneListIDs);
    assert all[id] <= 1;
  }

  /** The ids in the derived lists are those whose category, by id, is the list's. */
  lemma DerivedIdsAreCategories(k: KanbanValue, v: Resolved, boardID: string, c: Config, lists: seq<BoardList>,
                                id: string)
    requires ValidConfig(c) && IsView(v, boardID, c, lists) && UniqueIds(lists) && IsKanbanValue(k, Some(v))
    requires id != ""
    ensures Holds(k, PlanListIDs, id) <==> CategoryForListID(v, id) == CategoryPlan
    ensures Holds(k, ActionListIDs, id) <==> CategoryForListID(v, id) == CategoryAction
    ensures Holds(k, WaitListIDs, id) <==> CategoryForListID(v, id) == CategoryWait
    ensures Holds(k, DoneListIDs, id) <==> CategoryForListID(v, id) == CategoryDone
  {
    CategoryByHeldId(v, boardID, c, lists, id);
    if id in v.waitListIDs {
      IdsAreApart(v, boardID, c, lists, id);
    }
  }

  // ----------------------------------------------------------------------- moves

  /** The route of a move by the categories of its id and of its name, as routed. */
  function RouteOfMove(byId: Category, byName: Category): RouteAction {
    if byId == CategoryDone || byName == CategoryDone then RouteTerminate
    else if byId in {CategoryPlan, CategoryAction} || byName in {CategoryPlan, CategoryAction} then RouteDispatch
    else RouteNotifyDeparture
  }

  /** A move that names a list in any way, by its id or its name or both. */
  lemma MoveByCategories(env: Env, v: Resolved, boardID: string, c: Config, lists: seq<BoardList>)
    requires OnBoard(env, v, boardID, c, lists) && env.ev.kind == "updateCard"
    requires IdTells(lists, env.ev.listAfterID) && (env.ev.listAfterID != "" || env.ev.listAfter != "")
    ensures Routed(env) == RouteOfMove(CategoryForListID(v, env.ev.listAfterID), RoutedName(v, env.ev.listAfter))
  {
    MoveTakes(env);
    FoundByEither(env, v, boardID, c, lists, env.ev.listAfterID, env.ev.listAfter);
  }

  /** The list's own name, or none, has the list's category or none to the routes. */
  lemma OwnNameAgrees(v: Resolved, boardID: string, c: Config, lists: seq<BoardList>, l: BoardList, name: string)
    requires ValidConfig(c) && IsView(v, boardID, c, lists) && UniqueIds(lists) && l in lists && l.id != ""
    requires name == l.name || name == ""
    ensures RoutedName(v, name) == CategoryUnknown || RoutedName(v, name) == CategoryForListID(v, l.id)
    ensures CategoryForListID(v, l.id) != CategoryUnknown
  {
    CategoriesAgree(v, boardID, c, lists, l);
  }

  /**
   A move into a list of the board. With the list's own name or none it is routed exactly
   as the list's category calls for. With another name, as after a list was renamed, that
   is so exactly when the list is for done, or the name is not that of done and, for a
   list of wait, not that of plan or action either.
   */
  lemma MoveFollowsCategory(env: Env, v: Resolved, boardID: string, c: Config, lists: seq<BoardList>, l: BoardList)
    requires OnBoard(env, v, boardID, c, lists) && l in lists && l.id != ""
    requires env.ev.kind == "updateCard" && env.ev.listAfterID == l.id
    ensures var (byId, byName) := (CategoryForListID(v, l.id), RoutedName(v, env.ev.listAfter));
            && byId != CategoryUnknown
            && (Routed(env) == MoveActionFor(byId) <==>
                  || byId == CategoryDone
                  || (byName != CategoryDone
                      && (byId == CategoryWait ==> byName !in {CategoryPlan, CategoryAction})))
            && (env.ev.listAfter == l.name || env.ev.listAfter == "" ==> Routed(env) == MoveActionFor(byId))
  {
    MoveByCategories(env, v, boardID, c, lists);
    OwnNameAgrees(v, boardID, c, lists, l, "");
    if env.ev.listAfter == l.name {
      OwnNameAgrees(v, boardID, c, lists, l, l.name);
    }
    BlankIsUnknown(v);
  }

  lemma BlankIsUnknown(v: Resolved)
    ensures RoutedName(v, "") == CategoryUnknown
  {
    assert TrimSpace("") == "";
  }

  lemma NameAlone(v: Resolved, name: string)
    ensures var (route, category) := (RouteOfMove(CategoryUnknown, RoutedName(v, name)), CategoryForListName(v, name));
            && (route == MoveActionFor(category) <==>
                  (TrimSpace(name) == name && category != CategoryUnknown) || category == CategoryWait)
            && (TrimSpace(name) != name || category == CategoryUnknown ==> route == RouteNotifyDeparture)
  {
  }

  /**
   A move that names its list by the name only, or by the id of no list of the board. The
   lookup by name trims what it is given, the routes do not; and an unknown category, to
   be dropped, is notified as a departure. Lookup and route agree exactly when the name is
   known and has no blanks around it, or its category is wait.
   */
  lemma NameOnlyMove(env: Env, v: Resolved, boardID: string, c: Config, lists: seq<BoardList>)
    requires OnBoard(env, v, boardID, c, lists) && env.ev.kind == "updateCard"
    requires env.ev.listAfterID !in IdsOf(lists) && (env.ev.listAfterID != "" || env.ev.listAfter != "")
    ensures var (name, category) := (env.ev.listAfter, CategoryForListName(v, env.ev.listAfter));
            && (Routed(env) == MoveActionFor(category) <==>
                  (TrimSpace(name) == name && category != CategoryUnknown) || category == CategoryWait)
            && (TrimSpace(name) != name || category == CategoryUnknown ==> Routed(env) == RouteNotifyDeparture)
  {
    MoveByCategories(env, v, boardID, c, lists);
    KnownIffOnBoard(v, boardID, c, lists, env.ev.listAfterID);
    NameAlone(v, env.ev.listAfter);
  }

  /** A move to the id of no list of the board, without a name: unknown, and notified as a departure. */
  lemma OffBoardMove(env: Env, v: Resolved, boardID: string, c: Config, lists: seq<BoardList>)
    requires OnBoard(env, v, boardID, c, lists) && env.ev.kind == "updateCard"
    requires env.ev.listAfterID != "" && env.ev.listAfter == ""
    ensures CategoryForListID(v, env.ev.listAfterID) == CategoryUnknown <==> env.ev.listAfterID !in IdsOf(lists)
    ensures env.ev.listAfterID !in IdsOf(lists) ==> Routed(env) == RouteNotifyDeparture
  {
    KnownIffOnBoard(v, boardID, c, lists, env.ev.listAfterID);
    if env.ev.listAfterID !in IdsOf(lists) {
      NameOnlyMove(env, v, boardID, c, lists);
    }
  }

  // ------------------------------------------------------------------- creations

  /** What a card's creation in a list of a category calls for. */
  function CreateActionFor(category: Category): RouteAction {
    if category in {CategoryPlan, CategoryAction} then RouteDispatch else RouteDrop
  }

  /** A creation that names a list in any way, or in none. */
  lemma CreateByCategories(env: Env, v: Resolved, boardID: string, c: Config, lists: seq<BoardList>)
    requires OnBoard(env, v, boardID, c, lists) && env.ev.kind == "createCard" && IdTells(lists, env.ev.listID)
    ensures Routed(env) == RouteDispatch <==>
              || CategoryForListID(v, env.ev.listID) in {CategoryPlan, CategoryAction}
              || RoutedName(v, env.ev.listName) in {CategoryPlan, CategoryAction}
    ensures Routed(env) in {RouteDispatch, RouteDrop}
  {
    CreateTakes(env);
    FoundByEither(env, v, boardID, c, lists, env.ev.listID, env.ev.listName);
  }

  /**
   A card created in a list of the board. With the list's own name or none it is dispatched
   exactly when the list is for plan or action; with another name that is so exactly when
   the list is for plan or action, or the name is not.
   */
  lemma CreateFollowsCategory(env: Env, v: Resolved, boardID: string, c: Config, lists: seq<BoardList>, l: BoardList)
    requires OnBoard(env, v, boardID, c, lists) && l in lists && l.id != ""
    requires env.ev.kind == "createCard" && env.ev.listID == l.id
    ensures var (byId, byName) := (CategoryForListID(v, l.id), RoutedName(v, env.ev.listName));
            && (Routed(env) == CreateActionFor(byId) <==>
                  byId in {CategoryPlan, CategoryAction} || byName !in {CategoryPlan, CategoryAction})
            && (env.ev.listName == l.name || env.ev.listName == "" ==> Routed(env) == CreateActionFor(byId))
  {
    CreateByCategories(env, v, boardID, c, lists);
    if env.ev.listName == l.name || env.ev.listName == "" {
      OwnNameAgrees(v, boardID, c, lists, l, env.ev.listName);
    }
  }

  /**
   A creation that gives a name only, or the id of no list of the board: the route agrees
   with the lookup by name exactly when the name has no blanks around it or is not that of
   plan or action.
   */
  lemma NameOnlyCreate(env: Env, v: Resolved, boardID: string, c: Config, lists: seq<BoardList>)
    requires OnBoard(env, v, boardID, c, lists) && env.ev.kind == "createCard" && env.ev.listID !in IdsOf(lists)
    ensures var (name, category) := (env.ev.listName, CategoryForListName(v, env.ev.listName));
            && (Routed(env) == CreateActionFor(category) <==>
                  TrimSpace(name) == name || category !in {CategoryPlan, CategoryAction})
            && (TrimSpace(name) != name ==> Routed(env) == RouteDrop)
  {
    CreateByCategories(env, v, boardID, c, lists);
    KnownIffOnBoard(v, boardID, c, lists, env.ev.listID);
  }

  // -------------------------------------------------------------------- the rest

  /** A comment is dropped or dispatched by the configured prefixes, the empty one included. */
  lemma CommentTakes(env: Env)
    requires env.ev.cardID != "" && env.ev.cardIDValid && env.ev.kind == "commentCard"
    ensures Routed(env) == if StartsWithAny(TrimSpace(env.ev.comment), env.kanban.prefixes) then RouteDrop
                           else RouteDispatch
  {
    DecidedBy(if Guard(10, env) then 10 else 11, env);
  }

  lemma StartsIff(text: string, prefixes: seq<string>)
    ensures StartsWithAny(TrimSpace(text), prefixes) <==> exists p :: p in prefixes && BeginsWith(text, p)
  {
    forall p: string ensures HasPrefix(TrimSpace(text), p) <==> BeginsWith(text, p) {
      TrimmedPrefixIff(text, p);
    }
  }

  /**
   A comment is dropped exactly when the lookup calls it the agent's own, if and only if
   it is the agent's own or no configured prefix is empty: the lookup skips an empty
   prefix, the route matches every comment with it.
   */
  lemma CommentDropIsAgentComment(env: Env, v: Resolved, boardID: string, c: Config, lists: seq<BoardList>)
    requires OnBoard(env, v, boardID, c, lists) && env.ev.kind == "commentCard"
    ensures (Routed(env) == RouteDrop <==> IsAgentComment(v, env.ev.comment))
        <==> IsAgentComment(v, env.ev.comment) || "" !in v.agentCommentPrefixes
    ensures Routed(env) == if exists p :: p in v.agentCommentPrefixes && BeginsWith(env.ev.comment, p) then RouteDrop
                           else RouteDispatch
  {
    CommentTakes(env);
    StartsIff(env.ev.comment, v.agentCommentPrefixes);
    var text := TrimSpace(env.ev.comment);
    if "" in v.agentCommentPrefixes {
      assert HasPrefix(text, "");
      assert StartsWithAny(text, env.kanban.prefixes);
    }
  }

  /** Whatever the view and the event, only an event with a valid card id is ever acted on. */
  lemma OnlyValidCardsAreRouted(env: Env)
    ensures Routed(env) != RouteDrop ==> env.ev.cardID != "" && env.ev.cardIDValid
  {
    if Guard(0, env) {
      DecidedBy(0, env);
    } else if Guard(1, env) {
      DecidedBy(1, env);
    }
  }

  /** The card id of the dispatcher's decision: blanked by the reason of the matched route. */
  function DecidedCardID(d: Decision, cardID: string): string {
    if d.reason == "no_card_id" || d.reason == "invalid_card_id" then "" else cardID
  }

  lemma ReasonsOfTheRest(k: nat)
    requires 2 <= k < 15
    ensures DefaultRoutes()[k].reason != "no_card_id" && DefaultRoutes()[k].reason != "invalid_card_id"
  {
    var reason := DefaultRoutes()[k].reason;
    assert |reason| != 10 && |reason| != 15;
  }

  /** The decision carries the card id exactly when it is given and valid. */
  lemma CardIDKeptIffValid(env: Env)
    ensures var d := FirstMatch(DefaultRoutes(), env);
            DecidedCardID(d, env.ev.cardID) == if env.ev.cardIDValid then env.ev.cardID else ""
  {
    var k := FirstMatchIsFirst(DefaultRoutes(), env);
    GuardMeans(0, env);
    GuardMeans(1, env);
    GuardMeans(14, env);
    if k >= 2 {
      ReasonsOfTheRest(k);
    }
  }

  /** Deletions of a card terminate, and every other action on a valid card the table does not know is dropped. */
  lemma OtherActions(env: Env)
    requires env.ev.cardID != "" && env.ev.cardIDValid
    requires env.ev.kind !in {"updateCard", "createCard", "commentCard"}
    ensures Routed(env) == if env.ev.kind == "deleteCard" then RouteTerminate else RouteDrop
  {
    DecidedBy(if Guard(12, env) then 12 else if Guard(13, env) then 13 else 14, env);
  }

  /** The token of an action. */
  function TokenOf(action: RouteAction): string {
    match action
    case RouteDrop => "drop"
    case RouteDispatch => "dispatch"
    case RouteTerminate => "terminate"
    case RouteNotifyDeparture => "notify_departure"
  }

  /** Why an action is taken: what the event is, and for a valid card's move, creation or comment, what is done. */
  function ReasonFor(ev: Event, action: RouteAction): string {
    if ev.cardID == "" then "no_card_id"
    else if !ev.cardIDValid then "invalid_card_id"
    else if ev.kind == "updateCard" then
      match action
      case RouteTerminate => "moved_to_done"
      case RouteDispatch => "moved_to_active_list"
      case RouteNotifyDeparture => "moved_to_non_active_list"
      case RouteDrop => "updateCard_no_list_move"
    else if ev.kind == "createCard" then
      if action.RouteDispatch? then "created_in_active_list" else "created_in_non_active_list"
    else if ev.kind == "commentCard" then if action.RouteDispatch? then "human_comment" else "agent_self_comment"
    else if ev.kind == "deleteCard" then "card_deleted"
    else if ev.kind == "deleteComment" then "deleteComment_not_handled"
    else "unsupported_action_type"
  }

  /** The four tokens are read back as the actions they stand for, and any other as a drop. */
  lemma TokensReadBack(do: string)
    ensures RouteActionFromDo(do) == RouteDispatch <==> do == "dispatch"
    ensures RouteActionFromDo(do) == RouteTerminate <==> do == "terminate"
    ensures RouteActionFromDo(do) == RouteNotifyDeparture <==> do == "notify_departure"
  {
    assert |"dispatch"| == 8 && |"terminate"| == 9 && |"notify_departure"| == 16;
  }

  /** The default table says what it does and why: token and reason follow from the event and the action. */
  lemma DecisionSaysWhy(env: Env)
    ensures var d := FirstMatch(DefaultRoutes(), env);
            d.do == TokenOf(Routed(env)) && d.reason == ReasonFor(env.ev, Routed(env))
  {
    var k := FirstGuard(env);
    DecidedBy(k, env);
    RowSaysWhy(k, env);
  }

  lemma FirstGuard(env: Env) returns (k: nat)
    ensures k < 15 && Guard(k, env) && forall j: nat :: j < k ==> !Guard(j, env)
  {
    k := 0;
    while !Guard(k, env)
      invariant k < 15 && forall j: nat :: j < k ==> !Guard(j, env)
      decreases 15 - k
    {
      k := k + 1;
    }
  }

  /** What row `k` of the table decides. */
  function Row(k: nat): Decision
    requires k < 15
  {
    DecisionOf(DefaultRoutes()[k])
  }

  lemma RowSaysWhy(k: nat, env: Env)
    requires k < 15 && Guard(k, env) && forall j: nat :: j < k ==> !Guard(j, env)
    ensures Row(k).do == TokenOf(RouteActionFromDo(Row(k).do))
    ensures Row(k).reason == ReasonFor(env.ev, RouteActionFromDo(Row(k).do))
  {
    TokensReadBack(Row(k).do);
    assert k > 0 ==> !Guard(0, env);
    assert k > 1 ==> !Guard(1, env);
    assert k > 6 ==> !Guard(2, env) && !Guard(6, env);
    assert k > 9 ==> !Guard(9, env);
    assert k > 11 ==> !Guard(11, env);
    assert k > 12 ==> !Guard(12, env);
    assert k > 13 ==> !Guard(13, env);
  }
}

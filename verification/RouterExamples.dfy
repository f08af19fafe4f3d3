/**
 One resolved board, and events on which the default routes and the category lookups
 disagree.
 */
module RouterExamples {
  import opened Common
  import opened Strings
  import opened Kanban
  import opened KanbanCategories
  import opened Router
  import opened RouterDefaults
  import opened DispatcherModel

  // ------------------------------------------------- a board of the seven role lists

  /** Seven lists, one for each role and named as it is. */
  ghost predicate IsRoleBoard(c: Config, lists: seq<BoardList>) {
    |lists| == 7 && forall r :: 0 <= r < 7 ==> lists[r].name == RoleNames(c)[r]
  }

  /** A list whose name no other list has is all that matches it. */
  lemma {:induction false} OnlyMatch(lists: seq<BoardList>, i: nat)
    requires i < |lists|
    requires forall j :: 0 <= j < |lists| && j != i ==> NormaliseName(lists[j].name) != NormaliseName(lists[i].name)
    ensures Matches(lists, NormaliseName(lists[i].name)) == [lists[i]]
  {
    var (front, key) := (lists[..|lists| - 1], NormaliseName(lists[i].name));
    if i < |front| {
      OnlyMatch(front, i);
    } else {
      NoMatch(front, key);
    }
  }

  lemma {:induction false} NoMatch(lists: seq<BoardList>, key: string)
    requires forall l :: l in lists ==> NormaliseName(l.name) != key
    ensures Matches(lists, key) == []
  {
    if lists != [] {
      assert lists[|lists| - 1] in lists;
      NoMatch(lists[..|lists| - 1], key);
    }
  }

  lemma HasOne(lists: seq<BoardList>)
    requires lists != []
    ensures exists l :: l in lists
  {
    assert lists[0] in lists;
  }

  lemma RoleBoardResolves(c: Config, lists: seq<BoardList>)
    requires ValidConfig(c) && IsRoleBoard(c, lists)
    ensures AllResolve(c, lists)
    ensures forall r :: 0 <= r < 7 ==> RoleMatches(c, lists)[r] == [lists[r]]
  {
    forall r | 0 <= r < 7 ensures RoleMatches(c, lists)[r] == [lists[r]] {
      forall j | 0 <= j < 7 && j != r ensures NormaliseName(lists[j].name) != NormaliseName(lists[r].name) {
        assert !Collide(RoleNames(c), if j < r then j else r, if j < r then r else j);
      }
      OnlyMatch(lists, r);
    }
  }

  lemma NothingUnclaimed(lists: seq<BoardList>, m: seq<seq<BoardList>>)
    requires |m| == 7 && |lists| == 7 && forall r :: 0 <= r < 7 ==> m[r] == [lists[r]]
    ensures AllMatchOnce(m, 7) && Unclaimed(lists, ClaimedIds(m, 7)) == []
  {
    var rest := Unclaimed(lists, ClaimedIds(m, 7));
    UnclaimedLists(lists, ClaimedIds(m, 7));
    forall l | l in lists ensures l.id in ClaimedIds(m, 7) {
      var r :| 0 <= r < 7 && lists[r] == l;
      assert m[r][0].id in ClaimedIds(m, 7);
    }
    if rest != [] {
      HasOne(rest);
    }
  }

  /** The view of such a board. */
  function RoleBoardView(boardID: string, c: Config, lists: seq<BoardList>): Resolved
    requires |lists| == 7
  {
    var role := (r: nat) requires r < 7 => Role(TrimSpace(RoleNames(c)[r]), lists[r].id);
    Resolved(boardID, role(0), role(1), role(6), WaitRoles(role(2), role(3), role(4), role(5)),
             c.agentCommentPrefixes, [lists[0].id], [lists[1].id],
             [lists[2].id, lists[3].id, lists[4].id, lists[5].id], [lists[6].id], [])
  }

  lemma RoleBoardViewIsView(boardID: string, c: Config, lists: seq<BoardList>)
    requires ValidConfig(c) && IsRoleBoard(c, lists)
    ensures IsView(RoleBoardView(boardID, c, lists), boardID, c, lists)
  {
    RoleBoardResolves(c, lists);
    NothingUnclaimed(lists, RoleMatches(c, lists));
    assert NamesOf([]) == [] && IdsOf([]) == [];
  }

  // ------------------------------------------------------------------ the example

  const LISTS: seq<BoardList> :=
    [BoardList("1", "a"), BoardList("2", "b"), BoardList("3", "c"), BoardList("4", "d"),
     BoardList("5", "e"), BoardList("6", "f"), BoardList("7", "g")]

  function ConfigWith(prefixes: seq<string>): Config { Config("a", "b", "c", "d", "e", "f", "g", prefixes) }

  /** A name of one small letter is its own normal form. */
  lemma LetterIsNormal(ch: char)
    requires 'a' <= ch <= 'z'
    ensures TrimSpace([ch]) == [ch] && NormaliseName([ch]) == [ch]
  {
    assert TrimLeft([ch]) == [ch] && TrimRight([ch]) == [ch];
    assert ToLower([ch]) == [ch];
  }

  lemma ConfigIsValid(prefixes: seq<string>)
    ensures ValidConfig(ConfigWith(prefixes)) && IsRoleBoard(ConfigWith(prefixes), LISTS) && UniqueIds(LISTS)
    ensures "" !in IdsOf(LISTS)
  {
    var names := RoleNames(ConfigWith(prefixes));
    forall i | 0 <= i < 7 ensures names[i] == [('a' as int + i) as char] {
    }
    forall i | 0 <= i < 7 ensures TrimSpace(names[i]) == names[i] && NormaliseName(names[i]) == names[i] {
      LetterIsNormal(('a' as int + i) as char);
    }
    forall i, j | 0 <= i < j < 7 ensures !Collide(names, i, j) {
      assert names[i][0] != names[j][0];
    }
    forall i | 0 <= i < 7 ensures IdsOf(LISTS)[i] == [('1' as int + i) as char] {
    }
    forall i, j | 0 <= i < j < 7 ensures IdsOf(LISTS)[i] != IdsOf(LISTS)[j] {
      assert IdsOf(LISTS)[i][0] != IdsOf(LISTS)[j][0];
    }
  }

  lemma NoEighthList()
    ensures "8" !in IdsOf(LISTS)
  {
    forall i | 0 <= i < 7 ensures IdsOf(LISTS)[i] != "8" {
      assert LISTS[i].id[0] != '8';
    }
  }

  /** The example, known only by what matters of it. */
  lemma Example(prefixes: seq<string>) returns (c: Config, lists: seq<BoardList>)
    ensures ValidConfig(c) && IsRoleBoard(c, lists) && UniqueIds(lists) && "" !in IdsOf(lists)
    ensures c == ConfigWith(prefixes) && "8" !in IdsOf(lists)
  {
    c, lists := ConfigWith(prefixes), LISTS;
    ConfigIsValid(prefixes);
    NoEighthList();
  }

  /** The kanban object of a view, as a value. */
  function KanbanOf(v: Resolved): KanbanValue {
    KanbanValue(
      NormaliseAll([v.plan.name]), NormaliseAll([v.action.name]),
      NormaliseAll([v.wait.planReview.name, v.wait.actionReview.name, v.wait.generic.name, v.wait.exception.name]
                   + v.unclaimedListNames),
      NormaliseAll([v.done.name]), v.planListIDs, v.actionListIDs, v.waitListIDs, v.doneListIDs,
      v.agentCommentPrefixes,
      RoleNamesValue(v.plan.name, v.action.name, v.done.name, v.wait.planReview.name,
                     v.wait.actionReview.name, v.wait.generic.name, v.wait.exception.name))
  }

  /** An event on a valid card of a role board: it moves to a list named `name`, or carries a comment. */
  function EnvOf(v: Resolved, kind: string, name: string, comment: string): Env {
    Env(Event(kind, "card", true, name, "", "", "", comment), KanbanOf(v), false)
  }

  lemma EnvIsOnBoard(c: Config, lists: seq<BoardList>, kind: string, name: string, comment: string)
    requires ValidConfig(c) && IsRoleBoard(c, lists) && UniqueIds(lists)
    ensures var v := RoleBoardView("board", c, lists);
            OnBoard(EnvOf(v, kind, name, comment), v, "board", c, lists)
  {
    RoleBoardViewIsView("board", c, lists);
  }

  /** A blank before the name of the plan list: the lookup says plan, the routes a departure. */
  lemma PaddedNameDisagrees() returns (env: Env, v: Resolved, c: Config, lists: seq<BoardList>)
    ensures OnBoard(env, v, "board", c, lists) && env.ev == Event("updateCard", "card", true, " a", "", "", "", "")
    ensures CategoryForListName(v, " a") == CategoryPlan && Routed(env) == RouteNotifyDeparture
  {
    c, lists := Example([]);
    v := RoleBoardView("board", c, lists);
    env := EnvOf(v, "updateCard", " a", "");
    EnvIsOnBoard(c, lists, "updateCard", " a", "");
    RoleNamesOfView(v, "board", c, lists);
    CategoryByKey(v, c, " a");
    PaddedIsNormal();
    assert c.plan == "a";
    NameOnlyMove(env, v, "board", c, lists);
  }

  lemma PaddedIsNormal()
    ensures TrimSpace(" a") == "a" && NormaliseName(" a") == NormaliseName("a") == "a"
  {
    assert " a"[1..] == "a";
    assert TrimLeft(" a") == TrimLeft("a");
    LetterIsNormal('a');
  }

  /** The id of no list: unknown to the lookup, a departure to the routes. */
  lemma UnknownListDisagrees() returns (env: Env, v: Resolved, c: Config, lists: seq<BoardList>)
    ensures OnBoard(env, v, "board", c, lists) && env.ev == Event("updateCard", "card", true, "", "8", "", "", "")
    ensures CategoryForListID(v, "8") == CategoryUnknown && Routed(env) == RouteNotifyDeparture
  {
    c, lists := Example([]);
    v := RoleBoardView("board", c, lists);
    env := EnvOf(v, "updateCard", "", "");
    EnvIsOnBoard(c, lists, "updateCard", "", "");
    env := env.(ev := env.ev.(listAfterID := "8"));
    OffBoardMove(env, v, "board", c, lists);
  }

  lemma OnlyEmptyPrefix(v: Resolved, text: string)
    requires v.agentCommentPrefixes == [""]
    ensures StartsWithAny(TrimSpace(text), v.agentCommentPrefixes) && !IsAgentComment(v, text)
  {
    assert "" in v.agentCommentPrefixes && HasPrefix(TrimSpace(text), "");
  }

  /** With an empty prefix configured a comment is dropped that is not the agent's. */
  lemma EmptyPrefixDropsAll(text: string) returns (env: Env, v: Resolved, c: Config, lists: seq<BoardList>)
    ensures OnBoard(env, v, "board", c, lists) && env.ev == Event("commentCard", "card", true, "", "", "", "", text)
    ensures c.agentCommentPrefixes == [""] && !IsAgentComment(v, text) && Routed(env) == RouteDrop
  {
    c, lists := Example([""]);
    v := RoleBoardView("board", c, lists);
    env := EnvOf(v, "commentCard", "", text);
    EnvIsOnBoard(c, lists, "commentCard", "", text);
    CommentTakes(env);
    OnlyEmptyPrefix(v, text);
  }
}

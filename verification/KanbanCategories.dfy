/**
 The category lookups over a resolved view (internal/app/kanban), and what a successful
 resolution makes of the board: a partition into plan, action, wait and done on which the
 lookup by id and the lookup by name agree.
 */
module KanbanCategories {
  import opened Strings
  import opened Names
  import opened Kanban

  datatype Category = CategoryUnknown | CategoryPlan | CategoryAction | CategoryWait | CategoryDone

  function CategoryForListID(v: Resolved, id: string): Category {
    if id == "" then CategoryUnknown
    else if id in v.planListIDs then CategoryPlan
    else if id in v.actionListIDs then CategoryAction
    else if id in v.doneListIDs then CategoryDone
    else if id in v.waitListIDs then CategoryWait
    else CategoryUnknown
  }

  function CategoryForListName(v: Resolved, name: string): Category {
    if TrimSpace(name) == "" then CategoryUnknown
    else
      var key := NormaliseName(name);
      if key == NormaliseName(v.plan.name) then CategoryPlan
      else if key == NormaliseName(v.action.name) then CategoryAction
      else if key == NormaliseName(v.done.name) then CategoryDone
      else if || key == NormaliseName(v.wait.planReview.name) || key == NormaliseName(v.wait.actionReview.name)
              || key == NormaliseName(v.wait.generic.name) || key == NormaliseName(v.wait.exception.name)
      then CategoryWait
      else if exists n :: n in v.unclaimedListNames && NormaliseName(n) == key then CategoryWait
      else CategoryUnknown
  }

  predicate IsAgentComment(v: Resolved, text: string) {
    exists p :: p in v.agentCommentPrefixes && p != "" && HasPrefix(TrimSpace(text), p)
  }

  // --------------------------------------------------------- duplicate-free lists

  ghost predicate NoDup(s: seq<string>) {
    forall i, j :: 0 <= i < j < |s| ==> s[i] != s[j]
  }

  ghost predicate UniqueIds(lists: seq<BoardList>) { NoDup(IdsOf(lists)) }

  lemma NoDupPush(s: seq<string>, x: string)
    ensures NoDup(s + [x]) <==> NoDup(s) && x !in s
  {
    var t := s + [x];
    if NoDup(t) {
      forall i, j | 0 <= i < j < |s| ensures s[i] != s[j] {
        assert t[i] != t[j];
      }
      forall i | 0 <= i < |s| ensures s[i] != x {
        assert t[i] != t[|s|];
      }
    }
  }

  lemma NoDupAppend(s: seq<string>, t: seq<string>)
    requires NoDup(s) && NoDup(t) && forall x :: x in s ==> x !in t
    ensures NoDup(s + t)
  {
    forall i, j | 0 <= i < j < |s + t| ensures (s + t)[i] != (s + t)[j] {
      if j >= |s| {
        assert (s + t)[j] in t;
      }
    }
  }

  lemma {:induction false} NoDupCounts(s: seq<string>, x: string)
    requires NoDup(s)
    ensures multiset(s)[x] == if x in s then 1 else 0
  {
    if s != [] {
      var (front, last) := (s[..|s| - 1], s[|s| - 1]);
      assert s == front + [last];
      NoDupCounts(front, x);
    }
  }

  /** Duplicate-free sequences with the same elements are permutations of one another. */
  lemma SameElements(s: seq<string>, t: seq<string>)
    requires NoDup(s) && NoDup(t)
    requires forall x :: x in s <==> x in t
    ensures multiset(s) == multiset(t)
  {
    forall x: string ensures multiset(s)[x] == multiset(t)[x] {
      NoDupCounts(s, x);
      NoDupCounts(t, x);
    }
  }

  lemma {:induction false} UnclaimedIds(lists: seq<BoardList>, claimed: set<string>)
    requires UniqueIds(lists)
    ensures NoDup(IdsOf(Unclaimed(lists, claimed)))
    ensures forall x :: x in IdsOf(Unclaimed(lists, claimed)) <==> x in IdsOf(lists) && x !in claimed
  {
    if lists != [] {
      var (front, last) := (lists[..|lists| - 1], lists[|lists| - 1]);
      assert IdsOf(lists) == IdsOf(front) + [last.id];
      NoDupPush(IdsOf(front), last.id);
      UnclaimedIds(front, claimed);
      var kept := Unclaimed(front, claimed);
      if last.id in claimed {
        assert Unclaimed(lists, claimed) == kept;
      } else {
        assert IdsOf(kept + [last]) == IdsOf(kept) + [last.id];
        NoDupPush(IdsOf(kept), last.id);
      }
    }
  }

  lemma {:induction false} UnclaimedLists(lists: seq<BoardList>, claimed: set<string>)
    ensures forall l :: l in Unclaimed(lists, claimed) <==> l in lists && l.id !in claimed
  {
    if lists != [] {
      UnclaimedLists(lists[..|lists| - 1], claimed);
      assert lists == lists[..|lists| - 1] + [lists[|lists| - 1]];
    }
  }

  // --------------------------------------------------------------- the role lists

  /** A resolved role's list is on the board and is the only one with the role's name. */
  lemma RoleListIsTheOne(c: Config, lists: seq<BoardList>, r: nat, l: BoardList)
    requires AllResolve(c, lists) && r < 7 && l in lists
    ensures RoleMatches(c, lists)[r][0] in lists
    ensures NormaliseName(l.name) == NormaliseName(RoleNames(c)[r]) <==> l == RoleMatches(c, lists)[r][0]
  {
    var key := NormaliseName(RoleNames(c)[r]);
    MatchesAre(lists, key);
    var found := RoleMatches(c, lists)[r];
    assert found == Matches(lists, key) && found == [found[0]];
    assert l in found <==> l == found[0];
  }

  lemma SameIdSameList(lists: seq<BoardList>, k: BoardList, l: BoardList)
    requires UniqueIds(lists) && k in lists && l in lists && k.id == l.id
    ensures k == l
  {
    var i :| 0 <= i < |lists| && lists[i] == k;
    var j :| 0 <= j < |lists| && lists[j] == l;
    assert IdsOf(lists)[i] == IdsOf(lists)[j];
  }

  ghost function RoleIds(m: seq<seq<BoardList>>): (ids: seq<string>)
    requires AllMatchOnce(m, 7)
    ensures |ids| == 7
  {
    seq(7, r requires 0 <= r < 7 => m[r][0].id)
  }

  /** The seven roles own seven different lists. */
  lemma SevenDistinctLists(c: Config, lists: seq<BoardList>)
    requires ValidConfig(c) && AllResolve(c, lists) && UniqueIds(lists)
    ensures NoDup(RoleIds(RoleMatches(c, lists)))
    ensures forall x :: x in RoleIds(RoleMatches(c, lists)) ==> x in IdsOf(lists)
    ensures forall x :: x in RoleIds(RoleMatches(c, lists)) <==> x in Claimed(c, lists)
  {
    var m := RoleMatches(c, lists);
    RoleIdsOnBoard(c, lists);
    forall i, j | 0 <= i < j < 7 ensures RoleIds(m)[i] != RoleIds(m)[j] {
      RolesDiffer(c, lists, i, j);
    }
    forall x ensures x in RoleIds(m) <==> x in ClaimedIds(m, 7) {
      if x in RoleIds(m) {
        var r :| 0 <= r < 7 && RoleIds(m)[r] == x;
      }
      if x in ClaimedIds(m, 7) {
        var r :| 0 <= r < 7 && m[r][0].id == x;
        assert RoleIds(m)[r] == x;
      }
    }
  }

  lemma RoleIdsOnBoard(c: Config, lists: seq<BoardList>)
    requires AllResolve(c, lists)
    ensures forall x :: x in RoleIds(RoleMatches(c, lists)) ==> x in IdsOf(lists)
    ensures forall r :: 0 <= r < 7 ==> RoleMatches(c, lists)[r][0] in lists
  {
    var m := RoleMatches(c, lists);
    forall r | 0 <= r < 7 ensures m[r][0] in lists && m[r][0].id in IdsOf(lists) {
      MatchesAre(lists, NormaliseName(RoleNames(c)[r]));
      assert m[r][0] in m[r];
      var i :| 0 <= i < |lists| && lists[i] == m[r][0];
      assert IdsOf(lists)[i] == m[r][0].id;
    }
  }

  lemma RolesDiffer(c: Config, lists: seq<BoardList>, i: nat, j: nat)
    requires ValidConfig(c) && AllResolve(c, lists) && UniqueIds(lists) && i < j < 7
    ensures RoleMatches(c, lists)[i][0].id != RoleMatches(c, lists)[j][0].id
  {
    var (k, l) := (RoleMatches(c, lists)[i][0], RoleMatches(c, lists)[j][0]);
    RoleIdsOnBoard(c, lists);
    RoleListIsTheOne(c, lists, i, k);
    RoleListIsTheOne(c, lists, j, l);
    assert !Collide(RoleNames(c), i, j);
    if k.id == l.id {
      SameIdSameList(lists, k, l);
    }
  }

  // ------------------------------------------------------------------ the theorems

  /** The id lists of a view, from the ids of the roles and of the unclaimed lists. */
  ghost predicate HoldsIds(v: Resolved, ids: seq<string>, rest: seq<string>) {
    && |ids| == 7
    && [v.plan.id, v.action.id, v.wait.planReview.id, v.wait.actionReview.id, v.wait.generic.id,
        v.wait.exception.id, v.done.id] == ids
    && v.planListIDs == [ids[0]] && v.actionListIDs == [ids[1]] && v.doneListIDs == [ids[6]]
    && v.waitListIDs == [ids[2], ids[3], ids[4], ids[5]] + rest
  }

  lemma ViewHoldsIds(v: Resolved, boardID: string, c: Config, lists: seq<BoardList>)
    requires IsView(v, boardID, c, lists)
    ensures HoldsIds(v, RoleIds(RoleMatches(c, lists)), IdsOf(Unclaimed(lists, Claimed(c, lists))))
  {
  }

  lemma HeldIdsAre(v: Resolved, ids: seq<string>, rest: seq<string>)
    requires HoldsIds(v, ids, rest)
    ensures multiset(v.planListIDs + v.actionListIDs + v.waitListIDs + v.doneListIDs) == multiset(ids + rest)
  {
    assert ids == [ids[0], ids[1]] + [ids[2], ids[3], ids[4], ids[5]] + [ids[6]];
    assert ids + rest == ids[..] + rest;
    assert multiset(v.waitListIDs) == multiset([ids[2], ids[3], ids[4], ids[5]]) + multiset(rest);
  }

  lemma RolesAndRest(c: Config, lists: seq<BoardList>)
    requires ValidConfig(c) && AllResolve(c, lists) && UniqueIds(lists)
    ensures NoDup(RoleIds(RoleMatches(c, lists)))
    ensures multiset(RoleIds(RoleMatches(c, lists)) + IdsOf(Unclaimed(lists, Claimed(c, lists))))
         == multiset(IdsOf(lists))
  {
    var (ids, rest) := (RoleIds(RoleMatches(c, lists)), IdsOf(Unclaimed(lists, Claimed(c, lists))));
    SevenDistinctLists(c, lists);
    UnclaimedIds(lists, Claimed(c, lists));
    NoDupAppend(ids, rest);
    SameElements(ids + rest, IdsOf(lists));
  }

  /**
   The board is partitioned: the four id lists together are a permutation of the board's
   ids, and the seven roles have seven distinct ids.
   */
  lemma BoardPartition(v: Resolved, boardID: string, c: Config, lists: seq<BoardList>)
    requires ValidConfig(c) && IsView(v, boardID, c, lists) && UniqueIds(lists)
    ensures multiset(v.planListIDs + v.actionListIDs + v.waitListIDs + v.doneListIDs) == multiset(IdsOf(lists))
    ensures NoDup([v.plan.id, v.action.id, v.wait.planReview.id, v.wait.actionReview.id, v.wait.generic.id,
                   v.wait.exception.id, v.done.id])
  {
    ViewHoldsIds(v, boardID, c, lists);
    HeldIdsAre(v, RoleIds(RoleMatches(c, lists)), IdsOf(Unclaimed(lists, Claimed(c, lists))));
    RolesAndRest(c, lists);
  }

  /** Exactly the non-empty ids of the four lists have a category. */
  lemma KnownIffHeld(v: Resolved, id: string)
    ensures CategoryForListID(v, id) != CategoryUnknown
        <==> id != "" && id in multiset(v.planListIDs + v.actionListIDs + v.waitListIDs + v.doneListIDs)
  {
    assert id in v.planListIDs + v.actionListIDs + v.waitListIDs + v.doneListIDs
      <==> id in v.planListIDs || id in v.actionListIDs || id in v.waitListIDs || id in v.doneListIDs;
  }

  /** An id has a category exactly when it is the non-empty id of a list of the board. */
  lemma KnownIffOnBoard(v: Resolved, boardID: string, c: Config, lists: seq<BoardList>, id: string)
    requires ValidConfig(c) && IsView(v, boardID, c, lists) && UniqueIds(lists)
    ensures CategoryForListID(v, id) != CategoryUnknown <==> id != "" && id in IdsOf(lists)
  {
    BoardPartition(v, boardID, c, lists);
    KnownIffHeld(v, id);
  }

  /** The category of a list of the board, by the role that claims it. */
  ghost function CategoryOf(c: Config, l: BoardList): Category {
    if SameName(l.name, c.plan) then CategoryPlan
    else if SameName(l.name, c.action) then CategoryAction
    else if SameName(l.name, c.done) then CategoryDone
    else CategoryWait
  }

  lemma CategoryIs(c: Config, l: BoardList)
    ensures var key := NormaliseName(l.name);
            CategoryOf(c, l) == if key == NormaliseName(c.plan) then CategoryPlan
                                else if key == NormaliseName(c.action) then CategoryAction
                                else if key == NormaliseName(c.done) then CategoryDone
                                else CategoryWait
  {
    NormaliseIffSame(l.name, c.plan);
    NormaliseIffSame(l.name, c.action);
    NormaliseIffSame(l.name, c.done);
  }

  /** A board list has a role's id exactly when it has the role's name. */
  lemma IdIffName(c: Config, lists: seq<BoardList>, r: nat, l: BoardList)
    requires AllResolve(c, lists) && UniqueIds(lists) && r < 7 && l in lists
    ensures l.id == RoleMatches(c, lists)[r][0].id <==> NormaliseName(l.name) == NormaliseName(RoleNames(c)[r])
  {
    RoleListIsTheOne(c, lists, r, l);
    if l.id == RoleMatches(c, lists)[r][0].id {
      SameIdSameList(lists, l, RoleMatches(c, lists)[r][0]);
    }
  }

  ghost predicate HasRoleName(c: Config, key: string) {
    || key == NormaliseName(c.plan) || key == NormaliseName(c.action) || key == NormaliseName(c.planReview)
    || key == NormaliseName(c.actionReview) || key == NormaliseName(c.generic) || key == NormaliseName(c.exception)
    || key == NormaliseName(c.done)
  }

  lemma RoleNameIs(c: Config, key: string)
    ensures HasRoleName(c, key) <==> exists r: nat :: r < 7 && key == NormaliseName(RoleNames(c)[r])
  {
    var names := RoleNames(c);
    assert names[0] == c.plan && names[1] == c.action && names[2] == c.planReview && names[3] == c.actionReview;
    assert names[4] == c.generic && names[5] == c.exception && names[6] == c.done;
  }

  /** A board list is unclaimed exactly when it has no role's name. */
  lemma ClaimedIffNamed(c: Config, lists: seq<BoardList>, l: BoardList)
    requires AllResolve(c, lists) && UniqueIds(lists) && l in lists
    ensures l.id in Claimed(c, lists) <==>
              HasRoleName(c, NormaliseName(l.name))
  {
    forall r | 0 <= r < 7
      ensures l.id == RoleMatches(c, lists)[r][0].id <==> NormaliseName(l.name) == NormaliseName(RoleNames(c)[r])
    {
      IdIffName(c, lists, r, l);
    }
    RoleNameIs(c, NormaliseName(l.name));
  }

  lemma CategoryById(v: Resolved, boardID: string, c: Config, lists: seq<BoardList>, l: BoardList)
    requires ValidConfig(c) && IsView(v, boardID, c, lists) && UniqueIds(lists) && l in lists && l.id != ""
    ensures CategoryForListID(v, l.id) == CategoryOf(c, l)
  {
    var i :| 0 <= i < |lists| && lists[i] == l;
    assert IdsOf(lists)[i] == l.id;
    KnownIffOnBoard(v, boardID, c, lists, l.id);
    IdIffName(c, lists, 0, l);
    IdIffName(c, lists, 1, l);
    IdIffName(c, lists, 6, l);
    CategoryIs(c, l);
  }

  ghost predicate Unclaims(v: Resolved, key: string) {
    exists n :: n in v.unclaimedListNames && NormaliseName(n) == key
  }

  /** The names of a view's roles are the configured ones, up to trimming. */
  ghost predicate NamedAs(v: Resolved, c: Config) {
    && NormaliseName(v.plan.name) == NormaliseName(c.plan)
    && NormaliseName(v.action.name) == NormaliseName(c.action)
    && NormaliseName(v.done.name) == NormaliseName(c.done)
    && NormaliseName(v.wait.planReview.name) == NormaliseName(c.planReview)
    && NormaliseName(v.wait.actionReview.name) == NormaliseName(c.actionReview)
    && NormaliseName(v.wait.generic.name) == NormaliseName(c.generic)
    && NormaliseName(v.wait.exception.name) == NormaliseName(c.exception)
  }

  lemma NameCategory(v: Resolved, c: Config, l: BoardList)
    requires NamedAs(v, c) && TrimSpace(l.name) != ""
    requires HasRoleName(c, NormaliseName(l.name)) || Unclaims(v, NormaliseName(l.name))
    ensures CategoryForListName(v, l.name) == CategoryOf(c, l)
    ensures CategoryForListName(v, l.name) != CategoryUnknown
  {
    CategoryIs(c, l);
  }

  lemma NamedOrUnclaimed(v: Resolved, boardID: string, c: Config, lists: seq<BoardList>, l: BoardList)
    requires IsView(v, boardID, c, lists) && UniqueIds(lists) && l in lists
    ensures HasRoleName(c, NormaliseName(l.name)) || Unclaims(v, NormaliseName(l.name))
  {
    ClaimedIffNamed(c, lists, l);
    if l.id !in Claimed(c, lists) {
      var rest := Unclaimed(lists, Claimed(c, lists));
      UnclaimedLists(lists, Claimed(c, lists));
      var i :| 0 <= i < |rest| && rest[i] == l;
      assert NamesOf(rest)[i] == l.name;
      assert l.name in v.unclaimedListNames;
    }
  }

  lemma RoleNamesOfView(v: Resolved, boardID: string, c: Config, lists: seq<BoardList>)
    requires IsView(v, boardID, c, lists)
    ensures NamedAs(v, c)
  {
    NormaliseTrimmed(c.plan);
    NormaliseTrimmed(c.action);
    NormaliseTrimmed(c.done);
    NormaliseTrimmed(c.planReview);
    NormaliseTrimmed(c.actionReview);
    NormaliseTrimmed(c.generic);
    NormaliseTrimmed(c.exception);
  }

  lemma BoardNameCategory(v: Resolved, boardID: string, c: Config, lists: seq<BoardList>, l: BoardList)
    requires IsView(v, boardID, c, lists) && UniqueIds(lists) && l in lists && TrimSpace(l.name) != ""
    ensures CategoryForListName(v, l.name) == CategoryOf(c, l)
    ensures CategoryForListName(v, l.name) != CategoryUnknown
  {
    RoleNamesOfView(v, boardID, c, lists);
    NamedOrUnclaimed(v, boardID, c, lists, l);
    NameCategory(v, c, l);
  }

  /**
   The two lookups agree on a list of the board exactly when its id and its name are
   both given or both blank; by id, the category is that of the role with the list's name.
   */
  lemma CategoriesAgree(v: Resolved, boardID: string, c: Config, lists: seq<BoardList>, l: BoardList)
    requires ValidConfig(c) && IsView(v, boardID, c, lists) && UniqueIds(lists) && l in lists
    ensures CategoryForListID(v, l.id) == CategoryForListName(v, l.name) <==> (l.id == "" <==> TrimSpace(l.name) == "")
    ensures l.id != "" ==> CategoryForListID(v, l.id) == CategoryOf(c, l)
  {
    if l.id != "" {
      CategoryById(v, boardID, c, lists, l);
    }
    if TrimSpace(l.name) != "" {
      BoardNameCategory(v, boardID, c, lists, l);
    }
  }

  /** The lookup by name sees a name only up to its case and surrounding blanks. */
  lemma SameNameSameCategory(v: Resolved, name: string, name': string)
    requires SameName(name, name')
    ensures CategoryForListName(v, name) == CategoryForListName(v, name')
    ensures TrimSpace(name) == "" <==> TrimSpace(name') == ""
  {
    NormaliseIffSame(name, name');
    assert |NormaliseName(name)| == |TrimSpace(name)| && |NormaliseName(name')| == |TrimSpace(name')|;
  }

  lemma RoleNameIsOnBoard(c: Config, lists: seq<BoardList>, key: string) returns (l: BoardList)
    requires AllResolve(c, lists) && HasRoleName(c, key)
    ensures l in lists && NormaliseName(l.name) == key
  {
    RoleNameIs(c, key);
    var r: nat :| r < 7 && key == NormaliseName(RoleNames(c)[r]);
    l := RoleMatches(c, lists)[r][0];
    MatchesAre(lists, key);
    assert l in Matches(lists, key);
  }

  lemma UnclaimedNameIsOnBoard(v: Resolved, boardID: string, c: Config, lists: seq<BoardList>, key: string)
    returns (l: BoardList)
    requires IsView(v, boardID, c, lists) && Unclaims(v, key)
    ensures l in lists && NormaliseName(l.name) == key
  {
    var rest := Unclaimed(lists, Claimed(c, lists));
    var n :| n in v.unclaimedListNames && NormaliseName(n) == key;
    var i :| 0 <= i < |rest| && NamesOf(rest)[i] == n;
    l := rest[i];
    UnclaimedLists(lists, Claimed(c, lists));
  }

  lemma KnownNameIsHeld(v: Resolved, c: Config, name: string)
    requires NamedAs(v, c) && CategoryForListName(v, name) != CategoryUnknown
    ensures TrimSpace(name) != "" && (HasRoleName(c, NormaliseName(name)) || Unclaims(v, NormaliseName(name)))
  {
  }

  lemma KnownNameIsOnBoard(v: Resolved, boardID: string, c: Config, lists: seq<BoardList>, name: string)
    returns (l: BoardList)
    requires IsView(v, boardID, c, lists) && CategoryForListName(v, name) != CategoryUnknown
    ensures HasText(name) && l in lists && SameName(l.name, name)
  {
    RoleNamesOfView(v, boardID, c, lists);
    KnownNameIsHeld(v, c, name);
    BlankIffNoText(name);
    if HasRoleName(c, NormaliseName(name)) {
      l := RoleNameIsOnBoard(c, lists, NormaliseName(name));
    } else {
      l := UnclaimedNameIsOnBoard(v, boardID, c, lists, NormaliseName(name));
    }
    NormaliseIffSame(l.name, name);
  }

  lemma NamedLikeList(v: Resolved, boardID: string, c: Config, lists: seq<BoardList>, name: string, l: BoardList)
    requires IsView(v, boardID, c, lists) && UniqueIds(lists) && l in lists && SameName(l.name, name) && HasText(name)
    ensures CategoryForListName(v, name) == CategoryOf(c, l)
    ensures CategoryForListName(v, name) != CategoryUnknown
  {
    BlankIffNoText(name);
    SameNameSameCategory(v, l.name, name);
    BoardNameCategory(v, boardID, c, lists, l);
  }

  /**
   A name has a category exactly when it has text and is, up to case and surrounding blanks,
   that of a list of the board, and then it is the category of that list.
   */
  lemma CategoryByName(v: Resolved, boardID: string, c: Config, lists: seq<BoardList>, name: string)
    requires ValidConfig(c) && IsView(v, boardID, c, lists) && UniqueIds(lists)
    ensures CategoryForListName(v, name) != CategoryUnknown
        <==> HasText(name) && exists l :: l in lists && SameName(l.name, name)
    ensures forall l :: l in lists && SameName(l.name, name) && HasText(name) ==>
              CategoryForListName(v, name) == CategoryOf(c, l)
  {
    forall l | l in lists && SameName(l.name, name) && HasText(name)
      ensures CategoryForListName(v, name) == CategoryOf(c, l) && CategoryForListName(v, name) != CategoryUnknown
    {
      NamedLikeList(v, boardID, c, lists, name, l);
    }
    if CategoryForListName(v, name) != CategoryUnknown {
      var l := KnownNameIsOnBoard(v, boardID, c, lists, name);
    }
  }

  /** A comment is the agent's own exactly when its text begins with a configured prefix that is not empty. */
  lemma AgentCommentIff(v: Resolved, text: string)
    ensures IsAgentComment(v, text)
        <==> exists p :: p in v.agentCommentPrefixes && p != "" && BeginsWith(text, p)
  {
    forall p: string ensures HasPrefix(TrimSpace(text), p) <==> BeginsWith(text, p) {
      TrimmedPrefixIff(text, p);
    }
  }
}

/**
 Case and surrounding blanks of names do not matter to what a board resolves to.
 */
module KanbanCases {
  import opened Strings
  import opened Names
  import opened Kanban

  /** The same roles and lists, but for the case of letters and the blanks around names. */
  ghost predicate SameBut(c: Config, lists: seq<BoardList>, c': Config, lists': seq<BoardList>) {
    SameRoles(DeclaredRoles(c), DeclaredRoles(c')) && SameLists(lists, lists')
  }

  ghost predicate SameLists(lists: seq<BoardList>, lists': seq<BoardList>) {
    && |lists| == |lists'|
    && forall i :: 0 <= i < |lists| ==> lists[i].id == lists'[i].id && SameName(lists[i].name, lists'[i].name)
  }

  lemma SameNamesTo(a: string, a': string, b: string, b': string)
    requires SameName(a, a') && SameName(b, b')
    ensures SameName(a, b) <==> SameName(a', b')
  {
    NormalisedIffSame(a, a');
    NormalisedIffSame(b, b');
    NormalisedIffSame(a, b);
    NormalisedIffSame(a', b');
  }

  lemma SameText(a: string, a': string)
    requires SameName(a, a')
    ensures HasText(a) <==> HasText(a')
  {
    NormalisedIffSame(a, a');
    BlankIffNoText(a);
    BlankIffNoText(a');
    assert |ToLower(TrimSpace(a))| == |TrimSpace(a)| && |ToLower(TrimSpace(a'))| == |TrimSpace(a')|;
  }

  // ------------------------------------------------------------------- the lists

  /** Lists with the same ids, in order. */
  ghost predicate SameIds(xs: seq<BoardList>, ys: seq<BoardList>) {
    |xs| == |ys| && forall i :: 0 <= i < |xs| ==> xs[i].id == ys[i].id
  }

  lemma {:induction false} SameNamed(lists: seq<BoardList>, lists': seq<BoardList>, name: string, name': string)
    requires SameLists(lists, lists') && SameName(name, name')
    ensures SameIds(Named(lists, name), Named(lists', name'))
  {
    if lists != [] {
      var n := |lists| - 1;
      assert SameLists(lists[..n], lists'[..n]);
      SameNamed(lists[..n], lists'[..n], name, name');
      SameNamesTo(lists[n].name, lists'[n].name, name, name');
    }
  }

  lemma {:induction false} SameUnclaimed(lists: seq<BoardList>, lists': seq<BoardList>, claimed: set<string>)
    requires SameIds(lists, lists')
    ensures SameIds(Unclaimed(lists, claimed), Unclaimed(lists', claimed))
  {
    if lists != [] {
      SameUnclaimed(lists[..|lists| - 1], lists'[..|lists'| - 1], claimed);
    }
  }

  // -------------------------------------------------------------- the configuration

  ghost predicate SameRoles(roles: seq<(string, string)>, roles': seq<(string, string)>) {
    && |roles| == |roles'|
    && forall r :: 0 <= r < |roles| ==> roles[r].0 == roles'[r].0 && SameName(roles[r].1, roles'[r].1)
  }

  lemma SameProper(roles: seq<(string, string)>, roles': seq<(string, string)>, n: nat)
    requires SameRoles(roles, roles') && n <= |roles|
    ensures Proper(roles, n) <==> Proper(roles', n)
  {
    forall i | 0 <= i < n ensures HasText(roles[i].1) <==> HasText(roles'[i].1) {
      SameText(roles[i].1, roles'[i].1);
    }
    forall i, j | 0 <= i < j < n ensures SameName(roles[i].1, roles[j].1) <==> SameName(roles'[i].1, roles'[j].1) {
      SameNamesTo(roles[i].1, roles'[i].1, roles[j].1, roles'[j].1);
    }
  }

  /** Errors that name the same roles for the same fault. */
  predicate SameError(e: ConfigError, e': ConfigError) {
    match (e, e')
    case (EmptyName(role), EmptyName(role')) => role == role'
    case (Collision(first, second, _), Collision(first', second', _)) => first == first' && second == second'
    case _ => false
  }

  /** The first improper role is not proper. */
  lemma ImproperIsLast(roles: seq<(string, string)>, e: ConfigError, n: nat, k: nat)
    requires FirstImproper(roles, e, n) && n < k <= |roles|
    ensures !Proper(roles, k)
  {
  }

  /** Of two names of proper roles at most one is the same name as a third. */
  lemma OneCollides(roles: seq<(string, string)>, n: nat, i: nat, j: nat)
    requires n < |roles| && Proper(roles, n) && i < n && j < n
    requires SameName(roles[i].1, roles[n].1) && SameName(roles[j].1, roles[n].1)
    ensures i == j
  {
    SameNameIsEquivalence(roles[i].1, roles[n].1, roles[j].1);
    SameNameIsEquivalence(roles[j].1, roles[n].1, roles[i].1);
  }

  lemma SameFault(roles: seq<(string, string)>, roles': seq<(string, string)>, e: ConfigError, e': ConfigError,
                  n: nat)
    requires SameRoles(roles, roles') && FirstImproper(roles, e, n) && FirstImproper(roles', e', n)
    ensures SameError(e, e')
  {
    SameText(roles[n].1, roles'[n].1);
    if e.Collision? && e'.Collision? {
      var i :| 0 <= i < n && SameName(roles[i].1, roles[n].1) && e.first == roles[i].0;
      var j :| 0 <= j < n && SameName(roles'[j].1, roles'[n].1) && e'.first == roles'[j].0;
      SameNamesTo(roles[j].1, roles'[j].1, roles[n].1, roles'[n].1);
      OneCollides(roles, n, i, j);
    }
  }

  lemma SameErrors(roles: seq<(string, string)>, roles': seq<(string, string)>, e: ConfigError, e': ConfigError,
                   n: nat, n': nat)
    requires SameRoles(roles, roles') && FirstImproper(roles, e, n) && FirstImproper(roles', e', n')
    ensures SameError(e, e')
  {
    if n < n' {
      SameProper(roles, roles', n');
      ImproperIsLast(roles, e, n, n');
    } else if n' < n {
      SameProper(roles, roles', n);
      ImproperIsLast(roles', e', n', n);
    }
    SameFault(roles, roles', e, e', n);
  }

  // ------------------------------------------------------------------- the theorem

  /** The same outcome, but for the names it echoes. */
  ghost predicate SameOutcome(res: Resolution, res': Resolution) {
    match (res, res')
    case (BadConfig(e), BadConfig(e')) => SameError(e, e')
    case (View(v), View(v')) =>
      && v.plan.id == v'.plan.id && v.action.id == v'.action.id && v.done.id == v'.done.id
      && v.wait.planReview.id == v'.wait.planReview.id && v.wait.actionReview.id == v'.wait.actionReview.id
      && v.wait.generic.id == v'.wait.generic.id && v.wait.exception.id == v'.wait.exception.id
      && v.planListIDs == v'.planListIDs && v.actionListIDs == v'.actionListIDs
      && v.waitListIDs == v'.waitListIDs && v.doneListIDs == v'.doneListIDs
      && |v.unclaimedListNames| == |v'.unclaimedListNames|
    case (ResolveError(b, missing, ambiguous, detail), ResolveError(b', missing', ambiguous', detail')) =>
      b == b' && multiset(missing) == multiset(missing') && multiset(ambiguous) == multiset(ambiguous')
      && detail.Keys == detail'.Keys
    case _ => false
  }

  lemma SameRoleIds(role: Role, role': Role, name: string, name': string, lists: seq<BoardList>,
                    lists': seq<BoardList>)
    requires SameLists(lists, lists') && SameName(name, name')
    requires IsRole(role, name, lists) && IsRole(role', name', lists')
    ensures role.id == role'.id
  {
    SameNamed(lists, lists', name, name');
  }

  lemma SameBoards(v: Resolved, v': Resolved, boardID: string, c: Config, lists: seq<BoardList>, c': Config,
                   lists': seq<BoardList>)
    requires SameLists(lists, lists') && ShowsBoard(v, boardID, c, lists) && ShowsBoard(v', boardID, c', lists')
    requires SameName(c.plan, c'.plan) && SameName(c.action, c'.action) && SameName(c.done, c'.done)
    requires SameName(c.planReview, c'.planReview) && SameName(c.actionReview, c'.actionReview)
    requires SameName(c.generic, c'.generic) && SameName(c.exception, c'.exception)
    ensures SameOutcome(View(v), View(v'))
  {
    SameRoleIds(v.plan, v'.plan, c.plan, c'.plan, lists, lists');
    SameRoleIds(v.action, v'.action, c.action, c'.action, lists, lists');
    SameRoleIds(v.wait.planReview, v'.wait.planReview, c.planReview, c'.planReview, lists, lists');
    SameRoleIds(v.wait.actionReview, v'.wait.actionReview, c.actionReview, c'.actionReview, lists, lists');
    SameRoleIds(v.wait.generic, v'.wait.generic, c.generic, c'.generic, lists, lists');
    SameRoleIds(v.wait.exception, v'.wait.exception, c.exception, c'.exception, lists, lists');
    SameRoleIds(v.done, v'.done, c.done, c'.done, lists, lists');
    SameUnclaimed(lists, lists', OfRoles(v));
    SameIdsOf(Unclaimed(lists, OfRoles(v)), Unclaimed(lists', OfRoles(v)));
  }

  lemma SameIdsOf(xs: seq<BoardList>, ys: seq<BoardList>)
    requires SameIds(xs, ys)
    ensures IdsOf(xs) == IdsOf(ys)
  {
  }

  lemma SameViews(v: Resolved, v': Resolved, boardID: string, c: Config, lists: seq<BoardList>, c': Config,
                  lists': seq<BoardList>)
    requires SameBut(c, lists, c', lists') && ShowsBoard(v, boardID, c, lists) && ShowsBoard(v', boardID, c', lists')
    ensures SameOutcome(View(v), View(v'))
  {
    SameFields(c, c');
    SameBoards(v, v', boardID, c, lists, c', lists');
  }

  lemma SameFields(c: Config, c': Config)
    requires SameRoles(DeclaredRoles(c), DeclaredRoles(c'))
    ensures SameName(c.plan, c'.plan) && SameName(c.action, c'.action) && SameName(c.done, c'.done)
    ensures SameName(c.planReview, c'.planReview) && SameName(c.actionReview, c'.actionReview)
    ensures SameName(c.generic, c'.generic) && SameName(c.exception, c'.exception)
  {
    var (roles, roles') := (DeclaredRoles(c), DeclaredRoles(c'));
    assert SameName(roles[0].1, roles'[0].1) && SameName(roles[1].1, roles'[1].1);
    assert SameName(roles[2].1, roles'[2].1) && SameName(roles[3].1, roles'[3].1);
    assert SameName(roles[4].1, roles'[4].1) && SameName(roles[5].1, roles'[5].1);
    assert SameName(roles[6].1, roles'[6].1);
  }

  lemma SameTold(e: Resolution, e': Resolution, role: string, found: seq<BoardList>, found': seq<BoardList>)
    requires e.ResolveError? && e'.ResolveError? && |found| == |found'|
    requires TellsOf(e, role, found) && TellsOf(e', role, found')
    ensures multiset(e.missing)[role] == multiset(e'.missing)[role]
    ensures multiset(e.ambiguous)[role] == multiset(e'.ambiguous)[role]
    ensures role in e.detail <==> role in e'.detail
  {
  }

  lemma SameTelling(e: Resolution, e': Resolution, roles: seq<(string, string)>, roles': seq<(string, string)>,
                    lists: seq<BoardList>, lists': seq<BoardList>, x: string)
    requires SameRoles(roles, roles') && SameLists(lists, lists') && e.ResolveError? && e'.ResolveError?
    requires TellsOfEach(e, roles, lists) && TellsOfEach(e', roles', lists')
    ensures multiset(e.missing)[x] == multiset(e'.missing)[x]
    ensures multiset(e.ambiguous)[x] == multiset(e'.ambiguous)[x]
    ensures x in e.detail <==> x in e'.detail
  {
    if r :| 0 <= r < |roles| && x == roles[r].0 {
      SameNamed(lists, lists', roles[r].1, roles'[r].1);
      assert TellsOf(e, roles[r].0, Named(lists, roles[r].1));
      assert TellsOf(e', roles'[r].0, Named(lists', roles'[r].1));
      SameTold(e, e', x, Named(lists, roles[r].1), Named(lists', roles'[r].1));
    } else {
      assert x !in e.missing && x !in e.ambiguous && x !in e'.missing && x !in e'.ambiguous;
    }
  }

  lemma SameErrorsTold(e: Resolution, e': Resolution, roles: seq<(string, string)>,
                       roles': seq<(string, string)>, lists: seq<BoardList>, lists': seq<BoardList>)
    requires SameRoles(roles, roles') && SameLists(lists, lists') && e.ResolveError? && e'.ResolveError?
    requires TellsOfEach(e, roles, lists) && TellsOfEach(e', roles', lists') && e.boardID == e'.boardID
    ensures SameOutcome(e, e')
  {
    forall x: string
      ensures multiset(e.missing)[x] == multiset(e'.missing)[x]
      ensures multiset(e.ambiguous)[x] == multiset(e'.ambiguous)[x]
      ensures x in e.detail <==> x in e'.detail
    {
      SameTelling(e, e', roles, roles', lists, lists', x);
    }
  }

  lemma SameKind(res: Resolution, res': Resolution, boardID: string, roles: seq<(string, string)>,
                 roles': seq<(string, string)>, lists: seq<BoardList>, lists': seq<BoardList>)
    requires |roles| == 7 && SameRoles(roles, roles') && SameLists(lists, lists')
    requires ResolvesRoles(res, boardID, roles, lists) && ResolvesRoles(res', boardID, roles', lists')
    ensures (res.View? <==> res'.View?) && (res.BadConfig? <==> res'.BadConfig?)
    ensures res.BadConfig? ==> SameOutcome(res, res')
  {
    SameProper(roles, roles', 7);
    forall r | 0 <= r < 7 ensures |Named(lists, roles[r].1)| == |Named(lists', roles'[r].1)| {
      SameNamed(lists, lists', roles[r].1, roles'[r].1);
    }
    if !Proper(roles, 7) {
      var n :| FirstImproper(roles, res.error, n);
      var n' :| FirstImproper(roles', res'.error, n');
      SameErrors(roles, roles', res.error, res'.error, n, n');
    }
  }

  /**
   Configurations and boards that differ only in the case of letters and in the blanks
   around names resolve alike: the same roles are at fault, missing or ambiguous, or the
   views have the same ids throughout.
   */
  lemma CaseDoesNotMatter(res: Resolution, res': Resolution, boardID: string, c: Config, lists: seq<BoardList>,
                          c': Config, lists': seq<BoardList>)
    requires SameBut(c, lists, c', lists')
    requires Resolves(res, boardID, c, lists) && Resolves(res', boardID, c', lists')
    ensures SameOutcome(res, res')
  {
    SameKind(res, res', boardID, DeclaredRoles(c), DeclaredRoles(c'), lists, lists');
    if res.View? {
      SameViews(res.view, res'.view, boardID, c, lists, c', lists');
    } else if res.ResolveError? {
      SameErrorsTold(res, res', DeclaredRoles(c), DeclaredRoles(c'), lists, lists');
    }
  }
}

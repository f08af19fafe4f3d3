/**
 Resolving the `kanban {}` roles against a board (internal/app/kanban): validation of
 the configuration, the role lookup, and the partition of the board into categories.
 */
module Kanban {
  import opened Common
  import opened Strings
  import opened Names

  datatype Role = Role(name: string, id: string)

  datatype WaitRoles = WaitRoles(planReview: Role, actionReview: Role, generic: Role, exception: Role)

  datatype BoardList = BoardList(id: string, name: string)

  /** The role names as written, and the prefixes that mark the agent's own comments. */
  datatype Config = Config(plan: string, action: string, planReview: string, actionReview: string,
                           generic: string, exception: string, done: string, agentCommentPrefixes: seq<string>)

  datatype Resolved = Resolved(
    boardID: string, plan: Role, action: Role, done: Role, wait: WaitRoles,
    agentCommentPrefixes: seq<string>,
    planListIDs: seq<string>, actionListIDs: seq<string>, waitListIDs: seq<string>, doneListIDs: seq<string>,
    unclaimedListNames: seq<string>)

  function NormaliseName(s: string): string { ToLower(TrimSpace(s)) }

  lemma NormaliseTrimmed(s: string)
    ensures NormaliseName(TrimSpace(s)) == NormaliseName(s)
  {
    TrimIsIdempotent(s);
  }

  /** Names match up to surrounding blanks and the case of letters. */
  lemma NormaliseIffSame(s: string, t: string)
    ensures NormaliseName(s) == NormaliseName(t) <==> SameName(s, t)
  {
    NormalisedIffSame(s, t);
  }

  // ------------------------------------------------------------------ the roles

  /** The seven roles in declaration order. */
  const ROLE_KEYS: seq<string> :=
    ["plan", "action", "wait.plan_review", "wait.action_review", "wait.generic", "wait.exception", "done"]

  function RoleNames(c: Config): (names: seq<string>)
    ensures |names| == 7
  {
    [c.plan, c.action, c.planReview, c.actionReview, c.generic, c.exception, c.done]
  }

  // ----------------------------------------------------------------- validation

  datatype ConfigError = EmptyName(role: string) | Collision(first: string, second: string, name: string)

  /** Two roles declare the same name, up to case and surrounding blanks. */
  predicate Collide(names: seq<string>, i: nat, j: nat)
    requires i < |names| && j < |names|
  {
    NormaliseName(names[i]) == NormaliseName(names[j])
  }

  /** No role before `n` is blank or collides with an earlier one. */
  ghost predicate ValidUpTo(names: seq<string>, n: nat) {
    && n <= |names|
    && (forall i :: 0 <= i < n ==> TrimSpace(names[i]) != "")
    && (forall i, j :: 0 <= i < j < n ==> !Collide(names, i, j))
  }

  ghost predicate ValidConfig(c: Config) { ValidUpTo(RoleNames(c), 7) }

  /** The error names the first bad role, and the earlier one it collides with. */
  ghost predicate FirstBadRole(names: seq<string>, e: ConfigError, n: nat)
    requires |names| == 7
  {
    && n < 7 && ValidUpTo(names, n)
    && match e
       case EmptyName(role) => TrimSpace(names[n]) == "" && role == ROLE_KEYS[n]
       case Collision(first, second, name) =>
         && TrimSpace(names[n]) != "" && second == ROLE_KEYS[n] && name == TrimSpace(names[n])
         && exists i :: 0 <= i < n && Collide(names, i, n) && first == ROLE_KEYS[i]
  }

  ghost function Normalised(names: seq<string>): (ks: seq<string>)
    ensures |ks| == |names|
  {
    seq(|names|, i requires 0 <= i < |names| => NormaliseName(names[i]))
  }

  /** Role `i` declares the name `key`. */
  ghost predicate Declares(ks: seq<string>, key: string, role: string, i: nat) {
    i < |ks| && i < 7 && ks[i] == key && role == ROLE_KEYS[i]
  }

  /** The map holds the names of the roles before `n`, each with the role that declares it. */
  ghost predicate SeenNames(ks: seq<string>, seen: map<string, string>, n: nat)
    requires n <= |ks|
  {
    && (forall i :: 0 <= i < n ==> ks[i] in seen)
    && (forall key :: key in seen ==> exists i: nat :: i < n && Declares(ks, key, seen[key], i))
  }

  lemma SeenOneMore(ks: seq<string>, seen: map<string, string>, n: nat)
    requires n < |ks| && n < 7 && SeenNames(ks, seen, n) && ks[n] !in seen
    ensures SeenNames(ks, seen[ks[n] := ROLE_KEYS[n]], n + 1)
  {
    var more := seen[ks[n] := ROLE_KEYS[n]];
    forall k | k in more ensures exists i: nat :: i < n + 1 && Declares(ks, k, more[k], i) {
      if k == ks[n] {
        assert Declares(ks, k, more[k], n);
      } else {
        var i: nat :| i < n && Declares(ks, k, seen[k], i);
        assert Declares(ks, k, more[k], i);
      }
    }
  }

  lemma ValidOneMore(names: seq<string>, seen: map<string, string>, n: nat)
    requires |names| == 7 && n < 7 && ValidUpTo(names, n) && SeenNames(Normalised(names), seen, n)
    requires TrimSpace(names[n]) != "" && NormaliseName(names[n]) !in seen
    ensures ValidUpTo(names, n + 1)
  {
    forall i | 0 <= i < n ensures !Collide(names, i, n) {
      Unseen(names, seen, n, i);
    }
  }

  lemma Unseen(names: seq<string>, seen: map<string, string>, n: nat, i: nat)
    requires i < n < |names| && SeenNames(Normalised(names), seen, n) && NormaliseName(names[n]) !in seen
    ensures !Collide(names, i, n)
  {
    assert Normalised(names)[i] in seen;
  }

  lemma SeenCollides(names: seq<string>, seen: map<string, string>, n: nat)
    requires |names| == 7 && n < 7 && SeenNames(Normalised(names), seen, n)
    requires ValidUpTo(names, n) && TrimSpace(names[n]) != "" && NormaliseName(names[n]) in seen
    ensures FirstBadRole(names, Collision(seen[NormaliseName(names[n])], ROLE_KEYS[n], TrimSpace(names[n])), n)
    ensures !ValidUpTo(names, 7)
  {
    var key := NormaliseName(names[n]);
    var i: nat :| i < n && Declares(Normalised(names), key, seen[key], i);
    assert Collide(names, i, n);
  }

  /** The roles as declared: what each is called in errors, and its name. */
  ghost function DeclaredRoles(c: Config): (roles: seq<(string, string)>)
    ensures |roles| == 7
  {
    [("plan", c.plan), ("action", c.action), ("wait.plan_review", c.planReview),
     ("wait.action_review", c.actionReview), ("wait.generic", c.generic), ("wait.exception", c.exception),
     ("done", c.done)]
  }

  /** The first `n` names have text and no two are the same name. */
  ghost predicate Proper(roles: seq<(string, string)>, n: nat) {
    && n <= |roles|
    && (forall i :: 0 <= i < n ==> HasText(roles[i].1))
    && (forall i, j :: 0 <= i < j < n ==> !SameName(roles[i].1, roles[j].1))
  }

  /** Role `n` is the first that has no text or has the same name as an earlier one. */
  ghost predicate FirstImproper(roles: seq<(string, string)>, e: ConfigError, n: nat) {
    && n < |roles| && Proper(roles, n)
    && match e
       case EmptyName(role) => role == roles[n].0 && !HasText(roles[n].1)
       case Collision(first, second, name) =>
         && second == roles[n].0 && HasText(roles[n].1) && name == TrimSpace(roles[n].1)
         && exists i :: 0 <= i < n && SameName(roles[i].1, roles[n].1) && first == roles[i].0
  }

  lemma RolesAreDeclared(c: Config)
    ensures forall i :: 0 <= i < 7 ==> DeclaredRoles(c)[i] == (ROLE_KEYS[i], RoleNames(c)[i])
  {
  }

  lemma NamesAreProper(names: seq<string>, roles: seq<(string, string)>, n: nat)
    requires n <= |names| == |roles| && forall i :: 0 <= i < |names| ==> roles[i].1 == names[i]
    ensures ValidUpTo(names, n) <==> Proper(roles, n)
  {
    forall i | 0 <= i < n ensures TrimSpace(names[i]) != "" <==> HasText(roles[i].1) {
      BlankIffNoText(names[i]);
    }
    forall i, j | 0 <= i < j < n ensures Collide(names, i, j) <==> SameName(roles[i].1, roles[j].1) {
      NormaliseIffSame(names[i], names[j]);
    }
  }

  lemma ValidIffProper(c: Config, n: nat)
    requires n <= 7
    ensures ValidUpTo(RoleNames(c), n) <==> Proper(DeclaredRoles(c), n)
  {
    RolesAreDeclared(c);
    NamesAreProper(RoleNames(c), DeclaredRoles(c), n);
  }

  lemma BadIsImproper(c: Config, e: ConfigError, n: nat)
    requires FirstBadRole(RoleNames(c), e, n)
    ensures FirstImproper(DeclaredRoles(c), e, n)
  {
    var names := RoleNames(c);
    RolesAreDeclared(c);
    ValidIffProper(c, n);
    BlankIffNoText(names[n]);
    if e.Collision? {
      var i :| 0 <= i < n && Collide(names, i, n) && e.first == ROLE_KEYS[i];
      NormaliseIffSame(names[i], names[n]);
    }
  }

  /** The validation loop, growing the map of names seen. */
  method Validate(c: Config) returns (err: Option<ConfigError>)
    ensures err.None? <==> Proper(DeclaredRoles(c), 7)
    ensures err.Some? ==> exists n :: FirstImproper(DeclaredRoles(c), err.value, n)
    ensures err.None? <==> ValidConfig(c)
  {
    ValidIffProper(c, 7);
    var all := RoleNames(c);
    var seen: map<string, string> := map[];
    for n := 0 to 7
      invariant ValidUpTo(all, n) && SeenNames(Normalised(all), seen, n)
    {
      var trimmed := TrimSpace(all[n]);
      if trimmed == "" {
        BadIsImproper(c, EmptyName(ROLE_KEYS[n]), n);
        return Some(EmptyName(ROLE_KEYS[n]));
      }
      var key := ToLower(trimmed);
      if key in seen {
        SeenCollides(all, seen, n);
        BadIsImproper(c, Collision(seen[key], ROLE_KEYS[n], trimmed), n);
        return Some(Collision(seen[key], ROLE_KEYS[n], trimmed));
      }
      ValidOneMore(all, seen, n);
      assert Normalised(all)[n] == key;
      SeenOneMore(Normalised(all), seen, n);
      seen := seen[key := ROLE_KEYS[n]];
    }
    return None;
  }

  // ----------------------------------------------------------------- resolution

  /** The lists of the board with the given normalised name, in board order. */
  function Matches(lists: seq<BoardList>, key: string): seq<BoardList> {
    if lists == [] then []
    else
      Matches(lists[..|lists| - 1], key)
      + if NormaliseName(lists[|lists| - 1].name) == key then [lists[|lists| - 1]] else []
  }

  /** For each role, the lists it matches. */
  function RoleMatches(c: Config, lists: seq<BoardList>): (m: seq<seq<BoardList>>)
    ensures |m| == 7
  {
    seq(7, r requires 0 <= r < 7 => Matches(lists, NormaliseName(RoleNames(c)[r])))
  }

  lemma {:induction false} MatchesAre(lists: seq<BoardList>, key: string)
    ensures forall l :: l in Matches(lists, key) <==> l in lists && NormaliseName(l.name) == key
  {
    if lists != [] {
      MatchesAre(lists[..|lists| - 1], key);
      assert lists == lists[..|lists| - 1] + [lists[|lists| - 1]];
    }
  }

  /** The board's lists by normalised name. */
  method IndexByName(lists: seq<BoardList>) returns (byName: map<string, seq<BoardList>>)
    ensures forall key :: key in byName ==> byName[key] == Matches(lists, key)
    ensures forall key :: key !in byName ==> Matches(lists, key) == []
  {
    byName := map[];
    for i := 0 to |lists|
      invariant forall key :: key in byName ==> byName[key] == Matches(lists[..i], key)
      invariant forall key :: key !in byName ==> Matches(lists[..i], key) == []
    {
      assert lists[..i + 1][..i] == lists[..i];
      var key := NormaliseName(lists[i].name);
      var was := if key in byName then byName[key] else [];
      byName := byName[key := was + [lists[i]]];
    }
    assert lists[..|lists|] == lists;
  }

  /** The role keys, in declaration order, of the first `n` roles with no matching list. */
  function MissingRoles(m: seq<seq<BoardList>>, n: nat): seq<string>
    requires |m| == 7 && n <= 7
  {
    if n == 0 then [] else MissingRoles(m, n - 1) + if |m[n - 1]| == 0 then [ROLE_KEYS[n - 1]] else []
  }

  /** The same for roles that match more than one list. */
  function AmbiguousRoles(m: seq<seq<BoardList>>, n: nat): seq<string>
    requires |m| == 7 && n <= 7
  {
    if n == 0 then [] else AmbiguousRoles(m, n - 1) + if |m[n - 1]| > 1 then [ROLE_KEYS[n - 1]] else []
  }

  function NamesOf(lists: seq<BoardList>): seq<string> {
    seq(|lists|, i requires 0 <= i < |lists| => lists[i].name)
  }

  function IdsOf(lists: seq<BoardList>): seq<string> {
    seq(|lists|, i requires 0 <= i < |lists| => lists[i].id)
  }

  /** For every ambiguous role, and for no other key, the names of the lists it matched. */
  ghost predicate DetailOf(m: seq<seq<BoardList>>, detail: map<string, seq<string>>, n: nat)
    requires |m| == 7 && n <= 7
  {
    && (forall r :: 0 <= r < n && |m[r]| > 1 ==> ROLE_KEYS[r] in detail && detail[ROLE_KEYS[r]] == NamesOf(m[r]))
    && (forall key :: key in detail ==> exists r: nat :: r < n && AmbiguousAt(m, r, key))
  }

  ghost predicate AmbiguousAt(m: seq<seq<BoardList>>, r: nat, key: string) {
    r < |m| && r < 7 && |m[r]| > 1 && key == ROLE_KEYS[r]
  }

  datatype Resolution =
    | View(view: Resolved)
    | BadConfig(error: ConfigError)
    | ResolveError(boardID: string, missing: seq<string>, ambiguous: seq<string>, detail: map<string, seq<string>>)

  // sort.Strings

  predicate StringLe(a: string, b: string) {
    a == "" || (b != "" && (a[0] < b[0] || (a[0] == b[0] && StringLe(a[1..], b[1..]))))
  }

  function InsertString(x: string, xs: seq<string>): seq<string> {
    if xs == [] then [x]
    else if StringLe(x, xs[0]) then [x] + xs
    else [xs[0]] + InsertString(x, xs[1..])
  }

  function SortStrings(xs: seq<string>): seq<string> {
    if xs == [] then [] else InsertString(xs[0], SortStrings(xs[1..]))
  }

  ghost predicate LeSorted(xs: seq<string>) {
    forall i :: 0 <= i < |xs| - 1 ==> StringLe(xs[i], xs[i + 1])
  }

  /** `a` is `b` cut short, or smaller at the first place where they differ. */
  ghost predicate Precedes(a: string, b: string) {
    exists k: nat :: FirstDifference(a, b, k) && (k == |a| || (k < |b| && a[k] < b[k]))
  }

  ghost predicate FirstDifference(a: string, b: string, k: nat) {
    k <= |a| && k <= |b| && forall i :: 0 <= i < k ==> a[i] == b[i]
  }

  ghost predicate SortedStrings(xs: seq<string>) {
    forall i :: 0 <= i < |xs| - 1 ==> Precedes(xs[i], xs[i + 1])
  }

  lemma {:induction false} LePrecedes(a: string, b: string)
    requires StringLe(a, b)
    ensures Precedes(a, b)
  {
    if a == "" || a[0] < b[0] {
      assert FirstDifference(a, b, 0);
    } else {
      LePrecedes(a[1..], b[1..]);
      var k: nat :| FirstDifference(a[1..], b[1..], k) && (k == |a[1..]| || (k < |b[1..]| && a[1..][k] < b[1..][k]));
      forall i | 0 <= i < k + 1 ensures a[i] == b[i] {
        assert i > 0 ==> a[1..][i - 1] == b[1..][i - 1];
      }
      assert FirstDifference(a, b, k + 1);
    }
  }

  lemma LeSortedIsSorted(xs: seq<string>)
    requires LeSorted(xs)
    ensures SortedStrings(xs)
  {
    forall i | 0 <= i < |xs| - 1 ensures Precedes(xs[i], xs[i + 1]) {
      LePrecedes(xs[i], xs[i + 1]);
    }
  }

  lemma {:induction false} StringLeTotal(a: string, b: string)
    ensures StringLe(a, b) || StringLe(b, a)
  {
    if a != "" && b != "" && a[0] == b[0] {
      StringLeTotal(a[1..], b[1..]);
    }
  }

  lemma SortedTail(xs: seq<string>)
    requires LeSorted(xs) && xs != []
    ensures LeSorted(xs[1..])
  {
    forall i | 0 <= i < |xs[1..]| - 1 ensures StringLe(xs[1..][i], xs[1..][i + 1]) {
      assert StringLe(xs[i + 1], xs[i + 1 + 1]);
    }
  }

  lemma SortedCons(x: string, xs: seq<string>)
    requires LeSorted(xs) && (xs == [] || StringLe(x, xs[0]))
    ensures LeSorted([x] + xs)
  {
    var ys := [x] + xs;
    forall i | 0 <= i < |ys| - 1 ensures StringLe(ys[i], ys[i + 1]) {
      assert i > 0 ==> ys[i] == xs[i - 1] && ys[i + 1] == xs[i - 1 + 1];
    }
  }

  lemma {:induction false} InsertKeeps(x: string, xs: seq<string>)
    ensures multiset(InsertString(x, xs)) == multiset(xs) + multiset{x}
    ensures InsertString(x, xs)[0] == x || (xs != [] && InsertString(x, xs)[0] == xs[0])
  {
    if xs != [] {
      assert xs == [xs[0]] + xs[1..];
      InsertKeeps(x, xs[1..]);
    }
  }

  lemma {:induction false} InsertSorts(x: string, xs: seq<string>)
    requires LeSorted(xs)
    ensures LeSorted(InsertString(x, xs))
  {
    if xs == [] || StringLe(x, xs[0]) {
      SortedCons(x, xs);
    } else {
      StringLeTotal(x, xs[0]);
      SortedTail(xs);
      InsertSorts(x, xs[1..]);
      InsertKeeps(x, xs[1..]);
      assert |xs| > 1 ==> StringLe(xs[0], xs[0 + 1]);
      SortedCons(xs[0], InsertString(x, xs[1..]));
    }
  }

  lemma {:induction false} SortIsLeSorted(xs: seq<string>)
    ensures LeSorted(SortStrings(xs)) && multiset(SortStrings(xs)) == multiset(xs)
  {
    if xs != [] {
      var rest := SortStrings(xs[1..]);
      SortIsLeSorted(xs[1..]);
      InsertSorts(xs[0], rest);
      InsertKeeps(xs[0], rest);
      assert xs == [xs[0]] + xs[1..];
    }
  }

  /** SortStrings sorts: character by character, a shorter string before its continuations. */
  lemma SortStringsSorts(xs: seq<string>)
    ensures SortedStrings(SortStrings(xs)) && multiset(SortStrings(xs)) == multiset(xs)
  {
    SortIsLeSorted(xs);
    LeSortedIsSorted(SortStrings(xs));
  }

  // ------------------------------------------------------------------- the view

  /** The lists no role claims, in board order. */
  function Unclaimed(lists: seq<BoardList>, claimed: set<string>): seq<BoardList> {
    if lists == [] then []
    else
      Unclaimed(lists[..|lists| - 1], claimed)
      + if lists[|lists| - 1].id in claimed then [] else [lists[|lists| - 1]]
  }

  ghost predicate AllMatchOnce(m: seq<seq<BoardList>>, n: nat) {
    n <= |m| && forall r :: 0 <= r < n ==> |m[r]| == 1
  }

  /** The ids of the first `n` roles. */
  ghost function ClaimedIds(m: seq<seq<BoardList>>, n: nat): set<string>
    requires AllMatchOnce(m, n)
  {
    set r | 0 <= r < n :: m[r][0].id
  }

  ghost function RoleOf(names: seq<string>, m: seq<seq<BoardList>>, r: nat): Role
    requires r < |names| && r < |m| && |m[r]| == 1
  {
    Role(TrimSpace(names[r]), m[r][0].id)
  }

  ghost predicate AllResolve(c: Config, lists: seq<BoardList>) { AllMatchOnce(RoleMatches(c, lists), 7) }

  ghost function Claimed(c: Config, lists: seq<BoardList>): set<string>
    requires AllResolve(c, lists)
  {
    ClaimedIds(RoleMatches(c, lists), 7)
  }

  /** The view is the one the configuration and the board determine. */
  ghost predicate IsView(v: Resolved, boardID: string, c: Config, lists: seq<BoardList>) {
    && AllResolve(c, lists)
    && var (names, m) := (RoleNames(c), RoleMatches(c, lists));
    && v.boardID == boardID && v.agentCommentPrefixes == c.agentCommentPrefixes
    && v.plan == RoleOf(names, m, 0) && v.action == RoleOf(names, m, 1) && v.done == RoleOf(names, m, 6)
    && v.wait == WaitRoles(RoleOf(names, m, 2), RoleOf(names, m, 3), RoleOf(names, m, 4), RoleOf(names, m, 5))
    && v.planListIDs == [v.plan.id] && v.actionListIDs == [v.action.id] && v.doneListIDs == [v.done.id]
    && v.waitListIDs == [v.wait.planReview.id, v.wait.actionReview.id, v.wait.generic.id, v.wait.exception.id]
                        + IdsOf(Unclaimed(lists, Claimed(c, lists)))
    && v.unclaimedListNames == NamesOf(Unclaimed(lists, Claimed(c, lists)))
  }

  /** What the loop over the roles has found. */
  datatype Found = Found(roles: seq<Role>, claimed: set<string>, missing: seq<string>, ambiguous: seq<string>,
                         detail: map<string, seq<string>>)

  ghost predicate FoundUpTo(f: Found, names: seq<string>, m: seq<seq<BoardList>>, n: nat)
    requires |names| == 7 && |m| == 7 && n <= 7
  {
    && |f.roles| == n
    && (forall r :: 0 <= r < n && |m[r]| == 1 ==> f.roles[r] == RoleOf(names, m, r))
    && f.missing == MissingRoles(m, n) && f.ambiguous == AmbiguousRoles(m, n)
    && DetailOf(m, f.detail, n)
    && (AllMatchOnce(m, n) ==> f.claimed == ClaimedIds(m, n))
  }

  /** The loop over the seven roles. */
  method LookUpRoles(c: Config, lists: seq<BoardList>) returns (f: Found)
    ensures FoundUpTo(f, RoleNames(c), RoleMatches(c, lists), 7)
  {
    var byName := IndexByName(lists);
    var names := RoleNames(c);
    ghost var m := RoleMatches(c, lists);
    f := Found([], {}, [], [], map[]);
    for n := 0 to 7
      invariant FoundUpTo(f, names, m, n)
    {
      var key := NormaliseName(names[n]);
      var matches := if key in byName then byName[key] else [];
      assert matches == m[n];
      ghost var was := f;
      if |matches| == 0 {
        f := f.(roles := f.roles + [Role("", "")], missing := f.missing + [ROLE_KEYS[n]]);
      } else if |matches| == 1 {
        f := f.(roles := f.roles + [Role(TrimSpace(names[n]), matches[0].id)],
                claimed := f.claimed + {matches[0].id});
      } else {
        f := f.(roles := f.roles + [Role("", "")], ambiguous := f.ambiguous + [ROLE_KEYS[n]],
                detail := f.detail[ROLE_KEYS[n] := NamesOf(matches)]);
      }
      FoundMore(was, f, names, m, n);
    }
  }

  /** One role more. */
  lemma FoundMore(was: Found, f: Found, names: seq<string>, m: seq<seq<BoardList>>, n: nat)
    requires |names| == 7 && |m| == 7 && n < 7 && FoundUpTo(was, names, m, n)
    requires f == if |m[n]| == 0 then
               was.(roles := was.roles + [Role("", "")], missing := was.missing + [ROLE_KEYS[n]])
             else if |m[n]| == 1 then
               was.(roles := was.roles + [RoleOf(names, m, n)], claimed := was.claimed + {m[n][0].id})
             else
               was.(roles := was.roles + [Role("", "")], ambiguous := was.ambiguous + [ROLE_KEYS[n]],
                    detail := was.detail[ROLE_KEYS[n] := NamesOf(m[n])])
    ensures FoundUpTo(f, names, m, n + 1)
  {
    if |m[n]| == 0 {
      DetailSame(m, was.detail, n);
    } else if |m[n]| == 1 {
      DetailSame(m, was.detail, n);
      ClaimMore(m, was.claimed, n);
    } else {
      DetailMore(m, was.detail, n);
    }
  }

  lemma DistinctKeys()
    ensures forall i, j :: 0 <= i < j < 7 ==> ROLE_KEYS[i] != ROLE_KEYS[j]
  {
    assert |ROLE_KEYS[0]| == 4 && |ROLE_KEYS[1]| == 6 && |ROLE_KEYS[2]| == 16 && |ROLE_KEYS[3]| == 18;
    assert |ROLE_KEYS[4]| == 12 && |ROLE_KEYS[5]| == 14 && |ROLE_KEYS[6]| == 4;
    assert ROLE_KEYS[0][0] == 'p' && ROLE_KEYS[6][0] == 'd';
  }

  lemma DetailSame(m: seq<seq<BoardList>>, detail: map<string, seq<string>>, n: nat)
    requires |m| == 7 && n < 7 && |m[n]| <= 1 && DetailOf(m, detail, n)
    ensures DetailOf(m, detail, n + 1)
  {
    forall key | key in detail ensures exists r: nat :: r < n + 1 && AmbiguousAt(m, r, key) {
      var r: nat :| r < n && AmbiguousAt(m, r, key);
    }
  }

  lemma DetailMore(m: seq<seq<BoardList>>, detail: map<string, seq<string>>, n: nat)
    requires |m| == 7 && n < 7 && |m[n]| > 1 && DetailOf(m, detail, n)
    ensures DetailOf(m, detail[ROLE_KEYS[n] := NamesOf(m[n])], n + 1)
  {
    var more := detail[ROLE_KEYS[n] := NamesOf(m[n])];
    DistinctKeys();
    forall key | key in more ensures exists r: nat :: r < n + 1 && AmbiguousAt(m, r, key) {
      if key == ROLE_KEYS[n] {
        assert AmbiguousAt(m, n, key);
      } else {
        var r: nat :| r < n && AmbiguousAt(m, r, key);
      }
    }
  }

  lemma ClaimMore(m: seq<seq<BoardList>>, claimed: set<string>, n: nat)
    requires |m| == 7 && n < 7 && |m[n]| == 1
    requires AllMatchOnce(m, n) ==> claimed == ClaimedIds(m, n)
    ensures AllMatchOnce(m, n + 1) ==> claimed + {m[n][0].id} == ClaimedIds(m, n + 1)
  {
  }

  /** No role is missing or ambiguous exactly when each matches one list. */
  lemma {:induction false} NoneFailedIffAllMatch(m: seq<seq<BoardList>>, n: nat)
    requires |m| == 7 && n <= 7
    ensures MissingRoles(m, n) == [] && AmbiguousRoles(m, n) == [] <==> AllMatchOnce(m, n)
  {
    if n > 0 {
      NoneFailedIffAllMatch(m, n - 1);
    }
  }

  /** Every unclaimed list falls to wait. */
  method CollectUnclaimed(lists: seq<BoardList>, claimed: set<string>, ids: seq<string>)
    returns (waitIDs: seq<string>, names: seq<string>)
    ensures waitIDs == ids + IdsOf(Unclaimed(lists, claimed))
    ensures names == NamesOf(Unclaimed(lists, claimed))
  {
    waitIDs, names := ids, [];
    for i := 0 to |lists|
      invariant waitIDs == ids + IdsOf(Unclaimed(lists[..i], claimed))
      invariant names == NamesOf(Unclaimed(lists[..i], claimed))
    {
      assert lists[..i + 1][..i] == lists[..i];
      if lists[i].id !in claimed {
        waitIDs, names := waitIDs + [lists[i].id], names + [lists[i].name];
      }
    }
    assert lists[..|lists|] == lists;
  }

  lemma {:induction false} FailuresUpTo(m: seq<seq<BoardList>>, n: nat, r: nat)
    requires |m| == 7 && n <= 7 && r < 7
    ensures multiset(MissingRoles(m, n))[ROLE_KEYS[r]] == if r < n && |m[r]| == 0 then 1 else 0
    ensures multiset(AmbiguousRoles(m, n))[ROLE_KEYS[r]] == if r < n && |m[r]| > 1 then 1 else 0
  {
    if n > 0 {
      FailuresUpTo(m, n - 1, r);
      KeysDiffer(n - 1, r);
    }
  }

  lemma KeysDiffer(i: nat, j: nat)
    requires i < 7 && j < 7
    ensures ROLE_KEYS[i] == ROLE_KEYS[j] <==> i == j
  {
    DistinctKeys();
  }

  lemma {:induction false} FailuresAreRoles(m: seq<seq<BoardList>>, n: nat, x: string)
    requires |m| == 7 && n <= 7 && (x in MissingRoles(m, n) || x in AmbiguousRoles(m, n))
    ensures x in ROLE_KEYS
  {
    assert n > 0;
    if x != ROLE_KEYS[n - 1] {
      FailuresAreRoles(m, n - 1, x);
    }
  }

  // --------------------------------------------------------------- what it resolves to

  /** The lists of the board that have the same name, in board order. */
  ghost function Named(lists: seq<BoardList>, name: string): seq<BoardList> {
    if lists == [] then []
    else
      Named(lists[..|lists| - 1], name)
      + if SameName(lists[|lists| - 1].name, name) then [lists[|lists| - 1]] else []
  }

  lemma {:induction false} MatchesAreNamed(lists: seq<BoardList>, name: string)
    ensures Matches(lists, NormaliseName(name)) == Named(lists, name)
  {
    if lists != [] {
      MatchesAreNamed(lists[..|lists| - 1], name);
      NormaliseIffSame(lists[|lists| - 1].name, name);
    }
  }

  lemma RoleMatchesAreNamed(c: Config, lists: seq<BoardList>, r: nat)
    requires r < 7
    ensures RoleMatches(c, lists)[r] == Named(lists, DeclaredRoles(c)[r].1)
  {
    RolesAreDeclared(c);
    MatchesAreNamed(lists, RoleNames(c)[r]);
  }

  /** The role has its configured name and the one list of that name. */
  ghost predicate IsRole(role: Role, name: string, lists: seq<BoardList>) {
    |Named(lists, name)| == 1 && role == Role(TrimSpace(name), Named(lists, name)[0].id)
  }

  /** The view shows each role's list, and puts every list that is no role's under wait. */
  ghost predicate ShowsBoard(v: Resolved, boardID: string, c: Config, lists: seq<BoardList>) {
    && v.boardID == boardID && v.agentCommentPrefixes == c.agentCommentPrefixes
    && IsRole(v.plan, c.plan, lists) && IsRole(v.action, c.action, lists) && IsRole(v.done, c.done, lists)
    && IsRole(v.wait.planReview, c.planReview, lists) && IsRole(v.wait.actionReview, c.actionReview, lists)
    && IsRole(v.wait.generic, c.generic, lists) && IsRole(v.wait.exception, c.exception, lists)
    && v.planListIDs == [v.plan.id] && v.actionListIDs == [v.action.id] && v.doneListIDs == [v.done.id]
    && var rest := Unclaimed(lists, OfRoles(v));
    && v.waitListIDs == [v.wait.planReview.id, v.wait.actionReview.id, v.wait.generic.id, v.wait.exception.id]
                        + IdsOf(rest)
    && v.unclaimedListNames == NamesOf(rest)
  }

  ghost function OfRoles(v: Resolved): set<string> {
    {v.plan.id, v.action.id, v.wait.planReview.id, v.wait.actionReview.id, v.wait.generic.id, v.wait.exception.id,
     v.done.id}
  }

  /** The error tells of a role what the lists of its name make of it. */
  ghost predicate TellsOf(e: Resolution, role: string, found: seq<BoardList>)
    requires e.ResolveError?
  {
    && multiset(e.missing)[role] == (if |found| == 0 then 1 else 0)
    && multiset(e.ambiguous)[role] == (if |found| > 1 then 1 else 0)
    && (role in e.detail <==> |found| > 1)
    && (|found| > 1 ==> e.detail[role] == NamesOf(found))
  }

  /** What a configuration and a board resolve to. */
  ghost predicate Resolves(res: Resolution, boardID: string, c: Config, lists: seq<BoardList>) {
    && ResolvesRoles(res, boardID, DeclaredRoles(c), lists)
    && (res.View? ==> ShowsBoard(res.view, boardID, c, lists))
  }

  /**
   An error for the first improper role; a view when each role's name is that of one list;
   otherwise an error that tells of each role what the lists of its name make of it.
   */
  ghost predicate ResolvesRoles(res: Resolution, boardID: string, roles: seq<(string, string)>,
                                lists: seq<BoardList>)
    requires |roles| == 7
  {
    if !Proper(roles, 7) then res.BadConfig? && exists n :: FirstImproper(roles, res.error, n)
    else if OneEach(roles, lists) then res.View?
    else
      && res.ResolveError? && res.boardID == boardID && SortedStrings(res.missing) && SortedStrings(res.ambiguous)
      && TellsOfEach(res, roles, lists)
  }

  /** The error tells of each role, and of nothing else. */
  ghost predicate TellsOfEach(e: Resolution, roles: seq<(string, string)>, lists: seq<BoardList>)
    requires e.ResolveError?
  {
    && (forall r :: 0 <= r < |roles| ==> TellsOf(e, roles[r].0, Named(lists, roles[r].1)))
    && forall x :: x in e.missing || x in e.ambiguous || x in e.detail ==>
                     exists r :: 0 <= r < |roles| && x == roles[r].0
  }

  /** Each role's name is that of exactly one list. */
  ghost predicate OneEach(roles: seq<(string, string)>, lists: seq<BoardList>) {
    forall r :: 0 <= r < |roles| ==> |Named(lists, roles[r].1)| == 1
  }

  lemma ClaimedAre(m: seq<seq<BoardList>>)
    requires AllMatchOnce(m, 7)
    ensures ClaimedIds(m, 7)
            == {m[0][0].id, m[1][0].id, m[2][0].id, m[3][0].id, m[4][0].id, m[5][0].id, m[6][0].id}
  {
    assert forall x :: x in ClaimedIds(m, 7) ==> exists r :: 0 <= r < 7 && x == m[r][0].id;
  }

  lemma RoleIs(c: Config, lists: seq<BoardList>, r: nat)
    requires AllResolve(c, lists) && r < 7
    ensures IsRole(RoleOf(RoleNames(c), RoleMatches(c, lists), r), DeclaredRoles(c)[r].1, lists)
  {
    RolesAreDeclared(c);
    RoleMatchesAreNamed(c, lists, r);
  }

  lemma ViewShowsBoard(v: Resolved, boardID: string, c: Config, lists: seq<BoardList>)
    requires IsView(v, boardID, c, lists)
    ensures ShowsBoard(v, boardID, c, lists)
  {
    RoleIs(c, lists, 0);
    RoleIs(c, lists, 1);
    RoleIs(c, lists, 2);
    RoleIs(c, lists, 3);
    RoleIs(c, lists, 4);
    RoleIs(c, lists, 5);
    RoleIs(c, lists, 6);
    ClaimedAre(RoleMatches(c, lists));
  }

  lemma AllResolveIff(c: Config, lists: seq<BoardList>)
    ensures AllResolve(c, lists) <==> OneEach(DeclaredRoles(c), lists)
  {
    forall r | 0 <= r < 7 ensures RoleMatches(c, lists)[r] == Named(lists, DeclaredRoles(c)[r].1) {
      RoleMatchesAreNamed(c, lists, r);
    }
  }

  lemma ErrorTellsOf(e: Resolution, c: Config, lists: seq<BoardList>, r: nat)
    requires e.ResolveError? && r < 7
    requires e.missing == SortStrings(MissingRoles(RoleMatches(c, lists), 7))
    requires e.ambiguous == SortStrings(AmbiguousRoles(RoleMatches(c, lists), 7))
    requires DetailOf(RoleMatches(c, lists), e.detail, 7)
    ensures TellsOf(e, DeclaredRoles(c)[r].0, Named(lists, DeclaredRoles(c)[r].1))
  {
    var m := RoleMatches(c, lists);
    RolesAreDeclared(c);
    RoleMatchesAreNamed(c, lists, r);
    FailuresUpTo(m, 7, r);
    SortStringsSorts(MissingRoles(m, 7));
    SortStringsSorts(AmbiguousRoles(m, 7));
    DetailTells(m, e.detail, r);
  }

  lemma DetailTells(m: seq<seq<BoardList>>, detail: map<string, seq<string>>, r: nat)
    requires |m| == 7 && DetailOf(m, detail, 7) && r < 7
    ensures ROLE_KEYS[r] in detail <==> |m[r]| > 1
    ensures |m[r]| > 1 ==> detail[ROLE_KEYS[r]] == NamesOf(m[r])
  {
    if ROLE_KEYS[r] in detail {
      var q: nat :| q < 7 && AmbiguousAt(m, q, ROLE_KEYS[r]);
      KeysDiffer(q, r);
    }
  }

  lemma OnlyRolesFail(e: Resolution, c: Config, lists: seq<BoardList>, x: string)
    requires e.ResolveError?
    requires e.missing == SortStrings(MissingRoles(RoleMatches(c, lists), 7))
    requires e.ambiguous == SortStrings(AmbiguousRoles(RoleMatches(c, lists), 7))
    requires DetailOf(RoleMatches(c, lists), e.detail, 7)
    requires x in e.missing || x in e.ambiguous || x in e.detail
    ensures exists r :: 0 <= r < 7 && x == DeclaredRoles(c)[r].0
  {
    var m := RoleMatches(c, lists);
    RolesAreDeclared(c);
    SortKeeps(MissingRoles(m, 7), x);
    SortKeeps(AmbiguousRoles(m, 7), x);
    if x in e.detail {
      var r: nat :| r < 7 && AmbiguousAt(m, r, x);
      assert x == DeclaredRoles(c)[r].0;
    } else {
      FailuresAreRoles(m, 7, x);
      var r :| 0 <= r < 7 && ROLE_KEYS[r] == x;
      assert x == DeclaredRoles(c)[r].0;
    }
  }

  lemma ErrorResolves(e: Resolution, boardID: string, c: Config, lists: seq<BoardList>)
    requires e.ResolveError? && e.boardID == boardID && ValidConfig(c) && !AllResolve(c, lists)
    requires e.missing == SortStrings(MissingRoles(RoleMatches(c, lists), 7))
    requires e.ambiguous == SortStrings(AmbiguousRoles(RoleMatches(c, lists), 7))
    requires DetailOf(RoleMatches(c, lists), e.detail, 7)
    ensures Resolves(e, boardID, c, lists)
  {
    ValidIffProper(c, 7);
    AllResolveIff(c, lists);
    SortStringsSorts(MissingRoles(RoleMatches(c, lists), 7));
    SortStringsSorts(AmbiguousRoles(RoleMatches(c, lists), 7));
    forall r | 0 <= r < 7 ensures TellsOf(e, DeclaredRoles(c)[r].0, Named(lists, DeclaredRoles(c)[r].1)) {
      ErrorTellsOf(e, c, lists, r);
    }
    forall x | x in e.missing || x in e.ambiguous || x in e.detail
      ensures exists r :: 0 <= r < 7 && x == DeclaredRoles(c)[r].0
    {
      OnlyRolesFail(e, c, lists, x);
    }
  }

  lemma SortKeeps(xs: seq<string>, x: string)
    ensures x in SortStrings(xs) <==> x in xs
  {
    SortStringsSorts(xs);
    assert x in SortStrings(xs) <==> x in multiset(SortStrings(xs));
  }

  /**
   Resolve: a validation error, a ResolveError naming in sorted order exactly the roles whose
   name no list has and those whose name several have, or the view.
   */
  method Resolve(boardID: string, c: Config, lists: seq<BoardList>) returns (res: Resolution)
    ensures Resolves(res, boardID, c, lists)
    ensures res.View? <==> ValidConfig(c) && AllResolve(c, lists)
    ensures res.View? ==> IsView(res.view, boardID, c, lists)
  {
    ValidIffProper(c, 7);
    AllResolveIff(c, lists);
    var err := Validate(c);
    if err.Some? {
      return BadConfig(err.value);
    }
    var f := LookUpRoles(c, lists);
    NoneFailedIffAllMatch(RoleMatches(c, lists), 7);
    if |f.missing| > 0 || |f.ambiguous| > 0 {
      res := ResolveError(boardID, SortStrings(f.missing), SortStrings(f.ambiguous), f.detail);
      ErrorResolves(res, boardID, c, lists);
      return;
    }
    var r := f.roles;
    var wait := WaitRoles(r[2], r[3], r[4], r[5]);
    var waitIDs, names := CollectUnclaimed(lists, f.claimed, [r[2].id, r[3].id, r[4].id, r[5].id]);
    var view := Resolved(boardID, r[0], r[1], r[6], wait, c.agentCommentPrefixes,
                         [r[0].id], [r[1].id], waitIDs, [r[6].id], names);
    ViewShowsBoard(view, boardID, c, lists);
    return View(view);
  }
}

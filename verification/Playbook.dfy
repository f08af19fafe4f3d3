/**
 What a playbook's references stand for (internal/app/prompttmpl/renderer.go): `kanban.`
 variables and the paths of other playbooks, and what that makes of the scanner's result.
 */
module Playbook {
  import opened Strings
  import opened Names
  import opened Renderer

  /** What `{{...}}` may refer to: rendered playbooks and `kanban.` variables. */
  datatype Env = Env(files: map<string, string>, kanbanVars: map<string, string>)

  // --------------------------------------------------------------------- by positions

  ghost predicate HasSeparator(name: string) {
    exists i :: 0 <= i < |name| && (name[i] == '/' || name[i] == '\\')
  }

  ghost predicate HasDotDot(name: string) {
    exists i :: 0 <= i < |name| - 1 && name[i] == '.' && name[i + 1] == '.'
  }

  ghost predicate PlainName(name: string) { name != "" && !HasSeparator(name) && !HasDotDot(name) }

  /** The name, of which any surrounding blanks are cut, stands for something. */
  ghost predicate Known(env: Env, name: string) {
    if "kanban." <= name then name in env.kanbanVars else PlainName(name) && name in env.files
  }

  /** What a name stands for. */
  ghost function Meaning(env: Env, name: string): string
    requires Known(env, name)
  {
    if "kanban." <= name then env.kanbanVars[name] else env.files[name]
  }

  /** Why a name stands for nothing. */
  ghost predicate Because(env: Env, name: string, reason: Reason) {
    match reason
    case UnknownKanbanKey => "kanban." <= name && name !in env.kanbanVars
    case InvalidReferenceName(EmptyName) => name == ""
    case InvalidReferenceName(PathSeparator) => !("kanban." <= name) && HasSeparator(name)
    case InvalidReferenceName(DotDot) => !("kanban." <= name) && !HasSeparator(name) && HasDotDot(name)
    case ReferencedFileNotFound => !("kanban." <= name) && PlainName(name) && name !in env.files
  }

  /** A name stands for something, or for nothing for exactly one reason. */
  lemma OneReason(env: Env, name: string, r1: Reason, r2: Reason)
    requires Because(env, name, r1) && Because(env, name, r2)
    ensures !Known(env, name) && r1 == r2
  {
  }

  // ------------------------------------------------------------------- the look-up

  datatype NameCheck = NameOk | NameBad(error: NameError)

  const KANBAN_REF_PREFIX: string := "kanban."

  lemma SeparatorIff(name: string)
    ensures ContainsAny(name, "/\\") <==> HasSeparator(name)
  {
    if ContainsAny(name, "/\\") {
      var i :| 0 <= i < |name| && name[i] in "/\\";
    }
    if i :| 0 <= i < |name| && (name[i] == '/' || name[i] == '\\') {
      assert "/\\"[0] == '/' && "/\\"[1] == '\\';
      assert name[i] in "/\\";
    }
  }

  lemma DotDotIff(name: string)
    ensures Contains(name, "..") <==> HasDotDot(name)
  {
    ContainsIff(name, "..");
    if i: nat :| StandsAt(name, "..", i) {
      assert name[i + 0] == ".."[0] && name[i + 1] == ".."[1];
    }
    if i :| 0 <= i < |name| - 1 && name[i] == '.' && name[i + 1] == '.' {
      assert StandsAt(name, "..", i);
    }
  }

  /** Each check fails exactly on its own names, the first that fails being reported. */
  function ValidateBasename(name: string): (r: NameCheck)
    ensures r == NameOk <==> PlainName(name)
    ensures r == NameBad(EmptyName) <==> name == ""
    ensures r == NameBad(PathSeparator) <==> HasSeparator(name)
    ensures r == NameBad(DotDot) <==> !HasSeparator(name) && HasDotDot(name)
  {
    SeparatorIff(name);
    DotDotIff(name);
    if name == "" then NameBad(EmptyName)
    else if ContainsAny(name, "/\\") then NameBad(PathSeparator)
    else if Contains(name, "..") then NameBad(DotDot)
    else NameOk
  }

  /** The replacement of a reference, by its trimmed body. */
  function Resolve(env: Env, raw: string): Lookup {
    var name := TrimSpace(raw);
    if HasPrefix(name, KANBAN_REF_PREFIX) then
      if name in env.kanbanVars then Found(env.kanbanVars[name]) else NotFound(UnknownKanbanKey)
    else
      match ValidateBasename(name)
      case NameBad(e) => NotFound(InvalidReferenceName(e))
      case NameOk => if name in env.files then Found(env.files[name]) else NotFound(ReferencedFileNotFound)
  }

  function ResolverOf(env: Env): Resolver { raw => Resolve(env, raw) }

  lemma ResolveMeans(env: Env, raw: string)
    ensures ResolverOf(env)(raw).Found? <==> Known(env, TrimSpace(raw))
    ensures Known(env, TrimSpace(raw)) ==> ResolverOf(env)(raw) == Found(Meaning(env, TrimSpace(raw)))
    ensures !Known(env, TrimSpace(raw)) ==> Because(env, TrimSpace(raw), ResolverOf(env)(raw).reason)
  {
    assert ResolverOf(env)(raw) == Resolve(env, raw);
  }

  // ------------------------------------------------------------------ the rendering

  /** Every reference among the tokens stands for something. */
  ghost predicate AllKnown(env: Env, ts: seq<Token>) {
    forall k :: 0 <= k < |ts| && ts[k].Ref? ==> Known(env, TrimSpace(ts[k].raw))
  }

  /** The tokens with each reference replaced by what it stands for. */
  ghost function Replaced(env: Env, ts: seq<Token>): string {
    if ts == [] then ""
    else
      (match ts[0]
       case Lit(c) => [c]
       case Ref(raw) => if Known(env, TrimSpace(raw)) then Meaning(env, TrimSpace(raw)) else "")
      + Replaced(env, ts[1..])
  }

  /** The error names the first reference that stands for nothing, where its opening is, and why. */
  ghost predicate FirstUnknown(env: Env, src: string, file: string, e: RenderError) {
    exists k :: UnknownAt(env, src, file, e, k)
  }

  ghost predicate UnknownAt(env: Env, src: string, file: string, e: RenderError, k: nat) {
    && k < |Tokens(src)| && Tokens(src)[k] == Ref(e.reference) && AllKnown(env, Tokens(src)[..k])
    && Because(env, TrimSpace(e.reference), e.reason) && e.file == file
    && var pos := WidthAll(Tokens(src)[..k]);
    && pos < |src| && e.line == 1 + multiset(src[..pos])['\n'] && LineOffset(src, pos, e.column)
  }

  lemma GoodIsKnown(env: Env, ts: seq<Token>)
    ensures AllGood(ResolverOf(env), ts) <==> AllKnown(env, ts)
  {
    var resolve := ResolverOf(env);
    forall k | 0 <= k < |ts| ensures Good(resolve, ts[k]) <==> (ts[k].Ref? ==> Known(env, TrimSpace(ts[k].raw))) {
      if ts[k].Ref? {
        ResolveMeans(env, ts[k].raw);
      }
    }
  }

  lemma {:induction false} ExpandIsReplaced(env: Env, ts: seq<Token>)
    ensures ExpandAll(ResolverOf(env), ts) == Replaced(env, ts)
  {
    if ts != [] {
      ExpandIsReplaced(env, ts[1..]);
      if ts[0].Ref? {
        ResolveMeans(env, ts[0].raw);
      }
    }
  }

  lemma FailureIsUnknown(src: string, file: string, env: Env)
    requires Denotation(src, file, ResolverOf(env)).Failed?
    ensures FirstUnknown(env, src, file, Denotation(src, file, ResolverOf(env)).error)
  {
    var (resolve, e) := (ResolverOf(env), Denotation(src, file, ResolverOf(env)).error);
    FailureIsFirstBadReference(src, file, resolve);
    var k := GoodPrefix(resolve, Tokens(src));
    GoodIsKnown(env, Tokens(src)[..k]);
    ResolveMeans(env, e.reference);
    assert UnknownAt(env, src, file, e, k);
  }

  /**
   The substitution pass. It succeeds exactly when every reference stands for something, and
   then each is replaced by that; otherwise the error is that of the first that does not.
   */
  method RenderBytes(src: string, file: string, env: Env) returns (r: Rendering)
    ensures r == Denotation(src, file, ResolverOf(env))
    ensures r.Rendered? <==> AllKnown(env, Tokens(src))
    ensures r.Rendered? ==> r.text == Replaced(env, Tokens(src))
    ensures r.Failed? ==> FirstUnknown(env, src, file, r.error)
  {
    r := Scan(src, file, ResolverOf(env));
    SucceedsIffAllResolve(src, file, ResolverOf(env));
    GoodIsKnown(env, Tokens(src));
    ExpandIsReplaced(env, Tokens(src));
    if r.Failed? {
      FailureIsUnknown(src, file, env);
    }
  }

  // ------------------------------------------------------------- a single reference

  lemma BetweenBlanks(ws: string, name: string, ws': string)
    requires forall i :: 0 <= i < |ws| ==> IsBlank(ws[i])
    requires forall i :: 0 <= i < |ws'| ==> IsBlank(ws'[i])
    requires name != "" && !IsBlank(name[0]) && !IsBlank(name[|name| - 1])
    ensures TrimSpace(ws + name + ws') == name
  {
    var raw := ws + name + ws';
    assert raw[|ws|..|ws| + |name|] == name;
    assert raw[|ws|] == name[0] && raw[|ws| + |name| - 1] == name[|name| - 1];
    TrimIsCut(raw, |ws|, |ws| + |name|);
  }

  lemma SingleToken(raw: string)
    requires NoClose("{{" + raw + "}}", 2, 2 + |raw|)
    ensures Tokens("{{" + raw + "}}") == [Ref(raw)]
  {
    var src := "{{" + raw + "}}";
    var end := 2 + |raw|;
    assert src[2..end] == raw && src[end] == '}' && src[end + 1] == '}' && src[0] == '{' && src[1] == '{';
    assert FitsAt(Ref(raw), src, 0);
    assert [Ref(raw)][1..] == [] && TokenisesFrom([], src, |src|);
    TokenisationIsUnique([Ref(raw)], src, 0);
  }

  /**
   "{{", blanks, a name, blanks, "}}": the variable of that name when it starts with
   "kanban.", the path of the playbook of that name when it is a plain one, and otherwise
   the error for exactly that name, in line 1, column 1. Nothing is closed before the end.
   */
  lemma SingleReference(ws: string, name: string, ws': string, file: string, env: Env)
    requires forall i :: 0 <= i < |ws| ==> IsBlank(ws[i])
    requires forall i :: 0 <= i < |ws'| ==> IsBlank(ws'[i])
    requires name != "" && !IsBlank(name[0]) && !IsBlank(name[|name| - 1])
    requires NoClose("{{" + (ws + name + ws') + "}}", 2, 2 + |ws + name + ws'|)
    ensures var r := Denotation("{{" + (ws + name + ws') + "}}", file, ResolverOf(env));
            if "kanban." <= name then
              if name in env.kanbanVars then r == Rendered(env.kanbanVars[name])
              else r == Failed(RenderError(file, 1, 1, ws + name + ws', UnknownKanbanKey))
            else if PlainName(name) && name in env.files then r == Rendered(env.files[name])
            else r.Failed? && Because(env, name, r.error.reason)
                 && r.error == RenderError(file, 1, 1, ws + name + ws', r.error.reason)
  {
    var raw := ws + name + ws';
    var (src, resolve) := ("{{" + raw + "}}", ResolverOf(env));
    BetweenBlanks(ws, name, ws');
    SingleToken(raw);
    ResolveMeans(env, raw);
    assert Tokens(src) == [Ref(raw)];
    assert [Ref(raw)][..0] == [] && src[..0] == "" && [Ref(raw)][1..] == [];
    if resolve(raw).Found? {
      assert ExpandAll(resolve, [Ref(raw)]) == resolve(raw).value + [];
    }
  }

  // ------------------------------------------------------------- two separate worlds

  ghost predicate IsKanbanRef(t: Token) { t.Ref? && "kanban." <= TrimSpace(t.raw) }

  /** The resolvers find the same for every reference among the tokens. */
  ghost predicate AgreeOn(r1: Resolver, r2: Resolver, ts: seq<Token>) {
    forall k :: 0 <= k < |ts| && ts[k].Ref? ==> r1(ts[k].raw) == r2(ts[k].raw)
  }

  lemma {:induction false} SameExpansion(r1: Resolver, r2: Resolver, ts: seq<Token>)
    requires AgreeOn(r1, r2, ts)
    ensures GoodPrefix(r1, ts) == GoodPrefix(r2, ts) && ExpandAll(r1, ts) == ExpandAll(r2, ts)
  {
    if ts != [] {
      assert ts[0].Ref? ==> r1(ts[0].raw) == r2(ts[0].raw);
      assert AgreeOn(r1, r2, ts[1..]) by {
        assert forall k :: 0 <= k < |ts[1..]| ==> ts[1..][k] == ts[k + 1];
      }
      SameExpansion(r1, r2, ts[1..]);
    }
  }

  lemma SameDenotation(src: string, file: string, r1: Resolver, r2: Resolver)
    requires AgreeOn(r1, r2, Tokens(src))
    ensures Denotation(src, file, r1) == Denotation(src, file, r2)
  {
    var ts := Tokens(src);
    SameExpansion(r1, r2, ts);
    var k := GoodPrefix(r1, ts);
    if k < |ts| {
      assert r1(ts[k].raw) == r2(ts[k].raw);
    }
  }

  /**
   References to variables do not depend on the playbooks, nor references to playbooks on
   the variables.
   */
  lemma WorldsAreSeparate(src: string, file: string, env: Env, env': Env)
    requires forall t :: t in Tokens(src) && t.Ref? ==>
               if IsKanbanRef(t) then env.kanbanVars == env'.kanbanVars else env.files == env'.files
    ensures Denotation(src, file, ResolverOf(env)) == Denotation(src, file, ResolverOf(env'))
  {
    var ts := Tokens(src);
    forall k | 0 <= k < |ts| && ts[k].Ref? ensures ResolverOf(env)(ts[k].raw) == ResolverOf(env')(ts[k].raw) {
      assert ts[k] in ts;
      assert ResolverOf(env)(ts[k].raw) == Resolve(env, ts[k].raw);
      assert ResolverOf(env')(ts[k].raw) == Resolve(env', ts[k].raw);
    }
    SameDenotation(src, file, ResolverOf(env), ResolverOf(env'));
  }

  // ------------------------------------------------------------------ the whole file

  lemma ResolverNames(env: Env)
    ensures NamesAreNotEmpty(ResolverOf(env))
  {
    forall raw | ResolverOf(env)(raw).Found? ensures raw != "" {
      FoundIsNotEmpty(env, raw);
    }
  }

  lemma FoundIsNotEmpty(env: Env, raw: string)
    requires Resolve(env, raw).Found?
    ensures raw != ""
  {
  }

  const MAX_RENDERED_FILE_BYTES: nat := 4194304

  datatype FileResult = Written(content: string) | BadReference(error: RenderError) | SizeExceeded(size: nat)

  predicate ValuesAtMost(m: map<string, string>, n: nat) {
    forall k :: k in m ==> |m[k]| <= n
  }

  /**
   renderFile between reading and writing. A source of at most 1 MiB, which is what the copy
   step lets through, with replacements of at most 20 bytes never meets the ceiling of 4 MiB.
   */
  method RenderFile(src: string, name: string, env: Env) returns (r: FileResult)
    ensures r.BadReference? <==> !AllKnown(env, Tokens(src))
    ensures r.BadReference? ==> FirstUnknown(env, src, name, r.error)
    ensures r.Written? ==> r.content == Replaced(env, Tokens(src)) && |r.content| <= 4194304
    ensures r.SizeExceeded? ==> r.size == |Replaced(env, Tokens(src))| > 4194304
    ensures |src| <= 1048576 && ValuesAtMost(env.files, 20) && ValuesAtMost(env.kanbanVars, 20) ==> !r.SizeExceeded?
  {
    var rendered := RenderBytes(src, name, env);
    if rendered.Failed? {
      return BadReference(rendered.error);
    }
    if ValuesAtMost(env.files, 20) && ValuesAtMost(env.kanbanVars, 20) {
      ShortValues(env, 20);
      ResolverNames(env);
      RenderedSize(src, name, ResolverOf(env), 20);
    }
    if |rendered.text| > MAX_RENDERED_FILE_BYTES {
      return SizeExceeded(|rendered.text|);
    }
    return Written(rendered.text);
  }

  lemma ShortValues(env: Env, m: nat)
    requires ValuesAtMost(env.files, m) && ValuesAtMost(env.kanbanVars, m)
    ensures ReplacementsAtMost(ResolverOf(env), m)
  {
    forall raw | ResolverOf(env)(raw).Found? ensures |ResolverOf(env)(raw).value| <= m {
      assert ResolverOf(env)(raw) == Resolve(env, raw);
    }
  }
}

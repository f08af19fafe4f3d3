/**
 The playbook template pass (internal/app/prompttmpl/renderer.go): a single-pass scanner
 with line and column bookkeeping, proved equal to a tokenisation of the source whose
 tokens are expanded one by one.
 */
module Renderer {
  import opened Numbers

  // ------------------------------------------------------------------- references

  datatype NameError = EmptyName | PathSeparator | DotDot

  datatype Reason = UnknownKanbanKey | InvalidReferenceName(error: NameError) | ReferencedFileNotFound

  datatype RenderError = RenderError(file: string, line: nat, column: nat, reference: string, reason: Reason)

  datatype Rendering = Rendered(text: string) | Failed(error: RenderError)

  datatype Lookup = Found(value: string) | NotFound(reason: Reason)

  /** The scanner only asks for replacements; how they are found is its parameter. */
  type Resolver = string -> Lookup

  // ----------------------------------------------------------------- tokenisation

  datatype Token = Lit(c: char) | Ref(raw: string)

  /** The source text of a token, and its length. */
  function Raw(t: Token): (r: string)
    ensures |r| == Width(t)
  {
    match t
    case Lit(c) => [c]
    case Ref(raw) => "{{" + raw + "}}"
  }

  function Width(t: Token): nat { if t.Lit? then 1 else |t.raw| + 4 }

  function RawAll(ts: seq<Token>): string {
    if ts == [] then [] else Raw(ts[0]) + RawAll(ts[1..])
  }

  /** How much source the tokens take. */
  function WidthAll(ts: seq<Token>): nat {
    if ts == [] then 0 else Width(ts[0]) + WidthAll(ts[1..])
  }

  lemma {:induction false} WidthConcat(a: seq<Token>, b: seq<Token>)
    ensures WidthAll(a + b) == WidthAll(a) + WidthAll(b)
  {
    if a == [] {
      assert a + b == b;
    } else {
      WidthConcat(a[1..], b);
      assert (a + b)[1..] == a[1..] + b;
    }
  }

  lemma WidthOfPrefix(ts: seq<Token>, k: nat)
    requires k <= |ts|
    ensures WidthAll(ts[..k]) <= WidthAll(ts)
  {
    WidthConcat(ts[..k], ts[k..]);
    assert ts[..k] + ts[k..] == ts;
  }

  predicate OpenAt(s: string, i: int) { 0 <= i < |s| - 1 && s[i] == '{' && s[i + 1] == '{' }

  predicate CloseAt(s: string, j: int) { 0 <= j < |s| - 1 && s[j] == '}' && s[j + 1] == '}' }

  /** No closing starts in s[from..to]. */
  ghost predicate NoClose(s: string, from: int, to: int) {
    forall j :: from <= j < to ==> !CloseAt(s, j)
  }

  /** Where the first closing at or after `j` is; the length if there is none. */
  function FirstClose(s: string, j: nat): (r: nat)
    requires j <= |s|
    ensures j <= r <= |s| && NoClose(s, j, r)
    ensures r < |s| ==> CloseAt(s, r)
    decreases |s| - j
  {
    if j == |s| || CloseAt(s, j) then j else FirstClose(s, j + 1)
  }

  /** A reference starts here: an opening with some closing after it. */
  predicate StartsRef(s: string, i: nat)
    requires i <= |s|
  {
    OpenAt(s, i) && FirstClose(s, i + 2) < |s|
  }

  /** The token at position `i`. */
  function TokenAt(s: string, i: nat): (t: Token)
    requires i < |s|
    ensures i + Width(t) <= |s|
  {
    if StartsRef(s, i) then Ref(s[i + 2..FirstClose(s, i + 2)]) else Lit(s[i])
  }

  /** The tokens from position `i` on. */
  function TokensFrom(s: string, i: nat): (ts: seq<Token>)
    requires i <= |s|
    ensures WidthAll(ts) == |s| - i
    decreases |s| - i
  {
    if i == |s| then []
    else
      var rest := TokensFrom(s, i + Width(TokenAt(s, i)));
      assert ([TokenAt(s, i)] + rest)[1..] == rest;
      [TokenAt(s, i)] + rest
  }

  function Tokens(s: string): seq<Token> { TokensFrom(s, 0) }

  /**
   A token fits at `i`: its raw text is there; a reference runs to the first closing after
   its opening; a character stands alone only where an opening has no closing.
   */
  ghost predicate FitsAt(t: Token, s: string, i: nat) {
    match t
    case Lit(c) => i < |s| && s[i] == c && (OpenAt(s, i) ==> NoClose(s, i + 2, |s|))
    case Ref(raw) =>
      var end := i + 2 + |raw|;
      && OpenAt(s, i) && CloseAt(s, end) && NoClose(s, i + 2, end) && raw == s[i + 2..end]
  }

  /** `ts` tokenises the text from `i` to its end. */
  ghost predicate TokenisesFrom(ts: seq<Token>, s: string, i: nat) {
    if ts == [] then i == |s|
    else FitsAt(ts[0], s, i) && TokenisesFrom(ts[1..], s, i + Width(ts[0]))
  }

  lemma TokenAtFits(s: string, i: nat)
    requires i < |s|
    ensures FitsAt(TokenAt(s, i), s, i)
  {
  }

  /** Two tokens that fit at the same place are equal. */
  lemma FittingIsForced(t: Token, s: string, i: nat)
    requires FitsAt(t, s, i)
    ensures i < |s| && t == TokenAt(s, i)
  {
    if t.Ref? {
      var (end, first) := (i + 2 + |t.raw|, FirstClose(s, i + 2));
      assert !(first < end) && !(end < first);
    }
  }

  /** The tokens from a position are the token there and the tokens behind it. */
  lemma HeadAndTail(s: string, i: nat)
    requires i < |s|
    ensures var ts := TokensFrom(s, i);
            ts != [] && ts[0] == TokenAt(s, i) && ts[1..] == TokensFrom(s, i + Width(TokenAt(s, i)))
  {
    var (t, rest) := (TokenAt(s, i), TokensFrom(s, i + Width(TokenAt(s, i))));
    assert ([t] + rest)[1..] == rest;
  }

  lemma SameHeadAndTail(a: seq<Token>, b: seq<Token>)
    requires a != [] && b != [] && a[0] == b[0] && a[1..] == b[1..]
    ensures a == b
  {
    assert a == [a[0]] + a[1..] && b == [b[0]] + b[1..];
  }

  lemma {:induction false} TokensTokenise(s: string, i: nat)
    requires i <= |s|
    ensures TokenisesFrom(TokensFrom(s, i), s, i)
    decreases |s| - i
  {
    if i < |s| {
      TokenAtFits(s, i);
      HeadAndTail(s, i);
      TokensTokenise(s, i + Width(TokenAt(s, i)));
    }
  }

  /** The tokenisation of a text is unique. */
  lemma {:induction false} TokenisationIsUnique(ts: seq<Token>, s: string, i: nat)
    requires TokenisesFrom(ts, s, i)
    ensures i <= |s| && ts == TokensFrom(s, i)
    decreases |ts|
  {
    if ts != [] {
      FittingIsForced(ts[0], s, i);
      TokenisationIsUnique(ts[1..], s, i + Width(ts[0]));
      HeadAndTail(s, i);
      SameHeadAndTail(ts, TokensFrom(s, i));
    }
  }

  /** The first `k` tokens from `i` end where the others begin. */
  lemma {:induction false} TokensSplit(src: string, i: nat, k: nat)
    requires i <= |src| && k <= |TokensFrom(src, i)|
    ensures i + WidthAll(TokensFrom(src, i)[..k]) <= |src|
    ensures TokensFrom(src, i)[k..] == TokensFrom(src, i + WidthAll(TokensFrom(src, i)[..k]))
    decreases k
  {
    if k > 0 {
      HeadAndTail(src, i);
      TokensSplit(src, i + Width(TokenAt(src, i)), k - 1);
      PrefixWidth(TokensFrom(src, i), k);
    }
  }

  lemma PrefixWidth(ts: seq<Token>, k: nat)
    requires 0 < k <= |ts|
    ensures WidthAll(ts[..k]) == Width(ts[0]) + WidthAll(ts[1..][..k - 1])
    ensures ts[k..] == ts[1..][k - 1..]
  {
    assert ts[..k][1..] == ts[1..][..k - 1];
  }

  /** A fitting token's raw text is the next piece of the source. */
  lemma RawIsThere(s: string, i: nat, t: Token)
    requires FitsAt(t, s, i)
    ensures s[i..i + Width(t)] == Raw(t)
  {
    if t.Ref? {
      var end := i + 2 + |t.raw|;
      assert s[i..i + 2] == "{{" && s[end..end + 2] == "}}";
      assert s[i..end + 2] == s[i..i + 2] + s[i + 2..end] + s[end..end + 2];
    }
  }

  /** The raw texts of a tokenisation concatenate back to the text. */
  lemma {:induction false} TokenisationRoundTrip(ts: seq<Token>, s: string, i: nat)
    requires i <= |s| && TokenisesFrom(ts, s, i)
    ensures RawAll(ts) == s[i..]
  {
    if ts != [] {
      var n := i + Width(ts[0]);
      FittingIsForced(ts[0], s, i);
      TokenisationRoundTrip(ts[1..], s, n);
      RawIsThere(s, i, ts[0]);
      assert s[i..] == s[i..n] + s[n..];
    }
  }

  lemma TokensRoundTrip(s: string)
    ensures RawAll(Tokens(s)) == s
  {
    TokensTokenise(s, 0);
    TokenisationRoundTrip(Tokens(s), s, 0);
  }

  // -------------------------------------------------------------------- denotation

  predicate Good(resolve: Resolver, t: Token) { t.Lit? || resolve(t.raw).Found? }

  predicate AllGood(resolve: Resolver, ts: seq<Token>) { forall i :: 0 <= i < |ts| ==> Good(resolve, ts[i]) }

  /** What a token becomes; a reference that does not resolve fails the whole instead. */
  function Expand(resolve: Resolver, t: Token): string {
    if t.Lit? then [t.c] else if resolve(t.raw).Found? then resolve(t.raw).value else ""
  }

  /** The replacements, concatenated. */
  function ExpandAll(resolve: Resolver, ts: seq<Token>): string {
    if ts == [] then [] else Expand(resolve, ts[0]) + ExpandAll(resolve, ts[1..])
  }

  /** The number of tokens before the first bad reference. */
  function GoodPrefix(resolve: Resolver, ts: seq<Token>): (k: nat)
    ensures k <= |ts| && (k < |ts| ==> !Good(resolve, ts[k]))
  {
    if ts == [] || !Good(resolve, ts[0]) then 0 else 1 + GoodPrefix(resolve, ts[1..])
  }

  lemma {:induction false} PrefixIsGood(resolve: Resolver, ts: seq<Token>)
    ensures AllGood(resolve, ts[..GoodPrefix(resolve, ts)])
  {
    if ts != [] && Good(resolve, ts[0]) {
      PrefixIsGood(resolve, ts[1..]);
      var k := GoodPrefix(resolve, ts[1..]);
      assert ts[..k + 1] == [ts[0]] + ts[1..][..k];
    }
  }

  function Newlines(s: string): nat {
    if s == [] then 0 else Newlines(s[..|s| - 1]) + if s[|s| - 1] == '\n' then 1 else 0
  }

  /** The offset, from 1, of the position right after `s` in its line. */
  function Column(s: string): nat {
    if s == [] || s[|s| - 1] == '\n' then 1 else Column(s[..|s| - 1]) + 1
  }

  /** What rendering the tokens `ts` found at `i` adds to `out`. */
  function DenoteTokens(src: string, file: string, resolve: Resolver, ts: seq<Token>, i: nat, out: string): Rendering
    requires i + WidthAll(ts) <= |src|
  {
    var k := GoodPrefix(resolve, ts);
    if k == |ts| then Rendered(out + ExpandAll(resolve, ts))
    else
      WidthOfPrefix(ts, k);
      FailAt(src, file, resolve, ts[k], i + WidthAll(ts[..k]))
  }

  /** The failure of a bad reference found at `pos`. */
  function FailAt(src: string, file: string, resolve: Resolver, t: Token, pos: nat): Rendering
    requires pos <= |src| && !Good(resolve, t)
  {
    Failed(RenderError(file, 1 + Newlines(src[..pos]), Column(src[..pos]), t.raw, resolve(t.raw).reason))
  }

  /** What rendering `src` means. */
  function Denotation(src: string, file: string, resolve: Resolver): Rendering {
    DenoteTokens(src, file, resolve, Tokens(src), 0, "")
  }

  /** The same, token by token. */
  function RenderFrom(src: string, file: string, resolve: Resolver, i: nat, out: string): Rendering
    requires i <= |src|
    decreases |src| - i
  {
    if i == |src| then Rendered(out)
    else
      var t := TokenAt(src, i);
      if Good(resolve, t) then RenderFrom(src, file, resolve, i + Width(t), out + Expand(resolve, t))
      else FailAt(src, file, resolve, t, i)
  }

  lemma Assoc<T>(a: seq<T>, b: seq<T>, c: seq<T>)
    ensures (a + b) + c == a + (b + c)
  {
  }

  /** Denoting a good token and those behind it. */
  lemma DenoteTail(src: string, file: string, resolve: Resolver, ts: seq<Token>, i: nat, out: string)
    requires ts != [] && Good(resolve, ts[0]) && i + WidthAll(ts) <= |src|
    ensures WidthAll(ts) == Width(ts[0]) + WidthAll(ts[1..])
    ensures DenoteTokens(src, file, resolve, ts, i, out)
            == DenoteTokens(src, file, resolve, ts[1..], i + Width(ts[0]), out + Expand(resolve, ts[0]))
  {
    var k := GoodPrefix(resolve, ts);
    if k == |ts| {
      Assoc(out, Expand(resolve, ts[0]), ExpandAll(resolve, ts[1..]));
    } else {
      WidthOfPrefix(ts[1..], k - 1);
      PrefixWidth(ts, k);
    }
  }

  lemma {:induction false} RenderFromIsDenotation(src: string, file: string, resolve: Resolver, i: nat, out: string)
    requires i <= |src|
    ensures RenderFrom(src, file, resolve, i, out) == DenoteTokens(src, file, resolve, TokensFrom(src, i), i, out)
    decreases |src| - i
  {
    if i < |src| {
      var t := TokenAt(src, i);
      HeadAndTail(src, i);
      if Good(resolve, t) {
        RenderFromIsDenotation(src, file, resolve, i + Width(t), out + Expand(resolve, t));
        DenoteTail(src, file, resolve, TokensFrom(src, i), i, out);
      } else {
        assert TokensFrom(src, i)[..0] == [];
      }
    } else {
      assert out + [] == out;
    }
  }

  // ------------------------------------------------------------------- the scanner

  /** The bookkeeping of one consumed byte. */
  function Advance(line: nat, col: nat, b: char): (nat, nat) {
    if b == '\n' then (line + 1, 1) else (line, col + 1)
  }

  /** `line` and `col` are those of the position right after `s`. */
  predicate Tracks(s: string, line: nat, col: nat) { line == 1 + Newlines(s) && col == Column(s) }

  lemma TrackByte(s: string, b: char)
    ensures Newlines(s + [b]) == Newlines(s) + if b == '\n' then 1 else 0
    ensures Column(s + [b]) == if b == '\n' then 1 else Column(s) + 1
  {
    assert (s + [b])[..|s + [b]| - 1] == s;
  }

  /** The token at `i` is the reference whose closing is at `refEnd`. */
  ghost predicate IsRef(src: string, i: nat, refEnd: int) {
    i + 2 <= refEnd < |src| - 1 && TokenAt(src, i) == Ref(src[i + 2..refEnd])
  }

  /** The inner search for the closing of a reference opened at `i`. */
  method FindClose(src: string, i: nat) returns (refEnd: int)
    requires OpenAt(src, i)
    ensures refEnd < 0 ==> !StartsRef(src, i)
    ensures refEnd >= 0 ==> IsRef(src, i, refEnd)
  {
    refEnd := -1;
    var j := i + 2;
    while j + 1 < |src|
      invariant i + 2 <= j <= |src| && FirstClose(src, i + 2) == FirstClose(src, j)
    {
      if src[j] == '}' && src[j + 1] == '}' {
        return j;
      }
      j := j + 1;
    }
  }

  /** Line and column after the consumed bytes src[i..n]. */
  method Consume(src: string, i: nat, n: nat, line: nat, col: nat) returns (line': nat, col': nat)
    requires i <= n <= |src| && Tracks(src[..i], line, col)
    ensures Tracks(src[..n], line', col')
  {
    line', col' := line, col;
    for k := i to n
      invariant Tracks(src[..k], line', col')
    {
      TrackByte(src[..k], src[k]);
      assert src[..k + 1] == src[..k] + [src[k]];
      var next := Advance(line', col', src[k]);
      line', col' := next.0, next.1;
    }
  }

  /** The scanner, for any way of finding replacements, equals the denotation, errors and positions included. */
  method Scan(src: string, file: string, resolve: Resolver) returns (r: Rendering)
    ensures r == Denotation(src, file, resolve)
  {
    RenderFromIsDenotation(src, file, resolve, 0, "");
    var out := "";
    var line, col := 1, 1;
    var i := 0;
    while i < |src|
      invariant i <= |src| && Tracks(src[..i], line, col)
      invariant RenderFrom(src, file, resolve, 0, "") == RenderFrom(src, file, resolve, i, out)
    {
      if i + 1 < |src| && src[i] == '{' && src[i + 1] == '{' {
        var refEnd := FindClose(src, i);
        if refEnd >= 0 {
          var rawRef := src[i + 2..refEnd];
          var lookup := resolve(rawRef);
          if lookup.NotFound? {
            return Failed(RenderError(file, line, col, rawRef, lookup.reason));
          }
          out := out + lookup.value;
          line, col := Consume(src, i, refEnd + 2, line, col);
          i := refEnd + 2;
          continue;
        }
      }
      out := out + [src[i]];
      line, col := Consume(src, i, i + 1, line, col);
      i := i + 1;
    }
    return Rendered(out);
  }

  // ------------------------------------------------ what the denotation promises

  /** Where an error is: `pos` bytes into the source, at the start of the bad reference. */
  ghost predicate ErrorAt(src: string, resolve: Resolver, e: RenderError, pos: nat) {
    && pos < |src| && FitsAt(Ref(e.reference), src, pos)
    && resolve(e.reference) == NotFound(e.reason)
    && e.line == 1 + multiset(src[..pos])['\n']
    && LineOffset(src, pos, e.column)
  }

  /** `column` is the offset of `pos`, from 1, after the last newline before it. */
  ghost predicate LineOffset(src: string, pos: nat, column: nat)
    requires pos <= |src|
  {
    && 1 <= column <= pos + 1
    && (column <= pos ==> src[pos - column] == '\n')
    && forall j :: pos - column < j < pos ==> src[j] != '\n'
  }

  lemma {:induction false} NewlinesAreCounted(s: string)
    ensures Newlines(s) == multiset(s)['\n']
  {
    if s != [] {
      var (front, last) := (s[..|s| - 1], s[|s| - 1]);
      NewlinesAreCounted(front);
      assert s == front + [last];
    }
  }

  lemma {:induction false} ColumnIsOffset(src: string, pos: nat)
    requires pos <= |src|
    ensures LineOffset(src, pos, Column(src[..pos]))
  {
    if pos > 0 && src[pos - 1] != '\n' {
      assert src[..pos][..pos - 1] == src[..pos - 1];
      ColumnIsOffset(src, pos - 1);
    }
  }

  /**
   On failure the error is the first bad reference: every reference before it resolves,
   and line and column are those of its opening, whatever earlier references span.
   */
  lemma FailureIsFirstBadReference(src: string, file: string, resolve: Resolver)
    requires Denotation(src, file, resolve).Failed?
    ensures var k := GoodPrefix(resolve, Tokens(src));
            && k < |Tokens(src)| && AllGood(resolve, Tokens(src)[..k])
            && ErrorAt(src, resolve, Denotation(src, file, resolve).error, WidthAll(Tokens(src)[..k]))
  {
    var k := GoodPrefix(resolve, Tokens(src));
    PrefixIsGood(resolve, Tokens(src));
    TokensSplit(src, 0, k);
    var pos := WidthAll(Tokens(src)[..k]);
    assert Tokens(src)[k..][0] == TokensFrom(src, pos)[0];
    TokenAtFits(src, pos);
    ColumnIsOffset(src, pos);
    NewlinesAreCounted(src[..pos]);
  }

  /** It succeeds exactly when every reference of the source resolves. */
  lemma SucceedsIffAllResolve(src: string, file: string, resolve: Resolver)
    ensures Denotation(src, file, resolve).Rendered? <==> AllGood(resolve, Tokens(src))
    ensures AllGood(resolve, Tokens(src)) ==>
              Denotation(src, file, resolve) == Rendered(ExpandAll(resolve, Tokens(src)))
  {
    var ts := Tokens(src);
    PrefixIsGood(resolve, ts);
    assert ts[..|ts|] == ts && "" + ExpandAll(resolve, ts) == ExpandAll(resolve, ts);
  }

  function Lits(s: string): seq<Token> { seq(|s|, i requires 0 <= i < |s| => Lit(s[i])) }

  /** Where no closing follows, every byte stands alone. */
  lemma {:induction false} NoCloseIsVerbatim(s: string, i: nat)
    requires i <= |s| && NoClose(s, i + 2, |s|)
    ensures TokensFrom(s, i) == Lits(s[i..])
    decreases |s| - i
  {
    if i < |s| {
      FittingIsForced(Lit(s[i]), s, i);
      NoCloseIsVerbatim(s, i + 1);
      assert Lits(s[i..]) == [Lit(s[i])] + Lits(s[i + 1..]);
    }
  }

  lemma {:induction false} LitsExpandToThemselves(s: string, resolve: Resolver)
    ensures AllGood(resolve, Lits(s)) && ExpandAll(resolve, Lits(s)) == s
  {
    if s != [] {
      LitsExpandToThemselves(s[1..], resolve);
      assert Lits(s)[1..] == Lits(s[1..]);
    }
  }

  lemma {:induction false} ExpandConcat(resolve: Resolver, a: seq<Token>, b: seq<Token>)
    ensures ExpandAll(resolve, a + b) == ExpandAll(resolve, a) + ExpandAll(resolve, b)
  {
    if a == [] {
      assert a + b == b;
    } else {
      ExpandConcat(resolve, a[1..], b);
      assert (a + b)[1..] == a[1..] + b;
      Assoc(Expand(resolve, a[0]), ExpandAll(resolve, a[1..]), ExpandAll(resolve, b));
    }
  }

  /** The tokens from a place after which nothing is closed resolve, to the rest of the source. */
  lemma NoCloseExpands(src: string, i: nat, rest: seq<Token>, resolve: Resolver)
    requires i <= |src| && NoClose(src, i + 2, |src|) && rest == TokensFrom(src, i)
    ensures AllGood(resolve, rest) && ExpandAll(resolve, rest) == src[i..]
  {
    NoCloseIsVerbatim(src, i);
    LitsExpandToThemselves(src[i..], resolve);
  }

  lemma SplitExpands(resolve: Resolver, ts: seq<Token>, k: nat, tail: string)
    requires k <= |ts| && AllGood(resolve, ts[..k]) && AllGood(resolve, ts[k..])
    requires ExpandAll(resolve, ts[k..]) == tail
    ensures AllGood(resolve, ts) && ExpandAll(resolve, ts) == ExpandAll(resolve, ts[..k]) + tail
  {
    assert ts == ts[..k] + ts[k..];
    ExpandConcat(resolve, ts[..k], ts[k..]);
    GoodConcat(resolve, ts, k);
  }

  lemma GoodConcat(resolve: Resolver, ts: seq<Token>, k: nat)
    requires k <= |ts| && AllGood(resolve, ts[..k]) && AllGood(resolve, ts[k..])
    ensures AllGood(resolve, ts)
  {
    forall j | 0 <= j < |ts| ensures Good(resolve, ts[j]) {
      assert j < k ==> ts[j] == ts[..k][j];
      assert j >= k ==> ts[j] == ts[k..][j - k];
    }
  }

  /**
   From a token boundary after which no reference is closed, such as an unterminated
   opening, the rest of the source is copied byte for byte.
   */
  lemma UnterminatedIsVerbatim(src: string, file: string, resolve: Resolver, k: nat)
    requires k <= |Tokens(src)| && AllGood(resolve, Tokens(src)[..k])
    requires NoClose(src, WidthAll(Tokens(src)[..k]) + 2, |src|)
    ensures WidthAll(Tokens(src)[..k]) <= |src|
    ensures Denotation(src, file, resolve)
            == Rendered(ExpandAll(resolve, Tokens(src)[..k]) + src[WidthAll(Tokens(src)[..k])..])
  {
    var (ts, i) := (Tokens(src), WidthAll(Tokens(src)[..k]));
    TokensSplit(src, 0, k);
    NoCloseExpands(src, i, ts[k..], resolve);
    SplitExpands(resolve, ts, k, src[i..]);
    SucceedsIffAllResolve(src, file, resolve);
  }

  // ------------------------------------------------------------------- size bound

  function Max(a: nat, b: nat): nat { if a < b then b else a }

  /** A reference that resolves takes at least five bytes of source. */
  ghost predicate NamesAreNotEmpty(resolve: Resolver) {
    forall raw :: resolve(raw).Found? ==> raw != ""
  }

  ghost predicate ReplacementsAtMost(resolve: Resolver, m: nat) {
    forall raw :: resolve(raw).Found? ==> |resolve(raw).value| <= m
  }

  /** `x` is at most `k` fifths of `a`. */
  ghost predicate Fifths(x: nat, a: nat, k: nat) { 5 * x <= a * k }

  lemma TokenSize(resolve: Resolver, t: Token, m: nat)
    requires NamesAreNotEmpty(resolve) && ReplacementsAtMost(resolve, m) && Good(resolve, t)
    ensures Fifths(|Expand(resolve, t)|, Width(t), Max(5, m))
  {
    if t.Ref? {
      assert Width(t) >= 5 && |Expand(resolve, t)| <= Max(5, m);
      assert (Width(t) - 5) * Max(5, m) >= 0;
    }
  }

  lemma AddFifths(x: nat, a: nat, y: nat, b: nat, k: nat)
    requires Fifths(x, a, k) && Fifths(y, b, k)
    ensures Fifths(x + y, a + b, k)
  {
  }

  lemma {:induction false} TokensSize(resolve: Resolver, ts: seq<Token>, k: nat)
    requires forall i :: 0 <= i < |ts| ==> Fifths(|Expand(resolve, ts[i])|, Width(ts[i]), k)
    ensures Fifths(|ExpandAll(resolve, ts)|, WidthAll(ts), k)
  {
    if ts != [] {
      TokensSize(resolve, ts[1..], k);
      AddFifths(|Expand(resolve, ts[0])|, Width(ts[0]), |ExpandAll(resolve, ts[1..])|, WidthAll(ts[1..]), k);
    }
  }

  /** The rendered size is at most max(5, m) fifths of the source. */
  lemma RenderedSize(src: string, file: string, resolve: Resolver, m: nat)
    requires NamesAreNotEmpty(resolve) && ReplacementsAtMost(resolve, m)
    requires Denotation(src, file, resolve).Rendered?
    ensures 5 * |Denotation(src, file, resolve).text| <= |src| * Max(5, m)
  {
    var (ts, text) := (Tokens(src), Denotation(src, file, resolve).text);
    assert AllGood(resolve, ts) && text == ExpandAll(resolve, ts) by {
      SucceedsIffAllResolve(src, file, resolve);
    }
    forall i | 0 <= i < |ts| ensures Fifths(|Expand(resolve, ts[i])|, Width(ts[i]), Max(5, m)) {
      TokenSize(resolve, ts[i], m);
    }
    TokensSize(resolve, ts, Max(5, m));
  }

  /** `n` copies of the shortest reference. */
  function ShortestRefs(n: nat): (s: string)
    ensures |s| == 5 * n
  {
    if n == 0 then "" else "{{a}}" + ShortestRefs(n - 1)
  }

  lemma {:induction false} ShortestHasRef(n: nat, k: nat)
    requires k < n
    ensures ShortestRefs(n)[5 * k..5 * k + 5] == "{{a}}"
  {
    if k > 0 {
      ShortestHasRef(n - 1, k - 1);
      assert ShortestRefs(n)[5 * k..5 * k + 5] == ShortestRefs(n - 1)[5 * (k - 1)..5 * (k - 1) + 5];
    }
  }

  function Repeat(t: Token, n: nat): seq<Token> { seq(n, i => t) }

  lemma RepeatMore(t: Token, n: nat)
    requires n > 0
    ensures Repeat(t, n) == [t] + Repeat(t, n - 1) && Repeat(t, n)[1..] == Repeat(t, n - 1)
  {
  }

  lemma ShortestFits(n: nat, k: nat)
    requires k < n
    ensures FitsAt(Ref("a"), ShortestRefs(n), 5 * k)
  {
    var (s, i) := (ShortestRefs(n), 5 * k);
    ShortestHasRef(n, k);
    var five := s[i..i + 5];
    assert five[0] == s[i] && five[1] == s[i + 1] && five[2] == s[i + 2] && five[3] == s[i + 3] && five[4] == s[i + 4];
    assert s[i] == s[i + 1] == '{' && s[i + 2] == 'a' && s[i + 3] == s[i + 4] == '}';
    assert s[i + 2..i + 3] == "a" && !CloseAt(s, i + 2);
  }

  lemma {:induction false} ShortestTokenises(n: nat, k: nat)
    requires k <= n
    ensures TokenisesFrom(Repeat(Ref("a"), n - k), ShortestRefs(n), 5 * k)
    decreases n - k
  {
    if k < n {
      ShortestTokenises(n, k + 1);
      RepeatMore(Ref("a"), n - k);
      ShortestFits(n, k);
    }
  }

  lemma {:induction false} ExpandRepeat(resolve: Resolver, t: Token, n: nat)
    ensures |ExpandAll(resolve, Repeat(t, n))| == n * |Expand(resolve, t)|
  {
    if n > 0 {
      ExpandRepeat(resolve, t, n - 1);
      RepeatMore(t, n);
      TimesMore(n, |Expand(resolve, t)|);
    }
  }

  /** The bound is attained by every number of shortest references. */
  lemma SizeBoundIsTight(n: nat, file: string, resolve: Resolver)
    requires resolve("a").Found?
    ensures Denotation(ShortestRefs(n), file, resolve).Rendered?
    ensures |Denotation(ShortestRefs(n), file, resolve).text| == n * |resolve("a").value|
  {
    ShortestTokenises(n, 0);
    TokenisationIsUnique(Repeat(Ref("a"), n), ShortestRefs(n), 0);
    ExpandRepeat(resolve, Ref("a"), n);
    assert AllGood(resolve, Repeat(Ref("a"), n));
    SucceedsIffAllResolve(ShortestRefs(n), file, resolve);
  }
}

/**
 Reading a card's comment history (internal/app/trelloclient/client.go): the cursor
 walk of fetchCommentActions against an unseen server, and the in-place insertion sort
 of ListCommentsSince.
 */
module Comments {
  import opened Common

  /** A decoded comment; `at` is its instant. */
  datatype Comment = Comment(id: string, text: string, author: string, at: int)

  const COMMENTS_PER_PAGE: nat := 1000
  const COMMENTS_HARD_CAP: nat := 5000

  /** The instant Go calls the zero time. */
  const ZERO_TIME: int := 0

  // ------------------------------------------------------------------ the server

  /** One response: a failed request, or the rows of a page, None where decoding fails. */
  datatype Response = HttpError | Page(rows: seq<Option<Comment>>)

  /** What the server answers to its n-th request with the given `before` cursor. */
  type Server = (nat, string) -> Response

  ghost predicate NeverFails(server: Server) { forall n, before :: server(n, before).Page? }

  /** A row of the card's history: every action has an id, only some decode. */
  datatype Row = Row(id: string, comment: Option<Comment>)

  /** Newest first, with unique non-empty ids that the decoded comments carry. */
  ghost predicate History(rows: seq<Row>) {
    && (forall i :: 0 <= i < |rows| ==> rows[i].id != "")
    && (forall i :: 0 <= i < |rows| && rows[i].comment.Some? ==> rows[i].comment.value.id == rows[i].id)
    && (forall i, j :: 0 <= i < j < |rows| ==> rows[i].id != rows[j].id)
  }

  function Min(a: nat, b: nat): nat { if a < b then a else b }

  function Decoded(rows: seq<Row>): seq<Option<Comment>> {
    seq(|rows|, i requires 0 <= i < |rows| => rows[i].comment)
  }

  /** Requests may fail; otherwise a page is what follows the cursor, at most 1000 rows. */
  ghost predicate Serves(server: Server, rows: seq<Row>) {
    && History(rows)
    && (forall n :: server(n, "").Page? ==> server(n, "").rows == PageFrom(rows, 0))
    && (forall n, i :: 0 <= i < |rows| && server(n, rows[i].id).Page? ==>
                         server(n, rows[i].id).rows == PageFrom(rows, i + 1))
  }

  function PageFrom(rows: seq<Row>, start: nat): seq<Option<Comment>>
    requires start <= |rows|
  {
    Decoded(rows[start..Min(|rows|, start + COMMENTS_PER_PAGE)])
  }

  /** The comments among the rows, in order. */
  function Decodable(rows: seq<Option<Comment>>): seq<Comment> {
    if rows == [] then []
    else Decodable(rows[..|rows| - 1]) + if rows[|rows| - 1].Some? then [rows[|rows| - 1].value] else []
  }

  function CommentsIn(rows: seq<Row>): seq<Comment> {
    Decodable(Decoded(rows))
  }

  lemma {:induction false} DecodableConcat(a: seq<Option<Comment>>, b: seq<Option<Comment>>)
    ensures Decodable(a + b) == Decodable(a) + Decodable(b)
  {
    if b == [] {
      assert a + b == a;
    } else {
      DecodableConcat(a, b[..|b| - 1]);
      assert (a + b)[..|a + b| - 1] == a + b[..|b| - 1];
    }
  }

  lemma {:induction false} NothingDecodable(rows: seq<Option<Comment>>)
    requires forall i :: 0 <= i < |rows| ==> rows[i].None?
    ensures Decodable(rows) == []
  {
    if rows != [] {
      NothingDecodable(rows[..|rows| - 1]);
    }
  }

  lemma {:induction false} DecodableLength(rows: seq<Option<Comment>>)
    ensures |Decodable(rows)| <= |rows|
  {
    if rows != [] {
      DecodableLength(rows[..|rows| - 1]);
    }
  }

  /** The comments of a longer stretch are those of its two parts. */
  lemma CommentsSplit(rows: seq<Row>, i: nat, j: nat)
    requires i <= j <= |rows|
    ensures CommentsIn(rows[..j]) == CommentsIn(rows[..i]) + CommentsIn(rows[i..j])
  {
    assert Decoded(rows[..j]) == Decoded(rows[..i]) + Decoded(rows[i..j]);
    DecodableConcat(Decoded(rows[..i]), Decoded(rows[i..j]));
  }

  /** All 1000 rows that end at `end` are malformed. */
  ghost predicate MalformedPage(rows: seq<Row>, end: nat) {
    COMMENTS_PER_PAGE <= end <= |rows|
    && forall i :: end - COMMENTS_PER_PAGE <= i < end ==> rows[i].comment.None?
  }

  // ---------------------------------------------------------- fetchCommentActions

  /** Why the walk ended; the source logs the last two. */
  datatype Exit = RequestFailed | EmptyPage | FirstPageOnly | ShortPage | Truncated | Stalled

  /**
   The cursor stands right before row `start`; rows from there up to `fetched`, read
   already, hold no comment, so reading them again adds nothing.
   */
  ghost predicate AtCursor(history: seq<Row>, before: string, start: nat, fetched: nat, out: seq<Comment>) {
    && start <= |history| && fetched <= |history|
    && (before == "" ==> start == 0) && (before != "" ==> start > 0 && history[start - 1].id == before)
    && out == CommentsIn(history[..start]) && out == CommentsIn(history[..fetched])
  }

  /** The last row of the page that decoded is `last`; when none did, `lastID` is empty. */
  ghost predicate LastDecoded(raw: seq<Option<Comment>>, lastID: string, last: nat) {
    if lastID == "" then
      (forall k :: 0 <= k < |raw| && raw[k].Some? ==> raw[k].value.id != "") ==>
        forall k :: 0 <= k < |raw| ==> raw[k].None?
    else
      && last < |raw| && raw[last].Some? && raw[last].value.id == lastID
      && forall k :: last < k < |raw| ==> raw[k].None?
  }

  function PageEnd(history: seq<Row>, start: nat): nat { Min(|history|, start + COMMENTS_PER_PAGE) }

  // ------------------------------------------------ the pages, by the rows alone

  /** Where the page after one that ends at `end` starts: behind its last row that decodes. */
  function NextStart(history: seq<Row>, start: nat, end: nat): (next: nat)
    requires start <= end <= |history|
    ensures start <= next <= end
  {
    if end == start || history[end - 1].comment.Some? then end else NextStart(history, start, end - 1)
  }

  lemma {:induction false} NextStartSplits(history: seq<Row>, start: nat, end: nat)
    requires start <= end <= |history|
    ensures var next := NextStart(history, start, end);
            && (next > start ==> history[next - 1].comment.Some?)
            && forall i :: next <= i < end ==> history[i].comment.None?
  {
    if end > start && history[end - 1].comment.None? {
      NextStartSplits(history, start, end - 1);
    }
  }

  /** Where page `n` of an unbounded walk starts, and where it ends. */
  function PageStart(history: seq<Row>, n: nat): (start: nat)
    ensures start <= |history|
  {
    if n == 0 then 0 else NextStart(history, PageStart(history, n - 1), PageEnd(history, PageStart(history, n - 1)))
  }

  function PageBound(history: seq<Row>, n: nat): (end: nat)
    ensures PageStart(history, n) <= end <= |history|
  {
    PageEnd(history, PageStart(history, n))
  }

  /** How many comments the rows up to the end of page `n` hold. */
  function CommentsUpTo(history: seq<Row>, n: nat): nat { |CommentsIn(history[..PageBound(history, n)])| }

  function RowsOn(history: seq<Row>, n: nat): nat { PageBound(history, n) - PageStart(history, n) }

  /** A full page of which no row decodes: the next one would start where it does. */
  predicate StallsAt(history: seq<Row>, n: nat) {
    RowsOn(history, n) == COMMENTS_PER_PAGE && PageStart(history, n + 1) == PageStart(history, n)
  }

  predicate StopsAt(history: seq<Row>, n: nat) {
    CommentsUpTo(history, n) >= COMMENTS_HARD_CAP || RowsOn(history, n) < COMMENTS_PER_PAGE || StallsAt(history, n)
  }

  ghost predicate NoStopBefore(history: seq<Row>, n: nat) { forall m: nat :: m < n ==> !StopsAt(history, m) }

  /** A walk whose requests succeed, in full: it ends with the first page that stops it. */
  ghost predicate WalkIs(history: seq<Row>, out: seq<Comment>, exit: Exit, n: nat) {
    && NoStopBefore(history, n) && StopsAt(history, n)
    && out == CommentsIn(history[..PageBound(history, n)])
    && exit == if RowsOn(history, n) == 0 then EmptyPage
               else if CommentsUpTo(history, n) >= COMMENTS_HARD_CAP then Truncated
               else if RowsOn(history, n) < COMMENTS_PER_PAGE then ShortPage
               else Stalled
  }

  /** The cursor that the last decoded id gives is where the next page starts. */
  lemma NextStartIs(history: seq<Row>, start: nat, end: nat, raw: seq<Option<Comment>>, lastID: string, last: nat)
    requires History(history) && start <= end <= |history| && |raw| == end - start
    requires forall k :: 0 <= k < |raw| ==> raw[k] == history[start + k].comment
    requires LastDecoded(raw, lastID, last)
    ensures NextStart(history, start, end) == if lastID == "" then start else start + last + 1
  {
    var next := NextStart(history, start, end);
    NextStartSplits(history, start, end);
    assert forall i :: 0 <= i < |history| && history[i].comment.Some? ==> history[i].comment.value.id != "";
    assert next > start ==> raw[next - 1 - start].Some?;
    if lastID != "" {
      assert history[start + last].comment.Some?;
    }
  }

  /** Having read page `n`: the walk ends here, for the reason it gives, or goes on with page `n + 1`. */
  ghost predicate PageDecides(history: seq<Row>, raw: seq<Option<Comment>>, out: seq<Comment>, lastID: string,
                              next: nat, n: nat) {
    if |raw| == 0 then WalkIs(history, out, EmptyPage, n)
    else if |out| >= COMMENTS_HARD_CAP then WalkIs(history, out, Truncated, n)
    else if |raw| < COMMENTS_PER_PAGE then WalkIs(history, out, ShortPage, n)
    else if lastID == "" then WalkIs(history, out, Stalled, n)
    else AtPage(history, lastID, next, PageBound(history, n), out, n + 1)
  }

  /** The cursor stands before page `n`, and no page so far has stopped the walk. */
  ghost predicate AtPage(history: seq<Row>, before: string, start: nat, fetched: nat, out: seq<Comment>, n: nat) {
    AtCursor(history, before, start, fetched, out) && start == PageStart(history, n) && NoStopBefore(history, n)
  }

  /** What a served page holds, and what reading it amounts to. */
  lemma PageAtCursor(server: Server, history: seq<Row>, n: nat, before: string, start: nat, fetched: nat,
                     out: seq<Comment>)
    requires Serves(server, history) && AtCursor(history, before, start, fetched, out)
    requires server(n, before).Page?
    ensures var raw := server(n, before).rows; var end := PageEnd(history, start);
            && start <= end && raw == Decoded(history[start..end])
            && (forall k :: 0 <= k < |raw| ==> raw[k] == history[start + k].comment)
            && out + Decodable(raw) == CommentsIn(history[..end])
            && (|raw| < COMMENTS_PER_PAGE ==> end == |history|)
            && |raw| <= COMMENTS_PER_PAGE
  {
    if before != "" {
      assert server(n, history[start - 1].id).Page?;
    }
    CommentsSplit(history, start, PageEnd(history, start));
  }

  /** Moving the cursor to the last decoded row of the page. */
  lemma AdvanceCursor(history: seq<Row>, start: nat, raw: seq<Option<Comment>>, lastID: string, last: nat,
                      out: seq<Comment>)
    requires History(history) && start + |raw| <= |history|
    requires raw == Decoded(history[start..start + |raw|])
    requires lastID != "" && LastDecoded(raw, lastID, last)
    requires out == CommentsIn(history[..start + |raw|])
    ensures AtCursor(history, lastID, start + last + 1, start + |raw|, out)
  {
    var (next, end) := (start + last + 1, start + |raw|);
    assert history[start + last].comment == raw[last];
    forall k | 0 <= k < |Decoded(history[next..end])| ensures Decoded(history[next..end])[k].None? {
      assert Decoded(history[next..end])[k] == raw[last + 1 + k];
    }
    NothingDecodable(Decoded(history[next..end]));
    CommentsSplit(history, next, end);
  }

  /**
   What the walk promises against a served history: the comments of exactly the rows
   covered, which is the first page if it does not paginate; all rows when a page came
   back short or empty; a truncated walk holds between 5000 and 5999 comments; a stalled
   one ran into a page without any comment.
   */
  ghost predicate WalkResult(history: seq<Row>, paginate: bool, out: seq<Comment>, exit: Exit, fetched: nat) {
    && fetched <= |history| && out == CommentsIn(history[..fetched])
    && (!paginate ==> fetched == PageEnd(history, 0))
    && match exit
       case RequestFailed => false
       case EmptyPage => fetched == |history|
       case ShortPage => fetched == |history|
       case FirstPageOnly => !paginate
       case Truncated => COMMENTS_HARD_CAP <= |out| < COMMENTS_HARD_CAP + COMMENTS_PER_PAGE
       case Stalled => MalformedPage(history, fetched)
  }

  lemma PageStops(history: seq<Row>, n: nat, raw: seq<Option<Comment>>, out: seq<Comment>, lastID: string, next: nat)
    requires NoStopBefore(history, n) && |raw| == RowsOn(history, n) <= COMMENTS_PER_PAGE
    requires out == CommentsIn(history[..PageBound(history, n)])
    requires PageStart(history, n + 1) == if lastID == "" then PageStart(history, n) else next
    requires lastID != "" ==> AtCursor(history, lastID, next, PageBound(history, n), out)
    requires lastID != "" ==> next > PageStart(history, n)
    requires |raw| == 0 ==> |out| < COMMENTS_HARD_CAP
    ensures PageDecides(history, raw, out, lastID, next, n)
  {
  }

  /** What reading the page at the cursor amounts to. */
  lemma PageHolds(server: Server, history: seq<Row>, n: nat, before: string, start: nat, fetched: nat,
                  prior: seq<Comment>, out: seq<Comment>)
    requires Serves(server, history) && AtCursor(history, before, start, fetched, prior)
    requires start == PageStart(history, n) && server(n, before).Page?
    requires out == prior + Decodable(server(n, before).rows)
    ensures out == CommentsIn(history[..PageBound(history, n)])
    ensures server(n, before).rows == Decoded(history[start..PageBound(history, n)])
    ensures |server(n, before).rows| == RowsOn(history, n)
    ensures |server(n, before).rows| == 0 ==> out == prior
  {
    var raw := server(n, before).rows;
    PageAtCursor(server, history, n, before, start, fetched, prior);
    assert |raw| == 0 ==> Decodable(raw) == [];
  }

  /** Where the cursor goes after the page. */
  lemma PageMoves(history: seq<Row>, n: nat, raw: seq<Option<Comment>>, out: seq<Comment>, lastID: string, last: nat)
    requires History(history) && LastDecoded(raw, lastID, last)
    requires out == CommentsIn(history[..PageBound(history, n)])
    requires raw == Decoded(history[PageStart(history, n)..PageBound(history, n)])
    ensures var next := PageStart(history, n) + last + 1;
            && PageStart(history, n + 1) == (if lastID == "" then PageStart(history, n) else next)
            && (lastID != "" ==> AtCursor(history, lastID, next, PageBound(history, n), out))
  {
    var (start, end) := (PageStart(history, n), PageBound(history, n));
    assert forall k :: 0 <= k < |raw| ==> raw[k] == history[start + k].comment;
    NextStartIs(history, start, end, raw, lastID, last);
    if lastID != "" {
      AdvanceCursor(history, start, raw, lastID, last, out);
    }
  }

  /** One page read from the cursor. */
  lemma PageOfWalk(server: Server, history: seq<Row>, n: nat, before: string, start: nat, fetched: nat,
                   prior: seq<Comment>, out: seq<Comment>, lastID: string, last: nat)
    requires Serves(server, history) && AtPage(history, before, start, fetched, prior, n)
    requires server(n, before).Page? && |prior| < COMMENTS_HARD_CAP
    requires out == prior + Decodable(server(n, before).rows) && LastDecoded(server(n, before).rows, lastID, last)
    ensures out == CommentsIn(history[..PageBound(history, n)])
    ensures |server(n, before).rows| == RowsOn(history, n)
    ensures PageDecides(history, server(n, before).rows, out, lastID, start + last + 1, n)
  {
    PageHolds(server, history, n, before, start, fetched, prior, out);
    PageMoves(history, n, server(n, before).rows, out, lastID, last);
    PageStops(history, n, server(n, before).rows, out, lastID, start + last + 1);
  }

  lemma {:induction false} BoundsGrow(history: seq<Row>, m: nat, n: nat)
    requires m <= n
    ensures PageStart(history, m) <= PageStart(history, n) && PageBound(history, m) <= PageBound(history, n)
    ensures CommentsUpTo(history, m) <= CommentsUpTo(history, n)
    decreases n
  {
    if m < n {
      BoundsGrow(history, m, n - 1);
    }
    CommentsSplit(history, PageBound(history, m), PageBound(history, n));
  }

  /** A page adds at most 1000 comments to those before it. */
  lemma PageAdds(history: seq<Row>, n: nat)
    requires n > 0
    ensures CommentsUpTo(history, n) <= CommentsUpTo(history, n - 1) + COMMENTS_PER_PAGE
  {
    var (start, end) := (PageStart(history, n), PageBound(history, n));
    CommentsSplit(history, start, end);
    CommentsSplit(history, start, PageBound(history, n - 1));
    DecodableLength(Decoded(history[start..end]));
  }

  /** What the first page that stops a walk means for its result. */
  lemma WalkIsResult(history: seq<Row>, out: seq<Comment>, exit: Exit, n: nat)
    requires WalkIs(history, out, exit, n)
    ensures WalkResult(history, true, out, exit, PageBound(history, n))
  {
    if exit.Truncated? {
      if n > 0 {
        PageAdds(history, n);
        assert !StopsAt(history, n - 1);
      } else {
        DecodableLength(Decoded(history[..PageBound(history, 0)]));
      }
    }
    NextStartSplits(history, PageStart(history, n), PageBound(history, n));
  }

  /** A walk of one page. */
  lemma OnePageResult(history: seq<Row>, out: seq<Comment>, exit: Exit)
    requires out == CommentsIn(history[..PageBound(history, 0)])
    requires exit == if RowsOn(history, 0) == 0 then EmptyPage else FirstPageOnly
    ensures WalkResult(history, false, out, exit, PageBound(history, 0))
  {
  }

  /** The loop over the rows of one page: append what decodes, remember the last id. */
  method ReadPage(raw: seq<Option<Comment>>, prior: seq<Comment>)
    returns (out: seq<Comment>, lastID: string, ghost last: nat)
    ensures out == prior + Decodable(raw)
    ensures LastDecoded(raw, lastID, last)
    ensures lastID != "" ==> |prior| < |out|
  {
    out, lastID, last := prior, "", 0;
    for i := 0 to |raw|
      invariant out == prior + Decodable(raw[..i])
      invariant LastDecoded(raw[..i], lastID, last)
      invariant lastID != "" ==> |prior| < |out|
    {
      assert raw[..i + 1][..i] == raw[..i];
      if raw[i].Some? {
        out := out + [raw[i].value];
        lastID, last := raw[i].value.id, i;
      }
    }
    assert raw[..|raw|] == raw;
  }

  /** A walk that ended with page `n`, for what its exit says and, if it paginates, on the first page that stops it. */
  ghost predicate EndsAs(history: seq<Row>, paginate: bool, out: seq<Comment>, exit: Exit, n: nat, fetched: nat) {
    && fetched == PageBound(history, n) && WalkResult(history, paginate, out, exit, fetched)
    && (paginate ==> WalkIs(history, out, exit, n))
  }

  /** Why a walk ends after a page of so many rows, having so many comments; None when it goes on. */
  function Verdict(paginate: bool, rows: nat, comments: nat, lastID: string): Option<Exit> {
    if rows == 0 then Some(EmptyPage)
    else if !paginate then Some(FirstPageOnly)
    else if comments >= COMMENTS_HARD_CAP then Some(Truncated)
    else if rows < COMMENTS_PER_PAGE then Some(ShortPage)
    else if lastID == "" then Some(Stalled)
    else None
  }

  ghost predicate Passed(history: seq<Row>, paginate: bool, out: seq<Comment>, lastID: string, next: nat, n: nat,
                         verdict: Option<Exit>) {
    match verdict
    case Some(exit) => EndsAs(history, paginate, out, exit, n, PageBound(history, n))
    case None => AtPage(history, lastID, next, PageBound(history, n), out, n + 1)
  }

  /** One page read from the cursor of a served history. */
  lemma AfterPage(server: Server, history: seq<Row>, paginate: bool, n: nat, before: string, start: nat, fetched: nat,
                  prior: seq<Comment>, out: seq<Comment>, lastID: string, last: nat)
    requires Serves(server, history) ==> AtPage(history, before, start, fetched, prior, n)
    requires server(n, before).Page? && |prior| < COMMENTS_HARD_CAP && (!paginate ==> n == 0)
    requires out == prior + Decodable(server(n, before).rows) && LastDecoded(server(n, before).rows, lastID, last)
    ensures var rows := |server(n, before).rows|;
            Serves(server, history) ==>
              Passed(history, paginate, out, lastID, start + last + 1, n, Verdict(paginate, rows, |out|, lastID))
  {
    if Serves(server, history) {
      PageOfWalk(server, history, n, before, start, fetched, prior, out, lastID, last);
      var verdict := Verdict(paginate, |server(n, before).rows|, |out|, lastID);
      if verdict.Some? && paginate {
        WalkIsResult(history, out, verdict.value, n);
      } else if verdict.Some? {
        OnePageResult(history, out, verdict.value);
      }
    }
  }

  /** One turn of the page loop: request a page, read it, and decide whether to go on. */
  method TurnPage(server: Server, paginate: bool, n: nat, before: string, prior: seq<Comment>,
                  ghost history: seq<Row>, ghost start: nat, ghost fetched: nat)
    returns (out: seq<Comment>, lastID: string, verdict: Option<Exit>, ghost next: nat)
    requires |prior| < COMMENTS_HARD_CAP && (!paginate ==> n == 0)
    requires Serves(server, history) ==> AtPage(history, before, start, fetched, prior, n)
    ensures verdict == if server(n, before).HttpError? then Some(RequestFailed)
                       else Verdict(paginate, |server(n, before).rows|, |out|, lastID)
    ensures verdict == Some(RequestFailed) ==> out == []
    ensures verdict.None? ==> |prior| < |out|
    ensures verdict != Some(RequestFailed) && Serves(server, history) ==>
              Passed(history, paginate, out, lastID, next, n, verdict)
  {
    next := start;
    var response := server(n, before);
    if response.HttpError? {
      return [], "", Some(RequestFailed), next;
    }
    var raw := response.rows;
    if |raw| == 0 {
      AfterPage(server, history, paginate, n, before, start, fetched, prior, prior, "", 0);
      return prior, "", Some(EmptyPage), start + 1;
    }
    ghost var last;
    out, lastID, last := ReadPage(raw, prior);
    next := start + last + 1;
    AfterPage(server, history, paginate, n, before, start, fetched, prior, out, lastID, last);
    if !paginate {
      return out, lastID, Some(FirstPageOnly), next;
    }
    if |out| >= COMMENTS_HARD_CAP {
      return out, lastID, Some(Truncated), next;
    }
    if |raw| < COMMENTS_PER_PAGE {
      return out, lastID, Some(ShortPage), next;
    }
    if lastID == "" {
      return out, lastID, Some(Stalled), next;
    }
    return out, lastID, None, next;
  }

  /** A turn, for what the page loop keeps and returns. */
  method TakeTurn(server: Server, paginate: bool, n: nat, before: string, prior: seq<Comment>,
                  ghost history: seq<Row>, ghost start: nat, ghost fetched: nat)
    returns (out: seq<Comment>, lastID: string, verdict: Option<Exit>, ghost next: nat)
    requires |prior| < COMMENTS_HARD_CAP && (!paginate ==> n == 0)
    requires Serves(server, history) ==> AtPage(history, before, start, fetched, prior, n)
    ensures verdict == Some(RequestFailed) ==> out == [] && !NeverFails(server)
    ensures verdict.Some? ==> (verdict.value.FirstPageOnly? ==> !paginate)
    ensures !paginate ==>
              verdict in {Some(FirstPageOnly), Some(EmptyPage), Some(RequestFailed)}
    ensures verdict.None? ==> |prior| < |out| < COMMENTS_HARD_CAP
    ensures verdict.Some? && verdict != Some(RequestFailed) && Serves(server, history) ==>
              EndsAs(history, paginate, out, verdict.value, n, PageBound(history, n))
    ensures verdict.None? && Serves(server, history) ==>
              AtPage(history, lastID, next, PageBound(history, n), out, n + 1)
  {
    out, lastID, verdict, next := TurnPage(server, paginate, n, before, prior, history, start, fetched);
  }

  /** Before the first page. */
  lemma WalkBegins(history: seq<Row>)
    ensures AtPage(history, "", 0, 0, [], 0)
  {
    assert history[..0] == [];
  }

  /**
   The page loop. `fetched` is how many rows of `history` the walk has covered, and the
   clauses about it hold when the server serves that history.
   */
  method FetchCommentActions(server: Server, paginate: bool, ghost history: seq<Row>)
    returns (out: seq<Comment>, exit: Exit, requests: nat, ghost fetched: nat)
    ensures 1 <= requests <= COMMENTS_HARD_CAP
    ensures !paginate ==> requests == 1 && (exit.FirstPageOnly? || exit.EmptyPage? || exit.RequestFailed?)
    ensures paginate ==> !exit.FirstPageOnly?
    ensures exit.RequestFailed? ==> out == [] && !NeverFails(server)
    ensures Serves(server, history) && !exit.RequestFailed? ==>
              EndsAs(history, paginate, out, exit, requests - 1, fetched)
  {
    out, requests, fetched := [], 0, 0;
    var before := "";
    ghost var start := 0;
    WalkBegins(history);
    while true
      invariant |out| < COMMENTS_HARD_CAP && requests <= |out|
      invariant !paginate ==> requests == 0
      invariant Serves(server, history) ==> AtPage(history, before, start, fetched, out, requests)
      decreases COMMENTS_HARD_CAP - |out|
    {
      var lastID, verdict;
      ghost var next;
      out, lastID, verdict, next := TakeTurn(server, paginate, requests, before, out, history, start, fetched);
      fetched := PageBound(history, requests);
      requests := requests + 1;
      if verdict.Some? {
        return out, verdict.value, requests, fetched;
      }
      before, start := lastID, next;
    }
  }

  /** No comment appears twice in what a walk returns. */
  lemma {:induction false} NoCommentTwice(history: seq<Row>, fetched: nat, i: nat, j: nat)
    requires History(history) && fetched <= |history|
    requires i < j < |CommentsIn(history[..fetched])|
    ensures CommentsIn(history[..fetched])[i].id != CommentsIn(history[..fetched])[j].id
  {
    CommentHasRow(history, fetched, i);
    CommentHasRow(history, fetched, j);
    var a, b := CommentRow(history, fetched, i), CommentRow(history, fetched, j);
    RowsInOrder(history, fetched, i, j);
    assert history[a].id != history[b].id;
  }

  /** The row the i-th comment of the first `n` rows comes from. */
  function CommentRow(history: seq<Row>, n: nat, i: nat): nat
    requires n <= |history|
  {
    if n == 0 then 0
    else if i < |CommentsIn(history[..n - 1])| then CommentRow(history, n - 1, i)
    else n - 1
  }

  lemma CommentsGrow(history: seq<Row>, n: nat)
    requires 0 < n <= |history|
    ensures CommentsIn(history[..n]) ==
            CommentsIn(history[..n - 1])
            + if history[n - 1].comment.Some? then [history[n - 1].comment.value] else []
  {
    assert Decoded(history[..n])[..n - 1] == Decoded(history[..n - 1]);
  }

  lemma {:induction false} CommentHasRow(history: seq<Row>, n: nat, i: nat)
    requires n <= |history| && i < |CommentsIn(history[..n])|
    ensures CommentRow(history, n, i) < n
    ensures history[CommentRow(history, n, i)].comment == Some(CommentsIn(history[..n])[i])
  {
    assert n > 0 by {
      assert history[..0] == [];
    }
    CommentsGrow(history, n);
    if i < |CommentsIn(history[..n - 1])| {
      CommentHasRow(history, n - 1, i);
    }
  }

  lemma {:induction false} RowsInOrder(history: seq<Row>, n: nat, i: nat, j: nat)
    requires n <= |history| && i < j < |CommentsIn(history[..n])|
    ensures CommentRow(history, n, i) < CommentRow(history, n, j)
  {
    CommentHasRow(history, n, i);
    CommentsGrow(history, n);
    if j < |CommentsIn(history[..n - 1])| {
      RowsInOrder(history, n - 1, i, j);
    } else {
      CommentHasRow(history, n - 1, i);
    }
  }

  lemma {:induction false} RowHasComment(history: seq<Row>, n: nat, r: nat) returns (i: nat)
    requires n <= |history| && r < n && history[r].comment.Some?
    ensures i < |CommentsIn(history[..n])| && CommentRow(history, n, i) == r
  {
    CommentsGrow(history, n);
    if r == n - 1 {
      i := |CommentsIn(history[..n - 1])|;
    } else {
      i := RowHasComment(history, n - 1, r);
    }
  }

  /** The comments of the first `n` rows are those of the rows that decode, each once and in the order of the rows. */
  lemma CommentsAreTheRows(history: seq<Row>, n: nat)
    requires n <= |history|
    ensures forall i :: 0 <= i < |CommentsIn(history[..n])| ==>
              CommentRow(history, n, i) < n
              && history[CommentRow(history, n, i)].comment == Some(CommentsIn(history[..n])[i])
    ensures forall i, j :: 0 <= i < j < |CommentsIn(history[..n])| ==>
              CommentRow(history, n, i) < CommentRow(history, n, j)
    ensures forall r :: 0 <= r < n && history[r].comment.Some? ==>
              exists i :: 0 <= i < |CommentsIn(history[..n])| && CommentRow(history, n, i) == r
  {
    forall i | 0 <= i < |CommentsIn(history[..n])|
      ensures CommentRow(history, n, i) < n
              && history[CommentRow(history, n, i)].comment == Some(CommentsIn(history[..n])[i])
    {
      CommentHasRow(history, n, i);
    }
    forall i, j | 0 <= i < j < |CommentsIn(history[..n])|
      ensures CommentRow(history, n, i) < CommentRow(history, n, j)
    {
      RowsInOrder(history, n, i, j);
    }
    forall r | 0 <= r < n && history[r].comment.Some?
      ensures exists i :: 0 <= i < |CommentsIn(history[..n])| && CommentRow(history, n, i) == r
    {
      var i := RowHasComment(history, n, r);
    }
  }

  /**
   A history with fewer than 5000 comments and no 1000 malformed rows in a row is
   returned whole by every paginated walk whose requests succeed.
   */
  lemma WholeHistory(history: seq<Row>, out: seq<Comment>, exit: Exit, fetched: nat)
    requires WalkResult(history, true, out, exit, fetched)
    requires |CommentsIn(history)| < COMMENTS_HARD_CAP
    requires forall end :: COMMENTS_PER_PAGE <= end <= |history| ==> !MalformedPage(history, end)
    ensures out == CommentsIn(history)
  {
    assert history[..|history|] == history;
    CommentsSplit(history, fetched, |history|);
  }

  // ------------------------------------------------------------- GetLatestComment

  datatype Latest = LatestFailed | NoComments | LatestComment(comment: Comment)

  /** `k` is the first comment with the greatest instant. */
  ghost predicate FirstLatest(all: seq<Comment>, k: nat) {
    && k < |all|
    && (forall j :: 0 <= j < |all| ==> all[j].at <= all[k].at)
    && (forall j :: 0 <= j < k ==> all[j].at < all[k].at)
  }

  function NewestPage(history: seq<Row>): seq<Comment> {
    CommentsIn(history[..Min(|history|, COMMENTS_PER_PAGE)])
  }

  /**
   Only the newest page is read, so `NoComments` means no row of that page decodes:
   a card whose newest 1000 rows are malformed is reported as having no comments.
   */
  method GetLatestComment(server: Server, cardID: string, ghost history: seq<Row>) returns (res: Latest)
    ensures cardID == "" ==> res.LatestFailed?
    ensures cardID != "" && NeverFails(server) ==> !res.LatestFailed?
    ensures Serves(server, history) && res.LatestComment? ==>
              exists k: nat :: FirstLatest(NewestPage(history), k) && res.comment == NewestPage(history)[k]
    ensures Serves(server, history) && !res.LatestFailed? ==> (res.NoComments? <==> NewestPage(history) == [])
  {
    if cardID == "" {
      return LatestFailed;
    }
    var all, exit, requests;
    ghost var fetched;
    all, exit, requests, fetched := FetchCommentActions(server, false, history);
    if exit.RequestFailed? {
      return LatestFailed;
    }
    if |all| == 0 {
      return NoComments;
    }
    var latest := all[0];
    ghost var k := 0;
    for i := 1 to |all|
      invariant k < i && latest == all[k] && FirstLatest(all[..i], k)
    {
      if all[i].at > latest.at {
        latest := all[i];
        k := i;
      }
    }
    assert all[..|all|] == all;
    assert FirstLatest(all, k) && (Serves(server, history) ==> all == NewestPage(history));
    return LatestComment(latest);
  }

  // ------------------------------------------------------------ ListCommentsSince

  ghost predicate Ascending(xs: seq<Comment>) {
    forall i, j :: 0 <= i < j < |xs| ==> xs[i].at <= xs[j].at
  }

  /** The comments of one instant, in order. */
  function AtTime(xs: seq<Comment>, t: int): seq<Comment> {
    if xs == [] then []
    else (if xs[0].at == t then [xs[0]] else []) + AtTime(xs[1..], t)
  }

  /** The same comments, those of one instant in the same order. */
  ghost predicate StablePermutation(xs: seq<Comment>, ys: seq<Comment>) {
    |xs| == |ys| && forall t :: AtTime(xs, t) == AtTime(ys, t)
  }

  ghost predicate StableSort(xs: seq<Comment>, ys: seq<Comment>) {
    StablePermutation(xs, ys) && Ascending(ys)
  }

  lemma AtTimeCons(x: Comment, xs: seq<Comment>, t: int)
    ensures AtTime([x] + xs, t) == (if x.at == t then [x] else []) + AtTime(xs, t)
  {
    assert ([x] + xs)[1..] == xs;
  }

  lemma {:induction false} AtTimeConcat(a: seq<Comment>, b: seq<Comment>, t: int)
    ensures AtTime(a + b, t) == AtTime(a, t) + AtTime(b, t)
  {
    if a == [] {
      assert a + b == b;
    } else {
      var (x, rest) := (a[0], a[1..]);
      AtTimeConcat(rest, b, t);
      AtTimeCons(x, rest, t);
      AtTimeCons(x, rest + b, t);
      assert a == [x] + rest && a + b == [x] + (rest + b);
    }
  }

  /** Swapping neighbours of different instants keeps every instant's order. */
  lemma SwapKeepsOrder(xs: seq<Comment>, ys: seq<Comment>, j: nat)
    requires 0 < j < |xs| && xs[j - 1].at != xs[j].at
    requires ys == xs[j - 1 := xs[j]][j := xs[j - 1]]
    ensures StablePermutation(xs, ys)
  {
    var (a, x, y, b) := (xs[..j - 1], xs[j - 1], xs[j], xs[j + 1..]);
    assert xs == a + ([x, y] + b) && ys == a + ([y, x] + b);
    forall t ensures AtTime(xs, t) == AtTime(ys, t) {
      AtTimeConcat(a, [x, y] + b, t);
      AtTimeConcat(a, [y, x] + b, t);
      AtTimeConcat([x, y], b, t);
      AtTimeConcat([y, x], b, t);
      assert [x, y][1..] == [y] && [y, x][1..] == [x];
    }
  }

  /** The first `n` ascend, but for the element at `j`, which none after it is before. */
  ghost predicate AscendingBut(xs: seq<Comment>, n: nat, j: nat) {
    n <= |xs| && forall p, q :: 0 <= p < q < n && q != j ==> xs[p].at <= xs[q].at
  }

  lemma SwapKeepsAscending(xs: seq<Comment>, ys: seq<Comment>, n: nat, j: nat)
    requires AscendingBut(xs, n, j) && 0 < j < n && xs[j - 1].at > xs[j].at
    requires ys == xs[j - 1 := xs[j]][j := xs[j - 1]]
    ensures AscendingBut(ys, n, j - 1)
  {
  }

  /** The in-place insertion sort. */
  method InsertionSort(a: array<Comment>)
    modifies a
    ensures StableSort(old(a[..]), a[..])
  {
    ghost var was := a[..];
    if a.Length == 0 {
      return;
    }
    for i := 1 to a.Length
      invariant StablePermutation(was, a[..])
      invariant AscendingBut(a[..], i, i)
    {
      var j := i;
      while j > 0 && a[j - 1].at > a[j].at
        invariant 0 <= j <= i
        invariant StablePermutation(was, a[..])
        invariant AscendingBut(a[..], i + 1, j)
      {
        ghost var before := a[..];
        a[j - 1], a[j] := a[j], a[j - 1];
        SwapKeepsOrder(before, a[..], j);
        SwapKeepsAscending(before, a[..], i + 1, j);
        j := j - 1;
      }
    }
  }

  /**
   `out` lists, ascending, the comments of `all` after `since`, or all of them for the zero
   time: each as often as `all` does, those of one instant in the order of `all`, and none
   of an instant up to `since`.
   */
  ghost predicate ListsAfter(all: seq<Comment>, since: int, out: seq<Comment>) {
    && Ascending(out)
    && (forall c :: multiset(out)[c] == if since == 0 || since < c.at then multiset(all)[c] else 0)
    && (forall t :: AtTime(out, t) == if since == 0 || since < t then AtTime(all, t) else [])
  }

  /** The instants after `since` are kept as they are in `all`, the others left out. */
  ghost predicate KeepsAfter(all: seq<Comment>, since: int, out: seq<Comment>) {
    forall t :: AtTime(out, t) == if since == 0 || since < t then AtTime(all, t) else []
  }

  lemma KeepOneMore(all: seq<Comment>, i: nat, since: int, out: seq<Comment>)
    requires i < |all| && KeepsAfter(all[..i], since, out)
    ensures KeepsAfter(all[..i + 1], since, if since == 0 || since < all[i].at then out + [all[i]] else out)
  {
    var out' := if since == 0 || since < all[i].at then out + [all[i]] else out;
    assert all[..i + 1] == all[..i] + [all[i]];
    forall t ensures AtTime(out', t) == if since == 0 || since < t then AtTime(all[..i + 1], t) else [] {
      AtTimeConcat(all[..i], [all[i]], t);
      AtTimeConcat(out, [all[i]], t);
    }
  }

  lemma SortedIsListed(all: seq<Comment>, since: int, out: seq<Comment>, sorted: seq<Comment>)
    requires KeepsAfter(all, since, out) && StableSort(out, sorted)
    ensures ListsAfter(all, since, sorted)
  {
    forall c ensures multiset(sorted)[c] == if since == 0 || since < c.at then multiset(all)[c] else 0 {
      CountAtTime(sorted, c);
      CountAtTime(all, c);
      assert AtTime(out, c.at) == AtTime(sorted, c.at);
    }
    forall t ensures AtTime(sorted, t) == if since == 0 || since < t then AtTime(all, t) else [] {
      assert AtTime(out, t) == AtTime(sorted, t);
    }
  }

  datatype Listing = ListingFailed | Listing(comments: seq<Comment>, exit: Exit)

  /**
   ListCommentsSince: of the fetched comments those after `since`, ascending and stable.
   Unless the walk was cut short by the cap or a stall, they are the whole history's.
   */
  method ListCommentsSince(server: Server, cardID: string, since: int, ghost history: seq<Row>)
    returns (res: Listing, ghost fetched: nat)
    ensures cardID == "" ==> res.ListingFailed?
    ensures cardID != "" && NeverFails(server) ==> res.Listing?
    ensures Serves(server, history) && res.Listing? ==>
              && fetched <= |history|
              && WalkResult(history, true, CommentsIn(history[..fetched]), res.exit, fetched)
              && ListsAfter(CommentsIn(history[..fetched]), since, res.comments)
    ensures Serves(server, history) && res.Listing? && !res.exit.Truncated? && !res.exit.Stalled? ==>
              ListsAfter(CommentsIn(history), since, res.comments)
  {
    fetched := 0;
    if cardID == "" {
      return ListingFailed, fetched;
    }
    var all, exit, requests;
    all, exit, requests, fetched := FetchCommentActions(server, true, history);
    if exit.RequestFailed? {
      return ListingFailed, fetched;
    }
    var out := [];
    for i := 0 to |all|
      invariant KeepsAfter(all[..i], since, out)
    {
      KeepOneMore(all, i, since, out);
      if since == ZERO_TIME || all[i].at > since {
        out := out + [all[i]];
      }
    }
    assert all[..|all|] == all && history[..|history|] == history;
    var slice := new Comment[|out|](i requires 0 <= i < |out| => out[i]);
    assert slice[..] == out;
    InsertionSort(slice);
    SortedIsListed(all, since, out, slice[..]);
    return Listing(slice[..], exit), fetched;
  }

  // --------------------------------------- there is only one stable ascending sort

  lemma {:induction false} AtTimeSame(xs: seq<Comment>, t: int)
    ensures forall c :: c in AtTime(xs, t) ==> c in xs && c.at == t
  {
    if xs != [] {
      AtTimeSame(xs[1..], t);
    }
  }

  lemma {:induction false} AtTimeHas(xs: seq<Comment>, c: Comment)
    requires c in xs
    ensures c in AtTime(xs, c.at)
  {
    if xs[0] != c {
      AtTimeHas(xs[1..], c);
    }
  }

  /** The earliest instant of an ascending sequence is its first. */
  lemma FirstIsEarliest(xs: seq<Comment>, ys: seq<Comment>)
    requires StablePermutation(xs, ys) && Ascending(xs) && xs != []
    ensures ys != [] && xs[0].at <= ys[0].at
  {
    AtTimeHas(ys, ys[0]);
    AtTimeSame(xs, ys[0].at);
  }

  /** Two stable ascending sorts of the same comments are equal. */
  lemma {:induction false} StableSortUnique(xs: seq<Comment>, ys: seq<Comment>)
    requires StablePermutation(xs, ys) && Ascending(xs) && Ascending(ys)
    ensures xs == ys
  {
    if xs != [] {
      FirstIsEarliest(xs, ys);
      FirstIsEarliest(ys, xs);
      var t := xs[0].at;
      assert AtTime(xs, t)[0] == xs[0] && AtTime(ys, t)[0] == ys[0];
      forall u ensures AtTime(xs[1..], u) == AtTime(ys[1..], u) {
        assert AtTime(xs, u) == AtTime(ys, u);
        assert AtTime(xs[1..], u) == if t == u then AtTime(xs, u)[1..] else AtTime(xs, u);
        assert AtTime(ys[1..], u) == if t == u then AtTime(ys, u)[1..] else AtTime(ys, u);
      }
      StableSortUnique(xs[1..], ys[1..]);
    }
  }

  /** A stable permutation holds each comment equally often. */
  lemma {:induction false} StablePermutationSameMultiset(xs: seq<Comment>, ys: seq<Comment>)
    requires StablePermutation(xs, ys)
    ensures multiset(xs) == multiset(ys)
  {
    forall c: Comment ensures multiset(xs)[c] == multiset(ys)[c] {
      CountAtTime(xs, c);
      CountAtTime(ys, c);
      assert AtTime(xs, c.at) == AtTime(ys, c.at);
    }
  }

  lemma {:induction false} CountAtTime(xs: seq<Comment>, c: Comment)
    ensures multiset(xs)[c] == multiset(AtTime(xs, c.at))[c]
  {
    if xs != [] {
      CountAtTime(xs[1..], c);
      assert xs == [xs[0]] + xs[1..];
    }
  }
}

/**
 When a paginated walk keeps to the cap of 5000 comments: the cap is looked at after a
 whole page, so it depends on where the pages end.
 */
module CommentPages {
  import opened Common
  import opened Comments
  import opened Numbers

  /** A full page without any comment comes before the cap is reached. */
  ghost predicate StallsBelowCap(history: seq<Row>) {
    exists n: nat :: StallsAt(history, n) && CommentsUpTo(history, n) < COMMENTS_HARD_CAP
  }

  /** A page ends exactly where the cap is reached. */
  ghost predicate PageEndsAtCap(history: seq<Row>) {
    exists n: nat :: CommentsUpTo(history, n) == COMMENTS_HARD_CAP
  }

  /** A walk stops no later than any page that would stop it. */
  lemma StopsByThen(history: seq<Row>, out: seq<Comment>, exit: Exit, page: nat, n: nat)
    requires WalkIs(history, out, exit, page) && StopsAt(history, n)
    ensures page <= n && |out| <= CommentsUpTo(history, n)
  {
    BoundsGrow(history, page, n);
  }

  /**
   A walk whose requests succeed returns at most 5000 comments if and only if the history
   holds no more, a full page without any comment comes first, or a page ends at exactly
   5000.
   */
  lemma CapKeptIff(history: seq<Row>, out: seq<Comment>, exit: Exit, page: nat)
    requires WalkIs(history, out, exit, page)
    ensures |out| <= COMMENTS_HARD_CAP <==>
              |CommentsIn(history)| <= COMMENTS_HARD_CAP || StallsBelowCap(history) || PageEndsAtCap(history)
  {
    assert history[..|history|] == history;
    CommentsSplit(history, PageBound(history, page), |history|);
    if StallsBelowCap(history) {
      var n: nat :| StallsAt(history, n) && CommentsUpTo(history, n) < COMMENTS_HARD_CAP;
      StopsByThen(history, out, exit, page, n);
    }
    if PageEndsAtCap(history) {
      var n: nat :| CommentsUpTo(history, n) == COMMENTS_HARD_CAP;
      StopsByThen(history, out, exit, page, n);
    }
    assert |out| == CommentsUpTo(history, page);
    if |out| < COMMENTS_HARD_CAP && RowsOn(history, page) < COMMENTS_PER_PAGE {
      assert PageBound(history, page) == |history|;
    }
  }

  // -------------------------------------------------- histories with dense pages

  /** The last row of each of the first `n` pages decodes. */
  ghost predicate DensePages(history: seq<Row>, n: nat) {
    && COMMENTS_PER_PAGE * n <= |history|
    && forall i :: 0 <= i < n ==> history[COMMENTS_PER_PAGE * i + COMMENTS_PER_PAGE - 1].comment.Some?
  }

  lemma {:induction false} DensePagesStart(history: seq<Row>, n: nat, m: nat)
    requires DensePages(history, n) && m <= n
    ensures PageStart(history, m) == COMMENTS_PER_PAGE * m
    ensures m < n ==> PageBound(history, m) == COMMENTS_PER_PAGE * (m + 1)
    decreases m
  {
    if m > 0 {
      DensePagesStart(history, n, m - 1);
      assert history[COMMENTS_PER_PAGE * (m - 1) + COMMENTS_PER_PAGE - 1].comment.Some?;
    }
  }

  /** Rows that all decode add a comment each. */
  lemma {:induction false} DecodingRowsCount(history: seq<Row>, lo: nat, hi: nat)
    requires lo <= hi <= |history| && forall i :: lo <= i < hi ==> history[i].comment.Some?
    ensures |CommentsIn(history[..hi])| == |CommentsIn(history[..lo])| + (hi - lo)
    decreases hi
  {
    if lo < hi {
      DecodingRowsCount(history, lo, hi - 1);
      CommentsGrow(history, hi);
    }
  }

  lemma NoRowsNoComments(history: seq<Row>)
    ensures CommentsIn(history[..0]) == []
  {
    assert history[..0] == [];
  }

  /** The only page a walk can end with. */
  lemma EndsWithPage(history: seq<Row>, out: seq<Comment>, exit: Exit, page: nat, n: nat)
    requires WalkIs(history, out, exit, page)
    requires CommentsUpTo(history, n) >= COMMENTS_HARD_CAP
    requires DensePages(history, n + 1) && forall m: nat :: m < n ==> CommentsUpTo(history, m) < COMMENTS_HARD_CAP
    ensures page == n && exit == Truncated
  {
    StopsByThen(history, out, exit, page, n);
    DensePagesStart(history, n + 1, page);
    DensePagesStart(history, n + 1, page + 1);
  }

  /** When the newest 5000 rows all decode, a walk over a longer or equal history returns exactly 5000. */
  lemma DecodableRowsKeepTheCap(history: seq<Row>, out: seq<Comment>, exit: Exit, page: nat)
    requires WalkIs(history, out, exit, page) && |history| >= COMMENTS_HARD_CAP
    requires forall i :: 0 <= i < COMMENTS_HARD_CAP ==> history[i].comment.Some?
    ensures |out| == COMMENTS_HARD_CAP && exit == Truncated
  {
    NoRowsNoComments(history);
    forall m: nat | m <= 4 ensures CommentsUpTo(history, m) == COMMENTS_PER_PAGE * (m + 1) {
      DensePagesStart(history, 5, m);
      DecodingRowsCount(history, 0, COMMENTS_PER_PAGE * (m + 1));
    }
    EndsWithPage(history, out, exit, page, 4);
  }

  // ------------------------------------------------------------- the cap exceeded

  /** `n` rows, newest first, of which only the newest is malformed. */
  function NewestMalformed(n: nat): (rows: seq<Row>)
    ensures |rows| == n
  {
    seq(n, i requires 0 <= i < n =>
      Row(Numbered(i), if i == 0 then None else Some(Comment(Numbered(i), "text", "author", n - i))))
  }

  /** A server of such rows: the length of the cursor says where it points. */
  function ServerOf(rows: seq<Row>): Server {
    (n, before) => Page(if |before| <= |rows| then PageFrom(rows, |before|) else [])
  }

  lemma ServesItsRows(n: nat)
    ensures Serves(ServerOf(NewestMalformed(n)), NewestMalformed(n)) && NeverFails(ServerOf(NewestMalformed(n)))
  {
    var rows := NewestMalformed(n);
    forall i, j | 0 <= i < j < n ensures rows[i].id != rows[j].id {
      assert |rows[i].id| != |rows[j].id|;
    }
  }

  lemma NewestMalformedCounts(n: nat, m: nat)
    requires n >= 6000 && m <= 5
    ensures CommentsUpTo(NewestMalformed(n), m) == COMMENTS_PER_PAGE * (m + 1) - 1
  {
    var rows := NewestMalformed(n);
    NoRowsNoComments(rows);
    CommentsGrow(rows, 1);
    assert |CommentsIn(rows[..1])| == 0;
    DensePagesStart(rows, 6, m);
    DecodingRowsCount(rows, 1, COMMENTS_PER_PAGE * (m + 1));
  }

  /**
   The cap is exceeded: on a history of 6000 or more rows of which only the newest is
   malformed, served page by page, every walk returns 5999 comments.
   */
  lemma CapCanBeExceeded(n: nat)
    requires n >= 6000
    ensures Serves(ServerOf(NewestMalformed(n)), NewestMalformed(n)) && NeverFails(ServerOf(NewestMalformed(n)))
    ensures forall out, exit, page :: WalkIs(NewestMalformed(n), out, exit, page) ==> |out| == 5999
  {
    var rows := NewestMalformed(n);
    ServesItsRows(n);
    forall m: nat | m <= 5 ensures CommentsUpTo(rows, m) == COMMENTS_PER_PAGE * (m + 1) - 1 {
      NewestMalformedCounts(n, m);
    }
    forall out, exit, page | WalkIs(rows, out, exit, page) ensures |out| == 5999 {
      EndsWithPage(rows, out, exit, page, 5);
    }
  }

  /** Such a walk, carried out. */
  method FetchMoreThanTheCap(n: nat) returns (out: seq<Comment>)
    requires n >= 6000
    ensures |out| == 5999
  {
    ghost var rows := NewestMalformed(n);
    CapCanBeExceeded(n);
    var exit, requests;
    ghost var fetched;
    out, exit, requests, fetched := FetchCommentActions(ServerOf(NewestMalformed(n)), true, rows);
  }
}

/**
 What the string functions mean, by positions and characters.
 */
module Names {
  import opened Strings

  // -------------------------------------------------------------- surrounding blanks

  predicate IsBlank(c: char) {
    c == ' ' || c == '\t' || c == '\n' || c == '\U{000B}' || c == '\U{000C}' || c == '\r'
  }

  /** Everything of `s` outside `from..to` is blank, and neither end of that stretch is. */
  predicate Cut(s: string, from: nat, to: nat) {
    && from <= to <= |s|
    && (forall i :: 0 <= i < from ==> IsBlank(s[i]))
    && (forall i :: to <= i < |s| ==> IsBlank(s[i]))
    && (from < to ==> !IsBlank(s[from]) && !IsBlank(s[to - 1]))
  }

  predicate HasText(s: string) { exists i :: 0 <= i < |s| && !IsBlank(s[i]) }

  lemma {:induction false} TrimLeftIs(s: string, from: nat)
    requires from <= |s| && (forall i :: 0 <= i < from ==> IsBlank(s[i])) && (from < |s| ==> !IsBlank(s[from]))
    ensures TrimLeft(s) == s[from..]
  {
    if from > 0 {
      assert forall i :: 0 <= i < from - 1 ==> s[1..][i] == s[i + 1];
      TrimLeftIs(s[1..], from - 1);
      assert s[1..][from - 1..] == s[from..];
    }
  }

  lemma {:induction false} TrimRightIs(s: string, to: nat)
    requires to <= |s| && (forall i :: to <= i < |s| ==> IsBlank(s[i])) && (to > 0 ==> !IsBlank(s[to - 1]))
    ensures TrimRight(s) == s[..to]
    decreases |s|
  {
    if to < |s| {
      TrimRightIs(s[..|s| - 1], to);
      assert s[..|s| - 1][..to] == s[..to];
    } else {
      assert s[..to] == s;
    }
  }

  /** Trimming leaves the stretch between the surrounding blanks. */
  lemma TrimIsCut(s: string, from: nat, to: nat)
    requires Cut(s, from, to)
    ensures TrimSpace(s) == s[from..to]
  {
    if from < to {
      TrimLeftIs(s, from);
      var t := s[from..];
      assert forall i :: to - from <= i < |t| ==> t[i] == s[from + i];
      TrimRightIs(t, to - from);
      assert t[..to - from] == s[from..to];
    } else {
      AllBlank(s);
    }
  }

  lemma {:induction false} AllBlank(s: string)
    requires forall i :: 0 <= i < |s| ==> IsBlank(s[i])
    ensures TrimSpace(s) == ""
  {
    TrimLeftIs(s, |s|);
  }

  /** There is always such a stretch. */
  lemma {:induction false} CutExists(s: string) returns (from: nat, to: nat)
    ensures Cut(s, from, to)
    ensures from < to <==> HasText(s)
  {
    from := 0;
    while from < |s| && IsBlank(s[from])
      invariant from <= |s| && forall i :: 0 <= i < from ==> IsBlank(s[i])
    {
      from := from + 1;
    }
    to := |s|;
    while to > from && IsBlank(s[to - 1])
      invariant from <= to <= |s| && forall i :: to <= i < |s| ==> IsBlank(s[i])
      invariant from < |s| ==> !IsBlank(s[from])
    {
      to := to - 1;
    }
  }

  /** A string trims to nothing exactly when it has no text. */
  lemma BlankIffNoText(s: string)
    ensures TrimSpace(s) == "" <==> !HasText(s)
  {
    var from, to := CutExists(s);
    TrimIsCut(s, from, to);
  }

  // ------------------------------------------------------------ letters and names

  /** The same character, or the two cases of one ASCII letter. */
  predicate SameLetter(a: char, b: char) {
    || a == b
    || ('A' <= a <= 'Z' && b as int == a as int + ('a' as int - 'A' as int))
    || ('A' <= b <= 'Z' && a as int == b as int + ('a' as int - 'A' as int))
  }

  predicate SameLetters(s: string, t: string) {
    |s| == |t| && forall i :: 0 <= i < |s| ==> SameLetter(s[i], t[i])
  }

  /** The same name, up to surrounding blanks and the case of letters. */
  ghost predicate SameName(s: string, t: string) {
    exists a: nat, b: nat, c: nat, d: nat :: Cut(s, a, b) && Cut(t, c, d) && SameLetters(s[a..b], t[c..d])
  }

  lemma LowerSame(a: char, b: char)
    ensures LowerChar(a) == LowerChar(b) <==> SameLetter(a, b)
  {
  }

  lemma LowerIsSameLetters(s: string, t: string)
    ensures ToLower(s) == ToLower(t) <==> SameLetters(s, t)
  {
    if ToLower(s) == ToLower(t) {
      forall i | 0 <= i < |s| ensures SameLetter(s[i], t[i]) {
        assert ToLower(s)[i] == ToLower(t)[i];
        LowerSame(s[i], t[i]);
      }
    }
    if SameLetters(s, t) {
      forall i | 0 <= i < |s| ensures ToLower(s)[i] == ToLower(t)[i] {
        LowerSame(s[i], t[i]);
      }
    }
  }

  /** Trimmed and lower-cased names are equal exactly when they are the same name. */
  lemma NormalisedIffSame(s: string, t: string)
    ensures ToLower(TrimSpace(s)) == ToLower(TrimSpace(t)) <==> SameName(s, t)
  {
    if ToLower(TrimSpace(s)) == ToLower(TrimSpace(t)) {
      var a, b := CutExists(s);
      var c, d := CutExists(t);
      TrimIsCut(s, a, b);
      TrimIsCut(t, c, d);
      LowerIsSameLetters(s[a..b], t[c..d]);
    }
    if SameName(s, t) {
      var a: nat, b: nat, c: nat, d: nat :| Cut(s, a, b) && Cut(t, c, d) && SameLetters(s[a..b], t[c..d]);
      TrimIsCut(s, a, b);
      TrimIsCut(t, c, d);
      LowerIsSameLetters(s[a..b], t[c..d]);
    }
  }

  /** A name is the same under any surrounding blanks and with any of its letters in the other case. */
  lemma VariantIsSame(s: string, ws: string, t: string, ws': string)
    requires forall i :: 0 <= i < |ws| ==> IsBlank(ws[i])
    requires forall i :: 0 <= i < |ws'| ==> IsBlank(ws'[i])
    requires SameLetters(s, t)
    ensures SameName(s, ws + t + ws')
  {
    var from, to := CutExists(s);
    var u := ws + t + ws';
    forall i | 0 <= i < |t| ensures IsBlank(s[i]) <==> IsBlank(t[i]) {
      assert SameLetter(s[i], t[i]);
    }
    assert forall i :: 0 <= i < |t| ==> u[|ws| + i] == t[i];
    if from < to {
      assert Cut(u, |ws| + from, |ws| + to);
      assert SameLetters(s[from..to], u[|ws| + from..|ws| + to]);
    } else {
      assert Cut(u, 0, 0);
      assert SameLetters(s[from..to], u[0..0]);
    }
  }

  /** Being the same name is an equivalence. */
  lemma SameNameIsEquivalence(s: string, t: string, u: string)
    ensures SameName(s, s) && (SameName(s, t) ==> SameName(t, s))
    ensures SameName(s, t) && SameName(t, u) ==> SameName(s, u)
  {
    NormalisedIffSame(s, s);
    NormalisedIffSame(s, t);
    NormalisedIffSame(t, s);
    NormalisedIffSame(t, u);
    NormalisedIffSame(s, u);
  }

  // --------------------------------------------------------------------- prefixes

  /** `p` stands in `s` at `from`, character by character. */
  predicate StandsAt(s: string, p: string, from: nat) {
    from + |p| <= |s| && forall i :: 0 <= i < |p| ==> s[from + i] == p[i]
  }

  /** The text between the surrounding blanks begins with `p`. */
  ghost predicate BeginsWith(s: string, p: string) {
    exists from: nat, to: nat :: Cut(s, from, to) && from + |p| <= to && StandsAt(s, p, from)
  }

  lemma PrefixIff(s: string, p: string)
    ensures HasPrefix(s, p) <==> StandsAt(s, p, 0)
  {
  }

  lemma TrimmedPrefixIff(s: string, p: string)
    ensures HasPrefix(TrimSpace(s), p) <==> BeginsWith(s, p)
  {
    var from, to := CutExists(s);
    TrimIsCut(s, from, to);
    PrefixIff(TrimSpace(s), p);
    if HasPrefix(TrimSpace(s), p) {
      assert forall i :: 0 <= i < |p| ==> s[from..to][i] == s[from + i];
      assert StandsAt(s, p, from);
    }
    if BeginsWith(s, p) {
      var a: nat, b: nat :| Cut(s, a, b) && a + |p| <= b && StandsAt(s, p, a);
      TrimIsCut(s, a, b);
      assert forall i :: 0 <= i < |p| ==> s[a..b][i] == s[a + i];
    }
  }

  lemma ContainsIff(s: string, p: string)
    ensures Contains(s, p) <==> exists i: nat :: StandsAt(s, p, i)
  {
    if Contains(s, p) {
      var i :| 0 <= i <= |s| && OccursAt(s, p, i);
      assert forall j :: 0 <= j < |p| ==> s[i..][j] == s[i + j];
      assert StandsAt(s, p, i);
    }
    if i: nat :| StandsAt(s, p, i) {
      assert forall j :: 0 <= j < |p| ==> s[i..][j] == s[i + j];
      assert OccursAt(s, p, i);
    }
  }
}

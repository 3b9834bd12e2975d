/** The literal, case-insensitive pattern of `grep_search`:
    `re.compile(re.escape(query), re.IGNORECASE).finditer(content)`.
    Case folding is ASCII only. */
module Matching {
  import opened Base
  import opened Text

  /** `query` occurs at `k`, ignoring case. */
  predicate MatchAt(s: string, query: string, k: int) {
    0 <= k && k + |query| <= |s| && Lower(s[k..k + |query|]) == Lower(query)
  }

  /** A match `[start, end)`, as `[m.start(), m.end()]`. */
  datatype Match = Match(start: nat, end: nat)

  /** Every match lies inside the text, covers a case-insensitive
      occurrence of the query and ends no later than the next one
      starts. */
  predicate WellFormed(s: string, query: string, r: seq<Match>) {
    && (forall j | 0 <= j < |r| :: r[j].end == r[j].start + |query| && MatchAt(s, query, r[j].start))
    && (forall j | 0 <= j < |r| - 1 :: r[j].end <= r[j + 1].start)
  }

  /** The empty pattern matches at every position from `i` to the end of
      the text, end included. */
  function EmptyMatches(i: nat, n: nat): (r: seq<Match>)
    requires i <= n
    ensures |r| == n - i + 1
    ensures forall j | 0 <= j < |r| :: r[j] == Match(i + j, i + j)
    decreases n - i
  {
    if i == n then [Match(n, n)] else [Match(i, i)] + EmptyMatches(i + 1, n)
  }

  /** The scan from position `i`: take a match where one starts, resume
      after it; otherwise move one character on. */
  function FindFrom(s: string, query: string, i: nat): (r: seq<Match>)
    requires i <= |s|
    ensures forall j | 0 <= j < |r| :: i <= r[j].start
    decreases |s| - i
  {
    if |query| == 0 then EmptyMatches(i, |s|)
    else if i + |query| > |s| then []
    else if MatchAt(s, query, i) then [Match(i, i + |query|)] + FindFrom(s, query, i + |query|)
    else FindFrom(s, query, i + 1)
  }

  /** The scan yields well-formed matches. */
  lemma {:induction false} FindFromWellFormed(s: string, query: string, i: nat)
    requires i <= |s|
    ensures WellFormed(s, query, FindFrom(s, query, i))
    decreases |s| - i
  {
    if |query| == 0 {
      var r := EmptyMatches(i, |s|);
      assert forall j | 0 <= j < |r| :: s[r[j].start..r[j].start] == [];
    } else if i + |query| <= |s| {
      if MatchAt(s, query, i) {
        FindFromWellFormed(s, query, i + |query|);
        Prepend(s, query, Match(i, i + |query|), FindFrom(s, query, i + |query|));
      } else {
        FindFromWellFormed(s, query, i + 1);
      }
    }
  }

  lemma Prepend(s: string, query: string, m: Match, rest: seq<Match>)
    requires WellFormed(s, query, rest)
    requires m.end == m.start + |query| && MatchAt(s, query, m.start)
    requires forall j | 0 <= j < |rest| :: m.end <= rest[j].start
    ensures WellFormed(s, query, [m] + rest)
  {
    var r := [m] + rest;
    assert forall j | 1 <= j < |r| :: r[j] == rest[j - 1];
  }

  /** Every occurrence from `i` on lies inside one of the matches: the
      scan skips an occurrence only when it overlaps the match before. */
  lemma {:induction false} FindFromCovers(s: string, query: string, i: nat, k: int) returns (j: nat)
    requires i <= |s| && |query| > 0 && i <= k && MatchAt(s, query, k)
    ensures j < |FindFrom(s, query, i)| && FindFrom(s, query, i)[j].start <= k < FindFrom(s, query, i)[j].end
    decreases |s| - i
  {
    assert i + |query| <= |s|;
    var r := FindFrom(s, query, i);
    if MatchAt(s, query, i) {
      var rest := FindFrom(s, query, i + |query|);
      assert r == [Match(i, i + |query|)] + rest;
      if k >= i + |query| {
        var j' := FindFromCovers(s, query, i + |query|, k);
        assert r[j' + 1] == rest[j'];
        j := j' + 1;
      } else {
        j := 0;
      }
    } else {
      assert k != i;
      assert r == FindFrom(s, query, i + 1);
      j := FindFromCovers(s, query, i + 1, k);
    }
  }

  /** All matches of the query in the text, left to right. */
  function FindMatches(s: string, query: string): (r: seq<Match>)
    ensures WellFormed(s, query, r)
    ensures |query| > 0 ==> forall k | MatchAt(s, query, k) ::
      exists j | 0 <= j < |r| :: r[j].start <= k < r[j].end
    ensures |query| == 0 ==> |r| == |s| + 1
  {
    var r := FindFrom(s, query, 0);
    FindFromWellFormed(s, query, 0);
    forall k | |query| > 0 && MatchAt(s, query, k)
      ensures exists j | 0 <= j < |r| :: r[j].start <= k < r[j].end
    {
      var j := FindFromCovers(s, query, 0, k);
    }
    r
  }

  /** A chunk has a match exactly when the query occurs in it, ignoring
      case. */
  lemma HasMatchIff(s: string, query: string)
    ensures |FindMatches(s, query)| > 0 <==> exists k :: MatchAt(s, query, k)
  {
    var r := FindMatches(s, query);
    if |r| > 0 {
      assert MatchAt(s, query, r[0].start);
    }
    if |query| == 0 {
      assert MatchAt(s, query, 0);
    }
  }

  /** The matches are ascending and pairwise disjoint. */
  lemma MatchesDisjoint(s: string, query: string, a: nat, b: nat)
    requires a < b < |FindMatches(s, query)|
    ensures FindMatches(s, query)[a].end <= FindMatches(s, query)[b].start
    decreases b - a
  {
    var r := FindMatches(s, query);
    if b > a + 1 {
      MatchesDisjoint(s, query, a + 1, b);
      assert r[a + 1].start <= r[a + 1].end;
    }
  }

  /** Matching ignores the case of ASCII letters in the query. */
  lemma CaseInsensitive(s: string, query: string, k: int)
    ensures MatchAt(s, query, k) <==> MatchAt(s, Lower(query), k)
  {
    assert Lower(Lower(query)) == Lower(query) by {
      forall i | 0 <= i < |query| ensures LowerChar(LowerChar(query[i])) == LowerChar(query[i]) {
      }
    }
  }
}

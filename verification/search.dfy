/** Substring search, as a multipart reader uses it to find where a value ends. */
module Search {
  import opened Wrappers

  /** `pat` occurs in `s` starting at index `j`. */
  predicate MatchAt(s: string, pat: string, j: int) {
    0 <= j && j + |pat| <= |s| && s[j..j + |pat|] == pat
  }

  predicate Occurs(s: string, pat: string) {
    exists j | 0 <= j <= |s| :: MatchAt(s, pat, j)
  }

  lemma ShiftMatch(s: string, pat: string, j: int)
    requires |s| > 0 && 0 <= j
    ensures MatchAt(s[1..], pat, j) <==> MatchAt(s, pat, j + 1)
  {
    if j + 1 + |pat| <= |s| {
      assert s[1..][j..j + |pat|] == s[j + 1..j + 1 + |pat|];
    }
  }

  /** Index of the first occurrence of `pat` in `s`, if any. */
  function IndexOf(s: string, pat: string): (r: Option<nat>)
    ensures r.Some? ==> MatchAt(s, pat, r.value)
    ensures r.Some? ==> forall j :: 0 <= j < r.value ==> !MatchAt(s, pat, j)
    ensures r.None? <==> !Occurs(s, pat)
    decreases |s|
  {
    if |s| < |pat| then None
    else if s[..|pat|] == pat then Some(0)
    else
      assert !MatchAt(s, pat, 0);
      assert forall j :: 1 <= j ==> (MatchAt(s, pat, j) <==> MatchAt(s[1..], pat, j - 1)) by {
        forall j | 1 <= j
          ensures MatchAt(s, pat, j) <==> MatchAt(s[1..], pat, j - 1)
        {
          ShiftMatch(s, pat, j - 1);
        }
      }
      assert forall j :: 0 <= j ==> (MatchAt(s[1..], pat, j) <==> MatchAt(s, pat, j + 1)) by {
        forall j | 0 <= j
          ensures MatchAt(s[1..], pat, j) <==> MatchAt(s, pat, j + 1)
        {
          ShiftMatch(s, pat, j);
        }
      }
      match IndexOf(s[1..], pat)
      case None => None
      case Some(i) => Some(i + 1)
  }

  /** A pattern whose first character does not reappear inside it, placed right
      after a text that does not contain it, is found exactly there. */
  lemma FirstOccurrence(c: string, pat: string, t: string)
    requires |pat| > 0 && pat[0] !in pat[1..]
    requires !Occurs(c, pat)
    ensures IndexOf(c + pat + t, pat) == Some(|c|)
  {
    var s := c + pat + t;
    assert MatchAt(s, pat, |c|) by {
      assert s[|c|..|c| + |pat|] == pat;
    }
    forall j | 0 <= j < |c|
      ensures !MatchAt(s, pat, j)
    {
      if j + |pat| <= |c| {
        assert c[j..j + |pat|] == s[j..j + |pat|];
        assert !MatchAt(c, pat, j);
      } else if j + |pat| <= |s| {
        var m := |c| - j;
        assert s[|c|] == pat[0];
        assert pat[m] == pat[1..][m - 1];
        assert s[j..j + |pat|][m] != pat[m];
      }
    }
  }
}

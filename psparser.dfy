/** The two literal-token tests the billing stage applies to a job's
    PostScript: counting page markers and looking for the duplex marker.
    Neither parses PostScript; both work on the payload as plain text. */
module PSParser {

  /** The token counted as one page. */
  const PageMarker: string := "%%Page:"

  /** The token whose presence marks a job as duplex. */
  const DuplexMarker: string := "/Duplex true"

  /** `pat` occurs in `s` starting at index `i`. */
  predicate OccursAt(s: string, pat: string, i: int)
  {
    0 <= i && i + |pat| <= |s| && s[i..i + |pat|] == pat
  }

  lemma OccursAtShift(s: string, pat: string, i: int)
    requires |s| > 0 && 0 <= i
    ensures OccursAt(s[1..], pat, i) <==> OccursAt(s, pat, i + 1)
  {
  }

  /** Python's `pat in s`: scans `s` left to right for `pat`. */
  function Contains(s: string, pat: string): (b: bool)
    ensures b <==> exists i :: OccursAt(s, pat, i)
    decreases |s|
  {
    if |s| < |pat| then false
    else if s[..|pat|] == pat then assert OccursAt(s, pat, 0); true
    else
      var b := Contains(s[1..], pat);
      assert !OccursAt(s, pat, 0);
      assert b ==> exists i :: OccursAt(s, pat, i) by {
        if b {
          var i :| OccursAt(s[1..], pat, i);
          OccursAtShift(s, pat, i);
        }
      }
      assert (exists i :: OccursAt(s, pat, i)) ==> b by {
        if exists i :: OccursAt(s, pat, i) {
          var i :| OccursAt(s, pat, i);
          assert i > 0;
          OccursAtShift(s, pat, i - 1);
        }
      }
      b
  }

  /** Distributes a multiplication over a successor, so that `Count`'s
      length bound does not leave the solver to find it by itself. */
  lemma MulSucc(a: nat, b: nat)
    ensures a * (1 + b) == a + a * b
  {
  }

  /** Python's `s.count(pat)`: the number of non-overlapping occurrences of
      `pat`, found greedily from the left; an empty `pat` is counted once
      before every character and once at the end. */
  function Count(s: string, pat: string): (n: nat)
    ensures |pat| * n <= |s|
    ensures n == 0 <==> !Contains(s, pat)
    decreases |s|
  {
    if pat == [] then
      assert s[..0] == pat;
      |s| + 1
    else if |s| < |pat| then 0
    else if s[..|pat|] == pat then
      var rest := Count(s[|pat|..], pat);
      MulSucc(|pat|, rest);
      1 + rest
    else
      assert Contains(s, pat) == Contains(s[1..], pat);
      Count(s[1..], pat)
  }

  /** The number of positions at which `pat` begins in `s`, overlapping
      occurrences included: a reference count independent of `Count`. */
  function Occurrences(s: string, pat: string): nat
    requires pat != []
    decreases |s|
  {
    if |s| < |pat| then 0
    else (if s[..|pat|] == pat then 1 else 0) + Occurrences(s[1..], pat)
  }

  /** No proper suffix of `pat` is also a prefix of it, so two occurrences
      of `pat` can never overlap. */
  ghost predicate NoSelfOverlap(pat: string)
  {
    forall k :: 0 < k < |pat| ==> pat[k..] != pat[..|pat| - k]
  }

  /** Inside an occurrence of a non-self-overlapping `pat`, no further
      occurrence begins, so the positions 1 .. k-1 contribute nothing. */
  lemma {:induction false} SkipInsideOccurrence(s: string, pat: string, k: nat)
    requires pat != [] && NoSelfOverlap(pat)
    requires |pat| <= |s| && s[..|pat|] == pat
    requires 1 <= k <= |pat|
    ensures Occurrences(s[1..], pat) == Occurrences(s[k..], pat)
    decreases k
  {
    if k > 1 {
      SkipInsideOccurrence(s, pat, k - 1);
      var j := k - 1;
      var t := s[j..];
      assert t[1..] == s[k..];
      if |pat| <= |t| {
        assert pat[j..] != pat[..|pat| - j];
        assert t[..|pat|] != pat;
      }
    }
  }

  /** For a pattern that cannot overlap itself, Python's greedy count is
      the number of positions where the pattern begins. */
  lemma {:induction false} CountIsOccurrences(s: string, pat: string)
    requires pat != [] && NoSelfOverlap(pat)
    ensures Count(s, pat) == Occurrences(s, pat)
    decreases |s|
  {
    if |s| < |pat| {
    } else if s[..|pat|] == pat {
      CountIsOccurrences(s[|pat|..], pat);
      SkipInsideOccurrence(s, pat, |pat|);
    } else {
      CountIsOccurrences(s[1..], pat);
    }
  }

  lemma PageMarkerNoSelfOverlap()
    ensures NoSelfOverlap(PageMarker)
  {
    forall k | 0 < k < |PageMarker|
      ensures PageMarker[k..] != PageMarker[..|PageMarker| - k]
    {
      if k == 1 {
        assert PageMarker[k..][1] != PageMarker[..|PageMarker| - k][1];
      } else {
        assert PageMarker[k..][0] != PageMarker[..|PageMarker| - k][0];
      }
    }
  }

  /** `PSParser.pageCount`: the number of page markers in the payload. */
  function PageCount(ps: string): (n: nat)
    ensures |PageMarker| * n <= |ps|
    ensures n == 0 <==> !exists i :: OccursAt(ps, PageMarker, i)
  {
    Count(ps, PageMarker)
  }

  /** Every position where a page marker begins counts as one page: the
      markers of a payload never overlap, so greedy counting misses none. */
  lemma PageCountIsMarkerPositions(ps: string)
    ensures PageCount(ps) == Occurrences(ps, PageMarker)
  {
    PageMarkerNoSelfOverlap();
    CountIsOccurrences(ps, PageMarker);
  }

  /** `PSParser.isDuplex`: the payload contains the duplex marker. */
  function IsDuplex(ps: string): (b: bool)
    ensures b <==> exists i :: OccursAt(ps, DuplexMarker, i)
  {
    Contains(ps, DuplexMarker)
  }

  /** A stretch of `s` in which the first character of `pat` never appears
      holds no occurrence, so counting can skip it. */
  lemma {:induction false} CountSkip(s: string, pat: string, k: nat)
    requires pat != [] && k <= |s| && pat[0] !in s[..k]
    ensures Count(s, pat) == Count(s[k..], pat)
    decreases k
  {
    if k > 0 {
      assert s[0] in s[..k];
      if |pat| <= |s| {
        assert s[..|pat|][0] != pat[0];
      }
      assert s[1..][..k - 1] == s[1..k];
      assert forall c :: c in s[1..k] ==> c in s[..k];
      CountSkip(s[1..], pat, k - 1);
      assert s[1..][k - 1..] == s[k..];
    }
  }
}

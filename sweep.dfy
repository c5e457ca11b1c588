/**
 * The scan-line bound tracker of `render::begin`. For one triangle, the renderer
 * sweeps the screen columns (and then the rows) in order and tests whether the
 * triangle crosses the plane of each scan line; the tracker turns that sequence of
 * answers into a bound [lo, hi) that the draw loop later visits.
 */
module Sweep {

  /** The index of the last true entry of s, or -1 when there is none. */
  function LastTrue(s: seq<bool>): (e: int)
    ensures -1 <= e < |s|
    ensures e >= 0 ==> s[e]
    ensures forall x :: e < x < |s| ==> !s[x]
  {
    if |s| == 0 then -1
    else if s[|s| - 1] then |s| - 1
    else LastTrue(s[..|s| - 1])
  }

  /** The first index of the run of true entries that ends at e. */
  function RunStart(s: seq<bool>, e: int): (b: int)
    requires 0 <= e < |s| && s[e]
    ensures 0 <= b <= e
    ensures forall x :: b <= x <= e ==> s[x]
    ensures b == 0 || !s[b - 1]
  {
    if e == 0 || !s[e - 1] then e else RunStart(s, e - 1)
  }

  /**
   * The bound the tracker leaves: (-1, -1) when no scan line is crossed; otherwise the
   * last run of crossed lines, from its first line to the line just after it, except
   * that a run reaching the last line ends at that line.
   */
  function RunBound(s: seq<bool>): (int, int)
  {
    var e := LastTrue(s);
    if e < 0 then (-1, -1)
    else (RunStart(s, e), if e == |s| - 1 then e else e + 1)
  }

  /**
   * What the bound means. Without a crossed line it is (-1, -1), an empty range.
   * Otherwise lo starts a run (lo is crossed, lo - 1 is not), every line of [lo, hi) is
   * crossed, no line after hi is, and hi stays below the number of lines: the last
   * line is never inside [lo, hi), so a run reaching it loses that line; and hi may
   * be the last line either because a run ended just before it or because it is crossed.
   */
  lemma {:induction false} RunBoundMeaning(s: seq<bool>)
    ensures var (lo, hi) := RunBound(s);
      ((forall x :: 0 <= x < |s| ==> !s[x]) <==> lo == -1 && hi == -1) &&
      (lo != -1 ==>
        0 <= lo <= hi < |s| && s[lo] && (lo == 0 || !s[lo - 1]) &&
        (forall x :: lo <= x < hi ==> s[x]) &&
        (forall x :: hi < x < |s| ==> !s[x]) &&
        (hi < |s| - 1 ==> !s[hi]) && (s[|s| - 1] ==> hi == |s| - 1))
  {
    var e := LastTrue(s);
    if e >= 0 && e < |s| - 1 {
      assert !s[e + 1];
    }
  }

  /** RunStart only looks at the entries up to e. */
  lemma {:induction false} RunStartPrefix(s: seq<bool>, t: seq<bool>, e: int)
    requires 0 <= e < |s| && e < |t| && s[e] && s[..e + 1] == t[..e + 1]
    ensures t[e] && RunStart(s, e) == RunStart(t, e)
    decreases e
  {
    assert s[e] == s[..e + 1][e] == t[..e + 1][e] == t[e];
    if e > 0 {
      assert s[e - 1] == s[..e + 1][e - 1] == t[..e + 1][e - 1] == t[e - 1];
      if s[e - 1] {
        assert s[..e] == s[..e + 1][..e] == t[..e + 1][..e] == t[..e];
        RunStartPrefix(s, t, e - 1);
      }
    }
  }

  /**
   * The state of the tracker of `begin` between two scan lines: `found` and the two
   * ends of the bound (`bound.x` and `bound.z` for columns, `bound.y` and `bound.w` for
   * rows), both -1 after the reset.
   */
  datatype Tracker = Tracker(found: bool, lo: int, hi: int)

  const Start := Tracker(false, -1, -1)

  /**
   * One pass of the tracker's loop body at line x of n, where c says whether the
   * triangle crosses line x: entering a run records its first line, leaving it records
   * the line that ends it, and a run still open at the last line records that line.
   */
  function Advance(st: Tracker, x: int, n: int, c: bool): (r: Tracker)
    ensures r.found == c
  {
    var st' :=
      if c then (if !st.found then Tracker(true, x, st.hi) else st)
      else (if st.found then Tracker(false, st.lo, x) else st);
    if x == n - 1 && st'.found then st'.(hi := x) else st'
  }

  /**
   * What the tracker knows after the lines p of n: `found` says whether the last of
   * them was crossed; with no run open the bound is the run bound of p, with one open
   * its first line is; and once all n lines are seen an open run ends at the last one.
   */
  ghost predicate Tracks(p: seq<bool>, st: Tracker, n: int)
  {
    (st.found <==> |p| > 0 && p[|p| - 1]) &&
    (!st.found ==> (st.lo, st.hi) == RunBound(p)) &&
    (st.found ==> st.lo == RunBound(p).0) &&
    (st.found && |p| == n ==> st.hi == n - 1)
  }

  /** Before any line the reset state tracks the empty sequence. */
  lemma StartTracks(n: int)
    ensures Tracks([], Start, n)
  {
  }

  /** One more line keeps the tracker in step with the lines seen. */
  lemma {:induction false} AdvanceTracks(p: seq<bool>, b: bool, st: Tracker, n: int)
    requires Tracks(p, st, n) && |p| < n
    ensures Tracks(p + [b], Advance(st, |p|, n, b), n)
  {
    StepRun(p, b, st.found);
  }

  /** After all the lines the tracker holds exactly the run bound. */
  lemma {:induction false} TracksFinal(s: seq<bool>, st: Tracker)
    requires Tracks(s, st, |s|)
    ensures (st.lo, st.hi) == RunBound(s)
  {
    if st.found {
      assert LastTrue(s) == |s| - 1;
    }
  }

  /** How RunBound changes when one more scan line is appended. */
  lemma {:induction false} StepRun(p: seq<bool>, b: bool, found: bool)
    requires found <==> |p| > 0 && p[|p| - 1]
    ensures var q := p + [b];
      (b && !found ==> RunBound(q).0 == |p|) &&
      (b && found ==> RunBound(q).0 == RunBound(p).0) &&
      (!b && found ==> RunBound(q) == (RunBound(p).0, |p|)) &&
      (!b && !found ==> RunBound(q) == RunBound(p))
  {
    var q := p + [b];
    assert q[..|p|] == p;
    if b {
      assert LastTrue(q) == |p|;
      if found {
        assert LastTrue(p) == |p| - 1;
        assert q[..|p|] == p[..|p|];
        RunStartPrefix(p, q, |p| - 1);
      }
    } else {
      assert LastTrue(q) == LastTrue(p);
      if found {
        assert LastTrue(p) == |p| - 1;
        RunStartPrefix(p, q, |p| - 1);
      } else if LastTrue(p) >= 0 {
        var e := LastTrue(p);
        assert p[..e + 1] == q[..e + 1];
        RunStartPrefix(p, q, e);
      }
    }
  }
}

/** The region edits of the editor's main window (`on_split_region`,
    `on_split_all_regions`, `on_join_region`, `on_join_all_regions` in
    videoeditor/main.py), stated on values: a region is a pair of times
    `(start, end)`. */
module RegionEdits {
  import opened Strings
  import opened EditorTimeline
  import opened ClipEdits

  type Region = (real, real)

  // ---------------------------------------------------------------------
  // `on_split_region`

  /** `on_split_region`: every clip of the snapshot taken first is split at
      the region's end, then every clip of the same snapshot at its start,
      the new pieces keeping their clip's group. */
  function SplitRegion(st: State, s: real, e: real): State
  {
    var ids := IdsOf(st.clips);
    SplitEach(SplitEach(st, ids, e, KeepGroups), ids, s, KeepGroups)
  }

  /** A snapshot of the whole list reaches every clip straddling `t`. */
  lemma {:induction false} SnapshotCovers(st: State, t: real)
    ensures Covered(st, IdsOf(st.clips), t, KeepGroups)
  {
    forall x | x in st.clips && Spans(x, t)
      ensures x.id in IdsOf(st.clips)
    {
      assert x.id in Ids(st.clips);
    }
  }

  /** The first pass of `SplitRegion`, at the end time `e`. */
  lemma {:induction false} SplitRegionEndPass(st: State, e: real)
    requires Fresh(st)
    ensures var m := SplitEach(st, IdsOf(st.clips), e, KeepGroups);
      && Fresh(m) && NoSpan(m.clips, e)
      && (forall x :: x in m.clips ==> x.id in Ids(st.clips) || x.start == e)
  {
    SnapshotCovers(st, e);
    SplitEachClears(st, IdsOf(st.clips), e, KeepGroups);
    SplitEachKeeps(st, IdsOf(st.clips), e, KeepGroups, e);
    SplitEachNewStart(st, IdsOf(st.clips), e, KeepGroups);
  }

  /** The second pass of `SplitRegion` still reaches every clip straddling
      the start time: the pieces the first pass made start at `e`, at or
      after `s`, so none of them straddles `s`. */
  lemma {:induction false} StartPassCovers(st: State, m: State, s: real, e: real)
    requires s <= e
    requires forall x :: x in m.clips ==> x.id in Ids(st.clips) || x.start == e
    ensures Covered(m, IdsOf(st.clips), s, KeepGroups)
  {
    forall x | x in m.clips && Spans(x, s)
      ensures x.id in IdsOf(st.clips)
    {
    }
  }

  /** After `on_split_region` with `s <= e`, no clip straddles either edge
      of the region. */
  lemma {:induction false} SplitRegionClears(st: State, s: real, e: real)
    requires Fresh(st) && s <= e
    ensures NoSpan(SplitRegion(st, s, e).clips, s)
    ensures NoSpan(SplitRegion(st, s, e).clips, e)
  {
    var ids := IdsOf(st.clips);
    var m := SplitEach(st, ids, e, KeepGroups);
    SplitRegionEndPass(st, e);
    StartPassCovers(st, m, s, e);
    SplitEachClears(m, ids, s, KeepGroups);
    SplitEachKeeps(m, ids, s, KeepGroups, e);
  }

  /** `on_split_region` keeps ids unique, the total duration, and the order. */
  lemma {:induction false} SplitRegionKeeps(st: State, s: real, e: real)
    requires Fresh(st)
    ensures Fresh(SplitRegion(st, s, e))
    ensures TotalDurationOf(SplitRegion(st, s, e).clips) == TotalDurationOf(st.clips)
    ensures Sorted(st.clips) ==> Sorted(SplitRegion(st, s, e).clips)
  {
    var ids := IdsOf(st.clips);
    var m := SplitEach(st, ids, e, KeepGroups);
    SplitEachKeeps(st, ids, e, KeepGroups, e);
    SplitEachKeeps(m, ids, s, KeepGroups, e);
  }

  // ---------------------------------------------------------------------
  // `on_split_all_regions`

  /** `y` is the start or the end of some region. */
  predicate IsEndpoint(rs: seq<Region>, y: real)
  {
    exists r :: r in rs && (y == r.0 || y == r.1)
  }

  /** Strictly increasing: ordered, each value once. */
  predicate Increasing(ps: seq<real>)
  {
    forall i, j :: 0 <= i < j < |ps| ==> ps[i] < ps[j]
  }

  /** A value below every element of an increasing list extends it at the
      front. */
  lemma {:induction false} ConsIncreasing(h: real, rest: seq<real>)
    requires Increasing(rest) && forall y :: y in rest ==> h < y
    ensures Increasing([h] + rest)
  {
    var r := [h] + rest;
    forall i, j | 0 <= i < j < |r|
      ensures r[i] < r[j]
    {
      assert r[j] == rest[j - 1];
      if i > 0 {
        assert r[i] == rest[i - 1];
      } else {
        assert rest[j - 1] in rest;
      }
    }
  }

  /** The tail of an increasing list lies above its head. */
  lemma {:induction false} TailAbove(ps: seq<real>)
    requires ps != [] && Increasing(ps)
    ensures Increasing(ps[1..]) && forall y :: y in ps[1..] ==> ps[0] < y
  {
    forall y | y in ps[1..]
      ensures ps[0] < y
    {
      var i :| 0 <= i < |ps[1..]| && ps[1..][i] == y;
      assert ps[i + 1] == y;
    }
  }

  /** `x` added to an increasing list of times, unless already there. */
  function InsertPoint(ps: seq<real>, x: real): (r: seq<real>)
    requires Increasing(ps)
    ensures Increasing(r)
    ensures forall y :: y in r <==> y in ps || y == x
    decreases |ps|
  {
    if ps == [] then [x]
    else if x < ps[0] then
      TailAbove(ps);
      ConsIncreasing(x, ps);
      [x] + ps
    else if x == ps[0] then ps
    else
      TailAbove(ps);
      var rest := InsertPoint(ps[1..], x);
      ConsIncreasing(ps[0], rest);
      assert ps == [ps[0]] + ps[1..];
      [ps[0]] + rest
  }

  /** `sorted(list(split_points))`: every region edge, once each, in
      increasing order. */
  function SplitPoints(rs: seq<Region>): (ps: seq<real>)
    ensures Increasing(ps)
    ensures forall y :: y in ps <==> IsEndpoint(rs, y)
    decreases |rs|
  {
    if rs == [] then []
    else
      var init, last := rs[..|rs| - 1], rs[|rs| - 1];
      assert rs == init + [last];
      var ps := SplitPoints(init);
      assert forall y :: IsEndpoint(rs, y) <==> IsEndpoint(init, y) || y == last.0 || y == last.1;
      InsertPoint(InsertPoint(ps, last.0), last.1)
  }

  /** The group-aware split at each of the points, in order. */
  function SplitAtPoints(st: State, ps: seq<real>): State
    decreases |ps|
  {
    if ps == [] then st else SplitAllAt(SplitAtPoints(st, ps[..|ps| - 1]), ps[|ps| - 1])
  }

  /** The splits at the first `i + 1` points are the splits at the first
      `i` points followed by the split at point `i`. */
  lemma SplitAtPointsStep(st: State, ps: seq<real>, i: int)
    requires 0 <= i < |ps|
    ensures SplitAtPoints(st, ps[..i + 1]) == SplitAllAt(SplitAtPoints(st, ps[..i]), ps[i])
  {
    assert ps[..i + 1][..i] == ps[..i];
  }

  /** `on_split_all_regions`: the group-aware split at every region edge,
      from the earliest edge to the latest. */
  function SplitAllRegions(st: State, rs: seq<Region>): State
  {
    SplitAtPoints(st, SplitPoints(rs))
  }

  /** After the splits at a list of points no clip straddles any of them, and
      ids stay unique. */
  lemma {:induction false} SplitAtPointsClears(st: State, ps: seq<real>)
    requires Fresh(st)
    ensures Fresh(SplitAtPoints(st, ps))
    ensures forall q :: q in ps ==> NoSpan(SplitAtPoints(st, ps).clips, q)
    decreases |ps|
  {
    if ps != [] {
      var init, p := ps[..|ps| - 1], ps[|ps| - 1];
      SplitAtPointsClears(st, init);
      var m := SplitAtPoints(st, init);
      SplitAllAtFresh(m, p);
      SplitAllAtClears(m, p);
      forall q | q in ps
        ensures NoSpan(SplitAllAt(m, p).clips, q)
      {
        if q != p {
          assert q in init by {
            assert ps == init + [p];
          }
          SplitAllAtKeepsClear(m, p, q);
        }
      }
    }
  }

  /** The splits at a list of points keep the total duration and the order. */
  lemma {:induction false} SplitAtPointsKeeps(st: State, ps: seq<real>)
    requires Fresh(st)
    ensures TotalDurationOf(SplitAtPoints(st, ps).clips) == TotalDurationOf(st.clips)
    ensures Sorted(st.clips) ==> Sorted(SplitAtPoints(st, ps).clips)
    decreases |ps|
  {
    if ps != [] {
      var init, p := ps[..|ps| - 1], ps[|ps| - 1];
      SplitAtPointsKeeps(st, init);
      SplitAtPointsClears(st, init);
      var m := SplitAtPoints(st, init);
      SplitAllAtKeepsTotal(m, p);
      if Sorted(st.clips) {
        SplitAllAtKeepsOrder(m, p);
      }
    }
  }

  /** After `on_split_all_regions` no clip straddles the edge of any region;
      ids stay unique, and the total duration and the order are kept. */
  lemma {:induction false} SplitAllRegionsEffect(st: State, rs: seq<Region>)
    requires Fresh(st)
    ensures var r := SplitAllRegions(st, rs);
      && Fresh(r)
      && (forall q :: IsEndpoint(rs, q) ==> NoSpan(r.clips, q))
      && TotalDurationOf(r.clips) == TotalDurationOf(st.clips)
      && (Sorted(st.clips) ==> Sorted(r.clips))
  {
    SplitAtPointsClears(st, SplitPoints(rs));
    SplitAtPointsKeeps(st, SplitPoints(rs));
  }

  // ---------------------------------------------------------------------
  // `on_join_region`

  /** The clips of the list not starting in `[lo, hi)`, in order: what is
      left once `clips_to_remove` is removed. */
  function Remaining(s: seq<Clip>, lo: real, hi: real): (r: seq<Clip>)
    ensures |r| <= |s|
    decreases |s|
  {
    if s == [] then []
    else
      var init, c := s[..|s| - 1], s[|s| - 1];
      if lo <= c.start < hi then Remaining(init, lo, hi) else Remaining(init, lo, hi) + [c]
  }

  /** The removal keeps exactly the clips that do not start in `[lo, hi)`. */
  lemma {:induction false} RemainingMembers(s: seq<Clip>, lo: real, hi: real)
    ensures forall x :: x in Remaining(s, lo, hi) <==> x in s && !(lo <= x.start < hi)
    decreases |s|
  {
    if s != [] {
      var init, c := s[..|s| - 1], s[|s| - 1];
      assert s == init + [c];
      RemainingMembers(init, lo, hi);
    }
  }

  /** One clip after the shift of `on_join_region`: moved left by `d` when it
      starts at or after `e`. */
  function Shifted(c: Clip, e: real, d: real): (r: Clip)
    ensures r.id == c.id && r.group == c.group && r.duration == c.duration
    ensures c.start >= e ==> r.start == c.start - d
    ensures c.start < e ==> r == c
  {
    if c.start >= e then c.(start := c.start - d) else c
  }

  /** The shift of `on_join_region`, clip by clip. */
  function ShiftFrom(s: seq<Clip>, e: real, d: real): (r: seq<Clip>)
    ensures |r| == |s|
    ensures forall i :: 0 <= i < |s| ==> r[i] == Shifted(s[i], e, d)
    decreases |s|
  {
    if s == [] then [] else ShiftFrom(s[..|s| - 1], e, d) + [Shifted(s[|s| - 1], e, d)]
  }

  /** The two splits of `on_join_region`, at the start and then at the end. */
  function JoinCut(st: State, s: real, e: real): State
  {
    SplitAllAt(SplitAllAt(st, s), e)
  }

  /** The splits, the removal and the shift of one region, without the final
      sort. */
  function JoinStep(st: State, s: real, e: real): State
  {
    var cut := JoinCut(st, s, e);
    State(ShiftFrom(Remaining(cut.clips, s, e), e, e - s), cut.next)
  }

  /** `JoinStep` from the state after its two splits. */
  lemma {:induction false} JoinStepOf(st: State, s: real, e: real, cut: State)
    requires cut == JoinCut(st, s, e)
    ensures JoinStep(st, s, e) == State(ShiftFrom(Remaining(cut.clips, s, e), e, e - s), cut.next)
  {
  }

  /** `on_join_region`: nothing for a region of length 0.01 or less;
      otherwise the content of the region is cut out and the clips after it
      move left to close the gap, then the list is sorted. (The track pruning
      that follows is `Editor.MainWindow.OnJoinRegion`'s.) */
  function Join(st: State, s: real, e: real): State
  {
    if e - s <= 0.01 then st
    else
      var m := JoinStep(st, s, e);
      State(SortByStart(m.clips), m.next)
  }

  /** After the cut no clip straddles either edge, ids stay unique, and the
      order is kept. */
  lemma {:induction false} JoinCutFresh(st: State, s: real, e: real)
    requires Fresh(st)
    ensures Fresh(JoinCut(st, s, e)) && JoinCut(st, s, e).next >= st.next
  {
    SplitAllAtFresh(st, s);
    SplitAllAtFresh(SplitAllAt(st, s), e);
  }

  lemma {:induction false} JoinCutClears(st: State, s: real, e: real)
    requires Fresh(st)
    ensures NoSpan(JoinCut(st, s, e).clips, s) && NoSpan(JoinCut(st, s, e).clips, e)
  {
    SplitAllAtFresh(st, s);
    SplitAllAtClears(st, s);
    SplitAllAtKeepsClear(SplitAllAt(st, s), e, s);
    SplitAllAtClears(SplitAllAt(st, s), e);
  }

  lemma {:induction false} JoinCutOrder(st: State, s: real, e: real)
    requires Fresh(st) && Sorted(st.clips)
    ensures Sorted(JoinCut(st, s, e).clips)
  {
    SplitAllAtFresh(st, s);
    SplitAllAtKeepsOrder(st, s);
    SplitAllAtKeepsOrder(SplitAllAt(st, s), e);
  }

  /** `x` is what the removal and the shift make of a clip of `c`: one that
      did not start in `[s, e)`, moved left by `e - s` when it started at or
      after `e`. */
  predicate Survives(c: seq<Clip>, s: real, e: real, x: Clip)
  {
    exists y :: y in c && !(s <= y.start < e) && x == Shifted(y, e, e - s)
  }

  /** The clips after the removal and the shift: those that started before
      the region, unchanged, and those that started at or after its end,
      moved left by its length; none of the clips that started inside. */
  lemma {:induction false} RemoveShiftMembers(c: seq<Clip>, s: real, e: real)
    ensures forall x :: x in ShiftFrom(Remaining(c, s, e), e, e - s) <==> Survives(c, s, e, x)
  {
    var rem := Remaining(c, s, e);
    var r := ShiftFrom(rem, e, e - s);
    RemainingMembers(c, s, e);
    forall x
      ensures x in r <==> Survives(c, s, e, x)
    {
      if x in r {
        var i :| 0 <= i < |r| && r[i] == x;
        assert rem[i] in rem;
      }
      if Survives(c, s, e, x) {
        var y :| y in c && !(s <= y.start < e) && x == Shifted(y, e, e - s);
        var i :| 0 <= i < |rem| && rem[i] == y;
        assert r[i] == x;
      }
    }
  }

  /** When no clip straddles `s`, every clip after the removal and the shift
      ends by `s` or starts at or after it: the gap is closed without
      overlap across `s`. */
  lemma {:induction false} GapClosed(c: seq<Clip>, s: real, e: real)
    requires NoSpan(c, s) && s <= e
    ensures forall x :: x in ShiftFrom(Remaining(c, s, e), e, e - s) ==> End(x) <= s || x.start >= s
  {
    RemoveShiftMembers(c, s, e);
    RemainingMembers(c, s, e);
  }

  /** The clips of a sorted list are in the list. */
  lemma {:induction false} SortMembers(s: seq<Clip>)
    ensures forall x :: x in SortByStart(s) <==> x in s
  {
    var r := SortByStart(s);
    forall x
      ensures x in r <==> x in s
    {
      assert x in r <==> multiset(r)[x] > 0;
      assert x in s <==> multiset(s)[x] > 0;
    }
  }

  /** `on_join_region` removes the clips that start in the region after the
      cut, keeps those starting before it unchanged and moves those starting
      at or after its end left by its length, and nothing else. */
  lemma {:induction false} JoinMembers(st: State, s: real, e: real)
    requires e - s > 0.01
    ensures var cut := JoinCut(st, s, e);
      forall x :: x in Join(st, s, e).clips <==> Survives(cut.clips, s, e, x)
  {
    var cut := JoinCut(st, s, e);
    RemoveShiftMembers(cut.clips, s, e);
    SortMembers(JoinStep(st, s, e).clips);
  }

  /** After `on_join_region` of a region longer than 0.01 every clip ends by
      the region's start or starts at or after it. */
  lemma {:induction false} JoinClosesGap(st: State, s: real, e: real)
    requires Fresh(st) && e - s > 0.01
    ensures forall x :: x in Join(st, s, e).clips ==> End(x) <= s || x.start >= s
  {
    JoinCutClears(st, s, e);
    GapClosed(JoinCut(st, s, e).clips, s, e);
    SortMembers(JoinStep(st, s, e).clips);
  }

  /** A region of length 0.01 or less is left alone. */
  lemma {:induction false} JoinShortRegion(st: State, s: real, e: real)
    requires e - s <= 0.01
    ensures Join(st, s, e) == st
  {
  }

  /** Removing clips keeps an ordered list ordered. */
  lemma {:induction false} RemainingSorted(c: seq<Clip>, s: real, e: real)
    requires Sorted(c)
    ensures Sorted(Remaining(c, s, e))
    decreases |c|
  {
    if c != [] {
      var init, last := c[..|c| - 1], c[|c| - 1];
      assert Sorted(init);
      RemainingSorted(init, s, e);
      RemainingMembers(init, s, e);
      var r := Remaining(init, s, e);
      forall i | 0 <= i < |r|
        ensures r[i].start <= last.start
      {
        assert r[i] in init;
      }
    }
  }

  /** On an ordered list the removal and the shift keep the order: the
      clips before the region stay before it, the clips after it land at or
      after its start. */
  lemma {:induction false} RemoveShiftSorted(c: seq<Clip>, s: real, e: real)
    requires Sorted(c) && s <= e
    ensures Sorted(ShiftFrom(Remaining(c, s, e), e, e - s))
  {
    var rem := Remaining(c, s, e);
    RemainingSorted(c, s, e);
    RemainingMembers(c, s, e);
    var r := ShiftFrom(rem, e, e - s);
    forall i, j | 0 <= i < j < |r|
      ensures r[i].start <= r[j].start
    {
      assert rem[i] in rem && rem[j] in rem;
    }
  }

  /** On an ordered timeline the final sort of `on_join_region` moves
      nothing. */
  lemma {:induction false} JoinSortMovesNothing(st: State, s: real, e: real)
    requires Fresh(st) && Sorted(st.clips) && e - s > 0.01
    ensures Join(st, s, e).clips == JoinStep(st, s, e).clips
  {
    JoinCutOrder(st, s, e);
    RemoveShiftSorted(JoinCut(st, s, e).clips, s, e);
    SortOfSorted(JoinStep(st, s, e).clips);
  }

  /** No two positions hold clips with the same id. */
  predicate DistinctIds(s: seq<Clip>)
  {
    forall i, j :: 0 <= i < j < |s| ==> s[i].id != s[j].id
  }

  /** Unique ids hold position by position. */
  lemma {:induction false} UniqueDistinct(s: seq<Clip>)
    requires UniqueIds(s)
    ensures DistinctIds(s)
  {
    forall i, j | 0 <= i < j < |s|
      ensures s[i].id != s[j].id
    {
      if s[i].id == s[j].id {
        TwoCopies(s, i, j);
      }
    }
  }

  /** A clip at two positions occurs twice. */
  lemma {:induction false} TwoCopies(s: seq<Clip>, i: nat, j: nat)
    requires i < j < |s| && s[i] == s[j]
    ensures multiset(s)[s[i]] >= 2
  {
    assert s == s[..j] + s[j..];
    assert s[i] in s[..j];
  }

  /** Position-by-position distinct ids make the ids unique. */
  lemma {:induction false} DistinctUnique(s: seq<Clip>)
    requires DistinctIds(s)
    ensures UniqueIds(s)
    decreases |s|
  {
    if s != [] {
      var init, last := s[..|s| - 1], s[|s| - 1];
      assert s == init + [last];
      DistinctUnique(init);
      assert last !in init;
      forall c | c in multiset(s)
        ensures multiset(s)[c] == 1
      {
        if c != last {
          assert c in init;
        }
      }
    }
  }

  /** Removing clips keeps ids distinct. */
  lemma {:induction false} RemainingDistinct(c: seq<Clip>, s: real, e: real)
    requires DistinctIds(c)
    ensures DistinctIds(Remaining(c, s, e))
    decreases |c|
  {
    if c != [] {
      var init, last := c[..|c| - 1], c[|c| - 1];
      RemainingDistinct(init, s, e);
      RemainingMembers(init, s, e);
      var r := Remaining(init, s, e);
      forall i | 0 <= i < |r|
        ensures r[i].id != last.id
      {
        assert r[i] in init;
      }
    }
  }

  /** The removal and the shift keep ids unique and below the supply. */
  lemma {:induction false} RemoveShiftFresh(st: State, s: real, e: real)
    requires Fresh(st)
    ensures Fresh(State(ShiftFrom(Remaining(st.clips, s, e), e, e - s), st.next))
  {
    var rem := Remaining(st.clips, s, e);
    var r := ShiftFrom(rem, e, e - s);
    UniqueDistinct(st.clips);
    RemainingDistinct(st.clips, s, e);
    RemainingMembers(st.clips, s, e);
    assert DistinctIds(r);
    DistinctUnique(r);
    RemoveShiftMembers(st.clips, s, e);
  }

  /** One region's splits, removal and shift keep ids unique and below the
      supply. */
  lemma {:induction false} JoinStepFresh(st: State, s: real, e: real)
    requires Fresh(st)
    ensures Fresh(JoinStep(st, s, e))
  {
    JoinCutFresh(st, s, e);
    RemoveShiftFresh(JoinCut(st, s, e), s, e);
  }

  /** A list with the same clips as one with unique ids has unique ids. */
  lemma {:induction false} SortKeepsFresh(st: State)
    requires Fresh(st)
    ensures Fresh(State(SortByStart(st.clips), st.next))
  {
    SortMembers(st.clips);
  }

  /** `on_join_region` keeps ids unique and below the supply. */
  lemma {:induction false} JoinFresh(st: State, s: real, e: real)
    requires Fresh(st)
    ensures Fresh(Join(st, s, e))
  {
    if e - s > 0.01 {
      JoinStepFresh(st, s, e);
      SortKeepsFresh(JoinStep(st, s, e));
    }
  }

  // ---------------------------------------------------------------------
  // `on_join_all_regions`

  /** Ordered by start, latest first. */
  predicate Descending(rs: seq<Region>)
  {
    forall i, j :: 0 <= i < j < |rs| ==> rs[i].0 >= rs[j].0
  }

  /** Where a stable descending sort puts `r` when it comes after every
      region of `rs`: just after the last region that does not start
      earlier. */
  function RegionPoint(rs: seq<Region>, r: Region): (k: nat)
    ensures k <= |rs|
    ensures forall i :: k <= i < |rs| ==> rs[i].0 < r.0
    ensures k > 0 ==> rs[k - 1].0 >= r.0
    decreases |rs|
  {
    if rs == [] || rs[|rs| - 1].0 >= r.0 then |rs| else RegionPoint(rs[..|rs| - 1], r)
  }

  /** `r` placed at its point in a list of regions. */
  function InsertRegion(rs: seq<Region>, r: Region): (q: seq<Region>)
    ensures multiset(q) == multiset(rs) + multiset{r}
  {
    var k := RegionPoint(rs, r);
    assert rs == rs[..k] + rs[k..];
    rs[..k] + [r] + rs[k..]
  }

  /** Inserting into a descending list keeps it descending. */
  lemma {:induction false} InsertRegionDescending(rs: seq<Region>, r: Region)
    requires Descending(rs)
    ensures Descending(InsertRegion(rs, r))
  {
    var k := RegionPoint(rs, r);
    var q := InsertRegion(rs, r);
    forall i, j | 0 <= i < j < |q|
      ensures q[i].0 >= q[j].0
    {
      if i < k && j >= k {
        assert rs[i].0 >= rs[k - 1].0;
      }
    }
  }

  /** `sorted(regions, key=lambda r: r[0], reverse=True)`: the regions,
      latest start first, regions with equal starts in their given order. */
  function SortRegions(rs: seq<Region>): (q: seq<Region>)
    ensures Descending(q)
    ensures multiset(q) == multiset(rs)
    decreases |rs|
  {
    if rs == [] then []
    else
      assert rs == rs[..|rs| - 1] + [rs[|rs| - 1]];
      InsertRegionDescending(SortRegions(rs[..|rs| - 1]), rs[|rs| - 1]);
      InsertRegion(SortRegions(rs[..|rs| - 1]), rs[|rs| - 1])
  }

  /** The regions of a list that start at `v`, in list order. */
  function RegionsAt(rs: seq<Region>, v: real): seq<Region>
    decreases |rs|
  {
    if rs == [] then [] else (if rs[0].0 == v then [rs[0]] else []) + RegionsAt(rs[1..], v)
  }

  /** Picking the regions starting at `v` distributes over concatenation. */
  lemma {:induction false} RegionsAtAppend(a: seq<Region>, b: seq<Region>, v: real)
    ensures RegionsAt(a + b, v) == RegionsAt(a, v) + RegionsAt(b, v)
    decreases |a|
  {
    if a == [] {
      assert a + b == b;
    } else {
      assert (a + b)[0] == a[0] && (a + b)[1..] == a[1..] + b;
      RegionsAtAppend(a[1..], b, v);
      var h := if a[0].0 == v then [a[0]] else [];
      assert RegionsAt(a + b, v) == h + (RegionsAt(a[1..], v) + RegionsAt(b, v));
      assert RegionsAt(a, v) == h + RegionsAt(a[1..], v);
    }
  }

  /** A list in which no region starts at `v` has none to pick. */
  lemma {:induction false} RegionsAtNone(rs: seq<Region>, v: real)
    requires forall i :: 0 <= i < |rs| ==> rs[i].0 != v
    ensures RegionsAt(rs, v) == []
    decreases |rs|
  {
    if rs != [] {
      RegionsAtNone(rs[1..], v);
    }
  }

  /** Picking from three concatenated parts. */
  lemma {:induction false} RegionsAtAppend3(a: seq<Region>, r: Region, b: seq<Region>, v: real)
    ensures RegionsAt(a + [r] + b, v) == RegionsAt(a, v) + RegionsAt([r], v) + RegionsAt(b, v)
  {
    RegionsAtAppend(a + [r], b, v);
    RegionsAtAppend(a, [r], v);
  }

  /** `InsertRegion` places `r` at its point. */
  lemma {:induction false} InsertRegionAt(rs: seq<Region>, r: Region)
    ensures InsertRegion(rs, r) == rs[..RegionPoint(rs, r)] + [r] + rs[RegionPoint(rs, r)..]
  {
  }

  /** Picking from a list cut in two. */
  lemma {:induction false} RegionsAtSplit(rs: seq<Region>, k: nat, v: real)
    requires k <= |rs|
    ensures RegionsAt(rs, v) == RegionsAt(rs[..k], v) + RegionsAt(rs[k..], v)
  {
    assert rs == rs[..k] + rs[k..];
    RegionsAtAppend(rs[..k], rs[k..], v);
  }

  /** One insertion step is stable: `r` goes after the regions with the same
      start, and their order is kept. */
  lemma {:induction false} InsertRegionStable(rs: seq<Region>, r: Region, v: real)
    ensures RegionsAt(InsertRegion(rs, r), v) == RegionsAt(rs, v) + RegionsAt([r], v)
  {
    InsertRegionAt(rs, r);
    PlacedAfterEqual(rs, RegionPoint(rs, r), r, v);
  }

  /** Placing `r` before regions that all start earlier than it keeps the
      order of the regions starting at any `v`, `r` going last among them. */
  lemma {:induction false} PlacedAfterEqual(rs: seq<Region>, k: nat, r: Region, v: real)
    requires k <= |rs|
    requires forall i :: k <= i < |rs| ==> rs[i].0 < r.0
    ensures RegionsAt(rs[..k] + [r] + rs[k..], v) == RegionsAt(rs, v) + RegionsAt([r], v)
  {
    var a, b := rs[..k], rs[k..];
    RegionsAtAppend3(a, r, b, v);
    RegionsAtSplit(rs, k, v);
    var pa, pr, pb := RegionsAt(a, v), RegionsAt([r], v), RegionsAt(b, v);
    if v == r.0 {
      assert forall i :: 0 <= i < |b| ==> b[i].0 != v;
      RegionsAtNone(b, v);
      assert pa + pr + pb == pa + pb + pr;
    } else {
      assert pr == [];
      assert pa + pr + pb == pa + pb + pr;
    }
  }

  /** `sorted(..., reverse=True)` is stable: regions with the same start keep
      their given order. */
  lemma {:induction false} SortRegionsStable(rs: seq<Region>, v: real)
    ensures RegionsAt(SortRegions(rs), v) == RegionsAt(rs, v)
    decreases |rs|
  {
    if rs != [] {
      var init, last := rs[..|rs| - 1], rs[|rs| - 1];
      SortRegionsStable(init, v);
      InsertRegionStable(SortRegions(init), last, v);
      assert rs == init + [last];
      RegionsAtAppend(init, [last], v);
    }
  }

  /** One iteration of `on_join_all_regions`: skipped for a region of length
      0.01 or less, else its splits, removal and shift. */
  function JoinAllStep(st: State, r: Region): State
  {
    if r.1 - r.0 <= 0.01 then st else JoinStep(st, r.0, r.1)
  }

  /** The iterations of `on_join_all_regions`, in the order given. */
  function JoinEach(st: State, rs: seq<Region>): State
    decreases |rs|
  {
    if rs == [] then st else JoinAllStep(JoinEach(st, rs[..|rs| - 1]), rs[|rs| - 1])
  }

  /** `on_join_all_regions`: the regions latest first, then one sort at the
      end. */
  function JoinAll(st: State, rs: seq<Region>): State
  {
    var m := JoinEach(st, SortRegions(rs));
    State(SortByStart(m.clips), m.next)
  }

  /** `JoinAll` from the state after its iterations. */
  lemma {:induction false} JoinAllOf(st: State, rs: seq<Region>, ordered: seq<Region>, m: State)
    requires ordered == SortRegions(rs) && m == JoinEach(st, ordered)
    ensures JoinAll(st, rs) == State(SortByStart(m.clips), m.next)
  {
  }

  /** Joining all of a one-region list is joining that region. */
  lemma {:induction false} JoinAllSingle(st: State, r: Region)
    requires Sorted(st.clips)
    ensures JoinAll(st, [r]) == Join(st, r.0, r.1)
  {
    JoinEachSingle(st, r);
    if r.1 - r.0 <= 0.01 {
      SortOfSorted(st.clips);
    }
  }

  /** The iterations over a one-region list. */
  lemma {:induction false} JoinEachSingle(st: State, r: Region)
    ensures JoinEach(st, SortRegions([r])) == JoinAllStep(st, r)
  {
    assert [r][..0] == [];
    assert SortRegions([r]) == [r];
  }

  /** The iterations of `on_join_all_regions` keep ids unique and below the
      supply. */
  lemma {:induction false} JoinEachFresh(st: State, rs: seq<Region>)
    requires Fresh(st)
    ensures Fresh(JoinEach(st, rs))
    decreases |rs|
  {
    if rs != [] {
      JoinEachFresh(st, rs[..|rs| - 1]);
      var r := rs[|rs| - 1];
      if r.1 - r.0 > 0.01 {
        JoinStepFresh(JoinEach(st, rs[..|rs| - 1]), r.0, r.1);
      }
    }
  }

  /** `on_join_all_regions` keeps ids unique and below the supply. */
  lemma {:induction false} JoinAllFresh(st: State, rs: seq<Region>)
    requires Fresh(st)
    ensures Fresh(JoinAll(st, rs))
  {
    JoinEachFresh(st, SortRegions(rs));
    SortKeepsFresh(JoinEach(st, SortRegions(rs)));
  }
}

/** The editor's timeline (`Timeline` and `TimelineClip` in
    videoeditor/main.py): clip records kept in a list ordered by their start
    on the timeline. Times are seconds, modelled as exact reals. */
module EditorTimeline {

  /** `track_type`: a clip sits on a video track or an audio track. */
  datatype TrackKind = Video | Audio

  /** A `TimelineClip`. Its `uuid4` id is a number drawn from a fresh-id
      supply; group ids are drawn from the same supply. */
  datatype Clip = Clip(
    id: nat,
    path: string,
    start: real,       // timeline_start_sec
    clipStart: real,   // clip_start_sec, the offset into the source file
    duration: real,    // duration_sec
    track: int,        // track_index
    kind: TrackKind,   // track_type
    group: nat)        // group_id

  /** `timeline_end_sec`. */
  function End(c: Clip): real
  {
    c.start + c.duration
  }

  /** The clip strictly straddles time `t`, the test `_split_at_time` makes. */
  predicate Spans(c: Clip, t: real)
  {
    c.start < t < End(c)
  }

  /** Ordered by `timeline_start_sec`, as `clips.sort(key=...)` leaves the list. */
  predicate Sorted(s: seq<Clip>)
  {
    forall i, j :: 0 <= i < j < |s| ==> s[i].start <= s[j].start
  }

  // ---------------------------------------------------------------------
  // The stable sort by start

  /** Where a stable sort puts `c` when it comes after every clip of `s`:
      just after the last clip that does not start later. */
  function InsertionPoint(s: seq<Clip>, c: Clip): (k: nat)
    ensures k <= |s|
    ensures forall i :: k <= i < |s| ==> s[i].start > c.start
    ensures k > 0 ==> s[k - 1].start <= c.start
    decreases |s|
  {
    if s == [] || s[|s| - 1].start <= c.start then |s| else InsertionPoint(s[..|s| - 1], c)
  }

  /** One step of the insertion sort: `c` moves left past the clips that
      start later than it. */
  function InsertByStart(s: seq<Clip>, c: Clip): (r: seq<Clip>)
    ensures |r| == |s| + 1
    ensures multiset(r) == multiset(s) + multiset{c}
    decreases |s|
  {
    if s == [] || s[|s| - 1].start <= c.start then s + [c]
    else
      assert s == s[..|s| - 1] + [s[|s| - 1]];
      InsertByStart(s[..|s| - 1], c) + [s[|s| - 1]]
  }

  /** The step puts `c` at its insertion point, moving nothing else. */
  lemma {:induction false} InsertAtPoint(s: seq<Clip>, c: Clip)
    ensures var k := InsertionPoint(s, c);
      InsertByStart(s, c) == s[..k] + [c] + s[k..]
    decreases |s|
  {
    if s == [] || s[|s| - 1].start <= c.start {
      InsertLast(s, c);
    } else {
      var init := s[..|s| - 1];
      InsertAtPoint(init, c);
      InsertStep(s, c, init, s[|s| - 1], InsertionPoint(init, c), InsertByStart(init, c));
    }
  }

  /** The base case of `InsertAtPoint`: the insertion point is the end. */
  lemma {:induction false} InsertLast(s: seq<Clip>, c: Clip)
    ensures s + [c] == s[..|s|] + [c] + s[|s|..]
  {
    assert s[..|s|] == s;
  }

  /** The recursive case of `InsertAtPoint`: the clip moved past is put back
      after the insertion. */
  lemma {:induction false} InsertStep(s: seq<Clip>, c: Clip, init: seq<Clip>, last: Clip, k: nat, r0: seq<Clip>)
    requires s == init + [last] && k <= |init|
    requires r0 == init[..k] + [c] + init[k..]
    ensures r0 + [last] == s[..k] + [c] + s[k..]
  {
    assert s[..k] == init[..k];
    assert s[k..] == init[k..] + [last];
  }

  /** Inserting into an ordered list keeps it ordered. */
  lemma {:induction false} InsertKeepsSorted(s: seq<Clip>, c: Clip)
    requires Sorted(s)
    ensures Sorted(InsertByStart(s, c))
  {
    var k := InsertionPoint(s, c);
    var r := InsertByStart(s, c);
    InsertAtPoint(s, c);
    forall i, j | 0 <= i < j < |r|
      ensures r[i].start <= r[j].start
    {
      if j < k || i > k {
      } else if i == k {
      } else if i < k && j == k {
        assert s[i].start <= s[k - 1].start;
      } else {
        assert s[i].start <= s[k - 1].start;
      }
    }
  }

  /** `list.sort(key=lambda c: c.timeline_start_sec)`: a stable insertion
      sort, each clip going after every earlier clip that does not start
      later than it. */
  function SortByStart(s: seq<Clip>): (r: seq<Clip>)
    ensures multiset(r) == multiset(s)
    ensures |r| == |s|
    decreases |s|
  {
    if s == [] then []
    else
      var init := SortByStart(s[..|s| - 1]);
      assert s == s[..|s| - 1] + [s[|s| - 1]];
      InsertByStart(init, s[|s| - 1])
  }

  /** The sort orders the clips by start. */
  lemma {:induction false} SortByStartSorted(s: seq<Clip>)
    ensures Sorted(SortByStart(s))
    decreases |s|
  {
    if s != [] {
      SortByStartSorted(s[..|s| - 1]);
      InsertKeepsSorted(SortByStart(s[..|s| - 1]), s[|s| - 1]);
    }
  }

  /** Sorting an ordered list changes nothing. */
  lemma {:induction false} SortOfSorted(s: seq<Clip>)
    requires Sorted(s)
    ensures SortByStart(s) == s
    decreases |s|
  {
    if s != [] {
      var init := s[..|s| - 1];
      SortOfSorted(init);
      assert init == [] || init[|init| - 1].start <= s[|s| - 1].start;
      assert init + [s[|s| - 1]] == s;
    }
  }

  /** The clips of a list that start at `v`, in list order. */
  function StartingAt(s: seq<Clip>, v: real): seq<Clip>
    decreases |s|
  {
    if s == [] then [] else (if s[0].start == v then [s[0]] else []) + StartingAt(s[1..], v)
  }

  /** Picking the clips starting at `v` distributes over concatenation. */
  lemma {:induction false} StartingAtAppend(a: seq<Clip>, b: seq<Clip>, v: real)
    ensures StartingAt(a + b, v) == StartingAt(a, v) + StartingAt(b, v)
    decreases |a|
  {
    if a == [] {
      assert a + b == b;
    } else {
      assert (a + b)[0] == a[0] && (a + b)[1..] == a[1..] + b;
      StartingAtAppend(a[1..], b, v);
      var h := if a[0].start == v then [a[0]] else [];
      assert StartingAt(a + b, v) == h + (StartingAt(a[1..], v) + StartingAt(b, v));
      assert StartingAt(a, v) == h + StartingAt(a[1..], v);
    }
  }

  /** A list in which no clip starts at `v` has none to pick. */
  lemma {:induction false} StartingAtNone(s: seq<Clip>, v: real)
    requires forall i :: 0 <= i < |s| ==> s[i].start != v
    ensures StartingAt(s, v) == []
    decreases |s|
  {
    if s != [] {
      StartingAtNone(s[1..], v);
    }
  }

  /** One insertion step is stable: `c` goes after the clips that start at
      the same time as it, and their order is kept. */
  lemma {:induction false} InsertByStartStable(s: seq<Clip>, c: Clip, v: real)
    ensures StartingAt(InsertByStart(s, c), v) == StartingAt(s, v) + StartingAt([c], v)
  {
    InsertAtPoint(s, c);
    PlacedAfterEqual(s, InsertionPoint(s, c), c, v);
  }

  /** Placing `c` before clips that all start later than it keeps the order
      of the clips starting at any `v`, `c` going last among them. */
  lemma {:induction false} PlacedAfterEqual(s: seq<Clip>, k: nat, c: Clip, v: real)
    requires k <= |s|
    requires forall i :: k <= i < |s| ==> s[i].start > c.start
    ensures StartingAt(s[..k] + [c] + s[k..], v) == StartingAt(s, v) + StartingAt([c], v)
  {
    var a, b := s[..k], s[k..];
    StartingAtAppend(a + [c], b, v);
    StartingAtAppend(a, [c], v);
    assert s == a + b;
    StartingAtAppend(a, b, v);
    var pa, pc, pb := StartingAt(a, v), StartingAt([c], v), StartingAt(b, v);
    if v == c.start {
      assert forall i :: 0 <= i < |b| ==> b[i].start != v;
      StartingAtNone(b, v);
      assert pa + pc + pb == pa + pb + pc;
    } else {
      assert pc == [];
      assert pa + pc + pb == pa + pb + pc;
    }
  }

  /** The sort is stable, as Python's `list.sort` is: clips that start at the
      same time keep their relative order. */
  lemma {:induction false} SortByStartStable(s: seq<Clip>, v: real)
    ensures StartingAt(SortByStart(s), v) == StartingAt(s, v)
    decreases |s|
  {
    if s != [] {
      var init, last := s[..|s| - 1], s[|s| - 1];
      SortByStartStable(init, v);
      InsertByStartStable(SortByStart(init), last, v);
      assert s == init + [last];
      StartingAtAppend(init, [last], v);
    }
  }

  /** On an ordered list the insertion point splits the clips into those
      starting no later than `c` and those starting later. */
  lemma {:induction false} InsertionSplits(s: seq<Clip>, c: Clip)
    requires Sorted(s)
    ensures forall i :: 0 <= i < InsertionPoint(s, c) ==> s[i].start <= c.start
  {
    var k := InsertionPoint(s, c);
    forall i | 0 <= i < k
      ensures s[i].start <= c.start
    {
      assert s[i].start <= s[k - 1].start;
    }
  }

  /** Appending a clip to an ordered list and sorting is inserting it at its
      insertion point: after every clip that starts no later than it (by
      `InsertionSplits`), before every clip that starts later, with nothing
      else moved. */
  lemma {:induction false} AppendThenSort(s: seq<Clip>, c: Clip)
    requires Sorted(s)
    ensures SortByStart(s + [c]) == InsertByStart(s, c)
  {
    assert (s + [c])[..|s|] == s;
    SortOfSorted(s);
  }

  // ---------------------------------------------------------------------
  // Total duration

  /** The latest end among the clips of a non-empty list. */
  function MaxEnd(s: seq<Clip>): (d: real)
    requires s != []
    ensures forall i :: 0 <= i < |s| ==> End(s[i]) <= d
    ensures exists i :: 0 <= i < |s| && End(s[i]) == d
    decreases |s|
  {
    if |s| == 1 then End(s[0])
    else
      var rest := MaxEnd(s[1..]);
      assert forall i :: 1 <= i < |s| ==> s[i] == s[1..][i - 1];
      if End(s[0]) >= rest then End(s[0]) else rest
  }

  /** `get_total_duration`: 0 for an empty timeline, else the latest end. */
  function TotalDurationOf(s: seq<Clip>): (d: real)
    ensures s == [] ==> d == 0.0
    ensures s != [] ==> (forall i :: 0 <= i < |s| ==> End(s[i]) <= d) && (exists i :: 0 <= i < |s| && End(s[i]) == d)
  {
    if s == [] then 0.0 else MaxEnd(s)
  }

  /** Two lists each of whose ends is bounded by the other's total
      duration have the same total duration. */
  lemma {:induction false} TotalDurationByBounds(s: seq<Clip>, t: seq<Clip>)
    requires s != [] && t != []
    requires forall i :: 0 <= i < |s| ==> End(s[i]) <= TotalDurationOf(t)
    requires forall j :: 0 <= j < |t| ==> End(t[j]) <= TotalDurationOf(s)
    ensures TotalDurationOf(s) == TotalDurationOf(t)
  {
    var i :| 0 <= i < |s| && End(s[i]) == TotalDurationOf(s);
    var j :| 0 <= j < |t| && End(t[j]) == TotalDurationOf(t);
  }

  // ---------------------------------------------------------------------
  // Track counts

  /** Some clip of the given kind sits on track `k`. */
  predicate Occupied(s: seq<Clip>, kind: TrackKind, k: int)
  {
    exists c :: c in s && c.kind == kind && c.track == k
  }

  /** What `prune_empty_tracks` leaves of a track count `n` of one kind: the
      count goes down while it is above 1 and the highest track of that kind
      holds no clip. */
  function PrunedCount(s: seq<Clip>, kind: TrackKind, n: int): (r: int)
    ensures n <= 1 ==> r == n
    ensures n > 1 ==> 1 <= r <= n
    ensures forall k :: r < k <= n ==> !Occupied(s, kind, k)
    ensures r > 1 ==> Occupied(s, kind, r)
    decreases n
  {
    if n > 1 && !Occupied(s, kind, n) then PrunedCount(s, kind, n - 1) else n
  }

  /** Pruning twice prunes nothing more. */
  lemma {:induction false} PruneIdempotent(s: seq<Clip>, kind: TrackKind, n: int)
    ensures PrunedCount(s, kind, PrunedCount(s, kind, n)) == PrunedCount(s, kind, n)
  {
  }

  /** Pruning never removes a track that holds a clip: the count stays at or
      above every occupied track up to it. */
  lemma {:induction false} PruneKeepsOccupied(s: seq<Clip>, kind: TrackKind, n: int, k: int)
    requires 1 <= k <= n && Occupied(s, kind, k)
    ensures k <= PrunedCount(s, kind, n)
  {
  }

  // ---------------------------------------------------------------------
  // The timeline object

  /** `Timeline`: the clip list and the number of video and audio tracks. */
  class Timeline {
    var clips: seq<Clip>
    var numVideoTracks: int
    var numAudioTracks: int

    /** An empty timeline with one track of each kind. */
    constructor()
      ensures clips == [] && numVideoTracks == 1 && numAudioTracks == 1
    {
      clips := [];
      numVideoTracks := 1;
      numAudioTracks := 1;
    }

    /** `add_clip`: append the clip, then sort the list by start. */
    method AddClip(c: Clip)
      modifies this
      ensures clips == SortByStart(old(clips) + [c])
      ensures numVideoTracks == old(numVideoTracks) && numAudioTracks == old(numAudioTracks)
    {
      clips := clips + [c];
      clips := SortByStart(clips);
    }

    /** `get_total_duration`. */
    function TotalDuration(): (d: real)
      reads this
      ensures clips == [] ==> d == 0.0
      ensures clips != [] ==> (forall i :: 0 <= i < |clips| ==> End(clips[i]) <= d) && (exists i :: 0 <= i < |clips| && End(clips[i]) == d)
    {
      TotalDurationOf(clips)
    }
  }
}

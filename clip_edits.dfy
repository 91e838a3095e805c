/** The clip-list edits of the editor's main window (`_split_at_time` and the
    operations built from it in videoeditor/main.py), stated on values: the
    clip list together with the fresh-id supply that stands for `uuid4`. */
module ClipEdits {
  import opened Strings
  import opened EditorTimeline

  /** The clip list and the next unused id. */
  datatype State = State(clips: seq<Clip>, next: nat)

  /** Each clip object occurs once and no two clips share an id: the ids
      stand for the identity of the clip objects. */
  predicate UniqueIds(s: seq<Clip>)
  {
    && (forall c | c in multiset(s) :: multiset(s)[c] == 1)
    && (forall c, d :: c in s && d in s && c.id == d.id ==> c == d)
  }

  /** Ids and group ids in use are all below the next id to be drawn. */
  predicate Fresh(st: State)
  {
    && UniqueIds(st.clips)
    && (forall c :: c in st.clips ==> c.id < st.next && c.group < st.next)
  }

  function Ids(s: seq<Clip>): set<nat>
  {
    set c | c in s :: c.id
  }

  /** Position of the first clip with the given id. */
  function IndexOf(s: seq<Clip>, id: nat): (k: nat)
    requires id in Ids(s)
    ensures k < |s| && s[k].id == id
    decreases |s|
  {
    if s[0].id == id then 0
    else
      var c :| c in s && c.id == id;
      assert c in s[1..];
      IndexOf(s[1..], id) + 1
  }

  /** The clip object an id names. */
  function ClipOf(s: seq<Clip>, id: nat): (c: Clip)
    requires id in Ids(s)
    ensures c in s && c.id == id
  {
    s[IndexOf(s, id)]
  }

  // ---------------------------------------------------------------------
  // `_split_at_time`

  /** The original clip after the split: cut short so that it ends at `t`. */
  function Head(c: Clip, t: real): (h: Clip)
    ensures h.id == c.id && h.path == c.path && h.track == c.track && h.kind == c.kind && h.group == c.group
    ensures h.start == c.start && h.clipStart == c.clipStart && End(h) == t
  {
    c.(duration := t - c.start)
  }

  /** The new clip of a split: the rest of `c` from `t` on, reading the
      source from the matching offset. */
  function Tail(c: Clip, t: real, id: nat, group: nat): (r: Clip)
    ensures r.id == id && r.group == group && r.path == c.path && r.track == c.track && r.kind == c.kind
    ensures r.start == t && End(r) == End(c) && r.clipStart == c.clipStart + (t - c.start)
    ensures r.duration + Head(c, t).duration == c.duration
  {
    Clip(id, c.path, t, c.clipStart + (t - c.start), c.duration - (t - c.start), c.track, c.kind, group)
  }

  /** The group the new clip joins: the one asked for, else the original's. */
  function GroupFor(c: Clip, g: Option<nat>): nat
  {
    if g.Some? then g.value else c.group
  }

  /** `_split_at_time(clip, t, new_group_id)` on the clip with id `id`: refused
      unless the clip straddles `t`; otherwise the clip is cut short at `t`
      and the rest, under a fresh id, is added with `add_clip`. The result
      says whether the split happened. */
  function Split(st: State, id: nat, t: real, g: Option<nat>): (r: (State, bool))
    requires id in Ids(st.clips)
  {
    var k := IndexOf(st.clips, id);
    var c := st.clips[k];
    if !Spans(c, t) then (st, false)
    else (State(SortByStart(st.clips[k := Head(c, t)] + [Tail(c, t, st.next, GroupFor(c, g))]), st.next + 1), true)
  }

  /** The value of a split in each of its two cases, for callers that
      build it step by step. */
  lemma {:induction false} SplitCases(st: State, id: nat, t: real, g: Option<nat>, k: nat)
    requires id in Ids(st.clips) && k == IndexOf(st.clips, id)
    ensures Split(st, id, t, g).1 == Spans(st.clips[k], t)
    ensures !Spans(st.clips[k], t) ==> Split(st, id, t, g).0 == st
    ensures Spans(st.clips[k], t) ==>
      Split(st, id, t, g).0 == State(SortByStart(st.clips[k := Head(st.clips[k], t)] + [Tail(st.clips[k], t, st.next, GroupFor(st.clips[k], g))]), st.next + 1)
  {
  }

  /** Overwriting one element of a list trades it for the new value. */
  lemma {:induction false} UpdateMultiset(s: seq<Clip>, k: nat, v: Clip)
    requires k < |s|
    ensures multiset(s[k := v]) == multiset(s) - multiset{s[k]} + multiset{v}
  {
    assert s == s[..k] + [s[k]] + s[k + 1..];
    assert s[k := v] == s[..k] + [v] + s[k + 1..];
  }

  /** A split happens exactly when the clip straddles the time, changes
      nothing otherwise, and else replaces the clip by its two pieces: the
      head, which keeps the id and ends at `t`, and the tail, which takes the
      next id and runs from `t` to the old end. The list stays ordered. */
  lemma {:induction false} SplitEffect(st: State, id: nat, t: real, g: Option<nat>)
    requires id in Ids(st.clips)
    ensures var c := st.clips[IndexOf(st.clips, id)];
      var r := Split(st, id, t, g);
      && (r.1 <==> Spans(c, t))
      && (!r.1 ==> r.0 == st)
      && (r.1 ==> (r.0.next == st.next + 1 && Sorted(r.0.clips)
            && multiset(r.0.clips) == multiset(st.clips) - multiset{c} + multiset{Head(c, t), Tail(c, t, st.next, GroupFor(c, g))}))
  {
    var k := IndexOf(st.clips, id);
    var c := st.clips[k];
    SplitCases(st, id, t, g, k);
    if Spans(c, t) {
      var tl := Tail(c, t, st.next, GroupFor(c, g));
      var s' := st.clips[k := Head(c, t)];
      UpdateMultiset(st.clips, k, Head(c, t));
      assert multiset(s' + [tl]) == multiset(s') + multiset{tl};
      var sorted := SortByStart(s' + [tl]);
      SortByStartSorted(s' + [tl]);
      assert multiset(sorted) == multiset(st.clips) - multiset{c} + multiset{Head(c, t), tl};
    }
  }

  /** Under unique ids, the clip an id names is the only clip with that id. */
  lemma {:induction false} ClipOfUnique(s: seq<Clip>, id: nat)
    requires UniqueIds(s) && id in Ids(s)
    ensures forall x :: x in s && x.id == id ==> x == s[IndexOf(s, id)]
  {
  }

  /** Membership after a split that happened: the clips other than the split
      one, and its two pieces. */
  lemma {:induction false} SplitMembers(st: State, id: nat, t: real, g: Option<nat>)
    requires id in Ids(st.clips) && UniqueIds(st.clips)
    requires Split(st, id, t, g).1
    ensures var c := st.clips[IndexOf(st.clips, id)];
      var r := Split(st, id, t, g).0;
      forall x :: x in r.clips <==> (x in st.clips && x != c) || x == Head(c, t) || x == Tail(c, t, st.next, GroupFor(c, g))
  {
    var c := st.clips[IndexOf(st.clips, id)];
    SplitEffect(st, id, t, g);
    ReplaceMembers(st.clips, Split(st, id, t, g).0.clips, c, Head(c, t), Tail(c, t, st.next, GroupFor(c, g)));
  }

  /** Membership in a list whose multiset is another's with one clip
      replaced by two. */
  lemma {:induction false} ReplaceMembers(s: seq<Clip>, r: seq<Clip>, c: Clip, h: Clip, tl: Clip)
    requires c in s && UniqueIds(s)
    requires multiset(r) == multiset(s) - multiset{c} + multiset{h, tl}
    ensures forall x :: x in r <==> (x in s && x != c) || x == h || x == tl
  {
    forall x
      ensures x in r <==> (x in s && x != c) || x == h || x == tl
    {
      assert x in r <==> multiset(r)[x] > 0;
      assert x in s <==> multiset(s)[x] > 0;
      assert multiset(s)[c] == 1;
    }
  }

  /** Replacing a clip by its head (same id) and a tail under the next id
      keeps ids unique and everything below the advanced supply. */
  lemma {:induction false} ReplaceKeepsFresh(s: seq<Clip>, r: seq<Clip>, c: Clip, h: Clip, tl: Clip, next: nat)
    requires Fresh(State(s, next)) && c in s
    requires multiset(r) == multiset(s) - multiset{c} + multiset{h, tl}
    requires h.id == c.id && h.group == c.group && h != c && tl.id == next && tl.group <= next
    ensures Fresh(State(r, next + 1))
    ensures Ids(s) <= Ids(r)
  {
    ReplaceMembers(s, r, c, h, tl);
    assert h !in s;
    assert tl !in s;
    forall x | x in multiset(r)
      ensures multiset(r)[x] == 1
    {
      assert multiset(s)[x] <= 1;
    }
    forall i | i in Ids(s)
      ensures i in Ids(r)
    {
      var x :| x in s && x.id == i;
      if x == c {
        assert h in r;
      } else {
        assert x in r;
      }
    }
  }

  /** A split whose new group is in use or fresh keeps ids unique and every
      id and group below the next id, and loses no id. */
  lemma {:induction false} SplitKeepsFresh(st: State, id: nat, t: real, g: Option<nat>)
    requires id in Ids(st.clips) && Fresh(st)
    requires g.Some? ==> g.value < st.next
    ensures Fresh(Split(st, id, t, g).0)
    ensures Ids(st.clips) <= Ids(Split(st, id, t, g).0.clips)
    ensures Split(st, id, t, g).0.next >= st.next
  {
    SplitEffect(st, id, t, g);
    if Split(st, id, t, g).1 {
      var c := st.clips[IndexOf(st.clips, id)];
      ReplaceKeepsFresh(st.clips, Split(st, id, t, g).0.clips, c, Head(c, t), Tail(c, t, st.next, GroupFor(c, g)), st.next);
    }
  }

  /** A split never makes a clip straddle a time no clip straddled before:
      both pieces lie within the original. */
  lemma {:induction false} SplitAddsNoSpan(st: State, id: nat, t: real, g: Option<nat>, q: real)
    requires id in Ids(st.clips) && UniqueIds(st.clips)
    requires forall x :: x in st.clips ==> !Spans(x, q)
    ensures forall x :: x in Split(st, id, t, g).0.clips ==> !Spans(x, q)
  {
    SplitEffect(st, id, t, g);
    if Split(st, id, t, g).1 {
      SplitMembers(st, id, t, g);
    }
  }

  /** Replacing a clip by two pieces, one ending at the original's end and
      neither ending later, keeps the total duration. */
  lemma {:induction false} ReplaceKeepsTotalDuration(s: seq<Clip>, r: seq<Clip>, c: Clip, h: Clip, tl: Clip)
    requires c in s && UniqueIds(s)
    requires multiset(r) == multiset(s) - multiset{c} + multiset{h, tl}
    requires End(h) <= End(c) && End(tl) == End(c)
    ensures TotalDurationOf(r) == TotalDurationOf(s)
  {
    ReplaceMembers(s, r, c, h, tl);
    var dOld, dNew := TotalDurationOf(s), TotalDurationOf(r);
    assert tl in r;
    forall i | 0 <= i < |r|
      ensures End(r[i]) <= dOld
    {
      assert r[i] in r;
      if r[i] != h && r[i] != tl {
        var j :| 0 <= j < |s| && s[j] == r[i];
      } else {
        var j :| 0 <= j < |s| && s[j] == c;
      }
    }
    forall j | 0 <= j < |s|
      ensures End(s[j]) <= dNew
    {
      var x := s[j];
      if x == c {
        var i :| 0 <= i < |r| && r[i] == tl;
      } else {
        assert x in r;
        var i :| 0 <= i < |r| && r[i] == x;
      }
    }
    TotalDurationByBounds(s, r);
  }

  /** `_split_at_time` preserves the total duration. */
  lemma {:induction false} SplitKeepsTotalDuration(st: State, id: nat, t: real, g: Option<nat>)
    requires id in Ids(st.clips) && UniqueIds(st.clips)
    ensures TotalDurationOf(Split(st, id, t, g).0.clips) == TotalDurationOf(st.clips)
  {
    SplitEffect(st, id, t, g);
    if Split(st, id, t, g).1 {
      var c := st.clips[IndexOf(st.clips, id)];
      ReplaceKeepsTotalDuration(st.clips, Split(st, id, t, g).0.clips, c, Head(c, t), Tail(c, t, st.next, GroupFor(c, g)));
    }
  }

  /** A split loses no id: the head keeps the id of the clip it cuts. */
  lemma {:induction false} SplitKeepsIds(st: State, id: nat, t: real, g: Option<nat>)
    requires id in Ids(st.clips)
    ensures Ids(st.clips) <= Ids(Split(st, id, t, g).0.clips)
  {
    SplitEffect(st, id, t, g);
    if Split(st, id, t, g).1 {
      var c := st.clips[IndexOf(st.clips, id)];
      var r := Split(st, id, t, g).0.clips;
      forall i | i in Ids(st.clips)
        ensures i in Ids(r)
      {
        var x :| x in st.clips && x.id == i;
        if x == c {
          assert multiset(r)[Head(c, t)] > 0;
          assert Head(c, t) in r;
        } else {
          assert multiset(st.clips)[x] > 0;
          assert multiset(r)[x] > 0;
          assert x in r;
        }
      }
    }
  }

  // ---------------------------------------------------------------------
  // A pass of splits over a snapshot of the clip list

  /** Which clips a pass of splits at one time cuts, and the group each new
      piece joins. */
  datatype Regroup =
    | KeepGroups                   // every clip; the new piece keeps the clip's group
    | NewGroups(m: map<nat, nat>)  // clips whose group is a key; the new piece joins m[group]

  /** The step reaches for a split of the clip (the split itself may still
      be refused). */
  predicate Cuts(st: State, id: nat, mode: Regroup)
    requires id in Ids(st.clips)
  {
    mode.KeepGroups? || ClipOf(st.clips, id).group in mode.m
  }

  /** The group argument the step passes to `_split_at_time`. */
  function GroupOfStep(st: State, id: nat, mode: Regroup): Option<nat>
    requires id in Ids(st.clips)
  {
    match mode
    case KeepGroups => None
    case NewGroups(m) => var c := ClipOf(st.clips, id); if c.group in m then Some(m[c.group]) else None
  }

  /** One iteration of the pass, on the clip with id `id`. The snapshot's
      clips never leave the list during a pass (`PassKeepsIds`), so the first
      branch is never taken for them. */
  function StepAt(st: State, id: nat, t: real, mode: Regroup): State
  {
    if id !in Ids(st.clips) then st
    else if Cuts(st, id, mode) then Split(st, id, t, GroupOfStep(st, id, mode)).0
    else st
  }

  /** `for clip in snapshot: _split_at_time(clip, t, ...)`, the snapshot
      given by the ids of its clips, in order. */
  function SplitEach(st: State, ids: seq<nat>, t: real, mode: Regroup): State
    decreases |ids|
  {
    if ids == [] then st else StepAt(SplitEach(st, ids[..|ids| - 1], t, mode), ids[|ids| - 1], t, mode)
  }

  /** No clip of the list straddles `q`. */
  predicate NoSpan(s: seq<Clip>, q: real)
  {
    forall x :: x in s ==> !Spans(x, q)
  }

  /** The new groups a pass may hand out are already below the supply. */
  predicate GroupsBelow(mode: Regroup, next: nat)
  {
    mode.NewGroups? ==> forall g :: g in mode.m ==> mode.m[g] < next
  }

  /** Every clip straddling `t` is one the pass would cut. */
  predicate Covered(st: State, ids: seq<nat>, t: real, mode: Regroup)
  {
    forall x :: x in st.clips && Spans(x, t) ==> x.id in ids && (mode.NewGroups? ==> x.group in mode.m)
  }

  /** One step loses no id, keeps the id discipline, the order, the total
      duration, and any time `q` no clip straddles. */
  lemma {:induction false} StepFacts(st: State, id: nat, t: real, mode: Regroup, q: real)
    requires Fresh(st) && GroupsBelow(mode, st.next)
    ensures var r := StepAt(st, id, t, mode);
      && Fresh(r) && r.next >= st.next && Ids(st.clips) <= Ids(r.clips)
      && TotalDurationOf(r.clips) == TotalDurationOf(st.clips)
      && (Sorted(st.clips) ==> Sorted(r.clips))
      && (NoSpan(st.clips, q) ==> NoSpan(r.clips, q))
  {
    if id in Ids(st.clips) && Cuts(st, id, mode) {
      var g := GroupOfStep(st, id, mode);
      SplitKeepsFresh(st, id, t, g);
      SplitKeepsTotalDuration(st, id, t, g);
      SplitEffect(st, id, t, g);
      if NoSpan(st.clips, q) {
        SplitAddsNoSpan(st, id, t, g, q);
      }
    }
  }

  /** A clip straddling `t` after a split at `t` was there before and is
      not the clip split. */
  lemma {:induction false} SplitSpanners(prev: State, id: nat, t: real, g: Option<nat>)
    requires Fresh(prev) && id in Ids(prev.clips)
    ensures forall x :: x in Split(prev, id, t, g).0.clips && Spans(x, t) ==>
      x in prev.clips && (x == ClipOf(prev.clips, id) ==> !Spans(x, t))
  {
    SplitEffect(prev, id, t, g);
    if Split(prev, id, t, g).1 {
      SplitMembers(prev, id, t, g);
    }
  }

  /** A clip straddling `t` after one step was there before and is not the
      clip the step worked on. */
  lemma {:induction false} StepSpanners(prev: State, id: nat, t: real, mode: Regroup)
    requires Fresh(prev)
    requires forall x :: x in prev.clips && Spans(x, t) && mode.NewGroups? ==> x.group in mode.m
    ensures forall x :: x in StepAt(prev, id, t, mode).clips && Spans(x, t) ==> x in prev.clips && x.id != id
  {
    var r := StepAt(prev, id, t, mode);
    if id in Ids(prev.clips) {
      var c := ClipOf(prev.clips, id);
      ClipOfUnique(prev.clips, id);
      if Cuts(prev, id, mode) {
        SplitSpanners(prev, id, t, GroupOfStep(prev, id, mode));
      } else {
        assert !Spans(c, t);
      }
      forall x | x in r.clips && Spans(x, t)
        ensures x in prev.clips && x.id != id
      {
        assert x in prev.clips && x != c;
      }
    }
  }

  /** The inductive step of `SplitEachInvariant`. */
  lemma {:induction false} StepInvariant(st: State, prev: State, ids: seq<nat>, id: nat, t: real, mode: Regroup)
    requires Fresh(prev) && GroupsBelow(mode, prev.next)
    requires forall x :: x in st.clips && Spans(x, t) && mode.NewGroups? ==> x.group in mode.m
    requires forall x :: x in prev.clips && Spans(x, t) ==> x in st.clips && x.id !in ids
    ensures forall x :: x in StepAt(prev, id, t, mode).clips && Spans(x, t) ==> x in st.clips && x.id !in ids + [id]
  {
    StepSpanners(prev, id, t, mode);
  }

  /** The last iteration of a pass. */
  lemma {:induction false} SplitEachLast(st: State, ids: seq<nat>, t: real, mode: Regroup)
    requires ids != []
    ensures ids[..|ids| - 1] + [ids[|ids| - 1]] == ids
    ensures SplitEach(st, ids, t, mode) == StepAt(SplitEach(st, ids[..|ids| - 1], t, mode), ids[|ids| - 1], t, mode)
  {
    assert ids[..|ids| - 1] + [ids[|ids| - 1]] == ids;
  }

  /** During the pass, a clip straddling `t` is an original clip the pass has
      not reached yet: every clip it reaches is cut, and the pieces of a cut
      at `t` do not straddle `t`. */
  lemma {:induction false} SplitEachInvariant(st: State, ids: seq<nat>, t: real, mode: Regroup)
    requires Fresh(st) && GroupsBelow(mode, st.next)
    requires forall x :: x in st.clips && Spans(x, t) && mode.NewGroups? ==> x.group in mode.m
    ensures forall x :: x in SplitEach(st, ids, t, mode).clips && Spans(x, t) ==> x in st.clips && x.id !in ids
    decreases |ids|
  {
    if ids != [] {
      var init, id := ids[..|ids| - 1], ids[|ids| - 1];
      SplitEachInvariant(st, init, t, mode);
      SplitEachKeeps(st, init, t, mode, t);
      StepInvariant(st, SplitEach(st, init, t, mode), init, id, t, mode);
      SplitEachLast(st, ids, t, mode);
    }
  }

  /** After a pass that reaches every clip straddling `t` (and, when new
      groups are handed out, covers their groups), no clip straddles `t`. */
  lemma {:induction false} SplitEachClears(st: State, ids: seq<nat>, t: real, mode: Regroup)
    requires Fresh(st) && GroupsBelow(mode, st.next)
    requires Covered(st, ids, t, mode)
    ensures NoSpan(SplitEach(st, ids, t, mode).clips, t)
  {
    SplitEachInvariant(st, ids, t, mode);
  }

  /** A pass loses no clip id, keeps the id discipline, the order, the total
      duration, and every time no clip straddles. */
  lemma {:induction false} SplitEachKeeps(st: State, ids: seq<nat>, t: real, mode: Regroup, q: real)
    requires Fresh(st) && GroupsBelow(mode, st.next)
    ensures var r := SplitEach(st, ids, t, mode);
      && Fresh(r) && r.next >= st.next && Ids(st.clips) <= Ids(r.clips)
      && TotalDurationOf(r.clips) == TotalDurationOf(st.clips)
      && (Sorted(st.clips) ==> Sorted(r.clips))
      && (NoSpan(st.clips, q) ==> NoSpan(r.clips, q))
    decreases |ids|
  {
    if ids != [] {
      var init := ids[..|ids| - 1];
      SplitEachKeeps(st, init, t, mode, q);
      StepFacts(SplitEach(st, init, t, mode), ids[|ids| - 1], t, mode, q);
    }
  }

  /** Every clip of the result of a pass is an original clip's (same id) or
      a new piece starting at the pass's time. */
  lemma {:induction false} SplitEachNewStart(st: State, ids: seq<nat>, t: real, mode: Regroup)
    requires Fresh(st) && GroupsBelow(mode, st.next)
    ensures forall x :: x in SplitEach(st, ids, t, mode).clips ==> x.id in Ids(st.clips) || x.start == t
    decreases |ids|
  {
    if ids != [] {
      var init, id := ids[..|ids| - 1], ids[|ids| - 1];
      SplitEachLast(st, ids, t, mode);
      SplitEachNewStart(st, init, t, mode);
      SplitEachKeeps(st, init, t, mode, t);
      StepNewStart(SplitEach(st, init, t, mode), id, t, mode, Ids(st.clips));
    }
  }

  /** The inductive step of `SplitEachNewStart`. */
  lemma {:induction false} StepNewStart(prev: State, id: nat, t: real, mode: Regroup, known: set<nat>)
    requires Fresh(prev)
    requires forall x :: x in prev.clips ==> x.id in known || x.start == t
    ensures forall x :: x in StepAt(prev, id, t, mode).clips ==> x.id in known || x.start == t
  {
    if id in Ids(prev.clips) && Cuts(prev, id, mode) {
      var g := GroupOfStep(prev, id, mode);
      SplitEffect(prev, id, t, g);
      if Split(prev, id, t, g).1 {
        SplitMembers(prev, id, t, g);
      }
    }
  }

  // ---------------------------------------------------------------------
  // Splitting every group at a point

  /** The ids of a list's clips, in order: the snapshot `list(clips)`. */
  function IdsOf(s: seq<Clip>): (r: seq<nat>)
    ensures |r| == |s| && forall i :: 0 <= i < |s| ==> r[i] == s[i].id
    ensures forall id :: id in r <==> id in Ids(s)
  {
    if s == [] then []
    else
      var r := [s[0].id] + IdsOf(s[1..]);
      assert forall x :: x in s[1..] ==> x in s;
      assert forall id :: id in Ids(s) ==> id in r by {
        forall id | id in Ids(s)
          ensures id in r
        {
          var x :| x in s && x.id == id;
          var i :| 0 <= i < |s| && s[i] == x;
          assert r[i] == id;
        }
      }
      r
  }

  /** `{c.group_id for c in clips if c.timeline_start_sec < point < c.timeline_end_sec}`,
      listed once each in the order the clip list first shows them. */
  function GroupsAt(s: seq<Clip>, p: real): (gs: seq<nat>)
    ensures forall x :: x in s && Spans(x, p) ==> x.group in gs
    ensures forall g :: g in gs ==> exists x :: x in s && Spans(x, p) && x.group == g
    ensures forall i, j :: 0 <= i < j < |gs| ==> gs[i] != gs[j]
    decreases |s|
  {
    if s == [] then []
    else
      var init, last := s[..|s| - 1], s[|s| - 1];
      assert s == init + [last];
      var gs := GroupsAt(init, p);
      if Spans(last, p) && last.group !in gs then gs + [last.group] else gs
  }

  /** `{gid: str(uuid.uuid4()) for gid in groups}`: a new id for each group,
      drawn from the supply starting at `base`. */
  function FreshFor(gs: seq<nat>, base: nat): (m: map<nat, nat>)
    ensures forall g :: g in m <==> g in gs
    ensures forall g :: g in m ==> base <= m[g] < base + |gs|
    ensures (forall i, j :: 0 <= i < j < |gs| ==> gs[i] != gs[j]) ==>
      forall g, h :: g in m && h in m && g != h ==> m[g] != m[h]
    decreases |gs|
  {
    if gs == [] then map[]
    else
      var init := gs[..|gs| - 1];
      assert gs == init + [gs[|gs| - 1]];
      FreshFor(init, base)[gs[|gs| - 1] := base + |gs| - 1]
  }

  /** The group-aware split at one point of `on_split_all_regions` and
      `on_join_region`: every group with a clip straddling the point gets a
      new group id, then every clip of the snapshot whose group got one is
      split there, its new piece joining the new group. */
  function SplitAllAt(st: State, p: real): State
  {
    var gs := GroupsAt(st.clips, p);
    SplitEach(State(st.clips, st.next + |gs|), IdsOf(st.clips), p, NewGroups(FreshFor(gs, st.next)))
  }

  /** What the group-aware split draws before its pass: the state with the
      new group ids taken, the snapshot, and the new group of each split
      group. */
  function SplitAllAtPlan(st: State, p: real): (State, seq<nat>, Regroup)
  {
    var gs := GroupsAt(st.clips, p);
    (State(st.clips, st.next + |gs|), IdsOf(st.clips), NewGroups(FreshFor(gs, st.next)))
  }

  /** `SplitAllAt` is the pass its plan describes. */
  lemma {:induction false} SplitAllAtByPlan(st: State, p: real)
    ensures var plan := SplitAllAtPlan(st, p); SplitAllAt(st, p) == SplitEach(plan.0, plan.1, p, plan.2)
  {
  }

  /** The group-aware split keeps ids unique and below the supply. */
  lemma {:induction false} SplitAllAtFresh(st: State, p: real)
    requires Fresh(st)
    ensures Fresh(SplitAllAt(st, p)) && SplitAllAt(st, p).next >= st.next
  {
    var plan := SplitAllAtPlan(st, p);
    SplitAllAtByPlan(st, p);
    SplitAllAtSetup(st, p);
    SplitEachKeeps(plan.0, plan.1, p, plan.2, p);
  }

  /** After the group-aware split at `p` no clip straddles `p`. */
  lemma {:induction false} SplitAllAtClears(st: State, p: real)
    requires Fresh(st)
    ensures NoSpan(SplitAllAt(st, p).clips, p)
  {
    var plan := SplitAllAtPlan(st, p);
    SplitAllAtByPlan(st, p);
    SplitAllAtSetup(st, p);
    SplitAllAtCovers(st, p);
    SplitEachClears(plan.0, plan.1, p, plan.2);
  }

  /** The group-aware split keeps the total duration. */
  lemma {:induction false} SplitAllAtKeepsTotal(st: State, p: real)
    requires Fresh(st)
    ensures TotalDurationOf(SplitAllAt(st, p).clips) == TotalDurationOf(st.clips)
  {
    var plan := SplitAllAtPlan(st, p);
    SplitAllAtByPlan(st, p);
    SplitAllAtSetup(st, p);
    SplitEachKeeps(plan.0, plan.1, p, plan.2, p);
  }

  /** The group-aware split keeps the list ordered. */
  lemma {:induction false} SplitAllAtKeepsOrder(st: State, p: real)
    requires Fresh(st) && Sorted(st.clips)
    ensures Sorted(SplitAllAt(st, p).clips)
  {
    var plan := SplitAllAtPlan(st, p);
    SplitAllAtByPlan(st, p);
    SplitAllAtSetup(st, p);
    SplitEachKeeps(plan.0, plan.1, p, plan.2, p);
  }

  /** The group-aware split keeps every time `q` that no clip straddled
      unstraddled. */
  lemma {:induction false} SplitAllAtKeepsClear(st: State, p: real, q: real)
    requires Fresh(st) && NoSpan(st.clips, q)
    ensures NoSpan(SplitAllAt(st, p).clips, q)
  {
    var plan := SplitAllAtPlan(st, p);
    SplitAllAtByPlan(st, p);
    SplitAllAtSetup(st, p);
    SplitEachKeeps(plan.0, plan.1, p, plan.2, q);
  }

  /** The pass inside `SplitAllAt` starts from a state that keeps the id
      discipline and hands out groups below its supply. */
  lemma {:induction false} SplitAllAtSetup(st: State, p: real)
    requires Fresh(st)
    ensures var plan := SplitAllAtPlan(st, p);
      && plan.0.clips == st.clips && plan.0.next >= st.next
      && Fresh(plan.0) && GroupsBelow(plan.2, plan.0.next)
  {
    var gs := GroupsAt(st.clips, p);
    var st' := State(st.clips, st.next + |gs|);
    forall x | x in st'.clips
      ensures x.id < st'.next && x.group < st'.next
    {
    }
  }

  /** The pass inside `SplitAllAt` reaches every clip straddling the point,
      and every such clip's group has a new group id. */
  lemma {:induction false} SplitAllAtCovers(st: State, p: real)
    ensures var plan := SplitAllAtPlan(st, p);
      Covered(plan.0, plan.1, p, plan.2)
  {
  }

  // ---------------------------------------------------------------------
  // `split_clip_at_playhead`

  /** The first clip of the list straddling `t`, if any. */
  function FirstSpanning(s: seq<Clip>, t: real): (r: Option<Clip>)
    ensures r.None? ==> NoSpan(s, t)
    ensures r.Some? ==> r.value in s && Spans(r.value, t)
    decreases |s|
  {
    if s == [] then None
    else if Spans(s[0], t) then Some(s[0])
    else
      var r := FirstSpanning(s[1..], t);
      assert forall x :: x in s ==> x == s[0] || x in s[1..];
      r
  }

  /** `FirstSpanning` is what `next(...)` returns: the straddling clip
      earliest in the list. */
  lemma {:induction false} FirstSpanningIsFirst(s: seq<Clip>, t: real)
    ensures FirstSpanning(s, t).Some? ==>
      exists k :: 0 <= k < |s| && s[k] == FirstSpanning(s, t).value && forall j :: 0 <= j < k ==> !Spans(s[j], t)
    decreases |s|
  {
    if s != [] && !Spans(s[0], t) && FirstSpanning(s, t).Some? {
      FirstSpanningIsFirst(s[1..], t);
      var k :| 0 <= k < |s[1..]| && s[1..][k] == FirstSpanning(s[1..], t).value && forall j :: 0 <= j < k ==> !Spans(s[1..][j], t);
      assert s[k + 1] == FirstSpanning(s, t).value;
      forall j | 0 <= j < k + 1
        ensures !Spans(s[j], t)
      {
        if j > 0 {
          assert s[j] == s[1..][j - 1];
        }
      }
    }
  }

  /** The first clip of the list in the same group as `c` but another clip. */
  function FirstLinked(s: seq<Clip>, c: Clip): (r: Option<Clip>)
    ensures r.None? ==> forall x :: x in s && x.group == c.group ==> x.id == c.id
    ensures r.Some? ==> r.value in s && Linked(r.value, c)
    decreases |s|
  {
    if s == [] then None
    else if Linked(s[0], c) then Some(s[0])
    else
      var r := FirstLinked(s[1..], c);
      assert forall x :: x in s ==> x == s[0] || x in s[1..];
      r
  }

  /** `FirstLinked` is what `next(...)` returns: the group-mate earliest in
      the list. */
  lemma {:induction false} FirstLinkedIsFirst(s: seq<Clip>, c: Clip)
    ensures FirstLinked(s, c).Some? ==>
      exists k :: 0 <= k < |s| && s[k] == FirstLinked(s, c).value && forall j :: 0 <= j < k ==> !Linked(s[j], c)
    decreases |s|
  {
    if s != [] && !Linked(s[0], c) && FirstLinked(s, c).Some? {
      FirstLinkedIsFirst(s[1..], c);
      var k :| 0 <= k < |s[1..]| && s[1..][k] == FirstLinked(s[1..], c).value && forall j :: 0 <= j < k ==> !Linked(s[1..][j], c);
      assert s[k + 1] == FirstLinked(s, c).value;
      forall j | 0 <= j < k + 1
        ensures !Linked(s[j], c)
      {
        if j > 0 {
          assert s[j] == s[1..][j - 1];
        }
      }
    }
  }

  /** `x` is another clip of `c`'s group. */
  predicate Linked(x: Clip, c: Clip)
  {
    x.group == c.group && x.id != c.id
  }

  /** The clip `split_clip_at_playhead` works on: the one it is given (by
      id), else the first clip straddling the playhead. */
  function PlayheadTarget(st: State, t: real, given: Option<nat>): Option<Clip>
    requires given.Some? ==> given.value in Ids(st.clips)
  {
    if given.Some? then Some(ClipOf(st.clips, given.value)) else FirstSpanning(st.clips, t)
  }

  /** `split_clip_at_playhead(clip)`: nothing happens without a target;
      otherwise a new group id is drawn, the target is split at the playhead
      `t`, and so is its first group-mate (found before either split), both
      new pieces joining the new group. */
  function PlayheadSplit(st: State, t: real, given: Option<nat>): State
    requires given.Some? ==> given.value in Ids(st.clips)
  {
    SplitTarget(st, PlayheadTarget(st, t, given), t)
  }

  /** `split_clip_at_playhead` once its target is found. */
  function SplitTarget(st: State, target: Option<Clip>, t: real): State
    requires target.Some? ==> target.value.id in Ids(st.clips)
  {
    match target
    case None => st
    case Some(c) => SplitWithMate(State(st.clips, st.next + 1), c, FirstLinked(st.clips, c), t, st.next)
  }

  /** The two splits of `split_clip_at_playhead` once the group id `g` is
      drawn: the target, then its group-mate. */
  function SplitWithMate(s0: State, c: Clip, mate: Option<Clip>, t: real, g: nat): State
    requires c.id in Ids(s0.clips)
  {
    SplitMate(Split(s0, c.id, t, Some(g)).0, mate, t, g)
  }

  /** The second split of `split_clip_at_playhead`, of the group-mate when
      there is one (it is always still in the list, by `SplitKeepsIds`). */
  function SplitMate(st: State, mate: Option<Clip>, t: real, g: nat): State
  {
    if mate.Some? && mate.value.id in Ids(st.clips) then Split(st, mate.value.id, t, Some(g)).0 else st
  }

  /** `split_clip_at_playhead` with a target draws the group id and makes
      the two splits. */
  lemma {:induction false} SplitTargetSome(st: State, c: Clip, t: real)
    requires c.id in Ids(st.clips)
    ensures SplitTarget(st, Some(c), t) == SplitWithMate(State(st.clips, st.next + 1), c, FirstLinked(st.clips, c), t, st.next)
  {
  }

  /** The two splits, one at a time. */
  lemma {:induction false} SplitWithMateSteps(s0: State, c: Clip, mate: Option<Clip>, t: real, g: nat, s1: State, s2: State)
    requires c.id in Ids(s0.clips)
    requires s1 == Split(s0, c.id, t, Some(g)).0
    requires s2 == SplitMate(s1, mate, t, g)
    ensures SplitWithMate(s0, c, mate, t, g) == s2
  {
  }

  /** With no clip given and none straddling the playhead, nothing changes. */
  lemma {:induction false} PlayheadSplitIdle(st: State, t: real)
    requires NoSpan(st.clips, t)
    ensures PlayheadSplit(st, t, None) == st
  {
  }

  /** A split at the playhead keeps ids unique, and the group it draws is
      new: every clip in it is a right-hand piece starting at the playhead,
      and both right-hand pieces are in it, the target's when the target
      straddles the playhead and its first group-mate's when that one does. */
  lemma {:induction false} PlayheadSplitGroup(st: State, t: real, given: Option<nat>)
    requires Fresh(st)
    requires given.Some? ==> given.value in Ids(st.clips)
    ensures var r := PlayheadSplit(st, t, given);
      && Fresh(r)
      && (forall x :: x in r.clips && x.group == st.next ==> x.start == t)
      && (PlayheadTarget(st, t, given).Some? && Spans(PlayheadTarget(st, t, given).value, t) ==>
            Tail(PlayheadTarget(st, t, given).value, t, st.next + 1, st.next) in r.clips)
      && (PlayheadTarget(st, t, given).Some? && FirstLinked(st.clips, PlayheadTarget(st, t, given).value).Some? ==>
            var c := PlayheadTarget(st, t, given).value;
            var l := FirstLinked(st.clips, c).value;
            Spans(l, t) ==> Tail(l, t, if Spans(c, t) then st.next + 2 else st.next + 1, st.next) in r.clips)
  {
    var c := PlayheadTarget(st, t, given);
    if c.Some? {
      PlayheadFirstFresh(st, c.value, t);
      PlayheadFirstGroup(st, c.value, t);
      match FirstLinked(st.clips, c.value)
      case None =>
      case Some(l) =>
        PlayheadSecond(st, c.value, l, t);
    }
  }

  /** Drawing a group id keeps the id discipline; no clip is in that group. */
  lemma {:induction false} DrawKeepsFresh(st: State)
    requires Fresh(st)
    ensures Fresh(State(st.clips, st.next + 1))
    ensures forall x :: x in st.clips ==> x.group != st.next
  {
  }

  /** Where the clips of a split with a given new group come from. */
  lemma {:induction false} SplitPieces(st: State, c: Clip, t: real, g: nat)
    requires UniqueIds(st.clips) && c in st.clips
    ensures c.id in Ids(st.clips)
    ensures var r := Split(st, c.id, t, Some(g)).0;
      && r.next == (if Spans(c, t) then st.next + 1 else st.next)
      && (forall x :: x in st.clips && x.id != c.id ==> x in r.clips)
      && (Spans(c, t) ==> Tail(c, t, st.next, g) in r.clips)
      && (forall x :: x in r.clips ==> x in st.clips || x == Head(c, t) || x == Tail(c, t, st.next, g))
  {
    ClipOfUnique(st.clips, c.id);
    SplitEffect(st, c.id, t, Some(g));
    if Split(st, c.id, t, Some(g)).1 {
      SplitMembers(st, c.id, t, Some(g));
    }
  }

  /** The first split of `PlayheadSplit` keeps the id discipline. */
  lemma {:induction false} PlayheadFirstFresh(st: State, c: Clip, t: real)
    requires Fresh(st) && c in st.clips
    ensures var s1 := Split(State(st.clips, st.next + 1), c.id, t, Some(st.next)).0;
      Fresh(s1) && s1.next >= st.next + 1
  {
    DrawKeepsFresh(st);
    SplitKeepsFresh(State(st.clips, st.next + 1), c.id, t, Some(st.next));
  }

  /** After the first split of `PlayheadSplit` the new group holds only the
      target's right-hand piece, if any; every other clip is still there. */
  lemma {:induction false} PlayheadFirstGroup(st: State, c: Clip, t: real)
    requires Fresh(st) && c in st.clips
    ensures var s1 := Split(State(st.clips, st.next + 1), c.id, t, Some(st.next)).0;
      && s1.next == (if Spans(c, t) then st.next + 2 else st.next + 1)
      && (forall x :: x in s1.clips && x.group == st.next ==> x.start == t)
      && (Spans(c, t) ==> Tail(c, t, st.next + 1, st.next) in s1.clips)
      && (forall x :: x in st.clips && x.id != c.id ==> x in s1.clips)
  {
    DrawKeepsFresh(st);
    SplitPieces(State(st.clips, st.next + 1), c, t, st.next);
  }

  /** The second split of `PlayheadSplit`, on the group-mate `l`, keeps what
      the first one established. */
  lemma {:induction false} PlayheadSecond(st: State, c: Clip, l: Clip, t: real)
    requires Fresh(st) && c in st.clips && l in st.clips && l.id != c.id
    ensures var s1 := Split(State(st.clips, st.next + 1), c.id, t, Some(st.next)).0;
      l.id in Ids(s1.clips) &&
      var r := Split(s1, l.id, t, Some(st.next)).0;
      && Fresh(r)
      && (forall x :: x in r.clips && x.group == st.next ==> x.start == t)
      && (Spans(c, t) ==> Tail(c, t, st.next + 1, st.next) in r.clips)
      && (Spans(l, t) ==> Tail(l, t, if Spans(c, t) then st.next + 2 else st.next + 1, st.next) in r.clips)
  {
    PlayheadFirstFresh(st, c, t);
    PlayheadFirstGroup(st, c, t);
    var s1 := Split(State(st.clips, st.next + 1), c.id, t, Some(st.next)).0;
    SplitKeepsFresh(s1, l.id, t, Some(st.next));
    PlayheadSecondGroup(st, s1, c, l, t);
  }

  /** The group facts of the second split of `PlayheadSplit`. */
  lemma {:induction false} PlayheadSecondGroup(st: State, s1: State, c: Clip, l: Clip, t: real)
    requires Fresh(s1) && l in s1.clips && l.id < st.next
    requires forall x :: x in s1.clips && x.group == st.next ==> x.start == t
    ensures var r := Split(s1, l.id, t, Some(st.next)).0;
      && (forall x :: x in r.clips && x.group == st.next ==> x.start == t)
      && (Spans(l, t) ==> Tail(l, t, s1.next, st.next) in r.clips)
      && (Tail(c, t, st.next + 1, st.next) in s1.clips ==> Tail(c, t, st.next + 1, st.next) in r.clips)
  {
    SplitPieces(s1, l, t, st.next);
  }

  // ---------------------------------------------------------------------
  // `_add_clip_to_timeline`

  /** The clip record `_add_clip_to_timeline` builds for one track. */
  function NewClip(id: nat, path: string, start: real, clipStart: real, duration: real, track: int, kind: TrackKind, group: nat): (c: Clip)
    ensures c.id == id && c.group == group && c.kind == kind && c.track == track
    ensures c.start == start && End(c) == start + duration && c.clipStart == clipStart && c.path == path
  {
    Clip(id, path, start, clipStart, duration, track, kind, group)
  }

  /** `add_clip` of a clip just built, which took the next id. */
  function AddNew(st: State, c: Clip): State
  {
    State(SortByStart(st.clips + [c]), st.next + 1)
  }

  /** One `if ..._track_index is not None:` block of `_add_clip_to_timeline`:
      a clip of the given kind in group `g` is added when a track is given. */
  function MaybeAdd(st: State, track: Option<int>, kind: TrackKind, path: string, start: real, duration: real, clipStart: real, g: nat): State
  {
    if track.Some? then AddNew(st, NewClip(st.next, path, start, clipStart, duration, track.value, kind, g)) else st
  }

  /** The two `if ..._track_index is not None:` blocks of
      `_add_clip_to_timeline`, run with group `g`. */
  function AddBlocks(s0: State, path: string, start: real, duration: real, clipStart: real,
                     videoTrack: Option<int>, audioTrack: Option<int>, g: nat): State
  {
    MaybeAdd(MaybeAdd(s0, videoTrack, Video, path, start, duration, clipStart, g), audioTrack, Audio, path, start, duration, clipStart, g)
  }

  /** `_add_clip_to_timeline`: a new group id is drawn; then a video clip is
      added if a video track is given, and an audio clip if an audio track
      is given, both in the new group and each with an id of its own. */
  function AddToTimeline(st: State, path: string, start: real, duration: real, clipStart: real,
                         videoTrack: Option<int>, audioTrack: Option<int>): State
  {
    AddBlocks(State(st.clips, st.next + 1), path, start, duration, clipStart, videoTrack, audioTrack, st.next)
  }

  /** The two blocks run one after the other. */
  lemma {:induction false} AddBlocksSteps(s0: State, path: string, start: real, duration: real, clipStart: real,
                                          videoTrack: Option<int>, audioTrack: Option<int>, g: nat, s1: State, s2: State)
    requires s1 == MaybeAdd(s0, videoTrack, Video, path, start, duration, clipStart, g)
    requires s2 == MaybeAdd(s1, audioTrack, Audio, path, start, duration, clipStart, g)
    ensures AddBlocks(s0, path, start, duration, clipStart, videoTrack, audioTrack, g) == s2
  {
  }

  /** After the group id is drawn, the rest of `_add_clip_to_timeline` is
      its two blocks. */
  lemma {:induction false} AddToTimelineBlocks(st: State, path: string, start: real, duration: real, clipStart: real,
                                               videoTrack: Option<int>, audioTrack: Option<int>, s0: State, s2: State)
    requires s0 == State(st.clips, st.next + 1)
    requires s2 == AddBlocks(s0, path, start, duration, clipStart, videoTrack, audioTrack, st.next)
    ensures AddToTimeline(st, path, start, duration, clipStart, videoTrack, audioTrack) == s2
  {
  }

  /** The clips added by `_add_clip_to_timeline`, as a multiset. */
  function Added(st: State, path: string, start: real, duration: real, clipStart: real,
                 videoTrack: Option<int>, audioTrack: Option<int>): multiset<Clip>
  {
    var g := st.next;
    var audioId := if videoTrack.Some? then st.next + 2 else st.next + 1;
    (if videoTrack.Some? then multiset{NewClip(st.next + 1, path, start, clipStart, duration, videoTrack.value, Video, g)} else multiset{})
    + (if audioTrack.Some? then multiset{NewClip(audioId, path, start, clipStart, duration, audioTrack.value, Audio, g)} else multiset{})
  }

  /** `_add_clip_to_timeline` adds exactly the requested clips. */
  lemma {:induction false} AddToTimelineClips(st: State, path: string, start: real, duration: real, clipStart: real,
                           videoTrack: Option<int>, audioTrack: Option<int>)
    ensures multiset(AddToTimeline(st, path, start, duration, clipStart, videoTrack, audioTrack).clips)
      == multiset(st.clips) + Added(st, path, start, duration, clipStart, videoTrack, audioTrack)
  {
  }

  /** `_add_clip_to_timeline` leaves the list ordered by start. */
  lemma {:induction false} AddToTimelineSorted(st: State, path: string, start: real, duration: real, clipStart: real,
                           videoTrack: Option<int>, audioTrack: Option<int>)
    requires Sorted(st.clips)
    ensures Sorted(AddToTimeline(st, path, start, duration, clipStart, videoTrack, audioTrack).clips)
  {
    var s0 := State(st.clips, st.next + 1);
    var s1 := MaybeAdd(s0, videoTrack, Video, path, start, duration, clipStart, st.next);
    var s2 := MaybeAdd(s1, audioTrack, Audio, path, start, duration, clipStart, st.next);
    AddBlocksSteps(s0, path, start, duration, clipStart, videoTrack, audioTrack, st.next, s1, s2);
    AddToTimelineBlocks(st, path, start, duration, clipStart, videoTrack, audioTrack, s0, s2);
    MaybeAddSorted(s0, videoTrack, Video, path, start, duration, clipStart, st.next);
    MaybeAddSorted(s1, audioTrack, Audio, path, start, duration, clipStart, st.next);
  }

  /** `add_clip` sorts the list. */
  lemma {:induction false} MaybeAddSorted(st: State, track: Option<int>, kind: TrackKind, path: string, start: real, duration: real, clipStart: real, g: nat)
    requires Sorted(st.clips)
    ensures Sorted(MaybeAdd(st, track, kind, path, start, duration, clipStart, g).clips)
  {
    if track.Some? {
      SortByStartSorted(st.clips + [NewClip(st.next, path, start, clipStart, duration, track.value, kind, g)]);
    }
  }

  /** `_add_clip_to_timeline` puts the new clips in a group no existing clip
      belongs to. */
  lemma {:induction false} AddToTimelineGroup(st: State, path: string, start: real, duration: real, clipStart: real,
                           videoTrack: Option<int>, audioTrack: Option<int>)
    requires Fresh(st)
    ensures forall x :: x in st.clips ==> x.group != st.next
    ensures forall x :: x in Added(st, path, start, duration, clipStart, videoTrack, audioTrack) ==> x.group == st.next
  {
  }

  /** `_add_clip_to_timeline` keeps ids unique and below the supply. */
  lemma {:induction false} AddToTimelineFresh(st: State, path: string, start: real, duration: real, clipStart: real,
                           videoTrack: Option<int>, audioTrack: Option<int>)
    requires Fresh(st)
    ensures Fresh(AddToTimeline(st, path, start, duration, clipStart, videoTrack, audioTrack))
  {
    var s0 := State(st.clips, st.next + 1);
    DrawKeepsFresh(st);
    MaybeAddKeepsFresh(s0, videoTrack, Video, path, start, duration, clipStart, st.next);
    var s1 := MaybeAdd(s0, videoTrack, Video, path, start, duration, clipStart, st.next);
    MaybeAddKeepsFresh(s1, audioTrack, Audio, path, start, duration, clipStart, st.next);
    var s2 := MaybeAdd(s1, audioTrack, Audio, path, start, duration, clipStart, st.next);
    FreshSame(s2, AddToTimeline(st, path, start, duration, clipStart, videoTrack, audioTrack));
  }

  lemma {:induction false} FreshSame(a: State, b: State)
    requires a == b && Fresh(a)
    ensures Fresh(b)
  {
  }

  /** Adding a clip in a group below the supply keeps the id discipline and
      does not lower the supply. */
  lemma {:induction false} MaybeAddKeepsFresh(st: State, track: Option<int>, kind: TrackKind, path: string, start: real, duration: real, clipStart: real, g: nat)
    requires Fresh(st) && g < st.next
    ensures Fresh(MaybeAdd(st, track, kind, path, start, duration, clipStart, g))
    ensures MaybeAdd(st, track, kind, path, start, duration, clipStart, g).next >= st.next
  {
    if track.Some? {
      AddNewKeepsFresh(st, NewClip(st.next, path, start, clipStart, duration, track.value, kind, g));
    }
  }

  /** Adding a clip that took the next id keeps the id discipline. */
  lemma {:induction false} AddNewKeepsFresh(st: State, c: Clip)
    requires Fresh(st) && c.id == st.next && c.group < st.next
    ensures Fresh(AddNew(st, c))
  {
    AppendKeepsFresh(st.clips, AddNew(st, c).clips, c, st.next, st.next + 1);
  }

  /** Adding a clip with an unused id and a group below the supply keeps the
      id discipline. */
  lemma {:induction false} AppendKeepsFresh(s: seq<Clip>, r: seq<Clip>, c: Clip, next: nat, next': nat)
    requires Fresh(State(s, next)) && c.id >= next && c.id < next' && c.group < next' && next <= next'
    requires multiset(r) == multiset(s) + multiset{c}
    ensures Fresh(State(r, next'))
  {
    assert c !in s;
    forall x | x in multiset(r)
      ensures multiset(r)[x] == 1
    {
      assert multiset(s)[x] <= 1;
    }
    forall x | x in r
      ensures x == c || x in s
    {
      assert multiset(r)[x] > 0;
    }
  }
}

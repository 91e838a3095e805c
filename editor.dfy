/** The editor's main window (`MainWindow` in videoeditor/main.py): the
    operations that change the timeline in place. Each method is proved to
    leave the timeline as the matching function of `ClipEdits` or
    `RegionEdits` says. */
module Editor {
  import opened Strings
  import opened EditorTimeline
  import opened ClipEdits
  import opened RegionEdits

  class MainWindow {
    /** The window's `Timeline`. */
    const timeline: Timeline
    /** The `uuid4` supply: the next unused clip or group id. */
    var nextId: nat

    /** The timeline's clips with the id supply. */
    function St(): State
      reads this, timeline
    {
      State(timeline.clips, nextId)
    }

    /** The clips have unique ids, and every id and group is below the
        supply. */
    predicate Valid()
      reads this, timeline
    {
      Fresh(St())
    }

    /** A window on an empty timeline with one track of each kind. */
    constructor()
      ensures fresh(timeline) && timeline.clips == [] && nextId == 0
      ensures timeline.numVideoTracks == 1 && timeline.numAudioTracks == 1
      ensures Valid()
    {
      timeline := new Timeline();
      nextId := 0;
    }

    // -------------------------------------------------------------------
    // Tracks

    /** `add_track`: one more track of the named kind; any other name
        changes nothing. */
    method AddTrack(kind: string)
      modifies timeline
      ensures old(Valid()) ==> Valid()
      ensures timeline.clips == old(timeline.clips)
      ensures timeline.numVideoTracks == old(timeline.numVideoTracks) + (if kind == "video" then 1 else 0)
      ensures timeline.numAudioTracks == old(timeline.numAudioTracks) + (if kind == "audio" then 1 else 0)
    {
      if kind == "video" {
        timeline.numVideoTracks := timeline.numVideoTracks + 1;
      } else if kind == "audio" {
        timeline.numAudioTracks := timeline.numAudioTracks + 1;
      }
    }

    /** `remove_track`: one track fewer of the named kind, unless only one
        is left. */
    method RemoveTrack(kind: string)
      modifies timeline
      ensures old(Valid()) ==> Valid()
      ensures timeline.clips == old(timeline.clips)
      ensures timeline.numVideoTracks ==
        if kind == "video" && old(timeline.numVideoTracks) > 1 then old(timeline.numVideoTracks) - 1 else old(timeline.numVideoTracks)
      ensures timeline.numAudioTracks ==
        if kind == "audio" && old(timeline.numAudioTracks) > 1 then old(timeline.numAudioTracks) - 1 else old(timeline.numAudioTracks)
    {
      if kind == "video" && timeline.numVideoTracks > 1 {
        timeline.numVideoTracks := timeline.numVideoTracks - 1;
      } else if kind == "audio" && timeline.numAudioTracks > 1 {
        timeline.numAudioTracks := timeline.numAudioTracks - 1;
      }
    }

    /** `prune_empty_tracks`: drop empty top tracks of each kind, never the
        last one. */
    method PruneEmptyTracks()
      modifies timeline
      ensures old(Valid()) ==> Valid()
      ensures timeline.clips == old(timeline.clips)
      ensures timeline.numVideoTracks == PrunedCount(timeline.clips, Video, old(timeline.numVideoTracks))
      ensures timeline.numAudioTracks == PrunedCount(timeline.clips, Audio, old(timeline.numAudioTracks))
    {
      while timeline.numVideoTracks > 1
        invariant timeline.clips == old(timeline.clips) && timeline.numAudioTracks == old(timeline.numAudioTracks)
        invariant PrunedCount(timeline.clips, Video, timeline.numVideoTracks) == PrunedCount(timeline.clips, Video, old(timeline.numVideoTracks))
        decreases timeline.numVideoTracks
      {
        if Occupied(timeline.clips, Video, timeline.numVideoTracks) {
          break;
        }
        timeline.numVideoTracks := timeline.numVideoTracks - 1;
      }
      while timeline.numAudioTracks > 1
        invariant timeline.clips == old(timeline.clips)
        invariant timeline.numVideoTracks == PrunedCount(timeline.clips, Video, old(timeline.numVideoTracks))
        invariant PrunedCount(timeline.clips, Audio, timeline.numAudioTracks) == PrunedCount(timeline.clips, Audio, old(timeline.numAudioTracks))
        decreases timeline.numAudioTracks
      {
        if Occupied(timeline.clips, Audio, timeline.numAudioTracks) {
          break;
        }
        timeline.numAudioTracks := timeline.numAudioTracks - 1;
      }
    }

    // -------------------------------------------------------------------
    // Adding and splitting clips

    /** One `if ..._track_index is not None:` block of
        `_add_clip_to_timeline`. */
    method MaybeAddClip(track: Option<int>, kind: TrackKind, path: string, start: real, duration: real, clipStart: real, g: nat)
      modifies this, timeline
      ensures St() == MaybeAdd(old(St()), track, kind, path, start, duration, clipStart, g)
      ensures timeline.numVideoTracks == old(timeline.numVideoTracks) && timeline.numAudioTracks == old(timeline.numAudioTracks)
    {
      if track.Some? {
        var c := NewClip(nextId, path, start, clipStart, duration, track.value, kind, g);
        nextId := nextId + 1;
        timeline.AddClip(c);
      }
    }

    /** `_add_clip_to_timeline`. */
    method AddClipToTimeline(path: string, start: real, duration: real, clipStart: real,
                             videoTrack: Option<int>, audioTrack: Option<int>)
      modifies this, timeline
      ensures old(Valid()) ==> Valid()
      ensures St() == AddToTimeline(old(St()), path, start, duration, clipStart, videoTrack, audioTrack)
      ensures timeline.numVideoTracks == old(timeline.numVideoTracks) && timeline.numAudioTracks == old(timeline.numAudioTracks)
    {
      ghost var st0 := St();
      var g := nextId;
      nextId := nextId + 1;
      ghost var s0 := St();
      assert s0 == State(st0.clips, st0.next + 1);
      MaybeAddClip(videoTrack, Video, path, start, duration, clipStart, g);
      ghost var s1 := St();
      MaybeAddClip(audioTrack, Audio, path, start, duration, clipStart, g);
      AddBlocksSteps(s0, path, start, duration, clipStart, videoTrack, audioTrack, g, s1, St());
      AddToTimelineBlocks(st0, path, start, duration, clipStart, videoTrack, audioTrack, s0, St());
      if Fresh(st0) {
        AddToTimelineFresh(st0, path, start, duration, clipStart, videoTrack, audioTrack);
      }
    }

    /** `_split_at_time` on the clip with id `id`; the result says whether
        the split happened. */
    method SplitAtTime(id: nat, t: real, g: Option<nat>) returns (ok: bool)
      requires id in Ids(timeline.clips)
      modifies this, timeline
      ensures old(Valid()) && (g.Some? ==> g.value < old(nextId)) ==> Valid()
      ensures St() == ClipEdits.Split(old(St()), id, t, g).0
      ensures ok == ClipEdits.Split(old(St()), id, t, g).1
      ensures timeline.numVideoTracks == old(timeline.numVideoTracks) && timeline.numAudioTracks == old(timeline.numAudioTracks)
    {
      ghost var st0 := St();
      var k := IndexOf(timeline.clips, id);
      SplitCases(St(), id, t, g, k);
      var c := timeline.clips[k];
      ok := c.start < t < End(c);
      if ok {
        Cut(k, t, GroupFor(c, g));
      }
      if Fresh(st0) && (g.Some? ==> g.value < st0.next) {
        SplitKeepsFresh(st0, id, t, g);
      }
    }

    /** The clip at position `k` cut short at `t`, and the rest, under the
        next id and in group `g`, added with `add_clip`. */
    method Cut(k: nat, t: real, g: nat)
      requires k < |timeline.clips|
      modifies this, timeline
      ensures St() == State(SortByStart(old(timeline.clips)[k := Head(old(timeline.clips)[k], t)] + [Tail(old(timeline.clips)[k], t, old(nextId), g)]), old(nextId) + 1)
      ensures timeline.numVideoTracks == old(timeline.numVideoTracks) && timeline.numAudioTracks == old(timeline.numAudioTracks)
    {
      var c := timeline.clips[k];
      var piece := Tail(c, t, nextId, g);
      nextId := nextId + 1;
      timeline.clips := timeline.clips[k := Head(c, t)];
      timeline.AddClip(piece);
    }

    /** `split_clip_at_playhead`, the clip given by its id when one is
        given. */
    method SplitClipAtPlayhead(t: real, given: Option<nat>)
      requires given.Some? ==> given.value in Ids(timeline.clips)
      modifies this, timeline
      ensures old(Valid()) ==> Valid()
      ensures St() == PlayheadSplit(old(St()), t, given)
      ensures timeline.numVideoTracks == old(timeline.numVideoTracks) && timeline.numAudioTracks == old(timeline.numAudioTracks)
    {
      ghost var st0 := St();
      if Fresh(st0) {
        PlayheadSplitGroup(st0, t, given);
      }
      var target := if given.Some? then Some(ClipOf(timeline.clips, given.value)) else FirstSpanning(timeline.clips, t);
      assert target == PlayheadTarget(st0, t, given);
      if target.Some? {
        var c := target.value;
        assert c.id in Ids(timeline.clips);
        var linked := FirstLinked(timeline.clips, c);
        var g := nextId;
        nextId := nextId + 1;
        ghost var s0 := St();
        assert s0 == State(st0.clips, st0.next + 1);
        var _ := SplitAtTime(c.id, t, Some(g));
        ghost var s1 := St();
        SplitMateOf(linked, t, g);
        SplitWithMateSteps(s0, c, linked, t, g, s1, St());
        SplitTargetSome(st0, c, t);
      }
    }

    /** The split of the group-mate, when there is one. */
    method SplitMateOf(mate: Option<Clip>, t: real, g: nat)
      modifies this, timeline
      ensures St() == SplitMate(old(St()), mate, t, g)
      ensures timeline.numVideoTracks == old(timeline.numVideoTracks) && timeline.numAudioTracks == old(timeline.numAudioTracks)
    {
      if mate.Some? && mate.value.id in Ids(timeline.clips) {
        var _ := SplitAtTime(mate.value.id, t, Some(g));
      }
    }

    // -------------------------------------------------------------------
    // The split passes

    /** `for clip in snapshot: ... self._split_at_time(clip, t, ...)`, the
        snapshot given by the ids of its clips: every clip is split at `t`,
        keeping its group or, with new groups, only when its group has a new
        id, which the new piece then takes. */
    method SplitPass(ids: seq<nat>, t: real, mode: Regroup)
      modifies this, timeline
      ensures St() == SplitEach(old(St()), ids, t, mode)
      ensures timeline.numVideoTracks == old(timeline.numVideoTracks) && timeline.numAudioTracks == old(timeline.numAudioTracks)
    {
      ghost var st0 := St();
      for i := 0 to |ids|
        invariant St() == SplitEach(st0, ids[..i], t, mode)
        invariant timeline.numVideoTracks == old(timeline.numVideoTracks) && timeline.numAudioTracks == old(timeline.numAudioTracks)
      {
        assert ids[..i + 1][..i] == ids[..i];
        PassStep(ids[i], t, mode);
      }
      assert ids[..|ids|] == ids;
    }

    /** One iteration of the pass; a clip no longer in the list is passed
        over. */
    method PassStep(id: nat, t: real, mode: Regroup)
      modifies this, timeline
      ensures St() == StepAt(old(St()), id, t, mode)
      ensures timeline.numVideoTracks == old(timeline.numVideoTracks) && timeline.numAudioTracks == old(timeline.numAudioTracks)
    {
      if id !in Ids(timeline.clips) {
        return;
      }
      if mode.KeepGroups? {
        var _ := SplitAtTime(id, t, None);
      } else {
        var c := ClipOf(timeline.clips, id);
        if c.group in mode.m {
          var _ := SplitAtTime(id, t, Some(mode.m[c.group]));
        }
      }
    }

    /** The group-aware split at one point of `on_split_all_regions` and
        `on_join_region`. */
    method SplitAllAtPoint(p: real)
      requires Valid()
      modifies this, timeline
      ensures St() == SplitAllAt(old(St()), p)
      ensures Valid()
      ensures timeline.numVideoTracks == old(timeline.numVideoTracks) && timeline.numAudioTracks == old(timeline.numAudioTracks)
    {
      SplitAllAtFresh(St(), p);
      SplitAllAtByPlan(St(), p);
      var plan := SplitAllAtPlan(St(), p);
      nextId := plan.0.next;
      SplitPass(plan.1, p, plan.2);
    }

    /** `on_split_region`. */
    method OnSplitRegion(s: real, e: real)
      requires Valid()
      modifies this, timeline
      ensures Valid()
      ensures St() == SplitRegion(old(St()), s, e)
      ensures timeline.numVideoTracks == old(timeline.numVideoTracks) && timeline.numAudioTracks == old(timeline.numAudioTracks)
    {
      ghost var st0 := St();
      SplitRegionKeeps(st0, s, e);
      var ids := IdsOf(timeline.clips);
      SplitPass(ids, e, KeepGroups);
      SplitEachKeeps(st0, ids, e, KeepGroups, e);
      SplitPass(ids, s, KeepGroups);
    }

    /** `on_split_all_regions`. */
    method OnSplitAllRegions(rs: seq<Region>)
      requires Valid()
      modifies this, timeline
      ensures St() == SplitAllRegions(old(St()), rs)
      ensures Valid()
      ensures timeline.numVideoTracks == old(timeline.numVideoTracks) && timeline.numAudioTracks == old(timeline.numAudioTracks)
    {
      ghost var st0 := St();
      var points := SplitPoints(rs);
      for i := 0 to |points|
        invariant St() == SplitAtPoints(st0, points[..i]) && Valid()
        invariant timeline.numVideoTracks == old(timeline.numVideoTracks) && timeline.numAudioTracks == old(timeline.numAudioTracks)
      {
        SplitAtPointsStep(st0, points, i);
        SplitAllAtPoint(points[i]);
      }
      assert points[..|points|] == points;
    }

    // -------------------------------------------------------------------
    // Joining

    /** The splits, the removal and the shift of one region. */
    method CutOut(s: real, e: real)
      requires Valid()
      modifies this, timeline
      ensures St() == JoinStep(old(St()), s, e)
      ensures Valid()
      ensures timeline.numVideoTracks == old(timeline.numVideoTracks) && timeline.numAudioTracks == old(timeline.numAudioTracks)
    {
      ghost var st0 := St();
      JoinStepFresh(st0, s, e);
      SplitAllAtPoint(s);
      SplitAllAtPoint(e);
      ghost var cut := St();
      JoinStepOf(st0, s, e, cut);
      RemoveAndShift(cut.clips, s, e);
    }

    /** `for clip in clips_to_remove: self.timeline.clips.remove(clip)`, the
        clips to remove being those starting inside the region. */
    method RemoveStarting(ghost cut: seq<Clip>, s: real, e: real)
      requires timeline.clips == cut
      modifies timeline
      ensures timeline.clips == Remaining(cut, s, e)
      ensures timeline.numVideoTracks == old(timeline.numVideoTracks) && timeline.numAudioTracks == old(timeline.numAudioTracks)
    {
      timeline.clips := Remaining(timeline.clips, s, e);
    }

    /** The removal of the clips starting inside the region and the shift of
        those after it. */
    method RemoveAndShift(ghost cut: seq<Clip>, s: real, e: real)
      requires timeline.clips == cut
      modifies timeline
      ensures timeline.clips == ShiftFrom(Remaining(cut, s, e), e, e - s)
      ensures timeline.numVideoTracks == old(timeline.numVideoTracks) && timeline.numAudioTracks == old(timeline.numAudioTracks)
    {
      RemoveStarting(cut, s, e);
      ShiftLater(Remaining(cut, s, e), e, e - s);
    }

    /** `for clip in self.timeline.clips: if clip.timeline_start_sec >= end:
        clip.timeline_start_sec -= duration`. */
    method ShiftLater(ghost s0: seq<Clip>, e: real, d: real)
      requires timeline.clips == s0
      modifies timeline
      ensures timeline.clips == ShiftFrom(s0, e, d)
      ensures timeline.numVideoTracks == old(timeline.numVideoTracks) && timeline.numAudioTracks == old(timeline.numAudioTracks)
    {
      for i := 0 to |timeline.clips|
        invariant |timeline.clips| == |s0|
        invariant forall j :: 0 <= j < i ==> timeline.clips[j] == Shifted(s0[j], e, d)
        invariant forall j :: i <= j < |s0| ==> timeline.clips[j] == s0[j]
        invariant timeline.numVideoTracks == old(timeline.numVideoTracks) && timeline.numAudioTracks == old(timeline.numAudioTracks)
      {
        var c := timeline.clips[i];
        if c.start >= e {
          timeline.clips := timeline.clips[i := c.(start := c.start - d)];
        }
      }
    }

    /** `on_join_region`: the join, then the pruning of empty tracks; a
        region of length 0.01 or less changes nothing. */
    method OnJoinRegion(s: real, e: real)
      requires Valid()
      modifies this, timeline
      ensures St() == RegionEdits.Join(old(St()), s, e)
      ensures Valid()
      ensures e - s <= 0.01 ==> timeline.numVideoTracks == old(timeline.numVideoTracks) && timeline.numAudioTracks == old(timeline.numAudioTracks)
      ensures e - s > 0.01 ==> timeline.numVideoTracks == PrunedCount(timeline.clips, Video, old(timeline.numVideoTracks))
      ensures e - s > 0.01 ==> timeline.numAudioTracks == PrunedCount(timeline.clips, Audio, old(timeline.numAudioTracks))
    {
      if e - s <= 0.01 {
        return;
      }
      ghost var st0 := St();
      JoinFresh(st0, s, e);
      CutOut(s, e);
      timeline.clips := SortByStart(timeline.clips);
      PruneEmptyTracks();
    }

    /** `on_join_all_regions`: each region, latest first, then one sort and
        the pruning of empty tracks. */
    method OnJoinAllRegions(rs: seq<Region>)
      requires Valid()
      modifies this, timeline
      ensures St() == JoinAll(old(St()), rs)
      ensures Valid()
      ensures timeline.numVideoTracks == PrunedCount(timeline.clips, Video, old(timeline.numVideoTracks))
      ensures timeline.numAudioTracks == PrunedCount(timeline.clips, Audio, old(timeline.numAudioTracks))
    {
      ghost var st0 := St();
      JoinAllFresh(st0, rs);
      var ordered := SortRegions(rs);
      JoinEachRegion(ordered);
      ghost var m := St();
      JoinAllOf(st0, rs, ordered, m);
      timeline.clips := SortByStart(timeline.clips);
      PruneEmptyTracks();
    }

    /** The loop of `on_join_all_regions` over the regions in the order
        given. */
    method JoinEachRegion(ordered: seq<Region>)
      requires Valid()
      modifies this, timeline
      ensures St() == JoinEach(old(St()), ordered) && Valid()
      ensures timeline.numVideoTracks == old(timeline.numVideoTracks) && timeline.numAudioTracks == old(timeline.numAudioTracks)
    {
      ghost var st0 := St();
      for i := 0 to |ordered|
        invariant St() == JoinEach(st0, ordered[..i]) && Valid()
        invariant timeline.numVideoTracks == old(timeline.numVideoTracks) && timeline.numAudioTracks == old(timeline.numAudioTracks)
      {
        assert ordered[..i + 1][..i] == ordered[..i];
        JoinRegionStep(ordered[i]);
      }
      assert ordered[..|ordered|] == ordered;
    }

    /** One iteration of `on_join_all_regions`: a region of length 0.01 or
        less is passed over. */
    method JoinRegionStep(r: Region)
      requires Valid()
      modifies this, timeline
      ensures St() == JoinAllStep(old(St()), r) && Valid()
      ensures timeline.numVideoTracks == old(timeline.numVideoTracks) && timeline.numAudioTracks == old(timeline.numAudioTracks)
    {
      if r.1 - r.0 > 0.01 {
        CutOut(r.0, r.1);
      }
    }
  }
}

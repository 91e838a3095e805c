/** The AI frame-joiner plugin (videoeditor/plugins/ai_frame_joiner/main.py):
    the request the client widget sends, the check for a new output while it
    polls, and the insertion of the generated clip over the selected region.
    The HTTP responses and the file system are parameters. */
module FrameJoiner {
  import opened Strings
  import opened EditorTimeline
  import opened ClipEdits
  import opened RegionEdits
  import opened Editor

  // ---------------------------------------------------------------------
  // The client widget

  /** A value of the request's JSON body. */
  datatype PayloadValue = Text(t: string) | Flag(b: bool)

  /** The answer to the POST of the parameters: a status code, or a
      `RequestException`. */
  datatype PostResult = Responded(status: int) | PostFailed

  /** The answer to the GET of the latest output: a status code with the
      `latest_output_path` of the body, if any, or a `RequestException`. */
  datatype GetResult = Got(status: int, latest: Option<string>) | GetFailed

  /** The body `generate` posts: the stripped model name when not blank,
      each of the start frame, the end frame and the duration when not
      empty, and always the auto-start flag. */
  function Payload(model: string, startFrame: string, endFrame: string, duration: string, autostart: bool): (p: map<string, PayloadValue>)
    ensures "model_type" in p <==> Strip(model) != ""
    ensures "model_type" in p ==> p["model_type"] == Text(Strip(model))
    ensures "start_frame" in p <==> startFrame != ""
    ensures "start_frame" in p ==> p["start_frame"] == Text(startFrame)
    ensures "end_frame" in p <==> endFrame != ""
    ensures "end_frame" in p ==> p["end_frame"] == Text(endFrame)
    ensures "duration_sec" in p <==> duration != ""
    ensures "duration_sec" in p ==> p["duration_sec"] == Text(duration)
    ensures "start_generation" in p && p["start_generation"] == Flag(autostart)
    ensures forall k :: k in p ==> k in ["model_type", "start_frame", "end_frame", "duration_sec", "start_generation"]
  {
    var m := Strip(model);
    var p0: map<string, PayloadValue> := map[];
    var p1 := if m != "" then p0["model_type" := Text(m)] else p0;
    var p2 := if startFrame != "" then p1["start_frame" := Text(startFrame)] else p1;
    var p3 := if endFrame != "" then p2["end_frame" := Text(endFrame)] else p2;
    var p4 := if duration != "" then p3["duration_sec" := Text(duration)] else p3;
    p4["start_generation" := Flag(autostart)]
  }

  /** The output a poll hands on: a non-empty path from a successful answer
      that differs from the last one handed on. */
  function NewOutput(last: Option<string>, got: GetResult): (r: Option<string>)
    ensures r.Some? <==> got.Got? && got.status == 200 && got.latest.Some? && got.latest.value != "" && Some(got.latest.value) != last
    ensures r.Some? ==> r == got.latest
  {
    if got.Got? && got.status == 200 && got.latest.Some? && got.latest.value != "" && Some(got.latest.value) != last then got.latest
    else None
  }

  /** An output is handed on once: polling again with the same answer after
      it was recorded hands on nothing. */
  lemma {:induction false} OutputHandedOnOnce(last: Option<string>, got: GetResult)
    requires NewOutput(last, got).Some?
    ensures NewOutput(NewOutput(last, got), got).None?
  {
  }

  /** `WgpClientWidget`: the last output handed on and whether the poll
      timer runs. */
  class WgpClient {
    var lastKnownOutput: Option<string>
    var polling: bool

    /** A widget that has seen no output and does not poll. */
    constructor()
      ensures lastKnownOutput.None? && !polling
    {
      lastKnownOutput := None;
      polling := false;
    }

    /** `generate`: the body is built from the form, posted, and the polling
        starts only when the server answers 200 and auto-start is on. */
    method Generate(model: string, startFrame: string, endFrame: string, duration: string, autostart: bool, post: PostResult)
      returns (payload: map<string, PayloadValue>)
      modifies this
      ensures payload == Payload(model, startFrame, endFrame, duration, autostart)
      ensures polling == (old(polling) || (post == Responded(200) && autostart))
      ensures lastKnownOutput == old(lastKnownOutput)
    {
      payload := Payload(model, startFrame, endFrame, duration, autostart);
      if post.Responded? && post.status == 200 && payload["start_generation"] == Flag(true) {
        polling := true;
      }
    }

    /** `poll_for_output`: a new output stops the polling, is recorded and
        handed on (`generation_complete`); anything else changes nothing. */
    method PollForOutput(got: GetResult) returns (emitted: Option<string>)
      modifies this
      ensures emitted == NewOutput(old(lastKnownOutput), got)
      ensures emitted.Some? ==> lastKnownOutput == emitted && !polling
      ensures emitted.None? ==> lastKnownOutput == old(lastKnownOutput) && polling == old(polling)
    {
      emitted := None;
      if got.Got? && got.status == 200 {
        var latest := got.latest;
        if latest.Some? && latest.value != "" && latest != lastKnownOutput {
          polling := false;
          lastKnownOutput := latest;
          emitted := latest;
        }
      }
    }
  }

  // ---------------------------------------------------------------------
  // Inserting the generated clip

  /** `for clip in list(self.app.timeline.clips): self.app._split_at_time(clip, t)`:
      a pass over a fresh snapshot of the whole list, groups kept. */
  function FullPass(st: State, t: real): State
  {
    SplitEach(st, IdsOf(st.clips), t, KeepGroups)
  }

  /** A full pass leaves no clip straddling its time, and keeps the id
      discipline, the order by start and every time no clip straddled. */
  lemma {:induction false} FullPassClears(st: State, t: real, q: real)
    requires Fresh(st)
    ensures var r := FullPass(st, t);
      && Fresh(r) && NoSpan(r.clips, t)
      && (NoSpan(st.clips, q) ==> NoSpan(r.clips, q))
      && (Sorted(st.clips) ==> Sorted(r.clips))
  {
    SnapshotCovers(st, t);
    SplitEachClears(st, IdsOf(st.clips), t, KeepGroups);
    SplitEachKeeps(st, IdsOf(st.clips), t, KeepGroups, q);
  }

  /** The two passes of `insert_generated_clip`: at the region's start, then
      over a new snapshot at its end. */
  function InsertCut(st: State, s: real, e: real): State
  {
    FullPass(FullPass(st, s), e)
  }

  /** The clips the list comprehension `clips_to_remove` leaves: those not
      lying wholly inside `[lo, hi]`. */
  function Outside(c: seq<Clip>, lo: real, hi: real): (r: seq<Clip>)
    ensures forall x :: x in r <==> x in c && !(x.start >= lo && End(x) <= hi)
    decreases |c|
  {
    if c == [] then []
    else
      var init, last := c[..|c| - 1], c[|c| - 1];
      assert c == init + [last];
      if last.start >= lo && End(last) <= hi then Outside(init, lo, hi) else Outside(init, lo, hi) + [last]
  }

  /** Removing clips keeps ids distinct. */
  lemma {:induction false} OutsideDistinct(c: seq<Clip>, lo: real, hi: real)
    requires DistinctIds(c)
    ensures DistinctIds(Outside(c, lo, hi))
    decreases |c|
  {
    if c != [] {
      var init, last := c[..|c| - 1], c[|c| - 1];
      OutsideDistinct(init, lo, hi);
      var r := Outside(init, lo, hi);
      forall i | 0 <= i < |r|
        ensures r[i].id != last.id
      {
        assert r[i] in init;
      }
    }
  }

  /** The timeline once the region is cleared, before the new clip. */
  function Cleared(st: State, s: real, e: real): State
  {
    var cut := InsertCut(st, s, e);
    State(Outside(cut.clips, s, e), cut.next)
  }

  /** `insert_generated_clip` on the timeline: the two passes of splits, the
      removal of every clip lying wholly inside the region, and one video
      clip of the generated file, on track 1 from the region's start for
      the region's length, read from its beginning, with no audio clip. */
  function InsertClips(st: State, s: real, e: real, path: string): State
  {
    AddGenerated(Cleared(st, s, e), s, e, path)
  }

  /** `_add_clip_to_timeline` of the generated file: a video clip on track
      1 from the region's start for the region's length, read from its
      beginning, and no audio clip. */
  function AddGenerated(k: State, s: real, e: real, path: string): State
  {
    AddToTimeline(k, path, s, e - s, 0.0, Some(1), None)
  }

  /** After the clearing no clip overlaps the open region: each ends by its
      start or begins at or after its end; and ids stay unique. */
  lemma {:induction false} ClearedRegion(st: State, s: real, e: real)
    requires Fresh(st) && s <= e
    ensures Fresh(Cleared(st, s, e))
    ensures forall x :: x in Cleared(st, s, e).clips ==> End(x) <= s || x.start >= e
  {
    var a := FullPass(st, s);
    FullPassClears(st, s, s);
    FullPassClears(a, e, s);
    var cut := FullPass(a, e);
    forall x | x in Cleared(st, s, e).clips
      ensures End(x) <= s || x.start >= e
    {
      assert x in cut.clips && !Spans(x, s) && !Spans(x, e);
    }
    UniqueDistinct(cut.clips);
    OutsideDistinct(cut.clips, s, e);
    DistinctUnique(Outside(cut.clips, s, e));
  }

  /** The inserted clip: the next id after the group id drawn for it. */
  function Inserted(st: State, s: real, e: real, path: string): (c: Clip)
    ensures c.kind == Video && c.track == 1 && c.start == s && End(c) == e && c.clipStart == 0.0 && c.path == path
  {
    var k := Cleared(st, s, e);
    NewClip(k.next + 1, path, s, 0.0, e - s, 1, Video, k.next)
  }

  /** `_add_clip_to_timeline` with a video track and no audio track adds
      one video clip: the id after the group id drawn for it. */
  lemma {:induction false} AddedVideoOnly(k: State, s: real, e: real, path: string)
    ensures Added(k, path, s, e - s, 0.0, Some(1), None) == multiset{NewClip(k.next + 1, path, s, 0.0, e - s, 1, Video, k.next)}
  {
  }

  /** `add_clip` sorts the list, whatever its order before. */
  lemma {:induction false} AddGeneratedSorted(k: State, s: real, e: real, path: string)
    ensures Sorted(AddGenerated(k, s, e, path).clips)
  {
    var c := NewClip(k.next + 1, path, s, 0.0, e - s, 1, Video, k.next);
    var sorted := SortByStart(k.clips + [c]);
    SortByStartSorted(k.clips + [c]);
    assert AddGenerated(k, s, e, path).clips == sorted;
  }

  /** Adding the generated video clip to a timeline with unique ids adds
      exactly that clip, in a group of its own. */
  lemma {:induction false} AddGeneratedClip(k: State, s: real, e: real, path: string)
    requires Fresh(k)
    ensures var r := AddGenerated(k, s, e, path);
      var c := NewClip(k.next + 1, path, s, 0.0, e - s, 1, Video, k.next);
      && multiset(r.clips) == multiset(k.clips) + multiset{c}
      && r.next == k.next + 2
      && (forall x :: x in k.clips ==> x.group != c.group)
  {
    AddedVideoOnly(k, s, e, path);
    AddToTimelineClips(k, path, s, e - s, 0.0, Some(1), None);
    AddToTimelineGroup(k, path, s, e - s, 0.0, Some(1), None);
  }

  /** The insertion adds exactly one clip, the generated video one, to the
      cleared timeline, in a group of its own; the list stays ordered. */
  lemma {:induction false} InsertClipsEffect(st: State, s: real, e: real, path: string)
    requires Fresh(st) && s <= e
    ensures var r := InsertClips(st, s, e, path);
      && multiset(r.clips) == multiset(Cleared(st, s, e).clips) + multiset{Inserted(st, s, e, path)}
      && Sorted(r.clips)
      && (forall x :: x in Cleared(st, s, e).clips ==> x.group != Inserted(st, s, e, path).group)
  {
    var k := Cleared(st, s, e);
    ClearedRegion(st, s, e);
    AddGeneratedClip(k, s, e, path);
    AddGeneratedSorted(k, s, e, path);
  }

  /** A timeline that grew by one clip with an id and a group id not in use
      and below the supply keeps ids unique and below the supply. */
  lemma {:induction false} FreshAfterOneMore(k: State, r: State, c: Clip)
    requires Fresh(k)
    requires multiset(r.clips) == multiset(k.clips) + multiset{c}
    requires k.next <= c.id < r.next && k.next <= c.group < r.next
    ensures Fresh(r)
  {
    forall x | x in multiset(r.clips)
      ensures multiset(r.clips)[x] == 1
    {
      if x in k.clips {
        assert x in multiset(k.clips);
        assert x != c;
      }
    }
    forall x, y | x in r.clips && y in r.clips && x.id == y.id
      ensures x == y
    {
      assert x in multiset(r.clips) && y in multiset(r.clips);
      if x != c {
        assert x in multiset(k.clips);
        assert x in k.clips;
      }
      if y != c {
        assert y in multiset(k.clips);
        assert y in k.clips;
      }
    }
    forall x | x in r.clips
      ensures x.id < r.next && x.group < r.next
    {
      assert x in multiset(r.clips);
      if x != c {
        assert x in multiset(k.clips);
        assert x in k.clips;
      }
    }
  }

  /** The insertion keeps ids unique and below the supply. */
  lemma {:induction false} InsertClipsFresh(st: State, s: real, e: real, path: string)
    requires Fresh(st) && s <= e
    ensures Fresh(InsertClips(st, s, e, path))
  {
    var k := Cleared(st, s, e);
    ClearedRegion(st, s, e);
    AddGeneratedClip(k, s, e, path);
    FreshAfterOneMore(k, AddGenerated(k, s, e, path), Inserted(st, s, e, path));
  }

  /** Every clip after an insertion is the generated one or lies outside the
      open region. */
  lemma {:induction false} InsertLeavesRegionToNewClip(st: State, s: real, e: real, path: string, x: Clip)
    requires Fresh(st) && s <= e
    requires x in InsertClips(st, s, e, path).clips
    ensures x == Inserted(st, s, e, path) || End(x) <= s || x.start >= e
  {
    InsertClipsEffect(st, s, e, path);
    ClearedRegion(st, s, e);
    var r := InsertClips(st, s, e, path);
    assert x in multiset(r.clips);
    if x != Inserted(st, s, e, path) {
      assert x in Cleared(st, s, e).clips;
    }
  }

  /** `_cleanup_temp_dir`: a temporary folder that is set and exists is
      deleted and forgotten. */
  function CleanedTempDir(d: Option<string>, onDisk: set<string>): (r: Option<string>)
    ensures d.Some? && d.value != "" && d.value in onDisk ==> r.None?
    ensures !(d.Some? && d.value != "" && d.value in onDisk) ==> r == d
  {
    if d.Some? && d.value != "" && d.value in onDisk then None else d
  }

  /** `Plugin`: the editor window it works on, the region it generates for,
      and the temporary folder of the extracted frames. */
  class Joiner {
    const app: MainWindow
    var activeRegion: Option<Region>
    var tempDir: Option<string>

    /** `initialize`: no region, no temporary folder. */
    constructor(app: MainWindow)
      ensures this.app == app && activeRegion.None? && tempDir.None?
    {
      this.app := app;
      activeRegion := None;
      tempDir := None;
    }

    /** `_cleanup_temp_dir`, the existing paths given. */
    method CleanupTempDir(onDisk: set<string>)
      modifies this
      ensures tempDir == CleanedTempDir(old(tempDir), onDisk) && activeRegion == old(activeRegion)
    {
      if tempDir.Some? && tempDir.value != "" && tempDir.value in onDisk {
        tempDir := None;
      }
    }

    /** The two passes of splits. */
    method CutRegion(s: real, e: real)
      modifies app, app.timeline
      ensures app.St() == InsertCut(old(app.St()), s, e)
      ensures app.timeline.numVideoTracks == old(app.timeline.numVideoTracks) && app.timeline.numAudioTracks == old(app.timeline.numAudioTracks)
    {
      var ids := IdsOf(app.timeline.clips);
      app.SplitPass(ids, s, KeepGroups);
      ids := IdsOf(app.timeline.clips);
      app.SplitPass(ids, e, KeepGroups);
    }

    /** Dropping the clips that lie wholly inside `[s, e]`. */
    method RemoveInside(s: real, e: real)
      modifies app.timeline
      ensures app.timeline.clips == Outside(old(app.timeline.clips), s, e)
      ensures app.timeline.numVideoTracks == old(app.timeline.numVideoTracks) && app.timeline.numAudioTracks == old(app.timeline.numAudioTracks)
    {
      app.timeline.clips := Outside(app.timeline.clips, s, e);
    }

    /** The splits and the removal: the region left empty. */
    method ClearRegion(s: real, e: real)
      modifies app, app.timeline
      ensures app.St() == Cleared(old(app.St()), s, e)
      ensures app.timeline.numVideoTracks == old(app.timeline.numVideoTracks) && app.timeline.numAudioTracks == old(app.timeline.numAudioTracks)
    {
      CutRegion(s, e);
      RemoveInside(s, e);
    }

    /** The call of `_add_clip_to_timeline` for the generated file. */
    method AddGeneratedToApp(s: real, e: real, path: string)
      modifies app, app.timeline
      ensures app.St() == AddGenerated(old(app.St()), s, e, path)
      ensures app.timeline.numVideoTracks == old(app.timeline.numVideoTracks) && app.timeline.numAudioTracks == old(app.timeline.numAudioTracks)
    {
      app.AddClipToTimeline(path, s, e - s, 0.0, Some(1), None);
    }

    /** The body of the `try` block once both checks passed. */
    method ReplaceRegion(s: real, e: real, path: string)
      modifies app, app.timeline
      ensures app.St() == InsertClips(old(app.St()), s, e, path)
      ensures app.timeline.numVideoTracks == PrunedCount(app.timeline.clips, Video, old(app.timeline.numVideoTracks))
      ensures app.timeline.numAudioTracks == PrunedCount(app.timeline.clips, Audio, old(app.timeline.numAudioTracks))
    {
      ClearRegion(s, e);
      AddGeneratedToApp(s, e, path);
      app.PruneEmptyTracks();
    }

    /** `insert_generated_clip(video_path)`, the existing paths given:
        nothing happens without an active region or when the file is
        missing; otherwise the region's content is replaced by the
        generated clip, empty tracks are pruned, and then (the `finally`
        block) the temporary folder is cleaned up and the region dropped. */
    method InsertGeneratedClip(path: string, onDisk: set<string>)
      modifies this, app, app.timeline
      ensures old(activeRegion).None? || path !in onDisk ==>
        && app.St() == old(app.St()) && activeRegion == old(activeRegion) && tempDir == old(tempDir)
        && app.timeline.numVideoTracks == old(app.timeline.numVideoTracks)
        && app.timeline.numAudioTracks == old(app.timeline.numAudioTracks)
      ensures old(activeRegion).Some? && path in onDisk ==>
        && app.St() == InsertClips(old(app.St()), old(activeRegion).value.0, old(activeRegion).value.1, path)
        && activeRegion.None? && tempDir == CleanedTempDir(old(tempDir), onDisk)
        && app.timeline.numVideoTracks == PrunedCount(app.timeline.clips, Video, old(app.timeline.numVideoTracks))
        && app.timeline.numAudioTracks == PrunedCount(app.timeline.clips, Audio, old(app.timeline.numAudioTracks))
    {
      if activeRegion.Some? && path in onDisk {
        var (s, e) := activeRegion.value;
        ReplaceRegion(s, e, path);
        CleanupTempDir(onDisk);
        activeRegion := None;
      }
    }
  }
}

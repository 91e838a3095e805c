/** The vertical layout of the timeline widget (`TimelineWidget` in
    videoeditor/main.py): which track a pixel row belongs to, and where the
    row of a track is drawn. Pixel rows are integers. */
module TrackGeometry {
  import opened Strings
  import opened EditorTimeline

  /** `TIMESCALE_HEIGHT`, `TRACK_HEIGHT` and `AUDIO_TRACKS_SEPARATOR_Y`. */
  const TimescaleHeight: int := 30
  const TrackHeight: int := 50
  const SeparatorY: int := 15

  /** `video_tracks_y_start` as `draw_headers` sets it: below the time scale
      and the row holding the add-track button. */
  function VideoStart(): (y: int)
    ensures y == TimescaleHeight + TrackHeight
  {
    TimescaleHeight + TrackHeight
  }

  /** `audio_tracks_y_start` as `draw_headers` sets it: below the video rows
      and the separator. */
  function AudioStart(nv: int): (y: int)
    ensures y == VideoStart() + nv * TrackHeight + SeparatorY
  {
    var y := VideoStart() + nv * TrackHeight;
    y + SeparatorY
  }

  /** `y_to_track_info(y)` with the widget's two band starts as parameters:
      in the video band the top row is the highest video track, in the audio
      band the top row is audio track 1; anywhere else, no track. */
  function YToTrackInfo(y: int, nv: int, na: int, vStart: int, aStart: int): (r: Option<(TrackKind, int)>)
    ensures r.Some? && r.value.0 == Video ==> 1 <= r.value.1 <= nv && vStart <= y < vStart + nv * TrackHeight
    ensures r.Some? && r.value.0 == Audio ==> 1 <= r.value.1 <= na && aStart <= y < aStart + na * TrackHeight
    ensures r.None? <==> !(vStart <= y < vStart + nv * TrackHeight) && !(aStart <= y < aStart + na * TrackHeight)
  {
    if vStart <= y < vStart + nv * TrackHeight then
      Some((Video, nv - (y - vStart) / TrackHeight))
    else if aStart <= y < aStart + na * TrackHeight then
      Some((Audio, (y - aStart) / TrackHeight + 1))
    else None
  }

  /** The top of the row of track `k` of a kind, as `get_clip_rect` places
      it. */
  function RowTop(kind: TrackKind, k: int, nv: int, vStart: int, aStart: int): (y: int)
    ensures kind == Video ==> y == vStart + (nv - k) * TrackHeight
    ensures kind == Audio ==> y == aStart + (k - 1) * TrackHeight
  {
    match kind
    case Video => vStart + (nv - k) * TrackHeight
    case Audio => aStart + (k - 1) * TrackHeight
  }

  /** The top of a clip's rectangle: its row's top, moved down by half the
      difference between the row and the clip height (`TRACK_HEIGHT - 10`). */
  function ClipTop(c: Clip, nv: int, vStart: int, aStart: int): (y: real)
    ensures y == (RowTop(c.kind, c.track, nv, vStart, aStart) as real) + 5.0
  {
    var clipHeight := TrackHeight - 10;
    RowTop(c.kind, c.track, nv, vStart, aStart) as real + ((TrackHeight - clipHeight) as real) / 2.0
  }

  /** A band of `n` rows starting at `start` is the union of the rows: a
      pixel row in it lies in row `(y - start) / TrackHeight`. */
  lemma {:induction false} RowOf(y: int, start: int, n: int)
    requires start <= y < start + n * TrackHeight
    ensures 0 <= (y - start) / TrackHeight < n
    ensures start + ((y - start) / TrackHeight) * TrackHeight <= y < start + ((y - start) / TrackHeight + 1) * TrackHeight
  {
    var q := (y - start) / TrackHeight;
    var m := (y - start) % TrackHeight;
    assert y - start == q * TrackHeight + m && 0 <= m < TrackHeight;
  }

  /** The layout `draw_headers` makes: the audio band starts below the video
      band, so the two bands never overlap. */
  predicate Drawn(nv: int, vStart: int, aStart: int)
  {
    vStart == VideoStart() && aStart == AudioStart(nv)
  }

  /** Every pixel row `y_to_track_info` maps to a track lies in that track's
      row. */
  lemma {:induction false} TrackInfoInRow(y: int, nv: int, na: int, vStart: int, aStart: int)
    requires YToTrackInfo(y, nv, na, vStart, aStart).Some?
    ensures var (kind, k) := YToTrackInfo(y, nv, na, vStart, aStart).value;
      RowTop(kind, k, nv, vStart, aStart) <= y < RowTop(kind, k, nv, vStart, aStart) + TrackHeight
  {
    if vStart <= y < vStart + nv * TrackHeight {
      RowOf(y, vStart, nv);
    } else {
      RowOf(y, aStart, na);
    }
  }

  /** Conversely, under the drawn layout every pixel row of the row of an
      existing track maps back to that track. */
  lemma {:induction false} RowMapsToTrack(kind: TrackKind, k: int, y: int, nv: int, na: int, vStart: int, aStart: int)
    requires Drawn(nv, vStart, aStart)
    requires kind == Video ==> 1 <= k <= nv
    requires kind == Audio ==> 1 <= k <= na
    requires RowTop(kind, k, nv, vStart, aStart) <= y < RowTop(kind, k, nv, vStart, aStart) + TrackHeight
    ensures YToTrackInfo(y, nv, na, vStart, aStart) == Some((kind, k))
  {
    var top := RowTop(kind, k, nv, vStart, aStart);
    match kind
    case Video =>
      var i := nv - k;
      assert y - vStart == i * TrackHeight + (y - top);
      assert (y - vStart) / TrackHeight == i;
      assert (nv - k + 1) * TrackHeight <= nv * TrackHeight;
    case Audio =>
      var i := k - 1;
      assert y - aStart == i * TrackHeight + (y - top);
      assert (y - aStart) / TrackHeight == i;
      assert k * TrackHeight <= na * TrackHeight;
      assert aStart > vStart + nv * TrackHeight;
  }

  /** Under the drawn layout, the vertical middle of a clip's rectangle maps
      back to the clip's own track. */
  lemma {:induction false} ClipMiddleOnTrack(c: Clip, nv: int, na: int)
    requires c.kind == Video ==> 1 <= c.track <= nv
    requires c.kind == Audio ==> 1 <= c.track <= na
    ensures var top := RowTop(c.kind, c.track, nv, VideoStart(), AudioStart(nv));
      ClipTop(c, nv, VideoStart(), AudioStart(nv)) == top as real + 5.0
      && YToTrackInfo(top + TrackHeight / 2, nv, na, VideoStart(), AudioStart(nv)) == Some((c.kind, c.track))
  {
    var top := RowTop(c.kind, c.track, nv, VideoStart(), AudioStart(nv));
    RowMapsToTrack(c.kind, c.track, top + TrackHeight / 2, nv, na, VideoStart(), AudioStart(nv));
  }
}

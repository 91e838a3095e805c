/** `Plugin.populate_timeline` and `Plugin.run_import_process` of the VideoPad
    importer: the parsed project is reconciled against the files that exist and
    the host's media properties, tracks are numbered per kind, and every
    placement that resolves becomes one clip on the host's timeline. */
module VpjImport {
  import opened Strings
  import opened VpjParser
  import opened TimeField
  import opened EditorTimeline

  /** `d.get(k)`. */
  function Lookup(p: Params, k: string): Option<string>
  {
    if k in p then Some(p[k]) else None
  }

  /** `d.get(k, default)`. */
  function FieldOr(p: Params, k: string, default: string): string
  {
    if k in p then p[k] else default
  }

  // ---------------------------------------------------------------------
  // Media pre-pass

  /** The `path` of a media record; a missing path reads as the (falsy) empty text. */
  function PathOf(e: Entry): string
  {
    FieldOr(e.params, "path", "")
  }

  /** The paths the pre-pass hands to the host, in media-map order: every
      non-empty path that exists. */
  function RegisteredPaths(media: Registry, fs: set<string>): (paths: seq<string>)
    ensures forall x :: x in paths ==> x != "" && x in fs
    decreases |media|
  {
    if media == [] then []
    else
      var rest := RegisteredPaths(media[..|media| - 1], fs);
      var path := PathOf(media[|media| - 1]);
      if path != "" && path in fs then rest + [path] else rest
  }

  /** The `missing_files` set of the pre-pass. */
  function MissingPaths(media: Registry, fs: set<string>): set<string>
    decreases |media|
  {
    if media == [] then {}
    else
      var rest := MissingPaths(media[..|media| - 1], fs);
      var path := PathOf(media[|media| - 1]);
      if path != "" && path !in fs then rest + {path} else rest
  }

  /** A path is missing exactly when some media record names it, it is not
      empty and it does not exist; empty paths are reported nowhere. */
  lemma {:induction false} MissingPathsIff(media: Registry, fs: set<string>, x: string)
    ensures x in MissingPaths(media, fs) <==> x != "" && x !in fs && exists i :: 0 <= i < |media| && PathOf(media[i]) == x
    decreases |media|
  {
    if media != [] {
      var n := |media|;
      var init := media[..n - 1];
      MissingPathsIff(init, fs, x);
      if exists i :: 0 <= i < n && PathOf(media[i]) == x {
        var i :| 0 <= i < n && PathOf(media[i]) == x;
        if i < n - 1 {
          assert PathOf(init[i]) == x;
        }
      }
      if exists i :: 0 <= i < n - 1 && PathOf(init[i]) == x {
        var i :| 0 <= i < n - 1 && PathOf(init[i]) == x;
        assert PathOf(media[i]) == x;
      }
    }
  }

  /** Every media record with a non-empty existing path is registered. */
  lemma {:induction false} RegisteredPathsComplete(media: Registry, fs: set<string>, i: nat)
    requires i < |media| && PathOf(media[i]) != "" && PathOf(media[i]) in fs
    ensures PathOf(media[i]) in RegisteredPaths(media, fs)
    decreases |media|
  {
    var n := |media|;
    if i < n - 1 {
      assert media[..n - 1][i] == media[i];
      RegisteredPathsComplete(media[..n - 1], fs, i);
    }
  }

  // ---------------------------------------------------------------------
  // Track numbering

  /** A track's sort key: its `name`, or `''` when it has none. */
  function TrackName(e: Entry): string
  {
    FieldOr(e.params, "name", "")
  }

  /** `x` inserted before the first entry whose name is not smaller than its own. */
  function InsertByName(x: Entry, s: seq<Entry>): (r: seq<Entry>)
    ensures multiset(r) == multiset(s) + multiset{x}
    decreases |s|
  {
    if s == [] || LexLe(TrackName(x), TrackName(s[0])) then [x] + s
    else
      assert s == [s[0]] + s[1..];
      [s[0]] + InsertByName(x, s[1..])
  }

  /** `sorted(tracks, key=lambda t: t.get('name', ''))`. */
  function SortByName(s: seq<Entry>): (r: seq<Entry>)
    ensures multiset(r) == multiset(s)
    decreases |s|
  {
    if s == [] then []
    else
      assert s == [s[0]] + s[1..];
      InsertByName(s[0], SortByName(s[1..]))
  }

  predicate SortedByName(s: seq<Entry>)
  {
    forall i, j :: 0 <= i < j < |s| ==> LexLe(TrackName(s[i]), TrackName(s[j]))
  }

  lemma {:induction false} LexLeTransitive(a: string, b: string, c: string)
    requires LexLe(a, b) && LexLe(b, c)
    ensures LexLe(a, c)
  {
    LexLessTrichotomy(a, b);
    LexLessTrichotomy(b, c);
    LexLessTrichotomy(a, c);
    if LexLess(a, b) && LexLess(b, c) {
      LexLessTransitive(a, b, c);
    }
  }

  /** An entry no greater than every entry of a sorted list can head it. */
  lemma {:induction false} SortedCons(y: Entry, t: seq<Entry>)
    requires SortedByName(t) && forall e :: e in t ==> LexLe(TrackName(y), TrackName(e))
    ensures SortedByName([y] + t)
  {
    forall i, j | 0 <= i < j < |[y] + t| ensures LexLe(TrackName(([y] + t)[i]), TrackName(([y] + t)[j])) {
      assert ([y] + t)[j] == t[j - 1];
      if i > 0 {
        assert ([y] + t)[i] == t[i - 1];
      }
    }
  }

  lemma {:induction false} SortedTail(s: seq<Entry>)
    requires s != [] && SortedByName(s)
    ensures SortedByName(s[1..])
    ensures forall e :: e in s[1..] ==> LexLe(TrackName(s[0]), TrackName(e))
  {
    forall i, j | 0 <= i < j < |s[1..]| ensures LexLe(TrackName(s[1..][i]), TrackName(s[1..][j])) {
      assert s[1..][i] == s[i + 1] && s[1..][j] == s[j + 1];
    }
    forall e | e in s[1..] ensures LexLe(TrackName(s[0]), TrackName(e)) {
      var k :| 0 <= k < |s[1..]| && s[1..][k] == e;
      assert s[k + 1] == e;
    }
  }

  lemma {:induction false} InsertSorted(x: Entry, s: seq<Entry>)
    requires SortedByName(s)
    ensures SortedByName(InsertByName(x, s))
    decreases |s|
  {
    if s == [] || LexLe(TrackName(x), TrackName(s[0])) {
      if s != [] {
        SortedTail(s);
        forall e | e in s ensures LexLe(TrackName(x), TrackName(e)) {
          if e != s[0] {
            assert e in s[1..];
            LexLeTransitive(TrackName(x), TrackName(s[0]), TrackName(e));
          }
        }
      }
      SortedCons(x, s);
    } else {
      SortedTail(s);
      LexLessTrichotomy(TrackName(x), TrackName(s[0]));
      InsertSorted(x, s[1..]);
      InsertElements(x, s[1..]);
      SortedCons(s[0], InsertByName(x, s[1..]));
    }
  }

  /** The sorted tracks are in name order. */
  lemma {:induction false} SortIsSorted(s: seq<Entry>)
    ensures SortedByName(SortByName(s))
    decreases |s|
  {
    if s != [] {
      SortIsSorted(s[1..]);
      InsertSorted(s[0], SortByName(s[1..]));
    }
  }

  /** The entries named `n`, in order. */
  function WithName(s: seq<Entry>, n: string): seq<Entry>
    decreases |s|
  {
    if s == [] then [] else Named(s[0], n) + WithName(s[1..], n)
  }

  /** The entries named `n` among one entry: itself or nothing. */
  function Named(e: Entry, n: string): seq<Entry>
  {
    if TrackName(e) == n then [e] else []
  }

  lemma {:induction false} WithNameCons(e: Entry, s: seq<Entry>, n: string)
    ensures WithName([e] + s, n) == Named(e, n) + WithName(s, n)
  {
    assert ([e] + s)[1..] == s;
  }

  /** Two entries in strict name order cannot both be named `n`. */
  lemma {:induction false} NamedSwap(a: Entry, b: Entry, n: string)
    requires LexLess(TrackName(a), TrackName(b))
    ensures Named(a, n) + Named(b, n) == Named(b, n) + Named(a, n)
  {
    LexLessTrichotomy(TrackName(a), TrackName(b));
  }

  /** Two blocks that commute can be exchanged in front of a third. */
  lemma {:induction false} SwapFront(a: seq<Entry>, b: seq<Entry>, r: seq<Entry>)
    requires a + b == b + a
    ensures a + (b + r) == b + (a + r)
  {
    calc {
      a + (b + r);
      (a + b) + r;
      (b + a) + r;
      b + (a + r);
    }
  }

  /** Inserting past the first entry: it comes first in the result. */
  lemma {:induction false} InsertPast(x: Entry, s: seq<Entry>)
    requires s != [] && !LexLe(TrackName(x), TrackName(s[0]))
    ensures InsertByName(x, s) == [s[0]] + InsertByName(x, s[1..])
  {
  }

  /** One step of `InsertStable`: the entry goes past the first one. */
  lemma {:induction false} InsertStableStep(x: Entry, s: seq<Entry>, n: string)
    requires s != [] && !LexLe(TrackName(x), TrackName(s[0]))
    requires WithName(InsertByName(x, s[1..]), n) == Named(x, n) + WithName(s[1..], n)
    ensures WithName(InsertByName(x, s), n) == Named(x, n) + WithName(s, n)
  {
    var t := InsertByName(x, s[1..]);
    InsertPast(x, s);
    WithNameCons(s[0], t, n);
    assert [s[0]] + s[1..] == s;
    WithNameCons(s[0], s[1..], n);
    NamedSwap(s[0], x, n);
    SwapFront(Named(s[0], n), Named(x, n), WithName(s[1..], n));
  }

  /** Inserting an entry adds it, and nothing else, to the entries sharing its name. */
  lemma {:induction false} InsertStable(x: Entry, s: seq<Entry>, n: string)
    ensures WithName(InsertByName(x, s), n) == Named(x, n) + WithName(s, n)
    decreases |s|
  {
    if s == [] || LexLe(TrackName(x), TrackName(s[0])) {
      WithNameCons(x, s, n);
    } else {
      InsertStable(x, s[1..], n);
      InsertStableStep(x, s, n);
    }
  }

  /** The sort is stable: tracks sharing a name keep their relative order. */
  lemma {:induction false} SortIsStable(s: seq<Entry>, n: string)
    ensures WithName(SortByName(s), n) == WithName(s, n)
    decreases |s|
  {
    if s != [] {
      SortIsStable(s[1..], n);
      InsertStable(s[0], SortByName(s[1..]), n);
    }
  }

  /** Every entry of an insertion is the inserted one or an old one. */
  lemma {:induction false} InsertElements(x: Entry, s: seq<Entry>)
    ensures forall e :: e in InsertByName(x, s) ==> e == x || e in s
  {
    forall e | e in InsertByName(x, s) ensures e == x || e in s {
      assert e in multiset(InsertByName(x, s));
    }
  }

  lemma {:induction false} UniqueTail(s: seq<Entry>)
    requires s != [] && UniqueHandles(s)
    ensures UniqueHandles(s[1..])
    ensures forall e :: e in s[1..] ==> e.handle != s[0].handle
  {
    forall i, j | 0 <= i < j < |s[1..]| ensures s[1..][i].handle != s[1..][j].handle {
      assert s[1..][i] == s[i + 1] && s[1..][j] == s[j + 1];
    }
    forall e | e in s[1..] ensures e.handle != s[0].handle {
      var k :| 0 <= k < |s[1..]| && s[1..][k] == e;
      assert s[k + 1] == e;
    }
  }

  lemma {:induction false} UniqueCons(y: Entry, t: seq<Entry>)
    requires UniqueHandles(t) && forall e :: e in t ==> e.handle != y.handle
    ensures UniqueHandles([y] + t)
  {
    forall i, j | 0 <= i < j < |[y] + t| ensures ([y] + t)[i].handle != ([y] + t)[j].handle {
      assert ([y] + t)[j] == t[j - 1];
      if i > 0 {
        assert ([y] + t)[i] == t[i - 1];
      }
    }
  }

  lemma {:induction false} InsertKeepsHandlesUnique(x: Entry, s: seq<Entry>)
    requires UniqueHandles(s) && forall e :: e in s ==> e.handle != x.handle
    ensures UniqueHandles(InsertByName(x, s))
    decreases |s|
  {
    if s == [] || LexLe(TrackName(x), TrackName(s[0])) {
      UniqueCons(x, s);
    } else {
      UniqueTail(s);
      assert forall e :: e in s[1..] ==> e in s;
      InsertKeepsHandlesUnique(x, s[1..]);
      InsertElements(x, s[1..]);
      assert s[0] in s;
      UniqueCons(s[0], InsertByName(x, s[1..]));
    }
  }

  /** Sorting keeps handles distinct. */
  lemma {:induction false} SortKeepsHandlesUnique(s: seq<Entry>)
    requires UniqueHandles(s)
    ensures UniqueHandles(SortByName(s))
    decreases |s|
  {
    if s != [] {
      UniqueTail(s);
      SortKeepsHandlesUnique(s[1..]);
      forall e | e in SortByName(s[1..]) ensures e.handle != s[0].handle {
        assert e in multiset(SortByName(s[1..]));
      }
      InsertKeepsHandlesUnique(s[0], SortByName(s[1..]));
    }
  }

  /** The kind a track's `type` selects: `'1'` video, `'2'` audio, anything
      else none. */
  function KindOf(e: Entry): Option<TrackKind>
  {
    var t := Lookup(e.params, "type");
    if t == Some("1") then Some(Video) else if t == Some("2") then Some(Audio) else None
  }

  /** How many of the tracks are of kind `k`. */
  function CountKind(s: seq<Entry>, k: TrackKind): (n: nat)
    ensures n <= |s|
    decreases |s|
  {
    if s == [] then 0 else (if KindOf(s[0]) == Some(k) then 1 else 0) + CountKind(s[1..], k)
  }

  lemma {:induction false} CountKindSnoc(s: seq<Entry>, x: Entry, k: TrackKind)
    ensures CountKind(s + [x], k) == CountKind(s, k) + if KindOf(x) == Some(k) then 1 else 0
    decreases |s|
  {
    if s != [] {
      assert (s + [x])[1..] == s[1..] + [x];
      CountKindSnoc(s[1..], x, k);
    }
  }

  lemma {:induction false} CountKindInsert(x: Entry, s: seq<Entry>, k: TrackKind)
    ensures CountKind(InsertByName(x, s), k) == CountKind(s, k) + if KindOf(x) == Some(k) then 1 else 0
    decreases |s|
  {
    if s == [] || LexLe(TrackName(x), TrackName(s[0])) {
      assert ([x] + s)[1..] == s;
    } else {
      var t := InsertByName(x, s[1..]);
      assert ([s[0]] + t)[1..] == t;
      CountKindInsert(x, s[1..], k);
    }
  }

  /** Sorting does not change how many tracks there are of each kind. */
  lemma {:induction false} CountKindSorted(s: seq<Entry>, k: TrackKind)
    ensures CountKind(SortByName(s), k) == CountKind(s, k)
    decreases |s|
  {
    if s != [] {
      CountKindSorted(s[1..], k);
      CountKindInsert(s[0], SortByName(s[1..]), k);
    }
  }

  /** Where a .vpj track lands: its kind and its 1-based number among tracks
      of that kind. */
  datatype TrackSlot = TrackSlot(kind: TrackKind, index: nat)

  /** The `vpj_track_map` built from tracks in the given order: the `i`-th
      track of kind `k` gets number `i`. (Every registry entry's handle is its
      record's `h` field.) */
  function SlotsOf(s: seq<Entry>): map<string, TrackSlot>
    decreases |s|
  {
    if s == [] then map[]
    else
      var m := SlotsOf(s[..|s| - 1]);
      var e := s[|s| - 1];
      match KindOf(e)
      case None => m
      case Some(k) => m[e.handle := TrackSlot(k, CountKind(s, k))]
  }

  /** With distinct handles, each track of a kind gets its ordinal among the
      tracks of that kind up to and including it, and tracks of any other
      type get no slot. */
  lemma {:induction false} SlotsOfOrdinals(s: seq<Entry>, i: nat)
    requires UniqueHandles(s) && i < |s|
    ensures KindOf(s[i]).None? ==> s[i].handle !in SlotsOf(s)
    ensures KindOf(s[i]).Some? ==>
      && s[i].handle in SlotsOf(s)
      && SlotsOf(s)[s[i].handle] == TrackSlot(KindOf(s[i]).value, CountKind(s[..i + 1], KindOf(s[i]).value))
    decreases |s|
  {
    var n := |s|;
    if i < n - 1 {
      var init := s[..n - 1];
      assert init[i] == s[i];
      assert init[..i + 1] == s[..i + 1];
      SlotsOfOrdinals(init, i);
    } else {
      assert s[..i + 1] == s;
      if KindOf(s[i]).None? {
        SlotsOfDomain(s[..n - 1], s[i].handle);
      }
    }
  }

  /** Only the handles of the tracks get a slot. */
  lemma {:induction false} SlotsOfDomain(s: seq<Entry>, h: string)
    requires forall e :: e in s ==> e.handle != h
    ensures h !in SlotsOf(s)
    decreases |s|
  {
    if s != [] {
      assert forall e :: e in s[..|s| - 1] ==> e in s;
      SlotsOfDomain(s[..|s| - 1], h);
      assert s[|s| - 1] in s;
    }
  }

  /** Ordinals within a kind increase along the sorted order and run from 1
      to the number of tracks of that kind. */
  lemma {:induction false} OrdinalsIncrease(s: seq<Entry>, i: nat, j: nat, k: TrackKind)
    requires i < j < |s| && KindOf(s[i]) == Some(k) && KindOf(s[j]) == Some(k)
    ensures 1 <= CountKind(s[..i + 1], k) < CountKind(s[..j + 1], k) <= CountKind(s, k)
    decreases j - i
  {
    CountKindSnoc(s[..i], s[i], k);
    assert s[..i] + [s[i]] == s[..i + 1];
    CountKindSnoc(s[..j], s[j], k);
    assert s[..j] + [s[j]] == s[..j + 1];
    CountKindPrefix(s, i + 1, j);
    CountKindPrefix(s, j + 1, |s|);
    assert s[..|s|] == s;
  }

  lemma {:induction false} CountKindPrefix(s: seq<Entry>, a: nat, b: nat)
    requires a <= b <= |s|
    ensures CountKind(s[..a], Video) <= CountKind(s[..b], Video)
    ensures CountKind(s[..a], Audio) <= CountKind(s[..b], Audio)
    decreases b - a
  {
    if a < b {
      CountKindPrefix(s, a, b - 1);
      CountKindSnoc(s[..b - 1], s[b - 1], Video);
      CountKindSnoc(s[..b - 1], s[b - 1], Audio);
      assert s[..b - 1] + [s[b - 1]] == s[..b];
    }
  }

  /** One more track extends the counts and the slot map. */
  lemma {:induction false} SlotsStep(s: seq<Entry>, i: nat)
    requires i < |s|
    ensures CountKind(s[..i + 1], Video) == CountKind(s[..i], Video) + if KindOf(s[i]) == Some(Video) then 1 else 0
    ensures CountKind(s[..i + 1], Audio) == CountKind(s[..i], Audio) + if KindOf(s[i]) == Some(Audio) then 1 else 0
    ensures SlotsOf(s[..i + 1]) ==
      match KindOf(s[i])
      case None => SlotsOf(s[..i])
      case Some(k) => SlotsOf(s[..i])[s[i].handle := TrackSlot(k, CountKind(s[..i + 1], k))]
  {
    CountKindSnoc(s[..i], s[i], Video);
    CountKindSnoc(s[..i], s[i], Audio);
    assert s[..i] + [s[i]] == s[..i + 1];
    assert s[..i + 1][..i] == s[..i];
  }

  /** The numbering loop of `populate_timeline` (lines 168-179): tracks in
      name order, each video or audio track numbered after the last of its
      kind. */
  method NumberTracks(tracks: Registry) returns (slots: map<string, TrackSlot>, videos: nat, audios: nat)
    ensures slots == SlotsOf(SortByName(tracks))
    ensures videos == CountKind(tracks, Video) && audios == CountKind(tracks, Audio)
  {
    var sorted := SortByName(tracks);
    slots := map[];
    videos, audios := 0, 0;
    for i := 0 to |sorted|
      invariant slots == SlotsOf(sorted[..i])
      invariant videos == CountKind(sorted[..i], Video) && audios == CountKind(sorted[..i], Audio)
    {
      var t := sorted[i];
      SlotsStep(sorted, i);
      var ty := Lookup(t.params, "type");
      if ty == Some("1") {
        videos := videos + 1;
        slots := slots[t.handle := TrackSlot(Video, videos)];
      } else if ty == Some("2") {
        audios := audios + 1;
        slots := slots[t.handle := TrackSlot(Audio, audios)];
      }
    }
    assert sorted[..|sorted|] == sorted;
    CountKindSorted(tracks, Video);
    CountKindSorted(tracks, Audio);
  }

  // ---------------------------------------------------------------------
  // Placements

  /** The outcome of the time conversion of lines 211-221. */
  datatype TimesOutcome = Times(startMs: int, inMs: int, durationMs: int) | TimesSkipped | TimesAborted

  /** `int(float(p.get(key, "0")))` for one time field. */
  function FieldTime(p: Params, key: string): Conversion
  {
    IntOfFloat(FieldOr(p, key, "0"))
  }

  /** Lines 211-221 as written: `offset`, `in` and `out` (each `'0'` when
      absent) converted in that order; a `ValueError` skips the placement, an
      `OverflowError` escapes the `except (ValueError, TypeError)` clause and
      ends the import; a non-positive duration skips the placement. */
  function ClipTimesAsWritten(p: Params): TimesOutcome
  {
    var s := FieldTime(p, "offset");
    if s.ValueErr? then TimesSkipped
    else if s.OverflowErr? then TimesAborted
    else
      var i := FieldTime(p, "in");
      if i.ValueErr? then TimesSkipped
      else if i.OverflowErr? then TimesAborted
      else
        var o := FieldTime(p, "out");
        if o.ValueErr? then TimesSkipped
        else if o.OverflowErr? then TimesAborted
        else if o.value - i.value <= 0 then TimesSkipped
        else Times(s.value, i.value, o.value - i.value)
  }

  /** The time conversion with every unconvertible field skipping the
      placement: start, in point and a positive duration, all in
      milliseconds. */
  function ClipTimes(p: Params): (t: Option<(int, int, int)>)
    ensures t.Some? ==> t.value.2 > 0
  {
    TimesOf(FieldTime(p, "offset"), FieldTime(p, "in"), FieldTime(p, "out"))
  }

  /** Start, in point and duration from the three conversions, when all
      three give numbers and the duration is positive. */
  function TimesOf(s: Conversion, i: Conversion, o: Conversion): (t: Option<(int, int, int)>)
    ensures t.Some? ==> t.value.2 > 0
  {
    if s.Num? && i.Num? && o.Num? && o.value - i.value > 0 then Some((s.value, i.value, o.value - i.value))
    else None
  }

  /** The two agree wherever the code as written does not abort. */
  lemma {:induction false} ClipTimesAgree(p: Params)
    ensures ClipTimesAsWritten(p) != TimesAborted ==>
      (ClipTimes(p).Some? <==> ClipTimesAsWritten(p).Times?)
    ensures ClipTimes(p).Some? ==>
      ClipTimesAsWritten(p) == Times(ClipTimes(p).value.0, ClipTimes(p).value.1, ClipTimes(p).value.2)
  {
  }

  /** A placement whose `offset` is `inf` aborts the import as written, where
      the conversion meant to skip it. */
  lemma {:induction false} InfiniteOffsetAborts()
    ensures ClipTimesAsWritten(map["offset" := "inf"]) == TimesAborted
    ensures ClipTimes(map["offset" := "inf"]).None?
  {
    InfinityOverflows();
  }

  /** Fields written as integers of magnitude at most `2^53` give back those
      integers. */
  lemma {:induction false} ClipTimesOfIntegers(p: Params, start: int, inMs: int, outMs: int)
    requires -ExactIntBound <= start <= ExactIntBound && -ExactIntBound <= inMs <= ExactIntBound && -ExactIntBound <= outMs <= ExactIntBound
    requires FieldOr(p, "offset", "0") == IntToString(start)
    requires FieldOr(p, "in", "0") == IntToString(inMs)
    requires FieldOr(p, "out", "0") == IntToString(outMs)
    ensures ClipTimes(p) == if outMs - inMs > 0 then Some((start, inMs, outMs - inMs)) else None
  {
    FieldOfInt(p, "offset", start);
    FieldOfInt(p, "in", inMs);
    FieldOfInt(p, "out", outMs);
    TimesOfNumbers(start, inMs, outMs);
  }

  lemma {:induction false} TimesOfNumbers(s: int, i: int, o: int)
    ensures TimesOf(Num(s), Num(i), Num(o)) == if o - i > 0 then Some((s, i, o - i)) else None
  {
  }

  /** A field written as an integer of magnitude at most `2^53` converts to
      that integer. */
  lemma {:induction false} FieldOfInt(p: Params, key: string, n: int)
    requires -ExactIntBound <= n <= ExactIntBound
    requires FieldOr(p, key, "0") == IntToString(n)
    ensures FieldTime(p, key) == Num(n)
  {
    IntOfFloatOfInt(n);
  }

  /** What stands between the importer and the world: the parsed media map,
      the track slots, the paths that exist, and the host's media type for
      each path it holds properties for (as they stand after the pre-pass). */
  datatype Context = Context(media: Registry, slots: map<string, TrackSlot>, fs: set<string>, props: map<string, string>)

  /** Everything a resolvable placement contributes to its clip, except the group. */
  datatype Resolved = Resolved(path: string, slot: TrackSlot, mediaType: string, startMs: int, inMs: int, durationMs: int)

  /** The media record a placement names, if its `horiginalclip` resolves. */
  function SourceOf(ctx: Context, p: Params): Option<Params>
  {
    match Lookup(p, "horiginalclip")
    case None => None
    case Some(h) => Get(ctx.media, h)
  }

  /** The slot of the track a placement names, if its `htrack` resolves. */
  function SlotOf(ctx: Context, p: Params): Option<TrackSlot>
  {
    match Lookup(p, "htrack")
    case None => None
    case Some(h) => if h in ctx.slots then Some(ctx.slots[h]) else None
  }

  /** The checks of lines 191-221 in order: media record, track, path present
      and existing, media properties, time fields. */
  function Resolve(ctx: Context, p: Params): Option<Resolved>
  {
    var source := SourceOf(ctx, p);
    var slot := SlotOf(ctx, p);
    if source.None? || slot.None? then None
    else
      var path := FieldOr(source.value, "path", "");
      if path == "" || path !in ctx.fs || path !in ctx.props then None
      else match ClipTimes(p)
        case None => None
        case Some(t) => Some(Resolved(path, slot.value, ctx.props[path], t.0, t.1, t.2))
  }

  /** A clip as the importer hands it to the host: times in milliseconds, the
      group an id drawn from the fresh-id supply. */
  datatype ImportedClip = ImportedClip(path: string, startMs: int, inMs: int, durationMs: int, slot: TrackSlot, mediaType: string, group: nat)

  /** The state threaded through the placement loop. */
  datatype RunState = RunState(clips: seq<ImportedClip>, groups: map<Option<string>, nat>, nextId: nat)

  /** The group id of lines 223-234, with the group map and the id supply
      after it. `uuid4()` is the next id; in the `hlinked == '0'` branch it is
      drawn even when the map supplies the group, as the default argument of
      `dict.get` is evaluated first. */
  function GroupStep(groups: map<Option<string>, nat>, nextId: nat, p: Params): (nat, map<Option<string>, nat>, nat)
  {
    var clipH := Lookup(p, "h");
    var linked := FieldOr(p, "hlinked", "0");
    if linked != "0" then
      if Some(linked) in groups then (groups[Some(linked)], groups, nextId)
      else (nextId, groups[clipH := nextId], nextId + 1)
    else (if clipH in groups then groups[clipH] else nextId, groups, nextId + 1)
  }

  /** One iteration of the placement loop. */
  function StepPlacement(ctx: Context, st: RunState, p: Params): RunState
  {
    match Resolve(ctx, p)
    case None => st
    case Some(r) =>
      var (g, groups, next) := GroupStep(st.groups, st.nextId, p);
      RunState(st.clips + [ImportedClip(r.path, r.startMs, r.inMs, r.durationMs, r.slot, r.mediaType, g)], groups, next)
  }

  /** The placement loop over the placements in order. */
  function Run(ctx: Context, st: RunState, ps: seq<Params>): RunState
    decreases |ps|
  {
    if ps == [] then st else StepPlacement(ctx, Run(ctx, st, ps[..|ps| - 1]), ps[|ps| - 1])
  }

  /** One more placement is one more step of the fold. */
  lemma {:induction false} RunSnoc(ctx: Context, st: RunState, ps: seq<Params>, i: nat)
    requires i < |ps|
    ensures Run(ctx, st, ps[..i + 1]) == StepPlacement(ctx, Run(ctx, st, ps[..i]), ps[i])
  {
    assert ps[..i + 1][..i] == ps[..i];
  }

  /** A placement is dropped, and nothing else changes, exactly when its media
      record or track does not resolve, its path is empty, missing on disk or
      unknown to the host's media properties, or a time field does not
      convert or gives a non-positive duration; otherwise exactly one clip is
      appended, carrying the placement's own times and the media's path,
      slot and type. */
  lemma {:induction false} StepEffect(ctx: Context, st: RunState, p: Params)
    ensures var dropped :=
      || SourceOf(ctx, p).None? || SlotOf(ctx, p).None?
      || FieldOr(SourceOf(ctx, p).value, "path", "") == ""
      || FieldOr(SourceOf(ctx, p).value, "path", "") !in ctx.fs
      || FieldOr(SourceOf(ctx, p).value, "path", "") !in ctx.props
      || ClipTimes(p).None?;
      && (dropped ==> StepPlacement(ctx, st, p) == st)
      && (!dropped ==>
          var path := FieldOr(SourceOf(ctx, p).value, "path", "");
          var t := ClipTimes(p).value;
          var r := StepPlacement(ctx, st, p);
          && |r.clips| == |st.clips| + 1
          && r.clips[..|st.clips|] == st.clips
          && var c := r.clips[|st.clips|];
          && c.path == path && c.slot == SlotOf(ctx, p).value && c.mediaType == ctx.props[path]
          && c.startMs == t.0 && c.inMs == t.1 && c.durationMs == t.2 > 0)
  {
    var r := StepPlacement(ctx, st, p);
    if Resolve(ctx, p).Some? {
      assert r.clips[..|st.clips|] == st.clips;
    }
  }

  /** Group ids below the supply's next id are the only ones in use. */
  predicate IdsBelow(st: RunState)
  {
    && (forall k :: k in st.groups ==> st.groups[k] < st.nextId)
    && (forall i :: 0 <= i < |st.clips| ==> st.clips[i].group < st.nextId)
  }

  lemma {:induction false} StepKeepsIdsBelow(ctx: Context, st: RunState, p: Params)
    requires IdsBelow(st)
    ensures var r := StepPlacement(ctx, st, p);
      IdsBelow(r) && r.nextId >= st.nextId && |r.clips| >= |st.clips| && r.clips[..|st.clips|] == st.clips
  {
    var r := StepPlacement(ctx, st, p);
    if Resolve(ctx, p).Some? {
      assert r.clips[..|st.clips|] == st.clips;
      forall i | 0 <= i < |r.clips| ensures r.clips[i].group < r.nextId {
        if i < |st.clips| {
          assert r.clips[i] == st.clips[i];
        }
      }
    }
  }

  /** The loop keeps every group id it has handed out below the next fresh id,
      and the supply only moves forward; so a freshly drawn id is shared with
      no earlier clip. */
  lemma {:induction false} RunKeepsIdsBelow(ctx: Context, st: RunState, ps: seq<Params>)
    requires IdsBelow(st)
    ensures var r := Run(ctx, st, ps);
      IdsBelow(r) && r.nextId >= st.nextId && |r.clips| >= |st.clips| && r.clips[..|st.clips|] == st.clips
    decreases |ps|
  {
    if ps != [] {
      var mid := Run(ctx, st, ps[..|ps| - 1]);
      RunKeepsIdsBelow(ctx, st, ps[..|ps| - 1]);
      StepKeepsIdsBelow(ctx, mid, ps[|ps| - 1]);
      var r := StepPlacement(ctx, mid, ps[|ps| - 1]);
      assert r.clips[..|st.clips|] == r.clips[..|mid.clips|][..|st.clips|];
    }
  }

  /** A placement with `hlinked == '0'` leaves the group map as it was. */
  lemma {:induction false} UnlinkedKeepsGroups(ctx: Context, st: RunState, p: Params)
    requires FieldOr(p, "hlinked", "0") == "0"
    ensures StepPlacement(ctx, st, p).groups == st.groups
  {
  }

  /** Two resolvable placements that name each other in `hlinked` share one
      group when processed one after the other, provided the map held no
      group for the first one's partner. Swapping the names gives the other
      order. */
  lemma {:induction false} LinkedPairShareGroup(ctx: Context, st: RunState, a: Params, b: Params, x: string, y: string)
    requires Resolve(ctx, a).Some? && Resolve(ctx, b).Some?
    requires x != "0" && y != "0"
    requires Lookup(a, "h") == Some(x) && FieldOr(a, "hlinked", "0") == y
    requires Lookup(b, "h") == Some(y) && FieldOr(b, "hlinked", "0") == x
    requires Some(y) !in st.groups
    ensures var r := StepPlacement(ctx, StepPlacement(ctx, st, a), b);
      |r.clips| == |st.clips| + 2 && r.clips[|st.clips|].group == r.clips[|st.clips| + 1].group == st.nextId
  {
    var m := StepPlacement(ctx, st, a);
    assert m.groups == st.groups[Some(x) := st.nextId];
    assert |m.clips| == |st.clips| + 1;
  }

  /** A placement with `hlinked == '0'` whose own handle has no group gets a
      fresh id, shared with no clip before it. */
  lemma {:induction false} UnlinkedGetsFreshGroup(ctx: Context, st: RunState, p: Params)
    requires IdsBelow(st)
    requires Resolve(ctx, p).Some?
    requires FieldOr(p, "hlinked", "0") == "0" && Lookup(p, "h") !in st.groups
    ensures var r := StepPlacement(ctx, st, p);
      |r.clips| == |st.clips| + 1 && forall i :: 0 <= i < |st.clips| ==> r.clips[i].group != r.clips[|st.clips|].group
  {
    var r := StepPlacement(ctx, st, p);
    assert r.clips[..|st.clips|] == st.clips;
    assert r.clips[|st.clips|].group == st.nextId;
    forall i | 0 <= i < |st.clips| ensures r.clips[i].group != r.clips[|st.clips|].group {
      assert r.clips[i] == st.clips[i];
    }
  }

  // ---------------------------------------------------------------------
  // The host and the whole import

  /** The part of the editor the importer drives: its clips, its track
      counts, and the media files registered with it. */
  class ImportHost {
    var clips: seq<ImportedClip>
    var numVideoTracks: nat
    var numAudioTracks: nat
    var mediaPool: seq<string>

    constructor (clips: seq<ImportedClip>, numVideoTracks: nat, numAudioTracks: nat, mediaPool: seq<string>)
      ensures this.clips == clips && this.numVideoTracks == numVideoTracks
      ensures this.numAudioTracks == numAudioTracks && this.mediaPool == mediaPool
    {
      this.clips := clips;
      this.numVideoTracks := numVideoTracks;
      this.numAudioTracks := numAudioTracks;
      this.mediaPool := mediaPool;
    }

    /** `new_project`: no clips, one track of each kind. */
    method NewProject()
      modifies this
      ensures clips == [] && numVideoTracks == 1 && numAudioTracks == 1
      ensures mediaPool == old(mediaPool)
    {
      clips := [];
      numVideoTracks := 1;
      numAudioTracks := 1;
    }
  }

  function Max(a: nat, b: nat): nat
  {
    if a >= b then a else b
  }

  /** The context the placement loop sees for a parse result. */
  function ContextOf(data: ParseResult, fs: set<string>, props: map<string, string>): Context
  {
    Context(data.media, SlotsOf(SortByName(data.tracks)), fs, props)
  }

  /** The media pre-pass of `populate_timeline` (lines 158-164): existing
      paths are registered with the host, other non-empty paths collected as
      missing. */
  method RegisterMedia(host: ImportHost, media: Registry, fs: set<string>) returns (missing: set<string>)
    modifies host
    ensures host.mediaPool == old(host.mediaPool) + RegisteredPaths(media, fs)
    ensures missing == MissingPaths(media, fs)
    ensures host.clips == old(host.clips)
    ensures host.numVideoTracks == old(host.numVideoTracks) && host.numAudioTracks == old(host.numAudioTracks)
  {
    missing := {};
    for i := 0 to |media|
      invariant host.mediaPool == old(host.mediaPool) + RegisteredPaths(media[..i], fs)
      invariant missing == MissingPaths(media[..i], fs)
      invariant host.clips == old(host.clips)
      invariant host.numVideoTracks == old(host.numVideoTracks) && host.numAudioTracks == old(host.numAudioTracks)
    {
      assert media[..i + 1][..i] == media[..i];
      var path := FieldOr(media[i].params, "path", "");
      if path != "" && path in fs {
        host.mediaPool := host.mediaPool + [path];
      } else if path != "" {
        missing := missing + {path};
      }
    }
    assert media[..|media|] == media;
  }

  /** Lines 223-234: the group id of a placement, updating the group map and
      drawing from the id supply. */
  method AssignGroup(groups: map<Option<string>, nat>, nextId: nat, p: Params)
    returns (group: nat, groups': map<Option<string>, nat>, nextId': nat)
    ensures (group, groups', nextId') == GroupStep(groups, nextId, p)
  {
    groups', nextId' := groups, nextId;
    var clipH := Lookup(p, "h");
    var linked := FieldOr(p, "hlinked", "0");
    if linked != "0" {
      if Some(linked) in groups' {
        group := groups'[Some(linked)];
      } else {
        group := nextId';
        nextId' := nextId' + 1;
        groups' := groups'[clipH := group];
      }
    } else {
      var drawn := nextId';
      nextId' := nextId' + 1;
      group := if clipH in groups' then groups'[clipH] else drawn;
    }
  }

  /** The placement loop of `populate_timeline` (lines 186-247): each
      placement that resolves is given a group and appended to the host's
      clips. */
  method PlaceClips(host: ImportHost, ctx: Context, ps: seq<Params>, firstId: nat) returns (created: nat)
    modifies host
    ensures var run := Run(ctx, RunState([], map[], firstId), ps);
      host.clips == old(host.clips) + run.clips && created == |run.clips|
    ensures host.mediaPool == old(host.mediaPool)
    ensures host.numVideoTracks == old(host.numVideoTracks) && host.numAudioTracks == old(host.numAudioTracks)
  {
    created := 0;
    var groups: map<Option<string>, nat> := map[];
    var nextId := firstId;
    ghost var start := RunState([], map[], firstId);
    ghost var appended: seq<ImportedClip> := [];
    for i := 0 to |ps|
      invariant Run(ctx, start, ps[..i]) == RunState(appended, groups, nextId)
      invariant host.clips == old(host.clips) + appended && created == |appended|
      invariant host.mediaPool == old(host.mediaPool)
      invariant host.numVideoTracks == old(host.numVideoTracks) && host.numAudioTracks == old(host.numAudioTracks)
    {
      RunSnoc(ctx, start, ps, i);
      var p := ps[i];
      var r := Resolve(ctx, p);
      if r.None? {
        continue;
      }
      var group;
      group, groups, nextId := AssignGroup(groups, nextId, p);
      var clip := ImportedClip(r.value.path, r.value.startMs, r.value.inMs, r.value.durationMs, r.value.slot, r.value.mediaType, group);
      host.clips := host.clips + [clip];
      appended := appended + [clip];
      created := created + 1;
    }
    assert ps[..|ps|] == ps;
  }

  /** `Plugin.populate_timeline`, with the time conversion skipping every
      placement it cannot convert. The fresh-id supply starts at `firstId`. */
  method PopulateTimeline(host: ImportHost, data: ParseResult, fs: set<string>, props: map<string, string>, firstId: nat)
    returns (missing: set<string>, created: nat)
    modifies host
    ensures host.mediaPool == old(host.mediaPool) + RegisteredPaths(data.media, fs)
    ensures missing == MissingPaths(data.media, fs)
    ensures host.numVideoTracks == Max(old(host.numVideoTracks), CountKind(data.tracks, Video))
    ensures host.numAudioTracks == Max(old(host.numAudioTracks), CountKind(data.tracks, Audio))
    ensures var run := Run(ContextOf(data, fs, props), RunState([], map[], firstId), data.timeline);
      host.clips == old(host.clips) + run.clips && created == |run.clips|
  {
    missing := RegisterMedia(host, data.media, fs);
    var slots, videos, audios := NumberTracks(data.tracks);
    if videos > host.numVideoTracks {
      host.numVideoTracks := videos;
    }
    if audios > host.numAudioTracks {
      host.numAudioTracks := audios;
    }
    created := PlaceClips(host, Context(data.media, slots, fs, props), data.timeline, firstId);
  }

  /** How `run_import_process` ends. */
  datatype ImportOutcome = NoFileChosen | Declined | ImportFailed | Imported(data: ParseResult)

  /** The confirmation is asked only when the project holds clips or media. */
  predicate AsksConfirmation(hasClips: bool, hasMedia: bool)
  {
    hasClips || hasMedia
  }

  /** The decisions of `run_import_process` (lines 123-143): the chosen path
      (empty when the dialog is cancelled), whether the project is non-empty,
      the user's answer, and the file's text as the parser reads it. */
  function ImportDecision(path: string, hasClips: bool, hasMedia: bool, confirmed: bool, content: Option<string>): ImportOutcome
  {
    if path == "" then NoFileChosen
    else if AsksConfirmation(hasClips, hasMedia) && !confirmed then Declined
    else match ParseSpec(content)
      case None => ImportFailed
      case Some(d) => if d.timeline == [] || d.media == [] then ImportFailed else Imported(d)
  }

  /** An import goes ahead only with a path, consent where it was asked, and
      a parse with both media clips and placements; the answer to a question
      not asked does not matter. */
  lemma {:induction false} ImportGate(path: string, hasClips: bool, hasMedia: bool, confirmed: bool, content: Option<string>)
    ensures var o := ImportDecision(path, hasClips, hasMedia, confirmed, content);
      && (o.Imported? <==>
          && path != "" && (AsksConfirmation(hasClips, hasMedia) ==> confirmed)
          && ParseSpec(content).Some? && ParseSpec(content).value.media != [] && ParseSpec(content).value.timeline != [])
      && (o.Imported? ==> ParseSpec(content) == Some(o.data))
    ensures !AsksConfirmation(hasClips, hasMedia) ==>
      ImportDecision(path, hasClips, hasMedia, true, content) == ImportDecision(path, hasClips, hasMedia, false, content)
  {
  }

  /** A file that parses but has no placements, or no media clips, is still
      refused: the import gate is stricter than the parser. */
  lemma {:induction false} ParsedButRefused(path: string, content: Option<string>)
    requires path != ""
    requires ParseSpec(content).Some? && ParseSpec(content).value.timeline == []
    ensures ParseSpec(content).value.media != []
    ensures ImportDecision(path, false, false, false, content) == ImportFailed
  {
  }

  /** `Plugin.run_import_process`: nothing changes unless the import goes
      ahead; then the project is cleared and the timeline populated, and the
      media files that could not be found are reported. */
  method RunImportProcess(host: ImportHost, path: string, confirmed: bool, content: Option<string>,
                          fs: set<string>, props: map<string, string>, firstId: nat)
    returns (outcome: ImportOutcome, missing: set<string>)
    modifies host
    ensures outcome == ImportDecision(path, old(host.clips) != [], old(host.mediaPool) != [], confirmed, content)
    ensures !outcome.Imported? ==>
      && host.clips == old(host.clips) && host.mediaPool == old(host.mediaPool)
      && host.numVideoTracks == old(host.numVideoTracks) && host.numAudioTracks == old(host.numAudioTracks)
      && missing == {}
    ensures outcome.Imported? ==>
      && host.mediaPool == old(host.mediaPool) + RegisteredPaths(outcome.data.media, fs)
      && missing == MissingPaths(outcome.data.media, fs)
      && host.clips == Run(ContextOf(outcome.data, fs, props), RunState([], map[], firstId), outcome.data.timeline).clips
      && host.numVideoTracks == Max(1, CountKind(outcome.data.tracks, Video))
      && host.numAudioTracks == Max(1, CountKind(outcome.data.tracks, Audio))
  {
    missing := {};
    if path == "" {
      return NoFileChosen, missing;
    }
    if host.clips != [] || host.mediaPool != [] {
      if !confirmed {
        return Declined, missing;
      }
    }
    var parsed := Parse(content);
    if parsed.None? || parsed.value.timeline == [] || parsed.value.media == [] {
      return ImportFailed, missing;
    }
    host.NewProject();
    var created;
    missing, created := PopulateTimeline(host, parsed.value, fs, props, firstId);
    return Imported(parsed.value), missing;
  }
}

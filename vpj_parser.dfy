/** The VideoPad project (.vpj) reader: one record line becomes a key/value
    map, and three sections of the file text (media clips, tracks, track
    placements) become two handle-keyed registries and an ordered placement
    list. */
module VpjParser {
  import opened Strings
  import opened Percent

  /** The decoded `key=value` fields of one record line. */
  type Params = map<string, string>

  /** The key of a `key=value` piece, if the piece has an `=`. */
  function KeyOf(piece: string): Option<string>
  {
    match SplitOnce(piece, '=')
    case None => None
    case Some(kv) => Some(kv.0)
  }

  /** Fields of the `&`-separated pieces, read left to right so that a later
      piece overwrites an earlier one with the same key; pieces without `=`
      contribute nothing. */
  function PiecesParams(pieces: seq<string>): Params
    decreases |pieces|
  {
    if pieces == [] then map[]
    else
      var m := PiecesParams(pieces[..|pieces| - 1]);
      match SplitOnce(pieces[|pieces| - 1], '=')
      case None => m
      case Some(kv) => m[kv.0 := Unquote(kv.1)]
  }

  /** The pieces of a record line: stripped, then split on `&`. */
  function LinePieces(line: string): seq<string>
  {
    Split(Strip(line), '&')
  }

  /** What `VPJParser._parse_line` returns for a line. */
  function LineParams(line: string): Params
  {
    PiecesParams(LinePieces(line))
  }

  /** Index of the last piece whose key is `k`, or -1 when no piece has it. */
  function LastPieceWithKey(pieces: seq<string>, k: string): (i: int)
    ensures -1 <= i < |pieces|
    ensures i >= 0 ==> KeyOf(pieces[i]) == Some(k)
    ensures forall j :: i < j < |pieces| ==> KeyOf(pieces[j]) != Some(k)
    decreases |pieces|
  {
    if pieces == [] then -1
    else if KeyOf(pieces[|pieces| - 1]) == Some(k) then |pieces| - 1
    else LastPieceWithKey(pieces[..|pieces| - 1], k)
  }

  /** A key is present exactly when some piece carries it, and its value is the
      decoded value of the last such piece. */
  lemma {:induction false} PiecesParamsLastWins(pieces: seq<string>, k: string)
    ensures k in PiecesParams(pieces) <==> LastPieceWithKey(pieces, k) >= 0
    ensures k in PiecesParams(pieces) ==>
      var kv := SplitOnce(pieces[LastPieceWithKey(pieces, k)], '=');
      kv.Some? && PiecesParams(pieces)[k] == Unquote(kv.value.1)
    decreases |pieces|
  {
    if pieces != [] {
      var init := pieces[..|pieces| - 1];
      PiecesParamsLastWins(init, k);
    }
  }

  /** `VPJParser._parse_line`: the dictionary is filled piece by piece. */
  method ParseLine(line: string) returns (params: Params)
    ensures params == LineParams(line)
  {
    params := map[];
    var parts := Split(Strip(line), '&');
    var i := 0;
    while i < |parts|
      invariant 0 <= i <= |parts|
      invariant params == PiecesParams(parts[..i])
    {
      PiecesParamsStep(parts, i);
      var kv := SplitOnce(parts[i], '=');
      if kv.Some? {
        params := params[kv.value.0 := Unquote(kv.value.1)];
      }
      i := i + 1;
    }
    assert parts[..|parts|] == parts;
  }

  /** The fields of one more piece: its `key=value`, if any, over the rest. */
  lemma {:induction false} PiecesParamsStep(parts: seq<string>, i: nat)
    requires i < |parts|
    ensures SplitOnce(parts[i], '=').None? ==> PiecesParams(parts[..i + 1]) == PiecesParams(parts[..i])
    ensures SplitOnce(parts[i], '=').Some? ==>
      var kv := SplitOnce(parts[i], '=').value;
      PiecesParams(parts[..i + 1]) == PiecesParams(parts[..i])[kv.0 := Unquote(kv.1)]
  {
    assert parts[..i + 1][..i] == parts[..i];
  }

  /** A record line written the way a .vpj writer would: `key=encoded value`
      pairs joined with `&`. */
  function FormatLine(pairs: seq<(string, string)>): string
  {
    if pairs == [] then "" else Join(PairPieces(pairs), '&')
  }

  function PairPieces(pairs: seq<(string, string)>): (pieces: seq<string>)
    ensures |pieces| == |pairs|
  {
    seq(|pairs|, i requires 0 <= i < |pairs| => pairs[i].0 + "=" + Quote(pairs[i].1))
  }

  /** The map a list of pairs denotes when later pairs win. */
  function PairsMap(pairs: seq<(string, string)>): map<string, string>
    decreases |pairs|
  {
    if pairs == [] then map[]
    else PairsMap(pairs[..|pairs| - 1])[pairs[|pairs| - 1].0 := pairs[|pairs| - 1].1]
  }

  /** Keys a writer may use: no separator and no whitespace. */
  predicate PlainKey(k: string)
  {
    '&' !in k && '=' !in k && forall c :: c in k ==> !IsSpace(c)
  }

  /** Values a writer may use: no whitespace outside the ASCII range (inside it
      the encoder escapes whitespace). */
  predicate PlainValue(v: string)
  {
    forall c :: c in v ==> !IsSpace(c)
  }

  lemma {:induction false} PiecesOfPairs(pairs: seq<(string, string)>)
    requires forall p :: p in pairs ==> PlainKey(p.0)
    ensures PiecesParams(PairPieces(pairs)) == PairsMap(pairs)
    decreases |pairs|
  {
    if pairs != [] {
      var n := |pairs|;
      var pieces := PairPieces(pairs);
      assert pieces[..n - 1] == PairPieces(pairs[..n - 1]);
      forall p | p in pairs[..n - 1] ensures PlainKey(p.0) {
        assert p in pairs;
      }
      PiecesOfPairs(pairs[..n - 1]);
      var last := pairs[n - 1];
      assert last in pairs;
      assert pieces[n - 1] == last.0 + ['='] + Quote(last.1);
      SplitOnceAt(last.0, Quote(last.1), '=');
      UnquoteQuote(last.1);
    }
  }

  /** A written piece has no `&` and no whitespace. */
  lemma {:induction false} PiecePlain(k: string, v: string)
    requires PlainKey(k) && PlainValue(v)
    ensures '&' !in k + "=" + Quote(v)
    ensures forall c :: c in k + "=" + Quote(v) ==> !IsSpace(c)
  {
    var q := k + "=" + Quote(v);
    forall c | c in q ensures !IsSpace(c) {
      var j :| 0 <= j < |q| && q[j] == c;
      if j > |k| {
        assert c == Quote(v)[j - |k| - 1];
      }
    }
  }

  /** A written line has no whitespace, so `strip()` leaves it alone. */
  lemma {:induction false} FormattedLineUntrimmed(pairs: seq<(string, string)>)
    requires pairs != []
    requires forall p :: p in pairs ==> PlainKey(p.0) && PlainValue(p.1)
    ensures forall q :: q in PairPieces(pairs) ==> '&' !in q
    ensures Strip(FormatLine(pairs)) == FormatLine(pairs)
  {
    var pieces := PairPieces(pairs);
    var line := Join(pieces, '&');
    forall q | q in pieces ensures '&' !in q && forall c :: c in q ==> !IsSpace(c) {
      var i :| 0 <= i < |pieces| && pieces[i] == q;
      assert pairs[i] in pairs;
      PiecePlain(pairs[i].0, pairs[i].1);
    }
    forall k | 0 <= k < |line| ensures !IsSpace(line[k]) {
      JoinChars(pieces, '&', k);
    }
    StripUntrimmed(line);
  }

  /** Reading a written record line gives back its fields, later duplicates
      winning. */
  lemma {:induction false} ParseLineRoundTrip(pairs: seq<(string, string)>)
    requires forall p :: p in pairs ==> PlainKey(p.0) && PlainValue(p.1)
    ensures LineParams(FormatLine(pairs)) == PairsMap(pairs)
  {
    if pairs == [] {
      assert Strip("") == "";
      assert Split("", '&') == [""];
      assert SplitOnce("", '=').None?;
      assert PiecesParams([""]) == PiecesParams([]);
    } else {
      FormattedLineUntrimmed(pairs);
      SplitJoin(PairPieces(pairs), '&');
      PiecesOfPairs(pairs);
    }
  }

  // ---------------------------------------------------------------------
  // Sections

  /** `name=` followed by a digit at position `i`. */
  predicate HeaderAt(s: string, i: nat, name: string)
  {
    StartsWithAt(s, i, name + "=") && i + |name| + 1 < |s| && IsDigit(s[i + |name| + 1])
  }

  /** The lookahead `(?=\nname=\d+)` succeeds at position `k`. */
  predicate TerminatorAt(s: string, k: nat, name: string)
  {
    k < |s| && s[k] == '\n' && HeaderAt(s, k + 1, name)
  }

  /** First position at or after `from` where the terminator lookahead
      succeeds; `|s|` when there is none. */
  function NextTerminator(s: string, from: nat, name: string): (k: nat)
    requires from <= |s|
    ensures from <= k <= |s|
    ensures k < |s| ==> TerminatorAt(s, k, name)
    ensures forall j :: from <= j < k ==> !TerminatorAt(s, j, name)
    decreases |s| - from
  {
    if from == |s| || TerminatorAt(s, from, name) then from else NextTerminator(s, from + 1, name)
  }

  /** End of the run of digits starting at `from`. */
  function DigitsEnd(s: string, from: nat): (e: nat)
    requires from <= |s|
    ensures from <= e <= |s|
    ensures forall j :: from <= j < e ==> IsDigit(s[j])
    ensures e < |s| ==> !IsDigit(s[e])
    decreases |s| - from
  {
    if from == |s| || !IsDigit(s[from]) then from else DigitsEnd(s, from + 1)
  }

  /** How the header line of a section is matched: `name=\d+.*?\n` lets
      anything follow the count on its line, `name=\d+\n` wants the line to end
      right after the count. */
  datatype HeaderShape = CountThenAnything | CountThenNewline

  /** One of the three section patterns of `VPJParser.parse`. */
  datatype SectionPattern = SectionPattern(name: string, shape: HeaderShape, terminator: string)

  const ClipsPattern := SectionPattern("clips", CountThenAnything, "tracks")
  const TracksPattern := SectionPattern("tracks", CountThenNewline, "trackclips")
  const TrackClipsPattern := SectionPattern("trackclips", CountThenNewline, "subtitletracks")

  /** Where the captured group starts when the header part of the pattern
      matches at `i`. */
  function GroupStart(s: string, i: nat, pat: SectionPattern): (g: Option<nat>)
    ensures g.Some? ==> HeaderAt(s, i, pat.name) && i + |pat.name| + 2 <= g.value <= |s| && s[g.value - 1] == '\n'
  {
    if !HeaderAt(s, i, pat.name) then None
    else match pat.shape
      case CountThenAnything =>
        var j := IndexFrom(s, '\n', i + |pat.name| + 2);
        if j < |s| then Some(j + 1) else None
      case CountThenNewline =>
        var e := DigitsEnd(s, i + |pat.name| + 1);
        if e < |s| && s[e] == '\n' then Some(e + 1) else None
  }

  /** The bounds of the captured group when the whole pattern matches at `i`:
      the lazy group stops at the first position where the terminator
      lookahead succeeds. */
  function MatchAt(s: string, i: nat, pat: SectionPattern): (m: Option<(nat, nat)>)
    ensures m.Some? ==>
      && HeaderAt(s, i, pat.name)
      && 1 <= m.value.0 <= m.value.1 < |s|
      && s[m.value.0 - 1] == '\n'
      && TerminatorAt(s, m.value.1, pat.terminator)
      && forall j :: m.value.0 <= j < m.value.1 ==> !TerminatorAt(s, j, pat.terminator)
  {
    match GroupStart(s, i, pat)
    case None => None
    case Some(g) =>
      var k := NextTerminator(s, g, pat.terminator);
      if k < |s| then Some((g, k)) else None
  }

  /** `re.search`: the leftmost start position at or after `from` where the
      pattern matches; `|s| + 1` when it matches nowhere. */
  function FirstMatchFrom(s: string, from: nat, pat: SectionPattern): (i: nat)
    requires from <= |s|
    ensures from <= i <= |s| + 1
    ensures i <= |s| ==> MatchAt(s, i, pat).Some?
    ensures forall j :: from <= j < i && j <= |s| ==> MatchAt(s, j, pat).None?
    decreases |s| - from
  {
    if MatchAt(s, from, pat).Some? then from
    else if from == |s| then |s| + 1
    else FirstMatchFrom(s, from + 1, pat)
  }

  /** The captured text of a section pattern, if the pattern occurs. */
  function FindSection(s: string, pat: SectionPattern): Option<string>
  {
    var i := FirstMatchFrom(s, 0, pat);
    if i <= |s| then
      var m := MatchAt(s, i, pat).value;
      Some(s[m.0..m.1])
    else None
  }

  // ---------------------------------------------------------------------
  // Records

  /** The lines of a found section: the captured text stripped and split on
      newlines; an absent section has none. */
  function SectionLines(block: Option<string>): seq<string>
  {
    match block
    case None => []
    case Some(b) => Split(Strip(b), '\n')
  }

  /** Only lines whose stripped text starts with `h=` are records. */
  predicate IsRecordLine(line: string)
  {
    StartsWith(Strip(line), "h=")
  }

  /** One registry entry: a handle and the record filed under it. */
  datatype Entry = Entry(handle: string, params: Params)

  /** A dictionary keyed by handle in insertion order, as Python keeps it. */
  type Registry = seq<Entry>

  predicate UniqueHandles(reg: Registry)
  {
    forall i, j :: 0 <= i < j < |reg| ==> reg[i].handle != reg[j].handle
  }

  function Get(reg: Registry, h: string): (r: Option<Params>)
    ensures r.Some? <==> exists i :: 0 <= i < |reg| && reg[i].handle == h
    ensures UniqueHandles(reg) && r.Some? ==>
      forall i :: 0 <= i < |reg| && reg[i].handle == h ==> reg[i].params == r.value
    decreases |reg|
  {
    if reg == [] then None
    else if reg[0].handle == h then Some(reg[0].params)
    else Get(reg[1..], h)
  }

  /** `d[h] = p`: overwrite in place when the handle is present, else append. */
  function Put(reg: Registry, h: string, p: Params): (r: Registry)
    requires UniqueHandles(reg)
    ensures UniqueHandles(r)
    ensures Get(r, h) == Some(p)
    ensures forall h' :: h' != h ==> Get(r, h') == Get(reg, h')
    ensures |r| == |reg| || |r| == |reg| + 1
    decreases |reg|
  {
    if reg == [] then [Entry(h, p)]
    else if reg[0].handle == h then [Entry(h, p)] + reg[1..]
    else
      var rest := Put(reg[1..], h, p);
      var x := reg[0].handle;
      assert forall j :: 0 <= j < |reg[1..]| ==> reg[1..][j].handle != x by {
        forall j | 0 <= j < |reg[1..]| ensures reg[1..][j].handle != x {
          assert reg[1..][j] == reg[j + 1];
        }
      }
      assert Get(rest, x).None?;
      [reg[0]] + rest
  }

  /** What one line of a section contributes: its fields when it is a record
      line, nothing otherwise. */
  function LineRecord(line: string): Option<Params>
  {
    if IsRecordLine(line) then Some(LineParams(line)) else None
  }

  /** The per-line records of a section, in file order. */
  function SectionRecords(block: Option<string>): (recs: seq<Option<Params>>)
    ensures |recs| == |SectionLines(block)|
    ensures forall i :: 0 <= i < |recs| ==> recs[i] == LineRecord(SectionLines(block)[i])
  {
    var lines := SectionLines(block);
    seq(|lines|, i requires 0 <= i < |lines| => LineRecord(lines[i]))
  }

  /** A record the registry accepts: it has `h` and the required field. */
  predicate Accepted(rec: Option<Params>, field: string)
  {
    rec.Some? && "h" in rec.value && field in rec.value
  }

  /** The registry built from a section's records, accepting those that carry
      `h` and `field` (`path` for clips, `type` for tracks), later records
      replacing earlier ones with the same handle. */
  function RegistryOf(recs: seq<Option<Params>>, field: string): (reg: Registry)
    ensures UniqueHandles(reg)
    ensures forall e :: e in reg ==> Accepted(Some(e.params), field) && e.params["h"] == e.handle
    decreases |recs|
  {
    if recs == [] then []
    else
      var reg := RegistryOf(recs[..|recs| - 1], field);
      var rec := recs[|recs| - 1];
      if Accepted(rec, field) then
        var p := rec.value;
        var r := Put(reg, p["h"], p);
        assert forall e :: e in r ==> Accepted(Some(e.params), field) && e.params["h"] == e.handle by {
          forall e | e in r ensures Accepted(Some(e.params), field) && e.params["h"] == e.handle {
            var i :| 0 <= i < |r| && r[i] == e;
            if e.handle == p["h"] {
              assert Get(r, e.handle) == Some(p);
            } else {
              assert Get(reg, e.handle) == Get(r, e.handle);
              var j :| 0 <= j < |reg| && reg[j].handle == e.handle;
              assert reg[j] in reg;
            }
          }
        }
        r
      else reg
  }

  /** The records that `parse` files under handle `h`. */
  predicate FiledUnder(rec: Option<Params>, field: string, h: string)
  {
    Accepted(rec, field) && rec.value["h"] == h
  }

  /** Index of the last record filed under `h`, or -1. */
  function LastFiled(recs: seq<Option<Params>>, field: string, h: string): (i: int)
    ensures -1 <= i < |recs|
    ensures i >= 0 ==> FiledUnder(recs[i], field, h)
    ensures forall j :: i < j < |recs| ==> !FiledUnder(recs[j], field, h)
    decreases |recs|
  {
    if recs == [] then -1
    else if FiledUnder(recs[|recs| - 1], field, h) then |recs| - 1
    else LastFiled(recs[..|recs| - 1], field, h)
  }

  /** A handle is in the registry exactly when some accepted record carries
      it, and the record kept is the last one. */
  lemma {:induction false} RegistryLastWins(recs: seq<Option<Params>>, field: string, h: string)
    ensures Get(RegistryOf(recs, field), h) ==
            if LastFiled(recs, field, h) < 0 then None else recs[LastFiled(recs, field, h)]
    decreases |recs|
  {
    if recs != [] {
      RegistryLastWins(recs[..|recs| - 1], field, h);
    }
  }

  predicate IsPlacement(rec: Option<Params>)
  {
    rec.Some? && "horiginalclip" in rec.value && "htrack" in rec.value
  }

  /** The placement list built from a section's records: those carrying
      `horiginalclip` and `htrack`, in file order. */
  function PlacementsOf(recs: seq<Option<Params>>): (ps: seq<Params>)
    ensures |ps| <= |recs|
    ensures forall p :: p in ps ==> IsPlacement(Some(p))
    decreases |recs|
  {
    if recs == [] then []
    else
      var ps := PlacementsOf(recs[..|recs| - 1]);
      var rec := recs[|recs| - 1];
      if IsPlacement(rec) then ps + [rec.value] else ps
  }

  /** Reading one more record appends its placement, if it is one. */
  lemma {:induction false} PlacementsStep(recs: seq<Option<Params>>, i: nat)
    requires i < |recs|
    ensures PlacementsOf(recs[..i + 1]) == PlacementsOf(recs[..i]) + if IsPlacement(recs[i]) then [recs[i].value] else []
  {
    assert recs[..i + 1][..i] == recs[..i];
  }

  /** A placement is in the list exactly when an accepted record produced it. */
  lemma {:induction false} PlacementsMembership(recs: seq<Option<Params>>, p: Params)
    ensures p in PlacementsOf(recs) <==> exists i :: 0 <= i < |recs| && IsPlacement(recs[i]) && recs[i] == Some(p)
    decreases |recs|
  {
    if recs != [] {
      var n := |recs|;
      var init := recs[..n - 1];
      PlacementsMembership(init, p);
      if p in PlacementsOf(init) {
        var i :| 0 <= i < n - 1 && IsPlacement(init[i]) && init[i] == Some(p);
        assert recs[i] == init[i];
      }
      if exists i :: 0 <= i < n && IsPlacement(recs[i]) && recs[i] == Some(p) {
        var i :| 0 <= i < n && IsPlacement(recs[i]) && recs[i] == Some(p);
        if i < n - 1 {
          assert init[i] == recs[i];
        }
      }
    }
  }

  /** Placements keep file order: the placement of an earlier record comes
      before that of a later one. */
  lemma {:induction false} PlacementsOrder(recs: seq<Option<Params>>, i: nat, j: nat)
    requires i < j < |recs| && IsPlacement(recs[i]) && IsPlacement(recs[j])
    ensures exists a, b :: 0 <= a < b < |PlacementsOf(recs)| &&
              PlacementsOf(recs)[a] == recs[i].value && PlacementsOf(recs)[b] == recs[j].value
    decreases |recs|
  {
    var n := |recs|;
    var init := recs[..n - 1];
    if j < n - 1 {
      assert init[i] == recs[i] && init[j] == recs[j];
      PlacementsOrder(init, i, j);
      var a, b :| 0 <= a < b < |PlacementsOf(init)| &&
              PlacementsOf(init)[a] == recs[i].value && PlacementsOf(init)[b] == recs[j].value;
      assert PlacementsOf(recs)[a] == PlacementsOf(init)[a];
      assert PlacementsOf(recs)[b] == PlacementsOf(init)[b];
    } else {
      assert init[i] == recs[i];
      PlacementsMembership(init, recs[i].value);
      var ps := PlacementsOf(init);
      var a :| 0 <= a < |ps| && ps[a] == recs[i].value;
      assert PlacementsOf(recs) == ps + [recs[j].value];
      assert PlacementsOf(recs)[a] == ps[a];
      assert PlacementsOf(recs)[|ps|] == recs[j].value;
    }
  }

  /** No record is accepted exactly when the registry is empty. */
  lemma {:induction false} RegistryEmptyIff(recs: seq<Option<Params>>, field: string)
    ensures RegistryOf(recs, field) == [] <==> forall i :: 0 <= i < |recs| ==> !Accepted(recs[i], field)
    decreases |recs|
  {
    if recs != [] {
      var n := |recs|;
      RegistryEmptyIff(recs[..n - 1], field);
      forall i | 0 <= i < n - 1 ensures recs[..n - 1][i] == recs[i] { }
    }
  }

  lemma {:induction false} PlacementsEmptyIff(recs: seq<Option<Params>>)
    ensures PlacementsOf(recs) == [] <==> forall i :: 0 <= i < |recs| ==> !IsPlacement(recs[i])
    decreases |recs|
  {
    if recs != [] {
      var n := |recs|;
      PlacementsEmptyIff(recs[..n - 1]);
      forall i | 0 <= i < n - 1 ensures recs[..n - 1][i] == recs[i] { }
    }
  }

  /** What `parse` returns on success. */
  datatype ParseResult = ParseResult(media: Registry, tracks: Registry, timeline: seq<Params>)

  /** `VPJParser.parse` as a function of the file's text (`None` when the
      file cannot be read). */
  function ParseSpec(content: Option<string>): Option<ParseResult>
  {
    match content
    case None => None
    case Some(s) =>
      var media := RegistryOf(SectionRecords(FindSection(s, ClipsPattern)), "path");
      var tracks := RegistryOf(SectionRecords(FindSection(s, TracksPattern)), "type");
      var timeline := PlacementsOf(SectionRecords(FindSection(s, TrackClipsPattern)));
      if media == [] && timeline == [] then None else Some(ParseResult(media, tracks, timeline))
  }

  /** `parse` fails exactly when the file cannot be read, or when no clip record
      has `h` and `path` and no placement record has `horiginalclip` and
      `htrack`; tracks alone never make it succeed. */
  lemma {:induction false} ParseFailsIff(content: Option<string>)
    ensures ParseSpec(content).None? <==>
      || content.None?
      || (var clips := SectionRecords(FindSection(content.value, ClipsPattern));
          var places := SectionRecords(FindSection(content.value, TrackClipsPattern));
          && (forall i :: 0 <= i < |clips| ==> !Accepted(clips[i], "path"))
          && (forall i :: 0 <= i < |places| ==> !IsPlacement(places[i])))
  {
    if content.Some? {
      var s := content.value;
      RegistryEmptyIff(SectionRecords(FindSection(s, ClipsPattern)), "path");
      PlacementsEmptyIff(SectionRecords(FindSection(s, TrackClipsPattern)));
    }
  }

  /** One section's registry loop of `VPJParser.parse`: record lines are
      parsed and filed under their handle when they carry `h` and `field`. */
  method CollectRegistry(block: Option<string>, field: string) returns (reg: Registry)
    ensures reg == RegistryOf(SectionRecords(block), field)
  {
    reg := [];
    var lines := SectionLines(block);
    ghost var recs := SectionRecords(block);
    var i := 0;
    while i < |lines|
      invariant 0 <= i <= |lines|
      invariant reg == RegistryOf(recs[..i], field)
    {
      assert recs[..i + 1][..i] == recs[..i];
      if StartsWith(Strip(lines[i]), "h=") {
        var params := ParseLine(lines[i]);
        if "h" in params && field in params {
          reg := Put(reg, params["h"], params);
        }
      }
      i := i + 1;
    }
    assert recs[..|lines|] == recs;
  }

  /** The placement loop of `VPJParser.parse`: record lines carrying
      `horiginalclip` and `htrack` are appended in file order. */
  method CollectPlacements(block: Option<string>) returns (timeline: seq<Params>)
    ensures timeline == PlacementsOf(SectionRecords(block))
  {
    timeline := [];
    var lines := SectionLines(block);
    ghost var recs := SectionRecords(block);
    var i := 0;
    while i < |lines|
      invariant 0 <= i <= |lines|
      invariant timeline == PlacementsOf(recs[..i])
    {
      PlacementsStep(recs, i);
      if StartsWith(Strip(lines[i]), "h=") {
        var params := ParseLine(lines[i]);
        if "horiginalclip" in params && "htrack" in params {
          timeline := timeline + [params];
        }
      }
      i := i + 1;
    }
    assert recs[..|lines|] == recs;
  }

  /** `VPJParser.parse`: the three sections are searched independently and
      their record lines filed one by one. */
  method Parse(content: Option<string>) returns (r: Option<ParseResult>)
    ensures r == ParseSpec(content)
    ensures r.Some? ==> r.value.media != [] || r.value.timeline != []
  {
    if content.None? {
      return None;
    }
    var s := content.value;
    var media := CollectRegistry(FindSection(s, ClipsPattern), "path");
    var tracks := CollectRegistry(FindSection(s, TracksPattern), "type");
    var timeline := CollectPlacements(FindSection(s, TrackClipsPattern));
    if media == [] && timeline == [] {
      return None;
    }
    return Some(ParseResult(media, tracks, timeline));
  }
}

# A verified model of the VideoPad importer, the editor's timeline edits and two generator plugins

This project is a Dafny model of four Python files of a small desktop video editor and its plugins.

- **The VideoPad project importer** (`plugins/videopad_importer/main.py`).
  - `VPJParser` reads a `.vpj` project file. It searches three sections with regular expressions and turns each `h=` record line into a dictionary of percent-decoded fields.
  - `Plugin.populate_timeline` first registers the media files that exist. It then numbers the project's tracks by name. Finally it turns every placement that resolves into a timeline clip with times in milliseconds and a group id for linked clips.
  - `Plugin.run_import_process` decides whether an import goes ahead at all.
- **The editor** (`videoeditor/main.py`).
  - The `Timeline` keeps its clip list ordered by start time and can report its total duration.
  - The `MainWindow` edits the timeline: it adds and removes tracks, prunes empty tracks, adds clips, splits clips at a time, at the playhead or at region edges, and joins regions by cutting out their content.
  - The `TimelineWidget` maps between pixel rows and tracks.
- **The video-generator plugin** (`plugins/wan2gp/main.py`).
  - A mock of the UI library records the tree of components built while it captures.
  - The generation queue is shown as a table. Rows can be removed from the queue or moved within it.
  - The generation modes offered depend on the model's allowed prompt types.
- **The AI frame-joiner plugin** (`videoeditor/plugins/ai_frame_joiner/main.py`).
  - It posts a generation request, then polls for a new output.
  - It replaces the content of a timeline region with the generated clip.

How each file is modelled:

- **Pure logic** is written as datatypes, functions and lemmas. This covers line parsing, section search, `int(float(...))`, sorting, splitting, joining and the queue arithmetic.
- **Objects that change in place** are classes whose methods carry `modifies` clauses. These are `Timeline`, `MainWindow`, the importer's host application, the capture mock, the queue panel, the polling client and the frame-joiner plugin.
- **Most loops of the source are methods with loop invariants**, proved against a specification function. The lemmas beside that function state what the source promises: ordering, unique ids, no clip straddling a split point, closed gaps, permutations and round trips. The exceptions are listed under "Left out": the `list.remove` loops are filters on the clip list, and the collection of region split points is a function.

Conventions used throughout:

- A clip's `uuid4` id and group id are numbers drawn from a fresh-id supply (`nextId`). "Fresh" means all ids are unique and all ids and group ids lie below the supply.
- Times in seconds are exact reals.
- Pixel rows are integers.
- Files on disk are a set of paths passed in as a parameter.
- The server's HTTP answers are parameters.
- Python dictionaries that keep insertion order are association lists.

## Model

| member | source | states |
|---|---|---|
| Strings.Strip | plugins/videopad_importer/main.py:21 | `strip()` returns a text with no whitespace at either end, and returns the empty text only for an all-whitespace input |
| Strings.StripIdempotent | plugins/videopad_importer/main.py:21 | stripping twice is stripping once |
| Strings.StripUntrimmed | plugins/videopad_importer/main.py:21 | a text without whitespace at either end is left unchanged |
| Strings.StripDropsLeadingSpace | plugins/videopad_importer/main.py:21 | a leading whitespace character never survives `strip()` |
| Strings.StripDropsTrailingSpace | plugins/videopad_importer/main.py:21 | a trailing whitespace character never survives `strip()` |
| Strings.Split | plugins/videopad_importer/main.py:21 | `split('&')` yields at least one piece, and no piece contains the separator |
| Strings.JoinSplit | plugins/videopad_importer/main.py:21 | joining the pieces of a split gives back the original text |
| Strings.SplitJoin | plugins/videopad_importer/main.py:21 | splitting a join of separator-free pieces gives back the pieces |
| Strings.SplitOnce | plugins/videopad_importer/main.py:23-24 | `split('=', 1)` has two parts exactly when `=` occurs; the left part has no `=` and the parts rebuild the piece |
| Strings.SplitOnceAt | plugins/videopad_importer/main.py:23-24 | splitting `a=b` once, where `a` has no `=`, recovers `a` and `b` |
| Strings.LexLessTrichotomy | plugins/videopad_importer/main.py:170 | Python's string order, which the track sort uses, is total and asymmetric |
| Strings.LexLessTransitive | plugins/videopad_importer/main.py:170 | Python's string order is transitive |
| Strings.DigitsValueOfNat | plugins/videopad_importer/main.py:212-214 | the decimal digits of a number read back to that number |
| Strings.NatDigits | plugins/videopad_importer/main.py:212-214 | the decimal text of a number is a non-empty run of digits |
| Strings.IntToString | plugins/videopad_importer/main.py:212-214 | the decimal text of an integer is non-empty and starts with `-` exactly when the integer is negative |
| Percent.Unquote | plugins/videopad_importer/main.py:27 | `unquote` never lengthens a value and leaves a value without `%` unchanged |
| Percent.Quote | plugins/videopad_importer/main.py:22-27 | an encoded value contains no `&` or `=` and no ASCII whitespace, so it survives the line's strip and split |
| Percent.UnquoteQuoteChar | plugins/videopad_importer/main.py:27 | decoding undoes the encoding of one character, whatever follows it |
| Percent.UnquoteQuote | plugins/videopad_importer/main.py:27 | decoding an encoded value gives the value back |
| TimeField.OverflowsIff | plugins/videopad_importer/main.py:212-214 | `float()` gives infinity exactly when the decimal reaches the double overflow bound |
| TimeField.TruncatesTowardZero | plugins/videopad_importer/main.py:212-214 | a converted field is finite, below the bound, and is the value truncated toward zero, keeping its sign |
| TimeField.ParseFloatStrips | plugins/videopad_importer/main.py:212-214 | `float()` reads the stripped text |
| TimeField.WhitespaceIgnored | plugins/videopad_importer/main.py:212-214 | whitespace around a time field does not change its converted value |
| TimeField.DecimalOfDigits | plugins/videopad_importer/main.py:212-214 | a run of digits reads as that integer with exponent 0 |
| TimeField.IntOfFloatOfInt | plugins/videopad_importer/main.py:212-214 | `int(float(str(n)))` is `n` for every integer of magnitude at most `2^53` |
| TimeField.ParseInf | plugins/videopad_importer/main.py:212 | `float('inf')` is positive infinity |
| TimeField.ParseMinusInfinity | plugins/videopad_importer/main.py:212 | `float('-Infinity')` is negative infinity, whatever the case of the letters |
| TimeField.InfinityOverflows | plugins/videopad_importer/main.py:212-219 | `int(float('inf'))` raises `OverflowError`, which is not one of the exceptions the handler names |
| TimeField.NanRejected | plugins/videopad_importer/main.py:212-219 | `int(float('nan'))` raises `ValueError` |
| VpjParser.PiecesParamsLastWins | plugins/videopad_importer/main.py:22-29 | a key is in a line's fields exactly when some piece carries it, and its value is the decoded value of the last such piece |
| VpjParser.LastPieceWithKey | plugins/videopad_importer/main.py:22-29 | the last piece carrying a key: later pieces do not carry it, and -1 means no piece does |
| VpjParser.ParseLine | plugins/videopad_importer/main.py:19-30 | the loop fills the dictionary piece by piece and returns the line's fields |
| VpjParser.PiecesOfPairs | plugins/videopad_importer/main.py:22-29 | the fields of written `key=value` pieces are the pairs, later duplicates winning |
| VpjParser.FormattedLineUntrimmed | plugins/videopad_importer/main.py:21 | a written record line has no whitespace to strip, and its pieces contain no `&` |
| VpjParser.ParseLineRoundTrip | plugins/videopad_importer/main.py:19-30 | reading a record line written from key/value pairs gives back the pairs' map |
| VpjParser.NextTerminator | plugins/videopad_importer/main.py:39 | the lazy `.*?` stops at the first position where the `(?=\nname=\d+)` lookahead succeeds |
| VpjParser.DigitsEnd | plugins/videopad_importer/main.py:39 | `\d+` reads the longest run of digits from a position |
| VpjParser.GroupStart | plugins/videopad_importer/main.py:39 | the captured group starts after the header line `name=<digits>...\n` |
| VpjParser.MatchAt | plugins/videopad_importer/main.py:39 | a match at a position has a header there and a group that ends where the lookahead first succeeds |
| VpjParser.FirstMatchFrom | plugins/videopad_importer/main.py:39 | `re.search` finds the leftmost position where the pattern matches, and there is no match before it |
| VpjParser.Get | plugins/videopad_importer/main.py:47 | a handle is found exactly when some entry has it, and with unique handles the entry found is that one |
| VpjParser.Put | plugins/videopad_importer/main.py:47 | `d[h] = p` keeps handles unique, maps `h` to `p`, changes no other handle, and grows by at most one |
| VpjParser.SectionRecords | plugins/videopad_importer/main.py:42-45 | each line of a section yields the fields of a record line or nothing, in file order |
| VpjParser.RegistryOf | plugins/videopad_importer/main.py:42-47 | the media or track map has unique handles; each entry carries `h` and the required field, and is filed under its own `h` |
| VpjParser.RegistryLastWins | plugins/videopad_importer/main.py:42-47 | a handle is in the map exactly when an accepted record carries it, and the record kept is the last one |
| VpjParser.LastFiled | plugins/videopad_importer/main.py:42-47 | the last record filed under a handle: no later record is filed under it, and -1 means none is |
| VpjParser.PlacementsOf | plugins/videopad_importer/main.py:70-74 | every kept placement carries `horiginalclip` and `htrack` |
| VpjParser.PlacementsMembership | plugins/videopad_importer/main.py:70-74 | a placement is kept exactly when an accepted record produced it |
| VpjParser.PlacementsOrder | plugins/videopad_importer/main.py:70-74 | placements keep file order |
| VpjParser.RegistryEmptyIff | plugins/videopad_importer/main.py:42-47 | the map is empty exactly when no record is accepted |
| VpjParser.PlacementsEmptyIff | plugins/videopad_importer/main.py:70-74 | the placement list is empty exactly when no record is a placement |
| VpjParser.ParseFailsIff | plugins/videopad_importer/main.py:32-86 | `parse` fails exactly when the file cannot be read, or when there is neither a media record nor a placement; tracks alone never make it succeed |
| VpjParser.CollectRegistry | plugins/videopad_importer/main.py:41-47 | the section loop builds exactly the map `RegistryOf` describes |
| VpjParser.CollectPlacements | plugins/videopad_importer/main.py:67-74 | the section loop builds exactly the placement list `PlacementsOf` describes |
| VpjParser.Parse | plugins/videopad_importer/main.py:32-86 | `parse` returns what the section search and record filing describe, and on success has media or placements |
| VpjImport.RegisteredPaths | plugins/videopad_importer/main.py:158-161 | every path handed to the host is non-empty and exists |
| VpjImport.MissingPathsIff | plugins/videopad_importer/main.py:158-164 | a path is reported missing exactly when a media record names it, it is non-empty and it does not exist |
| VpjImport.RegisteredPathsComplete | plugins/videopad_importer/main.py:158-161 | every media record with a non-empty existing path is registered |
| VpjImport.InsertByName | plugins/videopad_importer/main.py:170 | one insertion step of the sort adds exactly the inserted track |
| VpjImport.SortByName | plugins/videopad_importer/main.py:170 | sorting the tracks is a permutation |
| VpjImport.SortIsSorted | plugins/videopad_importer/main.py:170 | the sorted tracks are in name order, a missing name counting as `''` |
| VpjImport.SortIsStable | plugins/videopad_importer/main.py:170 | the sort is stable: tracks sharing a name keep their relative order |
| VpjImport.SortKeepsHandlesUnique | plugins/videopad_importer/main.py:170 | sorting keeps track handles distinct |
| VpjImport.CountKind | plugins/videopad_importer/main.py:172-179 | a kind's track count never exceeds the number of tracks |
| VpjImport.CountKindSorted | plugins/videopad_importer/main.py:170-179 | sorting does not change how many tracks there are of each kind |
| VpjImport.SlotsOfOrdinals | plugins/videopad_importer/main.py:172-179 | with distinct handles, a track of type `1` or `2` gets its ordinal among tracks of its kind, and any other type gets no slot |
| VpjImport.SlotsOfDomain | plugins/videopad_importer/main.py:172-179 | only the handles of the tracks get a slot |
| VpjImport.OrdinalsIncrease | plugins/videopad_importer/main.py:172-179 | ordinals within a kind strictly increase along the sorted order and run from 1 to the kind's count |
| VpjImport.SlotsStep | plugins/videopad_importer/main.py:172-179 | one more track extends the counts and the slot map |
| VpjImport.NumberTracks | plugins/videopad_importer/main.py:168-179 | the numbering loop builds the slot map of the sorted tracks and the counts of each kind |
| VpjImport.ClipTimes | plugins/videopad_importer/main.py:211-221 | a converted placement always has a positive duration |
| VpjImport.TimesOf | plugins/videopad_importer/main.py:212-218 | start, in point and duration exist only when all three fields convert and the duration is positive |
| VpjImport.ClipTimesAgree | plugins/videopad_importer/main.py:211-221 | the corrected conversion agrees with the code as written wherever the latter does not abort the import |
| VpjImport.InfiniteOffsetAborts | plugins/videopad_importer/main.py:211-221 | an `offset` of `inf` aborts the import as written, where the corrected conversion skips the placement |
| VpjImport.ClipTimesOfIntegers | plugins/videopad_importer/main.py:211-218 | fields written as integers of magnitude at most `2^53` give start = offset, in = in and duration = out - in, or a skip when that is not positive |
| VpjImport.FieldOfInt | plugins/videopad_importer/main.py:212-214 | a field written as an integer of magnitude at most `2^53` converts to that integer |
| VpjImport.StepEffect | plugins/videopad_importer/main.py:187-247 | a placement is dropped with nothing changed exactly when a check of lines 191-221 fails; otherwise exactly one clip is appended, carrying the placement's times and the media's path, slot and type |
| VpjImport.StepKeepsIdsBelow | plugins/videopad_importer/main.py:223-247 | one step keeps every group id in use below the supply |
| VpjImport.RunKeepsIdsBelow | plugins/videopad_importer/main.py:186-247 | the loop keeps all group ids below the supply, and the supply never goes down |
| VpjImport.UnlinkedKeepsGroups | plugins/videopad_importer/main.py:233-234 | a placement with `hlinked == '0'` leaves the group map unchanged |
| VpjImport.LinkedPairShareGroup | plugins/videopad_importer/main.py:227-232 | two resolvable placements naming each other in `hlinked` get one shared group |
| VpjImport.UnlinkedGetsFreshGroup | plugins/videopad_importer/main.py:233-234 | an unlinked placement whose handle has no group gets a group no earlier clip has |
| VpjImport.ImportHost.NewProject | videoeditor/main.py:913-914 | `new_project` leaves no clips and one track of each kind, and keeps the media pool |
| VpjImport.RegisterMedia | plugins/videopad_importer/main.py:158-164 | the pre-pass appends exactly the registered paths to the media pool and returns exactly the missing paths |
| VpjImport.AssignGroup | plugins/videopad_importer/main.py:223-234 | the group assignment computes the group, the group map and the supply that `GroupStep` gives |
| VpjImport.PlaceClips | plugins/videopad_importer/main.py:186-247 | the placement loop appends exactly the clips of `Run` and changes nothing else on the host |
| VpjImport.PopulateTimeline | plugins/videopad_importer/main.py:148-247 | media registered and missing paths reported as above; each track count raised to the number of `.vpj` tracks of that kind; the clips of `Run` appended |
| VpjImport.ImportGate | plugins/videopad_importer/main.py:123-143 | an import goes ahead exactly with a path, consent where it was asked, and a parse with both placements and media; the answer to an unasked question does not matter |
| VpjImport.ParsedButRefused | plugins/videopad_importer/main.py:139-141 | a file that parses with media but no placements is still refused |
| VpjImport.RunImportProcess | plugins/videopad_importer/main.py:123-146 | nothing changes and nothing is reported unless the import goes ahead; then the project is cleared and populated, the existing media paths are added to the pool and the missing ones are reported |
| EditorTimeline.InsertionPoint | videoeditor/main.py:69-71 | a stable sort puts an appended clip after the last clip that does not start later |
| EditorTimeline.InsertByStart | videoeditor/main.py:69-71 | one insertion step adds exactly the clip |
| EditorTimeline.InsertAtPoint | videoeditor/main.py:69-71 | the insertion puts the clip at its insertion point and moves nothing else |
| EditorTimeline.InsertKeepsSorted | videoeditor/main.py:69-71 | inserting into an ordered list keeps it ordered |
| EditorTimeline.SortByStart | videoeditor/main.py:71 | the sort by start is a permutation |
| EditorTimeline.SortByStartSorted | videoeditor/main.py:71 | the sort orders the clips by start |
| EditorTimeline.InsertByStartStable | videoeditor/main.py:71 | one insertion step keeps the order of clips sharing a start time and puts the inserted clip after them |
| EditorTimeline.SortByStartStable | videoeditor/main.py:71 | the sort is stable: clips sharing a start time keep their relative order |
| EditorTimeline.SortOfSorted | videoeditor/main.py:71 | sorting an ordered list changes nothing |
| EditorTimeline.InsertionSplits | videoeditor/main.py:69-71 | on an ordered list the insertion point separates the clips starting no later from those starting later |
| EditorTimeline.AppendThenSort | videoeditor/main.py:69-71 | appending to an ordered list and sorting is inserting at the insertion point |
| EditorTimeline.MaxEnd | videoeditor/main.py:73-75 | the latest end bounds every clip's end and is some clip's end |
| EditorTimeline.TotalDurationOf | videoeditor/main.py:73-75 | the total duration is 0 for no clips, else the maximum end |
| EditorTimeline.TotalDurationByBounds | videoeditor/main.py:73-75 | two lists whose ends are bounded by each other's total have equal totals |
| EditorTimeline.PrunedCount | videoeditor/main.py:671-692 | a count of at most 1 is kept; otherwise the count stays at least 1, every track above it is empty, and the top remaining track above 1 is occupied |
| EditorTimeline.PruneIdempotent | videoeditor/main.py:671-692 | pruning twice prunes nothing more |
| EditorTimeline.PruneKeepsOccupied | videoeditor/main.py:671-692 | pruning never removes an occupied track |
| EditorTimeline.Timeline.constructor | videoeditor/main.py:63-67 | a new timeline has no clips and one track of each kind |
| EditorTimeline.Timeline.AddClip | videoeditor/main.py:69-71 | `add_clip` appends, then sorts by start; the track counts are kept |
| EditorTimeline.Timeline.TotalDuration | videoeditor/main.py:73-75 | `get_total_duration` is 0 for no clips, else the latest end |
| ClipEdits.IndexOf | videoeditor/main.py:994 | the clip object an id names is found in the list |
| ClipEdits.ClipOf | videoeditor/main.py:994 | the clip an id names is in the list |
| ClipEdits.Head | videoeditor/main.py:1002 | the split clip keeps its id, source, track, group, start and source offset, and ends at the split time |
| ClipEdits.Tail | videoeditor/main.py:996-1001 | the new clip starts at the split time, ends where the original ended, reads the source from the matching offset, and the two durations add up to the original |
| ClipEdits.SplitEffect | videoeditor/main.py:994-1004 | a split happens exactly when the clip straddles the time; it then replaces the clip by its head and a tail under the next id, and the list stays ordered |
| ClipEdits.ClipOfUnique | videoeditor/main.py:994 | under unique ids the clip an id names is the only clip with that id |
| ClipEdits.SplitMembers | videoeditor/main.py:994-1004 | after a split the clips are the others, plus the two pieces |
| ClipEdits.SplitKeepsFresh | videoeditor/main.py:994-1004 | a split whose group is in use or fresh keeps ids unique and below the supply, and loses no id |
| ClipEdits.SplitAddsNoSpan | videoeditor/main.py:994-1004 | a split never makes a clip straddle a time that no clip straddled before |
| ClipEdits.SplitKeepsTotalDuration | videoeditor/main.py:994-1004 | `_split_at_time` keeps the total duration |
| ClipEdits.SplitKeepsIds | videoeditor/main.py:994-1004 | a split loses no clip id |
| ClipEdits.SplitSpanners | videoeditor/main.py:994-1004 | a clip straddling `t` after a split at `t` was there before, and is not the clip that was split |
| ClipEdits.StepFacts | videoeditor/main.py:1044-1046 | one iteration of a pass keeps ids, freshness, order, total duration, and every time no clip straddles |
| ClipEdits.StepSpanners | videoeditor/main.py:1044-1046 | a clip straddling `t` after a step was there before, and is not the clip the step worked on |
| ClipEdits.StepInvariant | videoeditor/main.py:1033 | one iteration keeps the pass invariant: every straddling clip is an original one not yet reached |
| ClipEdits.StepNewStart | videoeditor/main.py:1033 | one iteration adds only clips starting at `t` |
| ClipEdits.SplitEachInvariant | videoeditor/main.py:1033 | during a pass, every clip straddling `t` is an original clip the pass has not reached yet |
| ClipEdits.SplitEachClears | videoeditor/main.py:1033 | after a pass that reaches every straddling clip, no clip straddles `t` |
| ClipEdits.SplitEachKeeps | videoeditor/main.py:1033 | a pass keeps ids, freshness, order, total duration and every unstraddled time |
| ClipEdits.SplitEachNewStart | videoeditor/main.py:1033 | after a pass every clip is an original one by id, or a new piece starting at `t` |
| ClipEdits.IdsOf | videoeditor/main.py:1032 | the snapshot `list(clips)` lists the clips' ids in order |
| ClipEdits.GroupsAt | videoeditor/main.py:1041 | the groups of the clips straddling the point, each once |
| ClipEdits.FreshFor | videoeditor/main.py:1042 | each group at the point gets a new id drawn from the supply, and distinct groups get distinct ids |
| ClipEdits.SplitAllAtFresh | videoeditor/main.py:1041-1046 | the group-aware split keeps ids unique and below the supply |
| ClipEdits.SplitAllAtClears | videoeditor/main.py:1041-1046 | after the group-aware split at a point no clip straddles it |
| ClipEdits.SplitAllAtKeepsTotal | videoeditor/main.py:1041-1046 | the group-aware split keeps the total duration |
| ClipEdits.SplitAllAtKeepsOrder | videoeditor/main.py:1041-1046 | the group-aware split keeps the list ordered |
| ClipEdits.SplitAllAtKeepsClear | videoeditor/main.py:1041-1046 | the group-aware split keeps every unstraddled time unstraddled |
| ClipEdits.SplitAllAtSetup | videoeditor/main.py:1041-1042 | the draw of new group ids keeps the id discipline |
| ClipEdits.SplitAllAtCovers | videoeditor/main.py:1041-1046 | the pass reaches every straddling clip, and each such clip's group has a new id |
| ClipEdits.FirstSpanning | videoeditor/main.py:1009 | the clip found straddles the playhead and is on the timeline, or none is found when no clip does |
| ClipEdits.FirstLinked | videoeditor/main.py:1015 | the clip found is another clip of the target's group, or none is found when no such clip exists |
| ClipEdits.FirstSpanningIsFirst | videoeditor/main.py:1009 | the clip found is the first one straddling the playhead: no earlier clip does |
| ClipEdits.FirstLinkedIsFirst | videoeditor/main.py:1015 | the clip found is the first other clip of the target's group: no earlier clip is one |
| ClipEdits.PlayheadSplitIdle | videoeditor/main.py:1008-1013 | with no clip given and none under the playhead, nothing changes |
| ClipEdits.PlayheadSplitGroup | videoeditor/main.py:1006-1022 | a playhead split keeps ids fresh; the drawn group is new, every clip in it is a right-hand piece starting at the playhead, and the right-hand pieces of both the target and its group-mate are in it |
| ClipEdits.DrawKeepsFresh | videoeditor/main.py:1017 | drawing a group id keeps the id discipline, and no clip is in that group |
| ClipEdits.SplitPieces | videoeditor/main.py:1019 | where the clips of a split with a given new group come from |
| ClipEdits.PlayheadFirstFresh | videoeditor/main.py:1019 | the first split keeps the id discipline |
| ClipEdits.PlayheadFirstGroup | videoeditor/main.py:1019 | after the first split the new group holds only the target's right-hand piece, if any |
| ClipEdits.PlayheadSecond | videoeditor/main.py:1021-1022 | the split of the group-mate keeps what the first split established, and puts the mate's right-hand piece, under the next id and in the new group, on the timeline |
| ClipEdits.PlayheadSecondGroup | videoeditor/main.py:1021-1022 | after the second split every clip in the new group starts at the playhead, and the mate's right-hand piece is among the clips |
| ClipEdits.AddToTimelineClips | videoeditor/main.py:980-989 | `_add_clip_to_timeline` adds exactly the requested clips |
| ClipEdits.AddToTimelineSorted | videoeditor/main.py:980-989 | `_add_clip_to_timeline` keeps the list ordered |
| ClipEdits.MaybeAddSorted | videoeditor/main.py:983-989 | each block keeps the list ordered |
| ClipEdits.AddToTimelineGroup | videoeditor/main.py:980-989 | the new clips share one group that no existing clip belongs to |
| ClipEdits.AddToTimelineFresh | videoeditor/main.py:980-989 | `_add_clip_to_timeline` keeps ids unique and below the supply |
| ClipEdits.MaybeAddKeepsFresh | videoeditor/main.py:983-989 | adding a clip in a group below the supply keeps the id discipline |
| RegionEdits.SnapshotCovers | videoeditor/main.py:1032 | a snapshot of the whole list reaches every straddling clip |
| RegionEdits.SplitRegionEndPass | videoeditor/main.py:1033 | the end pass leaves no clip straddling the end; new pieces start at the end |
| RegionEdits.StartPassCovers | videoeditor/main.py:1034 | the start pass still reaches every clip straddling the start |
| RegionEdits.SplitRegionClears | videoeditor/main.py:1030-1034 | after `on_split_region` with start <= end, no clip straddles either edge |
| RegionEdits.SplitRegionKeeps | videoeditor/main.py:1030-1034 | `on_split_region` keeps ids fresh, the total duration and the order |
| RegionEdits.InsertPoint | videoeditor/main.py:1039 | adding a point to the increasing point list keeps it increasing and adds exactly that point |
| RegionEdits.SplitPoints | videoeditor/main.py:1038-1040 | `sorted(list(split_points))` lists every region edge once, in increasing order |
| RegionEdits.SplitAtPointsClears | videoeditor/main.py:1040-1046 | after the splits no clip straddles any point, and ids stay fresh |
| RegionEdits.SplitAtPointsKeeps | videoeditor/main.py:1040-1046 | the splits keep the total duration and the order |
| RegionEdits.SplitAllRegionsEffect | videoeditor/main.py:1037-1046 | after `on_split_all_regions` no clip straddles any region edge; ids stay fresh; total duration and order are kept |
| RegionEdits.Remaining | videoeditor/main.py:1061-1062 | the removal never lengthens the list |
| RegionEdits.RemainingMembers | videoeditor/main.py:1061-1062 | the removal keeps exactly the clips not starting in `[start, end)` |
| RegionEdits.ShiftFrom | videoeditor/main.py:1063-1064 | the shift treats each clip in place |
| RegionEdits.JoinCutFresh | videoeditor/main.py:1054-1059 | the two group-aware splits keep ids fresh |
| RegionEdits.JoinCutClears | videoeditor/main.py:1054-1059 | after the two splits no clip straddles either edge |
| RegionEdits.JoinCutOrder | videoeditor/main.py:1054-1059 | the two splits keep the order |
| RegionEdits.RemoveShiftMembers | videoeditor/main.py:1061-1064 | after removal and shift: clips before the start are unchanged, clips at or after the end are moved left, and no clip that started inside survives |
| RegionEdits.GapClosed | videoeditor/main.py:1061-1064 | when no clip straddles the start, no clip overlaps the start after the removal and shift |
| RegionEdits.SortMembers | videoeditor/main.py:1065 | the final sort keeps the same clips |
| RegionEdits.JoinMembers | videoeditor/main.py:1050-1065 | `on_join_region` removes the clips starting in the region, moves those at or after its end left by its length, and nothing else |
| RegionEdits.JoinClosesGap | videoeditor/main.py:1050-1065 | after a join of a region longer than 0.01, every clip ends by the start or starts at or after it |
| RegionEdits.JoinShortRegion | videoeditor/main.py:1052 | a region of length 0.01 or less is left alone |
| RegionEdits.RemainingSorted | videoeditor/main.py:1061-1062 | removing clips keeps an ordered list ordered |
| RegionEdits.RemoveShiftSorted | videoeditor/main.py:1061-1064 | on an ordered list the removal and shift keep the order |
| RegionEdits.JoinSortMovesNothing | videoeditor/main.py:1065 | on an ordered timeline the final sort moves nothing |
| RegionEdits.RemainingDistinct | videoeditor/main.py:1061-1062 | removing clips keeps ids distinct |
| RegionEdits.RemoveShiftFresh | videoeditor/main.py:1061-1064 | the removal and shift keep ids fresh |
| RegionEdits.JoinStepFresh | videoeditor/main.py:1054-1064 | one region's join keeps ids fresh |
| RegionEdits.JoinFresh | videoeditor/main.py:1050-1065 | `on_join_region` keeps ids fresh |
| RegionEdits.RegionPoint | videoeditor/main.py:1070 | a stable descending sort puts a region after every region with an equal or later start |
| RegionEdits.InsertRegion | videoeditor/main.py:1070 | inserting a region adds exactly that region |
| RegionEdits.InsertRegionDescending | videoeditor/main.py:1070 | inserting into a descending list keeps it descending |
| RegionEdits.SortRegions | videoeditor/main.py:1070 | the regions are a permutation, ordered latest start first |
| RegionEdits.InsertRegionStable | videoeditor/main.py:1070 | one insertion step keeps the order of regions sharing a start and puts the inserted region after them |
| RegionEdits.SortRegionsStable | videoeditor/main.py:1070 | the descending sort is stable: regions sharing a start keep their relative order |
| RegionEdits.JoinAllSingle | videoeditor/main.py:1050-1088 | on an ordered timeline, joining all of a one-region list is joining that region |
| RegionEdits.JoinEachSingle | videoeditor/main.py:1070-1086 | the iterations over a one-region list are one iteration |
| RegionEdits.JoinEachFresh | videoeditor/main.py:1070-1086 | the iterations keep ids fresh |
| RegionEdits.JoinAllFresh | videoeditor/main.py:1069-1088 | `on_join_all_regions` keeps ids fresh |
| Editor.MainWindow.constructor | videoeditor/main.py:63-67 | a window on an empty timeline with one track of each kind and a fresh supply |
| Editor.MainWindow.AddTrack | videoeditor/main.py:698-703 | one more track of the named kind; any other name changes nothing; the window's invariant (unique ids, every id and group below the supply) is kept |
| Editor.MainWindow.RemoveTrack | videoeditor/main.py:705-710 | one track fewer of the named kind, unless only one is left; the window's invariant (unique ids, every id and group below the supply) is kept |
| Editor.MainWindow.PruneEmptyTracks | videoeditor/main.py:671-692 | each count becomes its pruned count; the clips are unchanged; the window's invariant (unique ids, every id and group below the supply) is kept |
| Editor.MainWindow.MaybeAddClip | videoeditor/main.py:983-989 | one block of `_add_clip_to_timeline` |
| Editor.MainWindow.AddClipToTimeline | videoeditor/main.py:980-989 | the timeline becomes `AddToTimeline` of the old one; the track counts are kept; the window's invariant (unique ids, every id and group below the supply) is kept |
| Editor.MainWindow.SplitAtTime | videoeditor/main.py:994-1004 | the timeline becomes the split of the old one, and the result says whether the split happened; the invariant is kept when the given group is below the supply |
| Editor.MainWindow.Cut | videoeditor/main.py:1001-1003 | the clip is cut short at `t`, and the rest is added with `add_clip` under the next id |
| Editor.MainWindow.SplitClipAtPlayhead | videoeditor/main.py:1006-1028 | the timeline becomes `PlayheadSplit` of the old one; the track counts are kept; the window's invariant (unique ids, every id and group below the supply) is kept |
| Editor.MainWindow.SplitMateOf | videoeditor/main.py:1021-1022 | the group-mate is split, if there is one |
| Editor.MainWindow.SplitPass | videoeditor/main.py:1033 | the loop over a snapshot is the pass `SplitEach` |
| Editor.MainWindow.PassStep | videoeditor/main.py:1033 | one iteration of a pass |
| Editor.MainWindow.SplitAllAtPoint | videoeditor/main.py:1041-1046 | the group-aware split at one point, keeping the id discipline |
| Editor.MainWindow.OnSplitRegion | videoeditor/main.py:1030-1035 | the timeline becomes `SplitRegion` of the old one; the invariant is kept |
| Editor.MainWindow.OnSplitAllRegions | videoeditor/main.py:1037-1048 | the timeline becomes `SplitAllRegions` of the old one, keeping the id discipline |
| Editor.MainWindow.CutOut | videoeditor/main.py:1054-1064 | the splits, the removal and the shift of one region |
| Editor.MainWindow.RemoveStarting | videoeditor/main.py:1061-1062 | the clips starting inside the region are removed |
| Editor.MainWindow.RemoveAndShift | videoeditor/main.py:1061-1064 | the removal, then the shift of the clips after the region |
| Editor.MainWindow.ShiftLater | videoeditor/main.py:1063-1064 | clips starting at or after the end move left by the region's length |
| Editor.MainWindow.OnJoinRegion | videoeditor/main.py:1050-1067 | the timeline becomes `Join` of the old one and the track counts are pruned; a short region changes nothing |
| Editor.MainWindow.OnJoinAllRegions | videoeditor/main.py:1069-1090 | the timeline becomes `JoinAll` of the old one, and the track counts are pruned |
| Editor.MainWindow.JoinEachRegion | videoeditor/main.py:1070-1086 | the loop over the sorted regions |
| Editor.MainWindow.JoinRegionStep | videoeditor/main.py:1071-1086 | one iteration; a short region is passed over |
| TrackGeometry.YToTrackInfo | videoeditor/main.py:332-344 | a pixel row in the video band maps to a video track from 1 to the count, a row in the audio band to an audio track; any other row maps to no track |
| TrackGeometry.ClipTop | videoeditor/main.py:270-271 | a clip's rectangle sits 5 pixels below its row's top |
| TrackGeometry.TrackInfoInRow | videoeditor/main.py:332-344 | every pixel row mapped to a track lies in that track's row |
| TrackGeometry.RowMapsToTrack | videoeditor/main.py:332-344 | in the drawn layout every pixel of an existing track's row maps back to that track |
| TrackGeometry.ClipMiddleOnTrack | videoeditor/main.py:260-272 | the vertical middle of a clip's row maps back to the clip's own track |
| Wan2gp.MockGradio.constructor | plugins/wan2gp/main.py:70-73 | not capturing, with nothing open and no roots |
| Wan2gp.MockGradio.StartCapture | plugins/wan2gp/main.py:99-102 | nothing open, no roots, capturing |
| Wan2gp.MockGradio.StopCapture | plugins/wan2gp/main.py:104-106 | capturing ends and the roots are handed back |
| Wan2gp.MockGradio.Push | plugins/wan2gp/main.py:80-86 | while capturing, the container becomes a child of the innermost open one, or a root, and is opened; the open stack stays a path down the tree |
| Wan2gp.MockGradio.Pop | plugins/wan2gp/main.py:88-91 | while capturing, the innermost open container is closed, if any |
| Wan2gp.MockGradio.Register | plugins/wan2gp/main.py:93-97 | while capturing, the component becomes a child of the innermost open container; it is always returned |
| Wan2gp.Row | plugins/wan2gp/main.py:713-718 | a table row has four cells: repeats (default `"1"`), the prompt as stored, the length and the steps (default `""`) |
| Wan2gp.QueueTable | plugins/wan2gp/main.py:708-719 | no rows for a queue of at most one task; otherwise one row per task after the running one, in order |
| Wan2gp.InsertDesc | plugins/wan2gp/main.py:1810 | one insertion step of the descending sort adds exactly the element |
| Wan2gp.InsertDescSorted | plugins/wan2gp/main.py:1810 | inserting into a descending list keeps it descending |
| Wan2gp.SortDesc | plugins/wan2gp/main.py:1810 | `sorted(..., reverse=True)` is a descending permutation |
| Wan2gp.Without | plugins/wan2gp/main.py:1812 | `pop(i)` removes exactly position `i` |
| Wan2gp.Drop | plugins/wan2gp/main.py:1800-1812 | the reference meaning of removing a set of positions never lengthens the queue |
| Wan2gp.DropAppend | plugins/wan2gp/main.py:1800-1812 | dropping from a concatenation drops from each part |
| Wan2gp.DropNone | plugins/wan2gp/main.py:1800-1812 | dropping positions that lie outside the queue changes nothing |
| Wan2gp.PopThenDrop | plugins/wan2gp/main.py:1810-1812 | popping the highest position first and then dropping the lower ones is dropping them all |
| Wan2gp.PopAllDrops | plugins/wan2gp/main.py:1810-1812 | popping a strictly descending list of positions drops exactly the positions strictly inside the queue, other than the head |
| Wan2gp.SortDistinct | plugins/wan2gp/main.py:1810 | sorting distinct positions in descending order makes them strictly descending |
| Wan2gp.RemoveRowsDrops | plugins/wan2gp/main.py:1800-1812 | removing distinct rows removes exactly the queue positions they name that lie inside the queue, other than the head |
| Wan2gp.PopAllKeepsHead | plugins/wan2gp/main.py:1811 | the task at the head of the queue is never removed |
| Wan2gp.PopIndex | plugins/wan2gp/main.py:1820 | `pop(i)` accepts exactly `-n <= i < n`, counting a negative index from the end |
| Wan2gp.InsertIndex | plugins/wan2gp/main.py:1822 | `insert(i, x)` puts `x` at a position within the list, namely at `i` when `0 <= i <= n` |
| Wan2gp.MovedPermutes | plugins/wan2gp/main.py:1814-1822 | a move that does not raise keeps the length and the tasks, and puts the moved task at its insert position |
| Wan2gp.MoveBack | plugins/wan2gp/main.py:1814-1822 | moving a task from `i` to `j` and back restores the queue |
| Wan2gp.QueuePanel.Offset | plugins/wan2gp/main.py:1805-1806 | the offset is 1 exactly when a task is running |
| Wan2gp.QueuePanel.RemoveQueueRows | plugins/wan2gp/main.py:1800-1812 | the queue becomes the pops of the shifted rows, largest first |
| Wan2gp.QueuePanel.MoveQueueRow | plugins/wan2gp/main.py:1814-1822 | the queue becomes the move of the shifted rows; a pop outside the queue raises and leaves it unchanged |
| Wan2gp.ModeLetters | plugins/wan2gp/main.py:1365-1373 | the choices offer exactly the listed letters |
| Wan2gp.ModeChoicesOffer | plugins/wan2gp/main.py:1365-1370 | `T` is offered exactly when `T` is allowed or nothing is listed; `S`, `V` and `L` each exactly when allowed |
| Wan2gp.ModeChoicesOrder | plugins/wan2gp/main.py:1366-1370 | the modes are offered in the order T, S, V, L |
| Wan2gp.TextModeLabel | plugins/wan2gp/main.py:1367 | the text-only mode reads "Text Prompt Only" when a start image is allowed, else "New Video" |
| Wan2gp.CheckedAfter | plugins/wan2gp/main.py:1379-1381 | a checked mode that is still offered stays checked; otherwise the first offered mode is checked; with nothing offered nothing changes |
| Wan2gp.NothingListedChecksText | plugins/wan2gp/main.py:1365-1381 | with no allowed types listed, the text mode ends up checked |
| FrameJoiner.Payload | videoeditor/plugins/ai_frame_joiner/main.py:119-134 | each optional key is present exactly when its field is non-blank, holding that field; `start_generation` is always present; no other key appears |
| FrameJoiner.NewOutput | videoeditor/plugins/ai_frame_joiner/main.py:150-159 | a poll hands on an output exactly when the answer is 200 with a non-empty path different from the last one, and then hands on that path |
| FrameJoiner.OutputHandedOnOnce | videoeditor/plugins/ai_frame_joiner/main.py:157-159 | the same answer polled again hands on nothing |
| FrameJoiner.WgpClient.constructor | videoeditor/plugins/ai_frame_joiner/main.py:27 | no output seen, not polling |
| FrameJoiner.WgpClient.Generate | videoeditor/plugins/ai_frame_joiner/main.py:119-148 | posts the payload; polling starts exactly when the answer is 200 and autostart is on |
| FrameJoiner.WgpClient.PollForOutput | videoeditor/plugins/ai_frame_joiner/main.py:150-168 | a new output stops the polling, is recorded and is emitted; otherwise nothing changes |
| FrameJoiner.FullPassClears | videoeditor/plugins/ai_frame_joiner/main.py:279-280 | a full pass of splits at `t` leaves no clip straddling `t`, keeps ids fresh and every unstraddled time, and keeps an ordered list ordered |
| FrameJoiner.Outside | videoeditor/plugins/ai_frame_joiner/main.py:282-288 | the clips left are exactly those not lying wholly inside the region |
| FrameJoiner.OutsideDistinct | videoeditor/plugins/ai_frame_joiner/main.py:282-288 | the removal keeps ids distinct |
| FrameJoiner.ClearedRegion | videoeditor/plugins/ai_frame_joiner/main.py:279-288 | after the splits and the removal no clip overlaps the open region, and ids stay fresh |
| FrameJoiner.Inserted | videoeditor/plugins/ai_frame_joiner/main.py:290-297 | the generated clip is a video clip on track 1, spanning the region, from source offset 0 |
| FrameJoiner.AddedVideoOnly | videoeditor/plugins/ai_frame_joiner/main.py:290-297 | with a video track and no audio track, exactly one video clip is added |
| FrameJoiner.AddGeneratedSorted | videoeditor/plugins/ai_frame_joiner/main.py:290-297 | the timeline is ordered after the generated clip is added |
| FrameJoiner.AddGeneratedClip | videoeditor/plugins/ai_frame_joiner/main.py:290-297 | adding the generated clip adds exactly it, under a fresh id and a fresh group |
| FrameJoiner.InsertClipsEffect | videoeditor/plugins/ai_frame_joiner/main.py:279-297 | the insertion adds exactly one clip, the generated one, to the cleared timeline |
| FrameJoiner.FreshAfterOneMore | videoeditor/plugins/ai_frame_joiner/main.py:290-297 | one more clip with an unused id and group keeps the id discipline |
| FrameJoiner.InsertClipsFresh | videoeditor/plugins/ai_frame_joiner/main.py:279-297 | the insertion keeps ids unique and below the supply |
| FrameJoiner.InsertLeavesRegionToNewClip | videoeditor/plugins/ai_frame_joiner/main.py:279-297 | after the insertion, every clip other than the generated one lies outside the region |
| FrameJoiner.Joiner.constructor | videoeditor/plugins/ai_frame_joiner/main.py:171-177 | no active region and no temporary folder |
| FrameJoiner.Joiner.CleanupTempDir | videoeditor/plugins/ai_frame_joiner/main.py:196-199 | the folder becomes `CleanedTempDir` of the old one |
| FrameJoiner.Joiner.CutRegion | videoeditor/plugins/ai_frame_joiner/main.py:279-280 | the two passes of splits |
| FrameJoiner.Joiner.RemoveInside | videoeditor/plugins/ai_frame_joiner/main.py:282-288 | the clips lying wholly inside the region are removed |
| FrameJoiner.Joiner.ClearRegion | videoeditor/plugins/ai_frame_joiner/main.py:279-288 | the splits and the removal leave the region empty |
| FrameJoiner.Joiner.AddGeneratedToApp | videoeditor/plugins/ai_frame_joiner/main.py:290-297 | the generated file is added as a video clip on track 1 |
| FrameJoiner.Joiner.ReplaceRegion | videoeditor/plugins/ai_frame_joiner/main.py:278-301 | the region's content is replaced by the generated clip, and empty tracks are pruned |
| FrameJoiner.Joiner.InsertGeneratedClip | videoeditor/plugins/ai_frame_joiner/main.py:265-311 | without an active region or with a missing file nothing changes; otherwise the region is replaced, tracks are pruned, the temporary folder is cleaned and the region is dropped |

## Left out

- The Qt user interface is not modelled: painting, dialogs, menus, status labels, console output and `update()` calls.
- `QFileDialog` and `QMessageBox` answers are parameters of the import: the chosen path and the confirmation.
- Concurrency is not modelled: the generator's worker thread, `wgp.lock` and the poll timer. Whether a task is running is a field.
- HTTP requests are not modelled. The status code and the JSON body are parameters. `check_server_status` and `handle_api_error` are left out because they only change labels.
- `requests` connection errors are not modelled, because they only change labels.
- Floating-point seconds are exact reals. Rounding in `timeline_start_sec -= duration` and in the split arithmetic is not modelled.
- Pixel rows are integers, although `y_to_track_info` may also receive a float.
- `uuid4()` is a counter. Uniqueness is what the model relies on; the text of the id is not modelled.
- `os.path.exists`, the host's `media_properties` and `_add_media_files_to_project` are parameters: a set of existing paths, a map, and an append to the media pool.
- `shutil.rmtree` is not modelled; only the plugin's `temp_dir` field is.
- Reading the `.vpj` file (`open`/`read` with `errors='ignore'`) is a parameter: the text, or `None` when reading fails.
- Percent-decoding covers escapes of ASCII characters. Multi-byte UTF-8 sequences are left as written, because strings are sequences of characters.
- Editor.MainWindow.SplitAtTime: the clip is named by its id and must be on the timeline. Splitting a clip object that is no longer in the list (the source mutates it and still adds the new piece) is not modelled.
- Editor.MainWindow.PassStep: a clip of the snapshot whose id is no longer in the list is passed over. In the source every snapshot clip is still present, so this case never arises.
- ClipEdits.SplitMate: likewise, a group-mate whose id is no longer in the list is passed over.
- `list.remove(clip)` in `on_join_region` and `insert_generated_clip` is modelled as a filter on the clip list. Under unique ids the two agree.
- `clips_to_remove` and the final sort are modelled in place on the sequence. The identity of Python clip objects is represented by their unique ids.
- The importer hands the host a clip with times in milliseconds and a media type, as its call at plugins/videopad_importer/main.py:236-245 passes them. The model does not reconcile this with the seconds-based `TimelineClip` constructor of videoeditor/main.py:48-57.
- The editor's `_perform_complex_timeline_change` (undo support) is not modelled. The model runs `populate_timeline` directly.
- The mock UI library's component factories (`Slider`, `Textbox`, ...) are not modelled separately. Each of them is `Register`. `__getattr__` stubs are not modelled.
- The layout builder of the generator plugin (`DynamicUiBuilder`) is not modelled. It only arranges widgets.
- Wan2gp.Row: a task's values are text or integers only. A float, `None` or a boolean stored under `repeats`, `length` or `steps` is not modelled, so neither is how `str()` prints it. This affects only the text of a cell.
- Exceptions raised inside the `try` of `insert_generated_clip` are not modelled. None of the modelled operations raises.
- TimeField.IntOf: `float()` of a decimal is kept as the exact decimal and is not rounded to the nearest double. The two agree on integers of magnitude at most `2^53`; above that, or past 17 significant digits, the double may differ. Digit-group separators (`1_000`) and non-ASCII digits are not accepted.
- TimeField.TruncatesTowardZero: the truncation is stated for the exact decimal, not for the rounded double `float()` returns.
- RegionEdits.SplitPoints: the loop gathering the region edges into a set is modelled as a function over the regions that yields the sorted point list directly.
- VpjParser.DigitsEnd: `\d` is read as the ASCII digits only. Python's `re` also matches other Unicode decimal digits.
- VpjImport.ClipTimes: this is the corrected conversion, in which every unconvertible field skips the placement. The code as written aborts on an infinite field; `ClipTimesAsWritten` models that, and the finding below records it.
- VpjImport.PopulateTimeline: the method uses `ClipTimes`, the corrected conversion. It therefore skips a placement whose time field is infinite, where the code as written raises `OverflowError` and ends the import.

## Findings

| source | as written | input that shows it | evidently intended | confidence | as-written member | corrected member |
|---|---|---|---|---|---|---|
| plugins/videopad_importer/main.py:211-221 | `int(float(x))` of a time field is guarded by `except (ValueError, TypeError)`. `float('inf')` is accepted, but `int()` of it raises `OverflowError`, which escapes the handler and ends `populate_timeline`. | a placement with `offset=inf` (or `in=inf`, `out=-infinity`) | the placement is skipped like any other invalid time value | not executed | VpjImport.InfiniteOffsetAborts | VpjImport.ClipTimesAgree |

# A verified model of a schematic editor's wiring and its CircuiTikZ exporter

The system is a browser schematic editor (`app.js`) plus a Python script (`circuittikz.py`).
In the editor, a user places components on a 40-unit grid and draws wires. Each wire is
drawn as an L-shaped route of axis-aligned segments. After every commit the store of wire
segments is normalised: collinear segments that overlap or touch on the same grid line
become one. The script reads the exported drawing and splits every wire that has a
component's centre strictly inside it. The wire is cut around the centre along the wire's own
axis, so when the component lies along the wire the two pieces end at its terminals. A component
drawn across its wire is still cut along the wire, and then the pieces do not meet its terminals.
The script then emits wires and components as CircuiTikZ `\draw` commands.

The model has these modules:

- **Grid**: `snapAndClamp`.
- **Colors**: `normalizeHex` and `rgbToHex`.
- **Components**: component footprints and the `r`-key rotation step.
- **Selection**: the rubber-band selection predicates and the loop that collects selected wires.
- **Routing**: the direction lock of `updateWirePreview` and the segments `commitWire` pushes.
- **Spans, Merge, MergeEngine**: `mergeCollinearWires`.
  - **Spans**: sorting and sweeping the intervals of one line.
  - **Merge**: the specification function `Normalize` and everything proved about it.
  - **MergeEngine**: the source's loops as methods proved equal to `Normalize`.
- **StoreUpdates**: the drag-release, recolour and width updates of the store.
- **EditorState**: the module-level state of the editor as a value, and one transition per operation.
- **Editor**: the same state as a class whose methods update it in place. Each method is proved to perform its transition.
- **CircuiTikz**: the exporter.
  - The wire list is a class that the split pass changes in place.
  - The split pass is specified by `SplitOne`/`SplitAll`.
  - Terminals, options and the drawing loops are functions and methods.

Merged wires get identifiers `wire-0`, `wire-1`, and so on using the *index* of the merged
output. The editor's counter is never reset to match. The model still proves that
identifiers stay unique and below the counter (`EditorState.Invariant`).

Coordinates are modelled as follows:

- Editor coordinates that have been snapped are integers.
- Raw pointer and attribute values are `real`.
- Exporter coordinates are `real`.
- Coverage of a grid line is stated over real positions `t`. This distinguishes `[0,1],[2,3]` from `[0,3]`.

## Model

| member | source | states |
|---|---|---|
| Grid.Snap | app.js:75-77 | the rounded value is a multiple of GRID_SIZE 40 within half a pitch of the input, a half rounding upwards (Math.round) |
| Grid.SnapAndClamp | app.js:75-78 | the result lies in [min, max]; it equals the snapped value when that is in range, max above, min below, and min when max < min (Math.max applied last) |
| Grid.SnapIsNearest | app.js:75-77 | the multiple of 40 within half a pitch of a value is unique, so snapping is rounding to the nearest grid point |
| Grid.SnapAndClampFixesGridPoints | app.js:75-78 | a grid point inside the range is left unchanged |
| Grid.SnapAndClampIdempotent | app.js:75-78 | with grid-aligned bounds, snapping a snapped value changes nothing |
| Grid.SnapExamples | app.js:75-78 | 19 snaps to 0, 20 and 21 to 40, 250 clamps to 200, -20 rounds up to 0 |
| Colors.NormalizeHex | app.js:80-85 | a `#rgb` colour becomes `#rrggbb` digit by digit; any other string is returned unchanged |
| Colors.ShortFormOfNormalized | app.js:80-85 | keeping one digit of each pair gives back the three-digit colour (the expansion is injective) |
| Colors.NormalizeHexIdempotent | app.js:80-85 | normalising an already normalised colour changes nothing |
| Colors.LeadingDigits | app.js:92 | the longest decimal-digit prefix: all digits, followed by a non-digit or the end |
| Colors.DigitRuns | app.js:92 | the matches of `/\d+/g` are non-empty digit runs, and there are none exactly when the string has no digit |
| Colors.LeadingDigitsOfDigits | app.js:92 | a string of digits is its own leading run |
| Colors.LeadingDigitsAppend | app.js:92 | a non-digit after a string ends the leading run no later than the end of that string |
| Colors.DigitRunsOfDigits | app.js:92 | a non-empty string of digits is exactly one match |
| Colors.DigitRunsOfDigitHead | app.js:92 | a string starting with a digit has its leading digit run as first match, also when something starting with a non-digit follows |
| Colors.DigitRunsSplit | app.js:92 | a non-digit separates the matches: those of a string with a non-digit inside are the matches before it followed by the matches after it |
| Colors.RgbChannelRuns | app.js:92 | the matches of the browser's form `rgb(R, G, B)` with digit channels are R, G and B, in order |
| Colors.Hex | app.js:96-98 | toString(16).toUpperCase() gives a non-empty string of upper-case hex digits |
| Colors.HexRoundTrip | app.js:96-98 | reading the hex digits back gives the number |
| Colors.PadKeepsValue | app.js:96 | padStart(2, "0") does not change the value of the digits |
| Colors.ByteIsTwoDigits | app.js:96 | a channel below 256 becomes exactly two hex digits that read back as the channel |
| Colors.RgbToHex | app.js:88-100 | a missing or empty input gives `#000000`; a string starting with `#` is returned unchanged; the failing match (null.map throws) happens exactly for a non-`#` string with no digit |
| Colors.JoinHexOfBytes | app.js:94-98 | with every channel below 256, the joined hex has two digits per channel and pair k reads back as channel k |
| Colors.RgbToHexOfBytes | app.js:88-100 | `rgb(r, g, b)` with byte channels gives `#` followed by one two-digit pair per channel, each reading back as the channel |
| Colors.ChannelDigitsExample | app.js:96-98 | 255, 0 and 10 become FF, 00 and 0A |
| Colors.RgbToHexOfChannels | app.js:88-100 | rgbToHex of `rgb(R, G, B)` with digit channels is `#` followed by the padded hex forms of the three channel values |
| Colors.DecimalValueExample | app.js:92 | Number() of "255", "0" and "10" gives 255, 0 and 10 |
| Colors.JoinHexExample | app.js:94-98 | the channels 255, 0 and 10 join to FF000A |
| Colors.RgbToHexExample | app.js:88-100 | rgbToHex("rgb(255, 0, 10)") is "#FF000A" |
| Components.Footprint | app.js:31-51 | a resistor is 60 by 30, a voltage or current source 60 by 60 (twice the radius 30), an unknown type a point |
| Components.JsRem | app.js:866 | JavaScript `%`: the Euclidean remainder for a non-negative dividend, a non-positive remainder above -n for a negative one, and in every case the Euclidean remainder or that minus n, so congruent to the dividend modulo n |
| Components.RemOfNegation | app.js:866 | the Euclidean remainders of a and -a add up to 0 or to n |
| Components.NextRotation | app.js:865-866 | the stored rotation after `r` lies strictly between -360 and 360 and is r + 90 modulo 360, or that minus 360 |
| Components.NextRotationInRange | app.js:865-866 | from a rotation of at least -90 the step is (r+90) mod 360 and lies in [0, 360) |
| Components.FourStepsTurnOnce | app.js:865-866 | four presses of `r` from a non-negative rotation give that rotation modulo a full turn |
| Components.QuarterTurns | app.js:865-866 | the rotations cycle 0, 90, 180, 270, 0 |
| Components.NegativeRotationExample | app.js:865-866 | a negative stored rotation stays non-positive: -200 steps to -110 and -450 to 0 |
| Selection.OverlapIffSharedPoint | app.js:149-161 | for a box and a rectangle that are not inverted, the closed overlap test holds exactly when they share a point |
| Selection.WireSelectedIffPointInside | app.js:149-161 | a wire is selected exactly when the rectangle contains a point of its bounding box, which is the segment itself for an axis-aligned wire |
| Selection.OnHorizontalSegment | app.js:149-161 | the points of a horizontal segment's box are its row between its two ends |
| Selection.WireSelectionSymmetric | app.js:149-161 | the wire test does not depend on which end comes first |
| Selection.EdgeTouchExample | app.js:149-161 | a wire ending on the rectangle's left edge is selected; a rectangle starting half a unit past that end does not select it |
| Selection.ComponentSelectedIffPointInside | app.js:164-189 | a component is selected exactly when its footprint box about the centre shares a point with the rectangle |
| Selection.FootprintBoxes | app.js:168-186 | a source's box reaches its radius 30 from the centre; a resistor's box reaches half its width and half its height |
| Selection.UnknownComponentIsPoint | app.js:164-189 | a type the settings do not know is selected exactly when its centre is in the rectangle |
| Selection.ComponentSelectionIgnoresRotation | app.js:164-189 | the rotation plays no part in the component test |
| Selection.WireIntersectsSelection | app.js:149-161 | a wire with an end inside the rectangle is selected |
| Selection.ComponentIntersectsSelection | app.js:164-189 | a component whose centre is inside the rectangle is selected |
| Selection.SelectedWires | app.js:832-837 | the collected identifiers are exactly those of the store's segments that meet the rectangle, no more than the store has |
| Selection.CollectSelectedWires | app.js:832-837 | the forEach/push loop yields SelectedWires, in store order |
| Routing.NextDirection | app.js:347-358 | no direction exactly at the start point; an axis-aligned offset or no previous lock relocks to the dominant axis (x on a tie); otherwise the lock is kept |
| Routing.Pivot | app.js:360-371 | the corner of the L: at the end's x and the start's y for "x", and at the start's x and the end's y for "y" |
| Routing.CommitSegments | app.js:381-398 | commitWire's pushes: one segment when the point shares a coordinate with the start, two through the pivot otherwise, forming a path from the start to the point, numbered from the counter and without colour or width |
| Routing.PreviewThenCommit | app.js:346-411 | previewing p and committing there pushes an axis-aligned path from the start to p with no zero-length piece: one segment when p shares a coordinate with the start, two otherwise, with consecutive identifiers from the counter |
| Routing.LShapeExample | app.js:346-398 | from (0,0), previews to (40,0) then (40,80) keep the x lock, and the commit pushes (0,0)-(40,0) and (40,0)-(40,80) |
| Routing.StraightCommitExample | app.js:382-386 | a commit in line with the start pushes one segment, whatever the pivot |
| Routing.StalePivotExample | app.js:378-398 | a commit at a point other than the last preview's point reuses the stale pivot and can push a diagonal segment |
| WireModel.Runs | app.js:464-466 | the merge reads the four coordinates of each segment, position by position |
| WireModel.ToRuns | app.js:502-514 | each merged interval is emitted on its grid line, position by position |
| WireModel.FallbackIdempotent | app.js:533-534 | applying the `color ||` or `width ||` default a second time changes nothing |
| WireModel.FirstMatch | app.js:525-528 | the style lookup returns the first segment whose endpoints match in either direction, or none when no segment matches |
| WireModel.FindById | app.js:607 | `find` by identifier (as at app.js:700, 1056 and 1074 too) returns the first segment with that identifier, or none when no segment has it |
| StoreUpdates.LastFor | app.js:605-621 | the line whose endpoints a release keeps for an identifier is one of the dragged lines with that identifier, and there is none only when no dragged line has it |
| StoreUpdates.FindUnique | app.js:607 | with unique identifiers, `find` returns the segment that carries the identifier |
| StoreUpdates.ReleaseAll | app.js:698-712 | a release keeps every segment's position in the store, its identifier, colour and width |
| StoreUpdates.RecolorAll | app.js:1052-1058 | a recolour keeps every segment's position, identifier, endpoints and width |
| StoreUpdates.SetWidthAll | app.js:1066-1076 | a width change keeps every segment's position, identifier, endpoints and colour |
| StoreUpdates.ReleaseAllFrame | app.js:698-712 | after a drag release (of a wire, or of the wires moved with a component at app.js:605-621), each segment named by a dragged line has the snapped and clamped endpoints of the last such line, keeps its identifier and style, and every other segment is unchanged |
| StoreUpdates.RecolorAllFrame | app.js:1052-1058 | the colour picker sets exactly the named segments' colour and changes nothing else |
| StoreUpdates.SetWidthAllFrame | app.js:1066-1076 | the width slider sets exactly the named segments' width and changes nothing else |
| StoreUpdates.DragKeepsAxis | app.js:589-613 | a segment moved by one offset at both ends and released is still horizontal (or vertical) if it was before, with every endpoint inside the canvas |
| Spans.InsertPermutes | app.js:485-489 | inserting an interval adds it and loses nothing (multiset) |
| Spans.InsertSorted | app.js:485-489 | inserting into a sorted list keeps it sorted by start |
| Spans.SortByLo | app.js:485-489 | the sort by start yields a permutation of the intervals, sorted by start |
| Spans.SortOfSorted | app.js:485-489 | a list already sorted by start is left in its order |
| Spans.Sweep | app.js:491-514 | the sweep emits at least one and at most one more interval than remain, the first starting where the current one does |
| Spans.MergeSorted | app.js:491-514 | one line's result is no longer than its intervals and empty exactly when they are |
| Spans.SweepShape | app.js:491-514 | the sweep yields well-formed, non-touching intervals in ascending order, and proper ones from proper input, no more than were given |
| Spans.SweepCovers | app.js:491-514 | the sweep covers exactly the points of the current interval and the rest |
| Spans.MergeSortedShape | app.js:491-514 | one line's result is separated, ascending and no longer than the line's intervals |
| Spans.MergeSortedCovers | app.js:491-514 | one line's result covers exactly the points its intervals cover |
| Spans.MergeSortedOfSeparated | app.js:491-514 | intervals that already neither overlap nor touch pass through the sweep unchanged |
| Spans.SweepExamples | app.js:499-508 | touching intervals [0,40],[40,80] merge into [0,80]; a gap keeps them apart; a contained interval is absorbed |
| Spans.SweepGroup | app.js:491-514 | the while-loop sweep with currentStart/currentEnd emits MergeSorted of the group |
| Merge.OfClass | app.js:464-467 | the partition keeps no more runs than it is given |
| Merge.OfClassMembers | app.js:464-467 | a class holds exactly the runs in that class: y1 == y2 is horizontal, otherwise x1 == x2 is vertical, and slanted runs are dropped |
| Merge.PartitionSize | app.js:464-467 | the two classes together hold no more runs than the store |
| Merge.LineIntervalsCover | app.js:469-497 | the intervals grouped under a line cover exactly the points of that line covered by the class |
| Merge.LineSpansShape | app.js:482-517 | a line's merged intervals are well formed, separated, proper for vertical wires, no more than the line's runs, non-empty for a non-empty line, and cover exactly what the line's runs cover |
| Merge.MergeLinesCover | app.js:482-517 | the merged lines cover a point of line k exactly when k is one of the keys and the class covered it |
| Merge.Geometry | app.js:459-522 | the merged runs of the horizontal class followed by those of the vertical class (the properties are the Geometry lemmas below) |
| Merge.Normalize | app.js:459-541 | the merged store's runs are exactly the merged geometry of the store's runs, in order |
| Merge.GeometryCovers | app.js:459-522 | on every grid line of either class, the merge covers exactly the points the input covered |
| Merge.GeometryShape | app.js:459-522 | the merge's output is normalised: endpoints ascending, horizontals before verticals, each class ordered by line and then by start, and no longer than the input |
| Merge.GeometryDistinct | app.js:459-522 | the merged runs are pairwise distinct |
| Merge.MergeLineOfMerged | app.js:482-517 | merging a merged line again gives the same line |
| Merge.MergeLinesIdempotent | app.js:482-517 | the merge of one class, merged again, is unchanged |
| Merge.GeometryIdempotent | app.js:459-522 | merging the geometry twice is merging it once |
| Merge.NormalizeShape | app.js:459-541 | after mergeCollinearWires the store is no larger, identifiers are the indices 0..n-1, and every segment is normalised and carries a colour and a width |
| Merge.NormalizeCovers | app.js:459-541 | the merged store covers exactly the points of every grid line the store covered |
| Merge.NormalizeMinimal | app.js:459-541 | no two merged segments on the same line overlap or touch |
| Merge.NormalizeStyle | app.js:523-535 | a merged segment takes the colour and width of the first store segment with the same endpoints in either direction, falling back to the defaults for falsy values |
| Merge.NormalizeDefaultStyle | app.js:523-535 | a merged segment with no matching store segment gets the default colour and width |
| Merge.RestyleIdempotent | app.js:523-535 | restyling distinct normalised runs a second time, against the store the first restyle produced, reproduces that store: every run matches its own segment first |
| Merge.NormalizeIdempotent | app.js:459-541 | mergeCollinearWires on its own output, with the same defaults, changes nothing |
| MergeExamples.TouchingMergeExample | app.js:459-541 | two touching horizontal wires (0,0)-(40,0) and (40,0)-(80,0) become one wire (0,0)-(80,0) with the default colour and width |
| MergeExamples.DifferentLinesExample | app.js:459-541 | two horizontal wires on different rows stay two wires |
| MergeEngine.Partition | app.js:463-467 | the for-of loop yields the horizontal and vertical classes in store order |
| MergeEngine.GroupBy | app.js:469-480 | the grouping loop creates a group for exactly the keys present and fills each with that line's runs in order; the keys are visited in ascending order |
| MergeEngine.GroupNonEmpty | app.js:469-477 | a key that was created holds at least one run, so `segs[0]` exists |
| MergeEngine.MergeGroup | app.js:484-517 | one group is sorted by start and swept into runs on its line |
| MergeEngine.MergedGroupsAreMergeLines | app.js:482-517 | looping over the grouped map gives the merged lines of the class |
| MergeEngine.MergeLineSegments | app.js:482-517 | the loop over Object.values emits each group's merged runs, the groups in key order |
| MergeEngine.GroupsNonEmpty | app.js:469-517 | the groups built by GroupBy are non-empty, and merging them is merging the class's lines |
| MergeEngine.MergeSegments | app.js:459-541 | the whole merge pipeline with its loops yields Normalize of the store |
| EditorState.Activate | app.js:436-443 | activateWireMode: wire mode on, start and lock cleared, the pivot and the store kept (invariant: HandlersKeepInvariant) |
| EditorState.Exit | app.js:445-456 | exitWireMode: wire mode off and start, lock and pivot cleared (invariant: HandlersKeepInvariant) |
| EditorState.Start | app.js:333-344 | startWire: the start set and the lock cleared, the pivot of an earlier wire kept |
| EditorState.Preview | app.js:346-376 | updateWirePreview: the lock of NextDirection, and the pivot of that lock when there is one (invariant: PreviewKeepsInvariant) |
| EditorState.MergeStore | app.js:459-551 | the store replaced by its merge with the default colour and the current width (invariant: MergeKeepsInvariant) |
| EditorState.Route | app.js:382-409 | the segments of CommitSegments pushed, the counter advanced by their number, the wire restarted unlocked at the point (invariant: RouteKeepsInvariant) |
| EditorState.Commit | app.js:378-411 | no change at the start point or without a pivot; otherwise Route followed by the merge (invariant: CommitKeepsInvariant) |
| EditorState.MouseMove | app.js:878-890 | in wire mode with a start, the snapped pointer is previewed; otherwise nothing changes |
| EditorState.Click | app.js:892-906 | the snapped point starts a wire when there is no start, and commits there otherwise |
| EditorState.Release | app.js:698-712 | the store becomes ReleaseAll of the dragged lines (invariant: UpdatesKeepInvariant) |
| EditorState.Recolor | app.js:1052-1058 | the store becomes RecolorAll of the selected lines (invariant: UpdatesKeepInvariant) |
| EditorState.SetWidth | app.js:1066-1079 | the store becomes SetWidthAll of the selected lines and the width becomes the default (invariant: UpdatesKeepInvariant) |
| EditorState.InitialInvariant | app.js:8-19 | the initial state (no wire mode, no start, the counter at 0, an empty store) satisfies the invariant |
| EditorState.MergeKeepsInvariant | app.js:459-541 | a merge keeps identifiers unique and below the counter, because it renumbers from 0 and never grows the store |
| EditorState.PushKeepsInvariant | app.js:384-397 | pushing segments numbered from the counter keeps identifiers unique and below the advanced counter |
| EditorState.RouteKeepsInvariant | app.js:378-409 | the pushes of a commit and the restart keep the invariant |
| EditorState.CommitKeepsInvariant | app.js:378-411 | commitWire keeps the invariant, including its early returns |
| EditorState.PreviewKeepsInvariant | app.js:346-376 | updateWirePreview keeps the invariant: a lock always comes with a pivot |
| EditorState.HandlersKeepInvariant | app.js:878-906 | the mousemove and click handlers, and the two mode switches of app.js:436-456, keep the invariant |
| EditorState.UpdatesKeepInvariant | app.js:1052-1079 | the recolour, the width change and the drag release (app.js:698-712) keep the invariant |
| EditorState.PreviewThenCommitRoutes | app.js:346-411 | a preview to p followed by a click at p locks a direction, sets the store to the merge of the old store plus an axis-aligned path from the start to p, advances the counter by the segments pushed, and restarts unlocked at p |
| EditorState.CommitLeavesMerged | app.js:378-411 | after a commit the store is already merged: merging it again changes nothing |
| EditorState.CommitNoOp | app.js:379-380 | a click at the start point, or before any preview has set a pivot, changes nothing |
| Editor.WireEditor.constructor | app.js:8-19 | the fresh state is the initial state |
| Editor.WireEditor.ActivateWireMode | app.js:436-443 | the fields become those of Activate: wire mode on, no start, no lock, pivot kept |
| Editor.WireEditor.ExitWireMode | app.js:445-456 | the fields become those of Exit: wire mode off, start, lock and pivot cleared |
| Editor.WireEditor.StartWire | app.js:333-344 | the fields become those of Start: the start set, the lock cleared |
| Editor.WireEditor.UpdateWirePreview | app.js:346-376 | the fields become those of Preview: the relocked direction, and a new pivot when locked |
| Editor.WireEditor.CommitWire | app.js:378-411 | the fields become those of Commit: the pushes, the restart and the merge, or no change on an early return |
| Editor.WireEditor.PushRoute | app.js:382-402 | the fields become those of Route: one or two segments pushed, the counter advanced, the start moved and unlocked |
| Editor.WireEditor.MergeCollinearWires | app.js:459-551 | the store is replaced by its merge with the current default width, and the merged store is returned |
| Editor.WireEditor.MouseMove | app.js:878-890 | in wire mode with a start, the snapped pointer is previewed; otherwise nothing changes |
| Editor.WireEditor.Click | app.js:892-906 | the snapped point starts a wire when there is no start, and commits there otherwise |
| Editor.WireEditor.ReleaseWireDrag | app.js:698-712 | each dragged line's segment gets its snapped and clamped endpoints, in the order of the lines |
| Editor.WireEditor.Recolor | app.js:1052-1058 | every selected segment found by identifier gets the new colour |
| Editor.WireEditor.SetWireWidth | app.js:1066-1079 | every selected segment found by identifier gets the new width, and the width becomes the default for later merges |
| CircuiTikz.IsOnWire | circuittikz.py:27-40 | a centre on the wire lies on a vertical wire's column or a horizontal wire's row, and is not at either end |
| CircuiTikz.IsOnWireIffStrictlyInside | circuittikz.py:27-40 | on an axis-aligned wire the centre is "on" the wire exactly when it is a point strictly between the wire's ends |
| CircuiTikz.OnWireIsInside | circuittikz.py:27-40 | a centre that passes the test is strictly inside the wire, for any wire |
| CircuiTikz.IsOnWireReversed | circuittikz.py:27-40 | the test does not depend on the wire's direction |
| CircuiTikz.Offset | circuittikz.py:47-50 | the half-length is 0.65·75 for a resistor and 0.5·75 for every other type |
| CircuiTikz.EdgeWires | circuittikz.py:42-66 | two pieces without the original's other keys, one from the first end and one to the second; a vertical wire is cut at cy ± offset along x = cx, any other wire at cx ± offset along y = cy |
| CircuiTikz.WireList.constructor | circuittikz.py:10 | the wire list starts as the loaded wires |
| CircuiTikz.WireList.AddEdgeWires | circuittikz.py:42-66 | the two pieces are appended to the list in place |
| CircuiTikz.Pieces | circuittikz.py:71-74 | one component's pass appends two pieces per wire it is on, none of them carrying the original's other keys |
| CircuiTikz.SplitOne | circuittikz.py:71-74 | after one component's pass a wire is in the list exactly when it was there and the component is not on it, or it is one of the pieces; a wire with its keys was in the input |
| CircuiTikz.SplitAll | circuittikz.py:70-74 | after all passes every wire that carries its keys is one of the loaded wires |
| CircuiTikz.RemoveFirst | circuittikz.py:73 | list.remove drops exactly one element |
| CircuiTikz.RemoveFirstAt | circuittikz.py:73 | list.remove drops the first element equal to the wire and keeps the others in order |
| CircuiTikz.KeepMembers | circuittikz.py:70-74 | the wires a pass keeps are exactly those the component is not on |
| CircuiTikz.SplitStep | circuittikz.py:71-74 | one step of the loop over the copy: the wire is still in the list, and the list after removing it and appending its pieces is the next step's list |
| CircuiTikz.WireList.SplitFor | circuittikz.py:71-74 | one component's pass over a copy of the list leaves the unsplit wires in order, followed by the pieces of the split ones |
| CircuiTikz.WireList.SplitWires | circuittikz.py:70-74 | the whole pass runs component by component, each over the list the previous ones left |
| CircuiTikz.SplitOneCount | circuittikz.py:70-74 | each split replaces one wire by two: a pass adds one wire per wire it splits |
| CircuiTikz.PiecesNotOnAgain | circuittikz.py:42-74 | the pieces of a wire drawn left to right or top to bottom are not split again by the same component |
| CircuiTikz.KeepIdempotent | circuittikz.py:70-74 | filtering the kept wires again keeps them all and splits none |
| CircuiTikz.SplitOneIdempotentWhenOriented | circuittikz.py:70-74 | when every wire is oriented, a second pass for the same component changes nothing |
| CircuiTikz.ReversedWireExample | circuittikz.py:42-66 | a wire drawn right to left is cut into two pieces that overlap, and the first still holds the component |
| CircuiTikz.DrawWire | circuittikz.py:84-89 | a wire is drawn between its two ends divided by 75, with y negated (properties in DrawWireRoundTrip) |
| CircuiTikz.DrawWireRoundTrip | circuittikz.py:84-89 | scaling a drawn wire's coordinates back by 75 and flipping y gives the wire's own ends |
| CircuiTikz.DrawWires | circuittikz.py:84-89 | one draw per wire, in list order, each the scaled and flipped wire |
| CircuiTikz.Terminals | circuittikz.py:91-108 | the two terminals picked by rotation modulo 180 and type (properties in TerminalsGeometry) |
| CircuiTikz.TerminalsGeometry | circuittikz.py:91-108 | the terminals are symmetric about the scaled centre: 1.3 apart along x (resistor) or 1 apart along y (other types) at rotation 0 mod 180, the axes swapped at 90 mod 180, both at the centre otherwise |
| CircuiTikz.TerminalsHalfTurn | circuittikz.py:95-108 | a half turn leaves the terminals where they were |
| CircuiTikz.PiecesMeetTerminals | circuittikz.py:42-108 | when the component lies along the wire it splits, the inner ends of the two pieces are its two terminals |
| CircuiTikz.CrossedSourceExample | circuittikz.py:42-108 | a voltage source at (200,200) turned 90 on the wire (200,0)-(200,400) is on it, the pieces end at (200,162.5) and (200,237.5), and the terminals (200/75 ± 0.5, -200/75) are neither of those ends |
| CircuiTikz.TikzOptions | circuittikz.py:110-139 | the options are `generic` or start with the type's element |
| CircuiTikz.ElementOptions | circuittikz.py:110-122 | vsource/isource/"resistor, european"/generic by type, with ", invert" for a source at rotation 180 or 270 |
| CircuiTikz.KnownTypeInvert | circuittikz.py:110-122 | a known type's options start with its element followed by ", invert" exactly when it is a flipped source |
| CircuiTikz.ResistorIgnoresRotation | circuittikz.py:119-120 | a resistor's options do not depend on its rotation |
| CircuiTikz.AppendSide | circuittikz.py:126-129 | `, l^=` is appended for a label above or left, and `, l_=` for any other position |
| CircuiTikz.AppendUnit | circuittikz.py:132-139 | the unit of the type is appended, or, for an unknown type, the options are reset to generic |
| CircuiTikz.ComponentOptions | circuittikz.py:110-139 | the `+=` sequence builds exactly TikzOptions: the element, the inversion, the label side, the label text and the unit |
| CircuiTikz.KnownTypeLabel | circuittikz.py:124-137 | a labelled component of a known type has options ending with its label text and unit |
| CircuiTikz.UnlabelledOptions | circuittikz.py:110-125 | an unlabelled component of a known type has only its element, inverted for a flipped source |
| CircuiTikz.UnknownTypeIsGeneric | circuittikz.py:121-139 | a type the exporter does not know is drawn as generic, labelled or not |
| CircuiTikz.DrawComponents | circuittikz.py:91-144 | one draw per component, in order, between its two terminals with its options |
| CircuiTikz.Export | circuittikz.py:70-144 | the exporter splits the wires, then draws every split wire and every component |

## Left out

- Rendering is not modelled: the DOM, SVG elements, classes and cursor, `drawWireLine`, `drawGrid`, the preview polyline's points and `bringComponentsToFront`. These only draw the state that the model holds.
- Event plumbing is not modelled: listeners and `getSVGCoordinates`. Handlers take the canvas point as a parameter. `svg.clientWidth` and `clientHeight` are parameters of the release.
- Coordinates are not floating point. Snapped editor coordinates are integers. Raw pointer and attribute values, and the exporter's numbers, are exact reals.
- `Math.round` is modelled as floor(v/40 + 1/2)·40. This is exact for reals.
- `parseFloat` of attributes, `getTransformXY`, `parseInt` of the rotation and slider values, and the exporter's `json.load` are not modelled. Their results are record fields.
- The exporter's `print` calls and `:.2f` formatting are not modelled. A draw is modelled as its pair of points and its option string. Full-precision reals are kept instead of two-decimal rounding.
- Wire identifiers `wire-k` are modelled as the natural number k.
- JavaScript `Object.values` is modelled as visiting the grid lines in ascending key order. This is the order for non-negative integer keys. Negative or fractional keys, which snapped canvas coordinates do not produce, would be visited in insertion order.
- `Array.prototype.sort` is modelled as a stable insertion sort by start. Intervals with equal starts keep their order, which the sweep does not depend on.
- The live motion of a drag is left out. Only the release that writes the store is modelled. The motion touches only the DOM, and the moved line's attributes are the release's input.
- Component drag, snap and placement, `addComponent`, the double-click label editor and `exportComponentData` are not part of this model. Only component footprints, rotation and selection are.
- The colour picker's component branch is not modelled. It changes shape fill and `SETTINGS.components[type].fill`, which affect rendering only. The commented-out `SETTINGS.wire.stroke` assignment is not modelled either: the default colour stays `#000`.
- Arithmetic precision is not modelled. `rgbToHex` on runs whose values are above 2^53 loses precision in `Number`; the model uses exact naturals.
- The in-place `wireSegments.length = 0; push(...merged)` is modelled as assigning the merged list to the field.
- The exporter's label offsets and colours are not modelled: the source never reads them.
- In the editor, the L-shape keeps the x lock at (40,80). After previewing (40,0), neither offset of (40,80) is zero, so the lock is kept and the pivot is (40,0). `Routing.LShapeExample` states the code's result.
- The commit reuses the pivot of the latest preview even when the commit point differs. A diagonal segment can then be pushed, and the merge drops it (`Routing.StalePivotExample`). `wireCurrentMid` is reset only by `exitWireMode`.
- The click handler does not consult `wireMode`, and the model follows the code.
- EditorState.MouseMove: the handler's `!previewWire` guard (app.js:879) is not modelled, because it never fires when a start is set. `wireStart` is set only by `startWire` and `commitWire`, and both create the polyline (app.js:337, app.js:404). Only `exitWireMode` sets it to null, and it clears `wireStart` too (app.js:447, app.js:453).
- The CircuiTikz split is specified for the exporter as written:
  - a wire drawn right to left or bottom to top gets overlapping pieces (`CircuiTikz.ReversedWireExample`), so `SplitOneIdempotentWhenOriented` requires oriented wires;
  - the "on the wire" equivalence needs an axis-aligned wire, because a single-point wire counts as vertical;
  - the cut follows the wire's axis, not the component's rotation, so a component drawn across its wire leaves pieces that end one offset before and after the centre along the wire, while its terminals lie on either side of the wire (`CircuiTikz.CrossedSourceExample`); `PiecesMeetTerminals` therefore requires the component to lie along the wire.

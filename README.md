# Network navigator: converter and time scale, modelled in Dafny

This project models two pieces of the network navigator visuals.

**The table-to-graph converter** (`converter` in the Power BI package) takes
the host's table of rows. It maps each data role (`source`, `target`,
`sourceColor`, `edgeValue`, ...) to the column that declares it; the last
declaring column wins. It then walks the rows in order and skips every row
whose source or target cell is falsy. For each other row it looks up or
creates the source node and then the target node, keyed by the cell turned
into a string. It appends one link of node indices and bumps the neighbour
count of both endpoints. Finally an optional `maxNodeCount` cuts the node
list to a prefix and drops the links that point past it.

- `js_values.dfy` (module `JsValues`): JavaScript cells, truthiness and `value + ""`.
- `data_conversion.dfy` (module `DataConversion`) has three layers:
  - the specification functions `LookupOrCreate`, `AddRow`, `AddRows`, `Build`, `Trim` and `Convert`, over an arena of node list, id table and link list, with its invariant `WellFormed`;
  - the class `GraphBuilder`, which holds the converter's local `nodeList`, `nodeMap` and `linkList`. Its methods update these fields in place, as `getNode` and the row loop do;
  - the method `Converter`, proved equal to `Convert`.
- `data_conversion_lemmas.dfy` (module `DataConversionLemmas`) holds the properties of the converted graph.
- `data_conversion_example.dfy` (module `DataConversionExample`) follows one table of three rows through the converter, row step by row step, to the graph it returns with and without a cap.

**The time scale** (`TimeScale`) is a brush over a bar chart of dated samples.
- Setting `data` fits the x domain to the earliest and latest date and the y domain to `[0, largest value]`.
- Setting `dimensions` merges the supplied width and/or height.
- Every resize sets the x range to `[0, width − 20]` and the y range to `[0, height − 20]`.
- Setting `selectedRange` stores the range and moves the brush only when its change check reports a change.

- When the user sweeps the brush, it holds the two ends in order and raises `rangeSelected` with `[]` for a sweep of no width and with the two ends otherwise.

- `timescale.dfy` (module `TimeScaleState`): the pure parts and the class `TimeScale`, whose setters update its fields in place.
- `timescale_lemmas.dfy` (module `TimeScaleLemmas`): their properties.

Three points of the code that are easy to misread:
- The y range is `[0, innerHeight]`; it is not inverted (`visuals/timescale/TimeScale.js:144`).
- A neighbour count starts at 1 and grows by one per link endpoint. For the rows A–B, A–C, B–C every node ends with 3, since each is an endpoint of two links (`DataConversionExample.ExampleNeighbourCounts`).
- The constructor tests `!this.dimensions`. The getter always returns the 500×500 default, so the test is always false and the given dimensions are always merged; the model merges them directly.

## Model

| member | source | states |
|---|---|---|
| JsValues.Truthy | packages/network-navigator-powerbi/src/dataConversion.ts:116 | a cell is falsy exactly when it is `undefined`, `null`, `""`, `0` or `false` |
| JsValues.Stringify | packages/network-navigator-powerbi/src/dataConversion.ts:118-119 | the id of a text cell is its text, of a boolean "true" or "false", of `undefined` and `null` their names; a number's id is an optional '-' and digits that read back to its magnitude; a truthy cell never gives the empty id |
| JsValues.IntToDecimal | packages/network-navigator-powerbi/src/dataConversion.ts:118-119 | a non-negative number is written as digits that read back to it; a negative one as '-' followed by digits that read back to its magnitude |
| JsValues.NatToDecimal | packages/network-navigator-powerbi/src/dataConversion.ts:118-119 | the text of a number is a non-empty run of decimal digits without a leading zero |
| JsValues.DecimalRoundTrip | packages/network-navigator-powerbi/src/dataConversion.ts:118-119 | reading the digits of a number's text gives the number back |
| JsValues.IntToDecimalInjective | packages/network-navigator-powerbi/src/dataConversion.ts:118-119 | two different numeric cells never become the same node id |
| DataConversion.ResolveRoles | packages/network-navigator-powerbi/src/dataConversion.ts:48-52 | the nested loop over columns and their roles yields the role map `RoleMap` |
| DataConversion.ResolveColumns | packages/network-navigator-powerbi/src/dataConversion.ts:62-73 | each role's column is the index the role map gives the role, and absent exactly when no column declares it |
| DataConversionLemmas.AssignRolesEffect | packages/network-navigator-powerbi/src/dataConversion.ts:49-51 | the roles of one column are added to the map with that column's index; other roles keep their index |
| DataConversionLemmas.RoleMapLastWins | packages/network-navigator-powerbi/src/dataConversion.ts:48-52 | a role is mapped iff some column declares it, and then to the last such column |
| DataConversionExample.ExampleRoleMap | packages/network-navigator-powerbi/src/dataConversion.ts:48-52 | columns declaring source, target, edgeValue map those roles to 0, 1, 2 |
| DataConversion.ColorOrDefault | packages/network-navigator-powerbi/src/dataConversion.ts:96 | the colour is always truthy: the cell itself when truthy, "gray" otherwise |
| DataConversion.NewNode | packages/network-navigator-powerbi/src/dataConversion.ts:94-104 | a new node carries the id as its name, the given index, neighbour count 1, not selected, a truthy colour, the given label colour and weight, and the filter "field equals id" |
| DataConversion.LookupOrCreate | packages/network-navigator-powerbi/src/dataConversion.ts:81-108 | a known id returns its node and changes nothing; a new id gets exactly `NewNode` at index `|nodes|`, registered in the id table, with nothing else changed; the arena invariant is kept |
| DataConversion.GetNodeAsWritten | packages/network-navigator-powerbi/src/dataConversion.ts:90-107 | the lookup as written yields no index exactly for a new id that names an inherited member, and then changes nothing; otherwise the index is in range and registered for the id |
| DataConversion.AddRowAsWritten | packages/network-navigator-powerbi/src/dataConversion.ts:114-140 | the row step as written aborts exactly when the row is kept and its source or target id is a new inherited member name; otherwise the arena invariant is kept |
| DataConversion.Connect | packages/network-navigator-powerbi/src/dataConversion.ts:138-140 | bumping both endpoints and appending the link keeps the invariant that each neighbour count is 1 plus the endpoints referring to the node |
| DataConversion.AddRow | packages/network-navigator-powerbi/src/dataConversion.ts:114-141 | one row step keeps the arena invariant: names and ids agree, indices equal positions, endpoints in range, neighbour counts exact |
| DataConversion.AddRows | packages/network-navigator-powerbi/src/dataConversion.ts:114-142 | the arena after any number of rows satisfies the invariant |
| DataConversion.Build | packages/network-navigator-powerbi/src/dataConversion.ts:61-142 | the untrimmed arena satisfies the invariant |
| DataConversion.KeepLinksBelow | packages/network-navigator-powerbi/src/dataConversion.ts:148 | a link is kept iff it was present and both its endpoints are below the cap; never more links than before |
| DataConversion.Trim | packages/network-navigator-powerbi/src/dataConversion.ts:145-149 | with a positive numeric cap the nodes are the first min(cap, count); without one nothing changes; the nodes are always a prefix |
| DataConversion.Convert | packages/network-navigator-powerbi/src/dataConversion.ts:35-156 | no link of the returned graph points past its node list |
| DataConversion.GraphBuilder.constructor | packages/network-navigator-powerbi/src/dataConversion.ts:39-41 | the node list, id table and link list start empty |
| DataConversion.GraphBuilder.GetNode | packages/network-navigator-powerbi/src/dataConversion.ts:81-108 | updating the fields in place gives the state and index of `LookupOrCreate`, and the node returned is the one stored at that index |
| DataConversion.GraphBuilder.VisitRow | packages/network-navigator-powerbi/src/dataConversion.ts:115-141 | the loop body's in-place updates give exactly `AddRow` of the old state |
| DataConversion.GraphBuilder.AddLink | packages/network-navigator-powerbi/src/dataConversion.ts:138-140 | bumping both endpoints' counts in place and appending the link gives exactly `Connect` of the old state |
| DataConversion.GraphBuilder.VisitRows | packages/network-navigator-powerbi/src/dataConversion.ts:114-142 | visiting the rows in order from the empty state gives `AddRows` |
| DataConversion.Converter | packages/network-navigator-powerbi/src/dataConversion.ts:35-156 | the converter returns `Convert(table, settings)` |
| DataConversionLemmas.RowSkipped | packages/network-navigator-powerbi/src/dataConversion.ts:116 | a row with a falsy source or target cell adds no node and no link |
| DataConversionLemmas.RowAddsOneLink | packages/network-navigator-powerbi/src/dataConversion.ts:116-140 | any other row appends exactly one link after the old ones, between the nodes named by its source and target cells, carrying the row's edge value and edge colour value |
| DataConversionLemmas.SourceBeforeTarget | packages/network-navigator-powerbi/src/dataConversion.ts:98-134 | with two new ids the source gets index n and the target n+1; with one new id on both sides a single node with neighbour count 3 |
| DataConversionLemmas.AddRowKeepsNodes | packages/network-navigator-powerbi/src/dataConversion.ts:93-107 | a row never changes an existing node other than its neighbour count, and never re-indexes an id |
| DataConversionLemmas.LookupOrCreateKeepsNodes | packages/network-navigator-powerbi/src/dataConversion.ts:93-107 | a lookup never changes or moves a node already in the list, and never re-indexes an id |
| DataConversionLemmas.ConnectKeepsNodes | packages/network-navigator-powerbi/src/dataConversion.ts:138-140 | connecting changes only neighbour counts and leaves the id table as it is |
| DataConversionLemmas.AddRowsKeepsNodes | packages/network-navigator-powerbi/src/dataConversion.ts:93-114 | the nodes built from a prefix of the rows survive unchanged, apart from neighbour counts, in the arena built from all rows |
| DataConversionLemmas.FirstOccurrenceFixesAttributes | packages/network-navigator-powerbi/src/dataConversion.ts:86-107 | the first row naming an id fixes that node's colour (falsy gives "gray"), label colour and value for good |
| DataConversionLemmas.FirstOccurrenceFixesTargetAttributes | packages/network-navigator-powerbi/src/dataConversion.ts:86-107 | the first row naming an id in its target cell (not also its source cell) fixes that node's colour, label colour and value from the target columns for good |
| DataConversionLemmas.AddRowIds | packages/network-navigator-powerbi/src/dataConversion.ts:116-134 | a row adds to the id table exactly the ids of its source and target cells, and only when it is kept |
| DataConversionLemmas.AddRowsIds | packages/network-navigator-powerbi/src/dataConversion.ts:116-134 | the ids are exactly the stringified source and target cells of the rows not skipped |
| DataConversionLemmas.WellFormedNamesUnique | packages/network-navigator-powerbi/src/dataConversion.ts:90-105 | node names are pairwise distinct |
| DataConversionLemmas.KeepLinksBelowConcat | packages/network-navigator-powerbi/src/dataConversion.ts:148 | filtering a concatenation is concatenating the filtered parts, so kept links stay in their order |
| DataConversionLemmas.KeepLinksBelowOne | packages/network-navigator-powerbi/src/dataConversion.ts:148 | a single link is kept exactly when both endpoints are below the cap |
| DataConversionLemmas.KeepLinksBelowCounts | packages/network-navigator-powerbi/src/dataConversion.ts:148 | each kept link keeps its multiplicity and every other link is gone |
| DataConversionLemmas.KeepLinksBelowAll | packages/network-navigator-powerbi/src/dataConversion.ts:148 | when every link passes, the filter keeps the whole list |
| DataConversionLemmas.TrimKeepsLinks | packages/network-navigator-powerbi/src/dataConversion.ts:145-149 | the trimmed links are the filter of the arena links by the node count kept, with their order and multiplicity |
| DataConversionLemmas.ConvertConsistent | packages/network-navigator-powerbi/src/dataConversion.ts:98-149 | the result has unique names, indices equal to positions and every link endpoint in range, before and after trimming |
| DataConversionLemmas.ConvertNeighbors | packages/network-navigator-powerbi/src/dataConversion.ts:101-148 | each returned node's neighbour count is 1 plus its endpoint references over the untrimmed links |
| DataConversionLemmas.ConvertWithoutIdentityFields | packages/network-navigator-powerbi/src/dataConversion.ts:75-155 | without both a source and a target identity field the result has no nodes and no links |
| DataConversionLemmas.GetNodeAsWrittenAgrees | packages/network-navigator-powerbi/src/dataConversion.ts:90-107 | for ids that are not inherited member names the lookup as written is `LookupOrCreate` |
| DataConversionLemmas.AsWrittenAgreesOffPrototypeNames | packages/network-navigator-powerbi/src/dataConversion.ts:114-140 | for such ids the row step as written never aborts and equals `AddRow` |
| DataConversionLemmas.PrototypeNameAborts | packages/network-navigator-powerbi/src/dataConversion.ts:93-138 | a row with source "toString" aborts as written, where the intended step links new nodes "toString" and "B" |
| DataConversionExample.ExampleRoles | packages/network-navigator-powerbi/src/dataConversion.ts:61-111 | in the example table the resolved columns are source 0, target 1, edgeValue 2 and both identity fields are present |
| DataConversionExample.ExampleBuild | packages/network-navigator-powerbi/src/dataConversion.ts:111-142 | the three rows (A, B, 1), (A, C, 2), (B, C, 3) build exactly the arena with nodes A, B, C and links A–B, A–C, B–C |
| DataConversionExample.ExampleNeighbourCounts | packages/network-navigator-powerbi/src/dataConversion.ts:101-139 | in the converted example every node is an endpoint of two links and returns with neighbour count 3 |
| DataConversionExample.ExampleCap | packages/network-navigator-powerbi/src/dataConversion.ts:145-149 | converting the example with a cap of 2 returns A and B and only the link (0,1,1) |
| TimeScaleState.Minimum | visuals/timescale/TimeScale.js:40 | the least element of the list, absent iff the list is empty |
| TimeScaleState.Maximum | visuals/timescale/TimeScale.js:40-41 | the greatest element of the list, absent iff the list is empty |
| TimeScaleState.DatesOf | visuals/timescale/TimeScale.js:40 | the dates of the samples, position by position |
| TimeScaleState.ValuesOf | visuals/timescale/TimeScale.js:41 | the values of the samples, position by position |
| TimeScaleState.DateDomain | visuals/timescale/TimeScale.js:40 | the x domain runs from the earliest to the latest sample date, both attained; both ends are undefined iff there are no samples |
| TimeScaleState.ValueDomain | visuals/timescale/TimeScale.js:41 | the y domain starts at 0 and ends at the largest sample value, which is attained; the end is undefined iff there are no samples |
| TimeScaleState.Merge | visuals/timescale/TimeScale.js:69 | a supplied width or height overwrites the old one, a missing one keeps it |
| TimeScaleState.InnerWidth | visuals/timescale/TimeScale.js:142 | the inner width is the width less 20, the left and right margins |
| TimeScaleState.InnerHeight | visuals/timescale/TimeScale.js:142 | the inner height is the height less 20, the top and bottom margins |
| TimeScaleState.SelectedRangeChanged | visuals/timescale/TimeScale.js:80-101 | the change check as written: whatever it reports as a change is one |
| TimeScaleState.StoredRange | visuals/timescale/TimeScale.js:106-107 | the setter ends holding the new or the held range, and the new one when exactly one of them is unset |
| TimeScaleState.Redraws | visuals/timescale/TimeScale.js:106-110 | the brush moves exactly when the new range is stored, differs from the held one and is a non-empty array of dates |
| TimeScaleState.SweptExtent | visuals/timescale/TimeScale.js:132-135 | the brush holds the two ends of a sweep in order |
| TimeScaleState.RangeSelectedPayload | visuals/timescale/TimeScale.js:133 | the event carries `[]` or exactly two dates in strictly increasing order; `[]` exactly for a brush of no width, otherwise its two ends |
| TimeScaleState.TimeScale.constructor | visuals/timescale/TimeScale.js:14-27 | the state starts at 500×500 merged with the given dimensions, with no data, no range, and scale ranges fitted to the inner size |
| TimeScaleState.TimeScale.ResizeElements | visuals/timescale/TimeScale.js:140-144 | the x range becomes `[0, width − 20]` and the y range `[0, height − 20]`; nothing else changes |
| TimeScaleState.TimeScale.SetData | visuals/timescale/TimeScale.js:38-43 | stores the samples, sets the x domain to `DateDomain` and the y domain to `ValueDomain`, and refits the ranges |
| TimeScaleState.TimeScale.SetDimensions | visuals/timescale/TimeScale.js:68-71 | the dimensions become the merge of the old ones with the update, and the ranges are refitted |
| TimeScaleState.TimeScale.SetSelectedRange | visuals/timescale/TimeScale.js:79-111 | the range becomes `StoredRange`; the brush moves to the new range, counted as one redraw, exactly when `Redraws` holds; nothing else changes |
| TimeScaleState.TimeScale.Sweep | visuals/timescale/TimeScale.js:132-135 | after a sweep the brush holds its ordered ends, and the payload raised is `[]` exactly when the sweep has no width, otherwise the held ends in increasing order; nothing else changes |
| TimeScaleLemmas.ExtremesIgnoreOrder | visuals/timescale/TimeScale.js:40-41 | lists with the same elements have the same least and greatest element |
| TimeScaleLemmas.DomainsIgnoreOrder | visuals/timescale/TimeScale.js:38-41 | both domains are independent of the order of the samples |
| TimeScaleLemmas.MergeComposes | visuals/timescale/TimeScale.js:69 | two merges equal one merge of the combined update, repeating an update is idempotent, and an empty update is a no-op |
| TimeScaleLemmas.RangeDiffersIff | visuals/timescale/TimeScale.js:82-98 | the comparison the comments describe reports a change iff the ranges differ |
| TimeScaleLemmas.ChangedIsSound | visuals/timescale/TimeScale.js:80-101 | whatever the check as written reports as a change, the intended comparison reports too |
| TimeScaleLemmas.MissedChanges | visuals/timescale/TimeScale.js:86-100 | the changes the check as written misses are exactly set ranges of equal length with different dates |
| TimeScaleLemmas.EqualLengthMoveIgnored | visuals/timescale/TimeScale.js:93-100 | moving from [1,2] to [3,4] differs but is neither stored nor drawn |
| TimeScaleLemmas.OneUnsetStores | visuals/timescale/TimeScale.js:83-110 | if exactly one of the new and held range is unset, the new one is stored, and drawn iff it is a non-empty array |
| TimeScaleLemmas.BothSetByLength | visuals/timescale/TimeScale.js:86-110 | with both set, a different length is stored and redraws exactly when the new range is non-empty; an equal length keeps the held range and does not redraw |
| TimeScaleLemmas.RedrawNeedsNonEmptyStore | visuals/timescale/TimeScale.js:106-110 | a redraw only follows storing a different, non-empty range; unset or `[]` never redraws |
| TimeScaleLemmas.SecondSetIsNoop | visuals/timescale/TimeScale.js:83-106 | setting the same range twice never stores or redraws the second time |
| TimeScaleLemmas.IntendedSetterStores | visuals/timescale/TimeScale.js:80-111 | with the intended comparison the setter always ends holding the new range, redraws iff a different non-empty range arrives, and departs from the code only on the missed changes |
| TimeScaleLemmas.PayloadFollowsSweep | visuals/timescale/TimeScale.js:132-135 | the payload does not depend on the direction of the sweep: `[]` for no width, otherwise the earlier then the later date |

## Left out

- `base/VisualBase.ts` is not part of this model; it is host plumbing (iframe, CSS, style injection).
- The Power BI calls are left out: the filter expression, the scope identity and the selection id (`dataConversion.ts:91,103`). They are modelled as opaque values built from the identity field and the id.
- The per-row `table.identity[idx]` is read but never used by `getNode`, so it is not modelled. A table without `identity` would throw there.
- `constants.ts` is not part of this model. The role names are taken to be the literal role names (`source`, `target`, ...).
- Cells are restricted to text, safe integers (magnitude at most 2^53 − 1), booleans, `null` and `undefined`. Non-integer numbers and larger magnitudes are left out; JavaScript writes some of those with rounded digits or in exponent notation.
- A column without a `roles` object makes `Object.keys(c.roles)` throw (`dataConversion.ts:49`). In the model every column has a list of roles, so that error is not modelled.
- DataConversion.Trim: a non-integer `maxNodeCount` is not modelled. The cap is an integer cell: a `Number` above 0 trims, anything else does not.
- A node object is shared between `nodeMap` and `nodeList`. The model stores the node's index in the id table instead. Nodes never move before trimming, so the two views agree.
- The rendering is left out: the SVG, bars, axis, clip path, brush element and grip drawn in `buildTimeScale` and `resizeElements`. So is the pixel interpolation of the d3 scales, which is floating-point library code. Only the domains, the ranges and the brush extent are state here.
- TimeScaleState.TimeScale.constructor: the initial x domain of a d3 time scale (1 to 2 January 2000, local time) is not modelled. It is left as undefined ends.
- The debounce window (`DEBOUNCE_TIME`, `_.debounce`) and the `EventEmitter` dispatch are left out. A sweep raises its payload at once.
- d3's brush is library code. The model takes it to hold a sweep's ends in order, with a sweep of no width counted as empty; pixel rounding is not modelled. What d3 does with an array of other than two dates handed to it by the setter is not modelled either: the model keeps the array as handed over.
- An unset range is one value. The model does not tell `null` from `undefined`; both are falsy to the setter.
- A `null` property in a dimensions update is left out. jQuery would copy it.
- Setting `data` to something other than an array throws in the source; the model's data is always a list.
- Dates are integer timestamps, compared as `getTime()` values.
- The range setter stores the caller's array itself (`TimeScale.js:107`), so a caller that sets an array, appends a date to it and sets it again makes the setter compare the array with itself: nothing is stored or redrawn. The model holds ranges as values, so that second set sees a different length, stores it and redraws. Aliasing between the caller's array and the held range is not modelled.
- A data view without `table`, or a table without `columns`, `rows` or `identityFields`, makes the converter throw (`dataConversion.ts:42-114`). The model's `Table` always has all of them, so that fatal case is not modelled.
- Widths and heights are integers. JavaScript allows fractional dimensions; the model's arithmetic on them is exact integer arithmetic.
- Sample values are integers. A JavaScript `value` may be any number, and `d3.max` skips `null`, `undefined` and `NaN` values; those cases are not modelled.

## Findings

| source | as written | input that shows it | evidently intended | confidence | as-written member | corrected member |
|---|---|---|---|---|---|---|
| visuals/timescale/TimeScale.js:93-100 | the `return true` inside the `forEach` callback only leaves the callback, so two set ranges of equal length are always judged unchanged | held range [1,2], new range [3,4]: not stored, brush not moved | report a change when any date differs | high (by reading; not executed) | TimeScaleLemmas.EqualLengthMoveIgnored | TimeScaleState.RangeDiffers |
| packages/network-navigator-powerbi/src/dataConversion.ts:90-138 | the id table is a plain object, so `!nodeMap[id]` is false for an id such as "toString" that names an inherited member. No node is created, `.index` is undefined and `nodeList[undefined].neighbors` throws, aborting the conversion | a row whose source cell is "toString" and target cell "B" | treat every id not yet added as new | high (by reading; not executed) | DataConversionLemmas.PrototypeNameAborts | DataConversion.AddRow |

For the first finding:
- `TimeScaleLemmas.RangeDiffersIff` proves that the corrected `RangeDiffers` reports a change exactly when the ranges differ.
- `TimeScaleLemmas.IntendedSetterStores` proves what the setter does with it.
- The class `TimeScale` keeps the check as written, because that is the behaviour of the visual.

For the second finding:
- The converter is modelled with the intended lookup (`AddRow`).
- `DataConversionLemmas.AsWrittenAgreesOffPrototypeNames` proves that the code as written does the same for every id that is not an inherited member name.

# Output layer of a small calculator language, in Dafny

The interpreter of a small calculator language records three things while a
program runs: its results (printed values, point-list plots, function
graphs), its inputs (named sliders) and its errors. Two views show them:

- `output-view.js` is the canvas view.
  - The error panel groups errors by the syntax node that caused them.
  - The input panel keeps one slider per program input across re-renders.
  - Text results get a title that falls back to `result <i>`.
  - Charts come from one render state (`PathOutputResult`). Its
    `renderPaths2D` scans the bounds of flat `x,y,x,y,...` lists, optionally
    widens one axis to the surface's aspect ratio, pads by 1% and strokes
    every path in its own hue.
  - Plots pan in two directions by dragging. Graphs are re-sampled over the
    panned domain by `evaluateFunction` on every render.
- `app.js` is the older SVG view.
  - `print` and `wrapInTitle` lay out text results.
  - `graph` samples every function 1000 times into one array, takes the
    global y range and maps the samples into a padded pixel box.

This project models that layer. Each part takes the form the code has:

- **Plain values.** Pure computations are functions, each paired with lemmas
  that state what it means.
- **Classes.** Objects whose fields change in place are classes:
  - the render state `PathOutputResult`;
  - the plot and graph owners with their pan state;
  - the slider state;
  - the input panel's map;
  - the evaluator's variable stack.
- **Loops.** Loops are methods with invariants, proved against the
  functions that specify them.
- **The evaluator.** Running a function body is an oracle: `Closure.body`
  maps the resolved variable stack to a number or an error.
- **IEEE division.** A division by zero that IEEE arithmetic turns into
  Infinity or NaN is made explicit as `Coord.NonFinite`.

The modules follow the code:

| module | models |
|---|---|
| `Values` | values, optional values, decimal numerals, `join` |
| `Scopes` | the evaluator's variable stack and number cells |
| `Sampler` | `evaluateFunction` |
| `Geometry` | the arithmetic of `renderPaths2D` and the pan handlers |
| `TextOutput` | `OutputTextResult` |
| `PathOutput` | `PathOutputResult`, `OutputPlotResult`, `OutputGraphResult` |
| `ErrorPanel` | `renderErrors` |
| `InputPanel` | `renderInputs`, `createSlider` |
| `SvgGraph` | `wrapInTitle`, `print`, `graph` of `app.js` |

Behaviour of the code worth knowing:

- **evaluateFunction's sample count.** It makes `subdivisions + 3` samples,
  at `i / (subdivisions + 2)` for `i = 0 .. subdivisions + 2`
  (`output-view.js:171-184`).
- **Partial samples are kept.** The graph view keeps the samples made before
  a failure and still draws them.
- **Frames after an error.** On an error, `evaluateFunction` returns without
  popping its capture frame; its context is a local one. `graph` in
  `app.js` also returns with the function's frame still pushed, and that
  frame is on the program's own stack (`app.js:251-254`).
- **No padding in the transforms.** The 1% padding lives only in local
  copies. The domain-to-screen transforms read the unpadded state bounds,
  so data on the bounds is drawn on the surface's edges.
- **No special case for a zero span.** Neither the aspect test nor the
  transforms guard against a zero span.
  - `xLen / yLen` is read as IEEE does: a zero `yLen` with a positive `xLen`
    counts as wider than any target; `0 / 0` is not.
  - A zero span in a transform gives a non-finite coordinate.
- **The plot's vertical drag.** It converts `dY` with the X scale, the width
  and the x span (`output-view.js:225-235`). `Geometry.PlotDragFollowsPointerY`
  shows that it still follows the pointer once the bounds have the
  surface's shape.
- **The SVG graph's y range.** It starts at `-20, -20`. It is reset from
  `points[0]` after the first function, so with no functions it stays at
  `-20, -20`.

## Model

| member | source | states |
|---|---|---|
| Values.NatToString | output-view.js:213 | the decimal text of a counter is never empty |
| Values.NatToStringDigits | output-view.js:213 | the decimal text of a counter is all digits with no leading zero, and has more than one digit exactly from 10 on |
| Values.NatToStringRoundTrip | output-view.js:213 | the decimal text of n reads back as n |
| Values.NatToStringInjective | output-view.js:160 | distinct counters give distinct decimal texts |
| Values.Join | output-view.js:255 | no names give the empty text; otherwise the text is as long as the names plus one separator between each neighbouring pair, starts with the first name and ends with the last |
| Values.JoinPrefix | output-view.js:255 | joining the first k names gives a prefix of joining them all |
| Values.JoinPartAt | output-view.js:255 | every later name k sits right after the first k names joined and one separator, so the names appear in order, separated |
| Scopes.Resolve | output-view.js:175-190 | the resolved stack has one scope per frame |
| Scopes.CaptureBindings | output-view.js:176-178 | declaring the captures binds every captured name, each to a held value |
| Scopes.CaptureBindingsExact | output-view.js:176-178 | the frame declares exactly the captured names, and a name holds the value of its last capture |
| Scopes.ResolveSnoc | output-view.js:187 | pushing a frame adds exactly its scope on top of what the stack shows |
| Scopes.ResolveIgnoresLaterCells | app.js:237-238 | allocating or changing cells no frame refers to leaves what the stack shows unchanged |
| Scopes.ResolveCaptureFrame | output-view.js:180-185 | the capture frame shows the argument cell's current number under the argument's name |
| Scopes.Scope.constructor | output-view.js:173 | a fresh program context has an empty stack and no cells |
| Scopes.Scope.PushStackFrame | output-view.js:175 | one empty frame is pushed; cells are unchanged |
| Scopes.Scope.PopStackFrame | output-view.js:192 | the innermost frame is removed; cells are unchanged |
| Scopes.Scope.Declare | output-view.js:181 | the name is bound in the innermost frame only; every other frame and all cells are unchanged |
| Scopes.Scope.NewCell | output-view.js:180 | a new cell is appended holding the value, and its index is returned |
| Scopes.Scope.SetCell | output-view.js:185 | only that cell's number changes; no binding is redeclared |
| Scopes.Scope.DeclareCaptures | output-view.js:176-178 | the empty innermost frame becomes the frame that declaring the captures in order builds; cells are unchanged |
| Sampler.FirstError | output-view.js:183-196 | the index where sampling stops lies between the start and the sample count |
| Sampler.FirstErrorSpec | output-view.js:183-196 | every sample before the stop is a number, and the sample at the stop is an error |
| Sampler.FirstErrorIs | output-view.js:183-196 | any index with that property is the stop, so the stop is unique |
| Sampler.CallsAre | output-view.js:183-200 | a callback list that follows the samples, in order, up to the first failure is exactly the specified one |
| Sampler.SampleStack | output-view.js:175-190 | while a sample runs, the body sees the captures and the argument bound to x, under an empty frame |
| Sampler.RunAt | output-view.js:184-192 | one sample sets the argument cell, runs the body in a pushed and popped frame, and yields the body's value at x; the frames are as before and the cells differ only in the argument cell, which now holds x |
| Sampler.EvaluateFunction | output-view.js:170-203 | the callbacks are the samples at lerp(start, end, i/(s+2)) before the first error, at most s+3 of them; success exactly when all s+3 are made; an error return is the failing sample's value |
| Sampler.SampleEndpoints | output-view.js:171-184 | the first sample is at the start of the domain and the last at its end |
| Sampler.SampleSpacing | output-view.js:184 | consecutive samples are (end - start)/n apart |
| Sampler.SamplesOrdered | output-view.js:183-184 | on an increasing domain the samples increase and stay within it |
| Sampler.LerpOrdered | output-view.js:184 | lerp is monotone in t and stays between its ends for t in [0, 1] |
| Sampler.DegenerateDomain | output-view.js:184 | a zero-width domain samples its one point every time |
| Sampler.SamplesShiftWithDomain | output-view.js:268-270 | panning the domain by an offset shifts every sample by that offset |
| Geometry.WidenPathSnoc | output-view.js:373-376 | scanning one more pair widens the bounds so far by that pair |
| Geometry.WidenPathFacts | output-view.js:362-377 | the scan of one path contains the old bounds, covers every point, and each bound is the old one or a coordinate of the path |
| Geometry.WidenListsFacts | output-view.js:360-378 | the same holds over all lists: containment, coverage, and each bound comes from the old bounds or a point |
| Geometry.CoversSnoc | output-view.js:360-362 | bounds that cover the earlier lists and the last one cover all of them |
| Geometry.ScanIsExtremes | output-view.js:360-378 | when the first list has a point, the scan gives exactly the least and greatest x and y of all points; the old bounds play no part |
| Geometry.ScanOnlyWidens | output-view.js:360-378 | when the first list is empty there is no reset: the old bounds are only widened, to cover every point |
| Geometry.ScanOrdered | output-view.js:360-378 | the scan keeps bounds ordered |
| Geometry.WiderIsCrossMultiplied | output-view.js:388 | the IEEE test xLen / yLen > target holds iff xLen > target * yLen, a zero yLen included |
| Geometry.AspectMatchesSurface | output-view.js:380-403 | after the correction, xSpan * height == ySpan * width, and the bounds stay ordered |
| Geometry.AspectRewritesOneAxis | output-view.js:388-402 | only the short axis is rewritten; it keeps its midpoint and does not shrink (it strictly grows when Y is rewritten); the other axis is unchanged |
| Geometry.AspectIdempotent | output-view.js:380-403 | correcting already-corrected bounds changes nothing |
| Geometry.AspectContains | output-view.js:381-382 | the corrected bounds contain the scanned ones: no data is clipped |
| Geometry.WidenCoveredIsIdentity | output-view.js:360-378 | scanning lists the bounds already cover leaves the bounds unchanged |
| Geometry.PathWidenCoveredIsIdentity | output-view.js:362-377 | the same for one path |
| Geometry.RenderStable | output-view.js:215-222 | re-rendering the same lists on the same surface leaves the bounds where the first render put them |
| Geometry.PadGrows | output-view.js:423-432 | the padded view contains the bounds, keeps each midpoint and makes each span 1.02 times as large |
| Geometry.ScreenCorners | output-view.js:337-342 | the offset-shifted bounds map onto the surface's edges, with y flipped |
| Geometry.ScreenXRoundTrip | output-view.js:337-339 | domainXToScreenX and its inverse compose to the identity both ways |
| Geometry.ScreenYRoundTrip | output-view.js:340-342 | domainYToScreenY and its inverse compose to the identity both ways |
| Geometry.DragFollowsPointerX | output-view.js:228-236 | after a drag by dX, every domain x is drawn exactly dX further right than at drag start |
| Geometry.PlotDragFollowsPointerY | output-view.js:225-236 | the vertical drag, converted with the X scale, still moves the drawing by exactly dY when the bounds have the surface's shape |
| Geometry.HuesDistinct | output-view.js:447 | path hues lie in [0, 360) and strictly increase with the index |
| TextOutput.DefaultTitleNamesResult | output-view.js:160 | a text result's title is never empty: a truthy title is kept, otherwise `result <i>`, distinct for distinct i |
| PathOutput.StrokesInsideSurface | output-view.js:444-466 | with no pan, every stroked point of covered lists is finite and inside [0, width] x [0, height] |
| PathOutput.PointInsideSurface | output-view.js:337-342 | a point within the bounds maps inside the surface rectangle |
| PathOutput.PathOutputResult.constructor | output-view.js:317-327 | size, bounds and pan offsets all start at zero |
| PathOutput.PathOutputResult.SetTitle | output-view.js:332-334 | only the title changes, to the given one; the state stays valid exactly when it was |
| PathOutput.PathOutputResult.Resize | output-view.js:345-352 | only width and height change, to the new size |
| PathOutput.PathOutputResult.ScanPath | output-view.js:361-377 | the inner extents loop leaves the bounds widened over the path, reset first from its first pair when it is path 0 |
| PathOutput.PathOutputResult.ScanBounds | output-view.js:360-378 | the extents loop leaves exactly Scan of the old bounds |
| PathOutput.PathOutputResult.StrokePaths | output-view.js:444-466 | one stroke per path, in order, in hue 360i/n, through the state's transforms |
| PathOutput.PathOutputResult.CorrectAspectRatio | output-view.js:380-403 | the bounds become the aspect-corrected bounds, still ordered |
| PathOutput.PathOutputResult.RenderPaths | output-view.js:358-466 | the state ends with the scanned, optionally corrected bounds; the padded view and the strokes are computed from them |
| PathOutput.OutputPlotResult.constructor | output-view.js:211-213 | the chart is fresh, titled `Plot output <i>:`, with no pan offset |
| PathOutput.OutputPlotResult.Rerender | output-view.js:215-222 | a render of the plot's lists with the aspect ratio kept |
| PathOutput.OutputPlotResult.OnResize | output-view.js:345-352 | the new size is taken, then the chart is re-rendered at it |
| PathOutput.OutputPlotResult.OnDragStart | output-view.js:229-232 | both pan offsets are snapshotted |
| PathOutput.OutputPlotResult.OnDrag | output-view.js:233-237 | both offsets are the snapshot minus the delta converted with the X scale; the bounds the drag's re-render leaves are a fixed point of rendering the same lists again |
| PathOutput.Flatten | output-view.js:271-273 | the callback list becomes x, y pairs in call order, two numbers per call |
| PathOutput.GraphPathsEven | output-view.js:257-275 | every graph path is a flat x,y list |
| PathOutput.SampleFunctions | output-view.js:260-280 | the sampling loop yields, per function in order, the flattened callbacks of evaluateFunction, kept even on failure |
| PathOutput.Names | output-view.js:255 | one name per function: name k is function k's name |
| PathOutput.GraphTitleNames | output-view.js:255 | the graph title starts with `graph of ` and the first name, and every later name follows the names before it and `, ` |
| PathOutput.OutputGraphResult.constructor | output-view.js:249-255 | the chart is fresh, titled `graph of <names joined by ", ">`, with a zero domain offset |
| PathOutput.OutputGraphResult.Rerender | output-view.js:257-285 | every function is sampled with floor(width) subdivisions over the panned domain, then rendered without aspect correction |
| PathOutput.OutputGraphResult.OnResize | output-view.js:345-352 | the new size is taken, then the forced re-render (rerenderGraph, installed at output-view.js:287) re-samples every function with floor(new width) subdivisions and renders at the new size |
| PathOutput.OutputGraphResult.OnDragStart | output-view.js:293-295 | the domain offset is snapshotted |
| PathOutput.OutputGraphResult.OnDrag | output-view.js:296-299 | the offset is the snapshot minus dx converted with the domain span; dy is ignored; the graph is re-sampled |
| PathOutput.MakePlotOutput | output-view.js:205-213 | an error value becomes a text block; anything else becomes a fresh plot of its lists, titled `Plot output <i>:`, with both pan offsets zero |
| PathOutput.MakeGraphOutput | output-view.js:243-255 | an error value becomes a text block; anything else becomes a fresh graph of its functions and domain, titled `graph of <names>`, with a zero domain offset |
| ErrorPanel.ErrorNodes | output-view.js:47-62 | the grouped nodes are distinct, and are exactly the nodes some error refers to; errors without a node are skipped |
| ErrorPanel.NodesDistinctSnoc | output-view.js:56-58 | appending a node not yet listed keeps the node list free of repeats |
| ErrorPanel.ErrorsAtSound | output-view.js:56-61 | everything in a node's group is one of the errors and was caused by that node |
| ErrorPanel.ErrorsAtComplete | output-view.js:56-61 | every error a node caused is in the node's group |
| ErrorPanel.ErrorsAtCount | output-view.js:56-61 | a node's group has exactly as many entries as the node has errors |
| ErrorPanel.JsSubstring | output-view.js:67 | the substring is never longer than the text |
| ErrorPanel.ErrorsAtSnoc | output-view.js:60-61 | one more error is appended to its own node's group only |
| ErrorPanel.ErrorNodesSnoc | output-view.js:56-58 | one more error appends its node exactly when the node is new |
| ErrorPanel.NodeHasErrors | output-view.js:56-61 | every grouped node has at least one error |
| ErrorPanel.GroupErrors | output-view.js:47-62 | the map's keys are the nodes in first-seen order, each mapped to its errors in order |
| ErrorPanel.CreateBlocks | output-view.js:66-75 | one block per node of the map, in order, each titled from that node's group and showing its first error |
| ErrorPanel.RenderErrors | output-view.js:38-80 | one block per grouped node, in first-seen order, built from that node's errors; no errors gives no blocks |
| ErrorPanel.BlockHeading | output-view.js:69-74 | a block's heading is `<count> at ln <line> ( <text> ): ` and it is error-styled |
| ErrorPanel.FirstErrorShown | output-view.js:73 | the value a block shows is its node's first error |
| ErrorPanel.AbsentHasNoErrors | output-view.js:56-61 | a node no error refers to has an empty group |
| ErrorPanel.NodesOfPrefix | output-view.js:47-62 | scanning more errors only appends nodes |
| ErrorPanel.FirstSeenFirstShown | output-view.js:66-75 | a node whose first error comes earlier gets an earlier block |
| ErrorPanel.PluralInjective | output-view.js:69 | different counts give different count words |
| ErrorPanel.SubstringSymmetric | output-view.js:67 | substring ignores the order of its offsets and selects exactly the slice for ordered in-range offsets |
| InputPanel.OrDefault | output-view.js:557-559 | `v \|\| default` never yields 0 when the default is non-zero, which is what keeps the step usable as a divisor |
| InputPanel.StepNeverZero | output-view.js:559 | the step a slider uses is never zero, so its divisions are defined |
| InputPanel.Slider.constructor | output-view.js:542-573 | a new slider is named, synced with its data, and positioned at the data's current value |
| InputPanel.Slider.UpdateState | output-view.js:555-571 | the data takes defaults, the integer bounds are range/step, and the position moves only when asked |
| InputPanel.Slider.OnInput | output-view.js:578-581 | the number cell receives position * step; the shown position reads back unchanged |
| InputPanel.Names | output-view.js:89 | every declared input's name is among the names |
| InputPanel.NameIsDeclared | output-view.js:89 | every name belongs to some declared input |
| InputPanel.NamesSnoc | output-view.js:89 | one more input adds its name |
| InputPanel.NameNotYetSynced | output-view.js:89-90 | with distinct names, an input's name is new at its turn |
| InputPanel.SweepAfterMarkEmpties | output-view.js:84-116 | marking every slot and sweeping with no input synced in between empties the panel |
| InputPanel.SweepKeepsUnmarked | output-view.js:112-116 | a sweep over a map with no slot marked removes nothing |
| InputPanel.MarkedKeepsSliders | output-view.js:84-86 | marking keeps the set of sliders, each still under its own name |
| InputPanel.SlidersDistinctPairwise | output-view.js:82-119 | sliders named by their slots are distinct across slots |
| InputPanel.CollectedDistinct | output-view.js:89-110 | the sync loop never collects the same slider twice |
| InputPanel.ChildrenSnoc | output-view.js:90-107 | one more input appends its slider to the list, twice in a row when its name is new (mounted by createSlider, then pushed) |
| InputPanel.ChildrenBounds | output-view.js:89-110 | every slider is listed once or twice, and the list ends with the last input's slider |
| InputPanel.ChildrenAllKnown | output-view.js:89-110 | when every name already had a slot, the list is the sliders once each, in input order |
| InputPanel.ReplaceChildrenSnoc | output-view.js:118 | handing the panel one more node moves that node to the end |
| InputPanel.ReplaceChildrenShowsEachOnce | output-view.js:89-118 | whatever new sliders are listed twice, the panel ends up showing each input's slider exactly once, in input order |
| InputPanel.SyncedMapSnoc | output-view.js:89-110 | syncing one more input writes its slot |
| InputPanel.SyncedMapElsewhere | output-view.js:89-110 | a name not visited keeps its slot, or its absence |
| InputPanel.SyncedMapAt | output-view.js:89-110 | a visited name holds the slot its sync wrote |
| InputPanel.SyncedMapKeys | output-view.js:89-110 | after the sync the map holds the old names and the visited ones, and nothing else |
| InputPanel.RenderedMap | output-view.js:82-119 | mark, sync and sweep leave exactly the program's inputs, each unmarked with its collected slider, old slots kept and sliders distinct |
| InputPanel.InputPanelState.constructor | output-view.js:82-84 | the panel starts with an empty map |
| InputPanel.InputPanelState.MarkAll | output-view.js:84-86 | the map becomes Marked of the old map |
| InputPanel.InputPanelState.SyncInput | output-view.js:90-109 | a new name gets a fresh slider at its value and the data; an existing slot keeps its slider and position; either way the slider is synced and the slot unmarked |
| InputPanel.InputPanelState.SyncNext | output-view.js:89-110 | one turn of the sync loop extends the synced map and the collected sliders, leaving other sliders untouched |
| InputPanel.InputPanelState.SyncAll | output-view.js:89-110 | the sync loop yields one slider per input, in order, each synced, and the map synced; the list it builds holds a new input's slider twice, and the panel handed it shows each slider once |
| InputPanel.InputPanelState.Sweep | output-view.js:112-116 | the map becomes Swept of the old map |
| InputPanel.InputPanelState.RenderInputs | output-view.js:82-119 | the map's names are exactly the inputs'; each input's slider is in the list, synced, kept (with its position and slot) for a known name, fresh for a new one; the panel shows each input's slider once, in input order |
| SvgGraph.WrapInTitleRoundTrip | app.js:146-153 | the title and the block read back from the labelled row: an empty title gives no label, any other is recovered from `<title>: ` |
| SvgGraph.WrapInTitleInjective | app.js:146-153 | different titles, or different blocks, give different rows |
| SvgGraph.PrintMatchesTextResult | app.js:155-160 | a printed result is always labelled, with the same heading, value and error style as the canvas view's text result |
| SvgGraph.SlotsDisjoint | app.js:257 | slot i + f*n names exactly one function and sample |
| SvgGraph.SlotInRange | app.js:225-257 | every sample slot lies inside the n * count array |
| SvgGraph.Run | app.js:240-258 | a successful function's run holds one number per sample |
| SvgGraph.RunAt | app.js:255-257 | position j of a run holds sample j |
| SvgGraph.Points | app.js:225-271 | the fully sampled array holds n numbers per function |
| SvgGraph.PointsAtSlot | app.js:257 | slot (f, i) of the array holds function f's sample i |
| SvgGraph.GraphSamplesHitEnds | app.js:241-243 | the samples hit both ends of the domain exactly |
| SvgGraph.FirstFailing | app.js:229-254 | the first failing function lies between the start and the function count |
| SvgGraph.FirstFailingSpec | app.js:229-254 | functions before it sample cleanly, and the one it names has a failing sample |
| SvgGraph.FirstFailingIs | app.js:229-254 | any index with that property is FirstFailing |
| SvgGraph.FailureIsFirst | app.js:229-254 | the reported failure is an error, and every earlier sample, in function-then-index order, is a number |
| SvgGraph.LowestHighestAppend | app.js:267-270 | scanning two runs in turn is scanning their concatenation |
| SvgGraph.LowestIsMinimum | app.js:268 | the running minimum is at most every element and the seed, and is one of them |
| SvgGraph.HighestIsMaximum | app.js:269 | the running maximum is at least every element and the seed, and is one of them |
| SvgGraph.YRangeIsExtremes | app.js:262-270 | seeded from the first sample, the range is exactly the least and greatest sample |
| SvgGraph.SvgXRange | app.js:296-298 | samples run from the left pad to the right edge, strictly left to right |
| SvgGraph.SvgYRange | app.js:299 | the greatest sample is drawn on the top pad and the least on the bottom pad; larger samples are drawn higher |
| SvgGraph.ChartInsideBox | app.js:293-309 | when all samples succeed with a non-zero range, every drawn point lies inside the pixel box |
| SvgGraph.StackOnOuter | app.js:231-247 | a sample's body sees the program's stack, then the captures with the argument, then an empty frame |
| SvgGraph.RunSample | app.js:243-249 | one sample overwrites the argument cell and yields the body's value at x over the program's stack |
| SvgGraph.SampleInto | app.js:231-260 | one function sampled into its n slots: success iff no sample fails, and then the slots hold its run; on failure the error is the first failing value and the frame stays pushed; no other slot changes |
| SvgGraph.ScanRange | app.js:267-270 | the min/max pass continues the running range over the slots |
| SvgGraph.DrawStroke | app.js:294-308 | the stroke of function f: its hue and its n pixel points |
| SvgGraph.DrawStrokes | app.js:293-309 | one stroke per function, in order |
| SvgGraph.PointsStep | app.js:229-258 | the array prefix grows by one function's run per round |
| SvgGraph.RangeStep | app.js:262-270 | continuing the range over the next run gives the range of the longer prefix |
| SvgGraph.SampleStep | app.js:229-271 | one round samples function f and extends the range, and advances or settles FirstFailing |
| SvgGraph.ExtendRange | app.js:262-270 | the running range over one more run is the range of the longer prefix, reset from points[0] on the first round |
| SvgGraph.SampleAll | app.js:228-271 | failure iff some function fails, reporting the first failing value; on success the array is every run and (min, max) its range |
| SvgGraph.Graph | app.js:211-320 | an error value is printed; a failing sample prints the graphing error with the function's frame left pushed; otherwise the chart under `graph of <names>` |

## Left out

- **Drawing.** The DOM, the canvas and the SVG strings are left out. Strokes
  are the lists of screen points they would draw.
- **The canvas grid.** The grid spacing, grid lines and labels
  (`output-view.js:469-522`) are floating-point layout, so they are left out.
- **The SVG decorations.** The axes, axis label texts, the `Bounds:` text
  line and `toFixed` formatting are left out.
- **The mouse handler.** The mousemove handler in `addGraph`
  (`app.js:180-189`) reads `domainStart`, `leftPad`, `min`, `max` and other
  locals of `graph`, which are not in its scope. It would throw before any
  readout, so the crosshair readout is not modelled.
- **The evaluator.** `evaluateBlock`, `thingToString`, `truncate`, `lerp`
  and the language's value types are not part of this model.
  - A body is the oracle `Closure.body`, and `truncate` is a parameter.
  - `lerp(a, b, t)` is taken to be `a + (b - a) * t`. `SampleEndpoints`,
    `GraphSamplesHitEnds` and `SamplesShiftWithDomain` rest on that reading.
  - `HasArguments` requires every graphed function to have an argument. It
    follows the comment at `output-view.js:178`, which says every function
    here takes one argument; the code does not check it.
- **Floating point.** Numbers are exact reals; rounding is not modelled.
  - A screen transform over a zero-width span of the bounds divides by
    zero. Its Infinity or NaN is `Coord.NonFinite`.
  - The bounds and offsets in the state are reals, so they cannot hold
    Infinity or NaN. The divisions by the surface's width or height (the
    aspect step at `output-view.js:387` and the drag's delta conversion)
    are therefore only modelled for a surface with positive width and
    height. The members below require that.
- PathOutput.PathOutputResult.CorrectAspectRatio: requires a positive width
  and height. The state starts at 0 by 0 (`output-view.js:319-320`), and a
  resize stores any size (`output-view.js:345-351`). On a zero size the code
  divides by zero at `output-view.js:387` and writes NaN or infinite
  bounds, which this model does not represent. The same holds for
  `Geometry.CorrectAspect` and the geometry lemmas about it.
- PathOutput.PathOutputResult.RenderPaths: requires a positive width and
  height when the aspect ratio is kept, for the same reason. Without aspect
  correction any size is accepted.
- PathOutput.OutputPlotResult.Rerender: requires a positive width and
  height, since every plot render keeps the aspect ratio.
- PathOutput.OutputPlotResult.OnResize: requires a positive new width and
  height. A resize to zero in either direction is not modelled.
- PathOutput.OutputPlotResult.OnDrag: requires a positive width and height.
  The drag divides by the width (`output-view.js:226`) and then re-renders
  with the aspect ratio kept.
- PathOutput.OutputGraphResult.OnDrag: requires a positive width, since the
  drag divides by it.
- ErrorPanel.JsSubstring: strings are sequences of Unicode characters, so
  positions count characters. JavaScript's `substring` (`output-view.js:67`)
  counts UTF-16 code units. After a character outside the Basic
  Multilingual Plane, the code's snippet is shifted against the model's.
  UTF-16 indexing is not modelled.
- **Other value kinds.** A body that yields a value which is neither a
  number nor an error is outside the model: the evaluator's result is
  `Value.Number` or `Value.Error`. The code reads `num.val` from any value
  that is not an error (`output-view.js:198`, `app.js:255-257`).
- ErrorPanel.ErrorValue: every program error is shown as an error value,
  so its block is error-styled. The code adds the error style only when
  `errors[0].vt === VT_ERROR` (`output-view.js:163`). How the entries of
  the program's error list are built is not part of this model.
- **createComponent and replaceChildren.** Their code is not part of this
  model. `createComponent` is taken to append the new root to the array it
  is given as mount point. `ReplaceChildren` states the DOM's rule that
  appending a node already present moves it to the end.
- **Unmodelled details.**
  - The random element id of an SVG graph.
  - The extra `true` argument when captures are declared.
  - `console.error` on a failed graph sample.
  - `CreateInput`'s unknown input type path.
  - The `onInputValueChange` hooks.
  - The `renderOutputs` dispatch loops.
  - The final-result block.
- **Input order.** Program inputs come from a `Map` with distinct names.
  The model takes them as a sequence of distinct names, in iteration order.
- **Map iteration order.** The panel's map is a Dafny `map`, which has no
  order. `renderErrors`' `Map` order is modelled as the explicit
  first-seen sequence `ErrorPanel.ErrorNodes`.
- **Node identity.** Syntax nodes are compared by an `id` standing for
  object identity.
- Geometry.PlotDragFollowsPointerY: proved only for bounds that already have
  the surface's shape. Otherwise the vertical pan does not follow the
  pointer, because the code converts dY with the X scale.
- PathOutput.OutputGraphResult.Rerender: the panned domain is re-sampled on
  every render.
  - The contract states the sampled paths and the scanned bounds.
  - It does not state the padded `view` that the grid would use.
- InputPanel.Slider.OnInput: only the number cell changes.
  - The program re-run that `onInputValueChange` triggers is not part of
    this model.
  - The range input reports a position, not necessarily an integer; the
    browser's rounding to the step is not modelled.

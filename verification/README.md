# Viewport grid and flexbox layout: a Dafny model

This project models the decision logic of two layout components of the OHIF DICOM viewer
and proves properties of it.

- **Viewport grid** (`GridLayout`, in `grid_layout.dfy`). A render does four things:
  - It reconciles the host's viewport descriptors to exactly `rows * columns` entries.
    `rows` and `columns` fall back to 1 when absent or 0. A short list is padded with
    empty descriptors. A long list is cut.
  - It overwrites every descriptor's `viewportIndex` with its position.
  - It classifies every cell by row and by activity. The row class reads the raw props,
    not the defaulted ones. With `rows` exactly 1 every cell is `top bottom`. With more
    rows a cell is `top`, `middle` or `bottom`. With `rows` absent or 0 the grid has one
    row, yet every cell is only `top`. With `columns` absent or 0 every cell is `middle`,
    unless `rows` is exactly 1. So the default one-by-one grid shows a single `middle` cell.
  - It picks each cell's content: a placeholder, a Cornerstone stack viewport, or a plugin slot.

  The Cornerstone stack registry is an explicit map threaded through the render. A stack
  that is not yet registered is created by a parameter function. The only effect the
  component has on a stack is resetting its cursor to 0.

  The render also changes the host's own array: it pushes the padding onto it and writes
  each cell's position into the descriptor object the cell reads. `GridLayout` treats
  descriptors as values. Its account of the array afterwards (`CallerDataAfter`) is exact
  only when no object is listed twice.
- **Host array with object identity** (`GridHost`, in `grid_host.dfy`). The array is a list
  of references into a heap of descriptor objects. The writes happen one cell at a time, in
  cell order, so an object listed at several positions keeps the position of the last cell
  that lists it. The cells do not depend on sharing: each cell writes its own position just
  before it reads the object. Without sharing, the result is the one `GridLayout` gives.
- **Flexbox layout** (`FlexboxLayout`, in `flexbox_layout.dfy`).
  - Deriving the study browser's thumbnail view-models from the selected studies.
  - The load-success and load-error completion handlers. Each locates one thumbnail by
    study and display-set identifier, first match first, and overwrites one field.
  - The list of image loads issued for the thumbnails.
  - The initial state, and the sidebar and main-content class strings.
  - The selected studies are a parameter. `setState` produces the new state value.
- Support modules: `Wrappers` (an `Option` type standing for `undefined`), `Sequences`
  (`FindIndex`, with the semantics of `Array.prototype.find`), and `Decimal` (how a
  template literal prints a count, with its inverse).

A failure while rendering a loaded image to the off-screen canvas is not recorded.
`renderAsync(...).then(...)` (flexboxLayout.js:35) has no rejection handler, and the load's
error callback does not see that rejection. So the thumbnail keeps its empty `imageSrc` and
gets no error. `LoadSuccess` with a `RenderFailed` outcome leaves the state unchanged.

`getStudiesForBrowser` reads `images[0]` of every display set, and both completion handlers
dereference their lookup results without a guard. The model therefore requires, as the code
does, that every display set has an image and that the lookups succeed.
`CompletionsFindTheirThumbnails` shows that the second requirement holds for every load the
component itself issues, provided the selected studies have distinct identifiers.

## Model

| member | source | states |
|---|---|---|
| GridLayout.OrOne | Packages/ohif-viewerbase/client/components/viewer/GridLayout/GridLayout.js:74-78 | `rows`/`columns` absent or 0 become 1; any other value is kept; the result is at least 1 |
| GridLayout.Reconcile | Packages/ohif-viewerbase/client/components/viewer/GridLayout/GridLayout.js:81-99 | the list has exactly rows*columns entries (defaults applied) for any input length; a short input survives as a prefix and every padding entry has no study or display-set uid and no plugin, carries the current rows/columns and the index position+1; a long input becomes exactly its first rows*columns entries; an input of the right length is unchanged |
| GridLayout.Render | Packages/ohif-viewerbase/client/components/viewer/GridLayout/GridLayout.js:72-161 | one cell per grid position; cell i has the row and active class of position i and the content that its reconciled descriptor, re-indexed to i, selects against the registry as it was before the render; the registry afterwards has every stack some cell shows registered with cursor 0; the host's array is left padded and re-indexed, as it is when no object is listed twice; the layout class names the defaulted dimensions |
| GridLayout.RenderShowsDescriptors | Packages/ohif-viewerbase/client/components/viewer/GridLayout/GridLayout.js:101-145 | cell i is classed by its position and the active index; its content kind is the one its reconciled descriptor selects; a plugin cell names the descriptor's plugin; a stack cell shows the descriptor with `viewportIndex` set to i, together with the stack now registered under its key, whose cursor is 0 |
| GridLayout.RenderRegistryFrame | Packages/ohif-viewerbase/client/components/viewer/GridLayout/GridLayout.js:14-34 | a registered stack that no cell of the grid shows is still registered after the render and is unchanged |
| GridLayout.RenderCells | Packages/ohif-viewerbase/client/components/viewer/GridLayout/GridLayout.js:101-153 | resolving the cells in order equals a closed form: cell i has the class of its position and content determined by its descriptor and the registry before the render; afterwards every stack any cell used is registered with its frames kept and its cursor at 0, and every other stack is as before |
| GridLayout.RenderCallerData | Packages/ohif-viewerbase/client/components/viewer/GridLayout/GridLayout.js:81-106 | for a host array that lists no object twice: after a render the array has been padded in place to rows*columns entries when it was shorter; its entries below rows*columns carry their position as index and are otherwise unchanged; entries beyond are untouched |
| GridLayout.RenderIdempotent | Packages/ohif-viewerbase/client/components/viewer/GridLayout/GridLayout.js:72-161 | rendering again with the array and registry the first render left gives the same cells, the same array and the same registry |
| GridLayout.ReconcileCallerData | Packages/ohif-viewerbase/client/components/viewer/GridLayout/GridLayout.js:81-106 | the array a render leaves behind has the same cell count, reconciles and re-indexes to the same list, and is left the same by a second render |
| GridLayout.ResolvedRegistryStable | Packages/ohif-viewerbase/client/components/viewer/GridLayout/GridLayout.js:14-34 | resolving the same descriptors again from the registry they produced changes no stack and yields the same content for each |
| GridLayout.EmptyTwoByTwo | Packages/ohif-viewerbase/client/components/viewer/GridLayout/GridLayout.js:86-140 | a 2x2 grid with no descriptors shows four placeholders, the array gets indices 0 to 3, and the registry is unchanged |
| GridLayout.TruncateOneByThree | Packages/ohif-viewerbase/client/components/viewer/GridLayout/GridLayout.js:96-106 | a 1x3 grid given five distinct descriptors shows three cells classed top and bottom; the first three entries are re-indexed 0, 1, 2 and the last two are untouched |
| GridLayout.DefaultOneByOne | Packages/ohif-viewerbase/client/components/viewer/GridLayout/GridLayout.js:45-155 | with no props the grid has one placeholder cell, classed "viewportContainer middle ", and the layout class is "layout-1-1" |
| GridLayout.GetClassSingleRow | Packages/ohif-viewerbase/client/components/viewer/GridLayout/GridLayout.js:48-50 | with `rows` 1, every index is classed "top bottom", whatever the columns |
| GridLayout.GetClassMultiRow | Packages/ohif-viewerbase/client/components/viewer/GridLayout/GridLayout.js:52-61 | with rows > 1 and an index inside the grid, exactly one row position applies: top iff floor(index/columns) is 0, bottom iff it is rows-1, middle iff strictly between; the class string is that position's name |
| GridLayout.GetClassDefaults | Packages/ohif-viewerbase/client/components/viewer/GridLayout/GridLayout.js:45-62 | the row class reads the raw props: with `rows` absent or 0 and an index inside the one-row grid the class is "top"; with `columns` absent or 0 and `rows` not exactly 1 it is "middle" |
| GridLayout.GetActiveClass | Packages/ohif-viewerbase/client/components/viewer/GridLayout/GridLayout.js:64-70 | "active" exactly when the index is the active viewport index, "" otherwise |
| GridLayout.LayoutClassRoundTrip | Packages/ohif-viewerbase/client/components/viewer/GridLayout/GridLayout.js:155 | the class `layout-<rows>-<columns>` parses back to the same rows and columns |
| GridLayout.ContentChoice | Packages/ohif-viewerbase/client/components/viewer/GridLayout/GridLayout.js:133-145 | a descriptor missing either uid (absent or empty) is a placeholder whatever its plugin; with both uids, plugin "cornerstone" selects the stack viewport and anything else the plugin slot; the choice ignores the descriptor's index |
| GridLayout.ResolveContent | Packages/ohif-viewerbase/client/components/viewer/GridLayout/GridLayout.js:113-145 | the content has the chosen kind; a placeholder or plugin slot leaves the registry unchanged; a stack viewport shows the descriptor itself with a stack whose cursor is 0 and whose frames are the registered ones, and that stack is stored back under the descriptor's key |
| GridLayout.ResolveStack | Packages/ohif-viewerbase/client/components/viewer/GridLayout/GridLayout.js:14-34 | find-or-create: an existing stack keeps its frames and a new one gets the created frames; the cursor is reset to 0 in the registry too; no other stack changes |
| GridLayout.ResolveStackStable | Packages/ohif-viewerbase/client/components/viewer/GridLayout/GridLayout.js:29-31 | resolving a registered stack whose cursor is already 0 returns it and changes nothing |
| GridHost.Push | Packages/ohif-viewerbase/client/components/viewer/GridLayout/GridLayout.js:89-94 | pushing keeps every existing entry and object and appends one newly allocated object per padding descriptor, holding that descriptor |
| GridHost.PushContents | Packages/ohif-viewerbase/client/components/viewer/GridLayout/GridLayout.js:89-94 | the array after pushing lists the old descriptors followed by the padding, and an array without sharing stays without sharing |
| GridHost.PaddedContents | Packages/ohif-viewerbase/client/components/viewer/GridLayout/GridLayout.js:86-99 | a short array is padded in place with the padding descriptors; an array that is long enough keeps its references and objects, since `slice` copies only the local list |
| GridHost.WriteIndicesLastWins | Packages/ohif-viewerbase/client/components/viewer/GridLayout/GridLayout.js:101-106 | after the in-order writes each object holds the position of the last cell that lists it, and an object no cell lists is unchanged |
| GridHost.CellsIgnoreSharing | Packages/ohif-viewerbase/client/components/viewer/GridLayout/GridLayout.js:101-118 | what each cell reads, after the earlier cells' writes and its own, is its reconciled descriptor with its own position, whatever objects the array shares; this is the list `Render` draws its cells from |
| GridHost.HostAfterContents | Packages/ohif-viewerbase/client/components/viewer/GridLayout/GridLayout.js:81-106 | the array the host is left with has the padded length, and each entry is its object as padded, with `viewportIndex` set to the last cell position listing that object when some cell does |
| GridHost.DistinctHostAgrees | Packages/ohif-viewerbase/client/components/viewer/GridLayout/GridLayout.js:81-106 | when no object is listed twice, the array the host is left with is exactly the value-model account `CallerDataAfter` |
| GridHost.SharedDescriptorTwice | Packages/ohif-viewerbase/client/components/viewer/GridLayout/GridLayout.js:101-106 | one object listed twice in a 1x2 grid ends with index 1 at both positions |
| GridHost.SharedBeyondTheGrid | Packages/ohif-viewerbase/client/components/viewer/GridLayout/GridLayout.js:96-106 | in a 1x3 grid given five entries whose first object is listed again at position 3, that later entry shows index 0, written for cell 0, while an unshared entry beyond the grid is untouched |
| Sequences.FindIndex | OHIFViewer/client/components/flexboxLayout/flexboxLayout.js:37-38 | `find` returns the first matching position, or none exactly when nothing matches |
| FlexboxLayout.GetStudiesForBrowser | OHIFViewer/client/components/flexboxLayout/flexboxLayout.js:99-138 | one entry per selected study in order with its study uid; one thumbnail per display set in order, copying its uid, series description, series number, instance number and frame count, with the first image's id, empty `imageSrc`, inactive, 0 percent, no error |
| FlexboxLayout.StudyIndex | OHIFViewer/client/components/flexboxLayout/flexboxLayout.js:37 | the first study with the given uid, or none when no study has it |
| FlexboxLayout.ThumbnailIndex | OHIFViewer/client/components/flexboxLayout/flexboxLayout.js:38 | the first thumbnail with the given display-set uid, or none when no thumbnail has it |
| FlexboxLayout.Target | OHIFViewer/client/components/flexboxLayout/flexboxLayout.js:36-38 | when both lookups succeed, the position found is inside the list and carries both uids |
| FlexboxLayout.TargetOnlyReadsIdentifiers | OHIFViewer/client/components/flexboxLayout/flexboxLayout.js:50-52 | two study lists with the same identifiers in the same places locate the same thumbnail, or both fail |
| FlexboxLayout.LoadSuccess | OHIFViewer/client/components/flexboxLayout/flexboxLayout.js:27-46 | both sidebar flags and the number of studies are kept; after a rendering failure the state is unchanged |
| FlexboxLayout.LoadSuccessFrame | OHIFViewer/client/components/flexboxLayout/flexboxLayout.js:35-44 | after a successful render only the located thumbnail changes, and only its `imageSrc`, which becomes the data URI; every other study, thumbnail and field, the error slot included, is unchanged |
| FlexboxLayout.LoadError | OHIFViewer/client/components/flexboxLayout/flexboxLayout.js:49-59 | both sidebar flags and the number of studies are kept |
| FlexboxLayout.LoadErrorFrame | OHIFViewer/client/components/flexboxLayout/flexboxLayout.js:49-58 | only the located thumbnail changes, and only its error slot, which becomes the rejection value; every other study, thumbnail and field is unchanged |
| FlexboxLayout.HandlersKeepIdentifiers | OHIFViewer/client/components/flexboxLayout/flexboxLayout.js:35-58 | neither handler changes a study or display-set identifier or a list length |
| FlexboxLayout.HandlersWriteSeparateFields | OHIFViewer/client/components/flexboxLayout/flexboxLayout.js:40-54 | a success with a non-empty data URI leaves a non-empty `imageSrc` and the error as it was; a failure sets the error and leaves `imageSrc` as it was |
| FlexboxLayout.SuccessAndErrorCommute | OHIFViewer/client/components/flexboxLayout/flexboxLayout.js:35-58 | a success and a failure completion commute, for any two located thumbnails, the same one included |
| FlexboxLayout.SuccessesCommute | OHIFViewer/client/components/flexboxLayout/flexboxLayout.js:35-45 | two success completions for different thumbnails commute |
| FlexboxLayout.ErrorsCommute | OHIFViewer/client/components/flexboxLayout/flexboxLayout.js:49-58 | two failed completions for different thumbnails commute, and each lookup still succeeds after the other's write |
| FlexboxLayout.RequestOrigin | OHIFViewer/client/components/flexboxLayout/flexboxLayout.js:81-95 | every issued load belongs to some thumbnail and carries its study uid, display-set uid and image id |
| FlexboxLayout.CompletionsFindTheirThumbnails | OHIFViewer/client/components/flexboxLayout/flexboxLayout.js:82-93 | with distinct study uids, every issued load's completion finds a thumbnail in any later state with the same identifiers; with distinct display-set uids as well, it is the thumbnail the load was issued for |
| FlexboxLayout.InitialState | OHIFViewer/client/components/flexboxLayout/flexboxLayout.js:64-71 | the left sidebar starts open and the right closed; the browser list carries the selected studies' identifiers in order, and every thumbnail is fresh |
| FlexboxLayout.MainContentClassRoundTrip | OHIFViewer/client/components/flexboxLayout/flexboxLayout.js:141-148 | the main-content class is "mainContent", then the left marker exactly when the left sidebar is open, then the right marker exactly when the right one is open, in that order; it parses back to both flags |
| FlexboxLayout.SidebarClassMarksOpen | OHIFViewer/client/components/flexboxLayout/flexboxLayout.js:153-159 | each sidebar's class ends in " sidebar-open" exactly when its flag is set, and starts with its own side's base class |
| FlexboxLayout.RenderShell | OHIFViewer/client/components/flexboxLayout/flexboxLayout.js:140-164 | the rendered classes encode both sidebar flags; the browser gets the state's thumbnails and the main region gets the host's studies unchanged |
| FlexboxLayout.InitialRender | OHIFViewer/client/components/flexboxLayout/flexboxLayout.js:67-159 | the first render's main-content class parses to left open and right closed; the left sidebar's class ends in the open marker and the right sidebar's does not |

## Left out

- JSX markup and the React lifecycle (`componentDidMount`, re-render on `setState`). A state update is modelled as the new state value.
- Cornerstone I/O: `loadAndCacheImage`, `renderToCanvas`, canvas creation and `toDataURL`. A completion is one `RenderOutcome`. The data URI is an opaque string. Its non-emptiness is a hypothesis of `HandlersWriteSeparateFields`.
- The `renderAsync` promise wrapper and the fire-and-forget fan-out of loads. There is no scheduler in the model. Each completion is one atomic update. Any interleaving is a sequence of `LoadSuccess`/`LoadError` calls. The commutation lemmas cover a success with a failure (any two thumbnails), two successes and two failures (different thumbnails). Two completions for the same thumbnail and the same field do not commute: the later write wins.
- The study accessor (`OHIF.viewer.Studies.findAllBy`/`findBy`): the selected studies are a parameter. `StackManager.findOrCreateStack` is an abstract registry map, and stack creation is a parameter function. The display-set lookup inside `getCornerstoneStack` is folded into the registry key.
- GridLayout.ResolveStack: always succeeds. In the code, `getCornerstoneStack` (GridLayout.js:21-27) dereferences `study.displaySets` without a guard. A cornerstone descriptor whose study the accessor does not know makes the whole render throw. An unknown display set passes `undefined` to `findOrCreateStack`. The accessor and the stack manager are outside the model, so neither outcome is modelled.
- GridLayout.Reconcile: returns a list of any length. In JavaScript the padding `push` (GridLayout.js:89-94) throws `RangeError` once the array would exceed 2^32-1 entries. That bound is not modelled.
- GridLayout.Render: two throws of the render are not modelled, because `GridProps.viewportData` is always a list of descriptor records. An absent `viewportData` prop makes `viewportData.length` throw (GridLayout.js:81-83). A `null` or `undefined` entry makes `data.viewportIndex = index` throw (GridLayout.js:106).
- GridLayout.Render: its `viewportData` result treats descriptors as values, which is exact only when the host's array lists no object twice. `GridHost.HostAfterContents` gives the array for any sharing, and `GridHost.DistinctHostAgrees` shows the two agree without sharing. A descriptor's own `stack` property is also left out: `{stack, ...data}` (GridLayout.js:115-118) lets it override the resolved stack, and `Descriptor` has no such field.
- GridLayout.RenderCallerData: states the array for a host array without shared objects. With sharing, an entry shows the index of the last cell listing its object (`GridHost.HostAfterContents`, `GridHost.SharedDescriptorTwice`).
- GridLayout.TruncateOneByThree: the two trailing entries are untouched only when they share no object with the first three. `GridHost.SharedBeyondTheGrid` shows the shared case.
- The percent sizing `100 / rows` and `100 / columns`: floating-point string formatting.
- The inline style string of the plugin slot.
- Negative or fractional `rows`/`columns`: props are modelled as optional non-negative integers.
- `Packages/ohif-viewerbase/namespace.js`: it only attaches an empty object to a namespace.
- FlexboxLayout.CompletionsFindTheirThumbnails: assumes distinct study identifiers. With duplicates, a completion for a later duplicate study can miss its thumbnail, and the unguarded dereference fails.

/**
 * The decision logic of the viewport grid component: reconciling the host's list of
 * viewport descriptors with the requested number of cells, re-indexing it, classifying
 * each cell by row and activity, and choosing what each cell shows.
 *
 * The rendering engine's stack registry is an explicit map threaded through a render;
 * creating a stack that is not yet registered is delegated to the parameter `create`.
 */
module GridLayout {
  import opened Wrappers
  import Sequences
  import Decimal

  const TopClass: string := "top"
  const BottomClass: string := "bottom"
  const MiddleClass: string := "middle"
  const ActiveClass: string := "active"
  const CornerstonePlugin: string := "cornerstone"

  /** One grid cell's content binding, as the host supplies it: every field may be absent. */
  datatype Descriptor = Descriptor(
    viewportIndex: Option<int>,
    studyInstanceUid: Option<string>,
    displaySetInstanceUid: Option<string>,
    plugin: Option<string>,
    rows: Option<nat>,
    columns: Option<nat>)

  /** The component's props. */
  datatype GridProps = GridProps(
    rows: Option<nat>,
    columns: Option<nat>,
    viewportData: seq<Descriptor>,
    activeViewportIndex: Option<int>)

  /** A rendering-engine stack: frame identifiers and the navigation cursor. */
  datatype Stack = Stack(imageIds: seq<string>, currentImageIdIndex: int)

  /** Stacks are registered per (studyInstanceUid, displaySetInstanceUid). */
  type StackKey = (string, string)
  type Registry = map<StackKey, Stack>

  datatype RowClass = Top | Middle | Bottom

  datatype ContentKind = PlaceholderKind | StackKind | PluginKind

  /** What a cell shows: the drag-a-stack-here instructions, a stack viewport, or a plugin slot. */
  datatype Content =
    | Placeholder
    | StackViewport(data: Descriptor, stack: Stack)
    | PluginSlot(plugin: Option<string>)
  {
    function Kind(): ContentKind {
      match this
      case Placeholder => PlaceholderKind
      case StackViewport(_, _) => StackKind
      case PluginSlot(_) => PluginKind
    }
  }

  datatype Cell = Cell(className: string, content: Content)

  datatype GridView = GridView(layoutClass: string, cells: seq<Cell>)

  /**
   * The outcome of one render: the markup, the host's own descriptor array as the render
   * leaves it (the render pushes onto it and writes `viewportIndex` into the shared
   * descriptor objects), and the stack registry afterwards.
   */
  datatype RenderResult = RenderResult(view: GridView, viewportData: seq<Descriptor>, registry: Registry)

  // ---------------------------------------------------------------------------------------
  // Defaults and reconciliation
  // ---------------------------------------------------------------------------------------

  /** JavaScript truthiness of an optional string: absent and "" are both falsy. */
  predicate Truthy(s: Option<string>) {
    s.Some? && s.value != ""
  }

  /** `x || 1` for an optional count: absent and 0 both fall back to 1. */
  function OrOne(x: Option<nat>): (r: nat)
    ensures r >= 1
    ensures x.Some? && x.value != 0 ==> r == x.value
    ensures (x.None? || x.value == 0) ==> r == 1
  {
    if x.Some? && x.value != 0 then x.value else 1
  }

  /** The number of cells of a grid, with both dimensions defaulted to 1. */
  function GridSize(rows: Option<nat>, columns: Option<nat>): (n: nat)
    ensures n >= 1
  {
    OrOne(rows) * OrOne(columns)
  }

  /** The number of cells the grid shows. */
  function CellCount(props: GridProps): (n: nat)
    ensures n >= 1
  {
    GridSize(props.rows, props.columns)
  }

  function Padding(have: nat, count: nat, rows: nat, columns: nat): seq<Descriptor> {
    seq(count, i requires 0 <= i < count =>
      Descriptor(Some(have + i + 1), None, None, None, Some(rows), Some(columns)))
  }

  /**
   * The descriptor list reconciled to exactly one entry per cell: a short list keeps its
   * entries as a prefix and is padded with empty descriptors, a long list is cut to its
   * first entries, a list of the right length is kept.
   */
  function Reconcile(props: GridProps): (r: seq<Descriptor>)
    ensures |r| == CellCount(props)
    ensures |props.viewportData| <= |r| ==> r[..|props.viewportData|] == props.viewportData
    ensures forall i :: |props.viewportData| <= i < |r| ==>
      && r[i].studyInstanceUid.None?
      && r[i].displaySetInstanceUid.None?
      && r[i].plugin.None?
      && r[i].rows == Some(OrOne(props.rows))
      && r[i].columns == Some(OrOne(props.columns))
      && r[i].viewportIndex == Some(i + 1)
    ensures |r| <= |props.viewportData| ==> r == props.viewportData[..|r|]
  {
    var rows := OrOne(props.rows);
    var columns := OrOne(props.columns);
    var data := props.viewportData;
    var n := rows * columns;
    if |data| < n then data + Padding(|data|, n - |data|, rows, columns)
    else if |data| > n then data[..n]
    else data
  }

  /** Every descriptor's `viewportIndex` overwritten with its position. */
  function Reindex(data: seq<Descriptor>): seq<Descriptor> {
    seq(|data|, i requires 0 <= i < |data| => data[i].(viewportIndex := Some(i)))
  }

  // ---------------------------------------------------------------------------------------
  // Cell classes
  // ---------------------------------------------------------------------------------------

  /**
   * The row class of cell `index`. It reads the raw props: with `columns` absent or 0 the
   * computed row is NaN or Infinity, equal neither to 0 nor to `rows - 1`.
   */
  function GetClass(index: nat, rows: Option<nat>, columns: Option<nat>): string {
    if rows == Some(1) then TopClass + " " + BottomClass
    else if columns.None? || columns.value == 0 then MiddleClass
    else
      var actualRow := index / columns.value;
      if actualRow == 0 then TopClass
      else if rows.Some? && actualRow + 1 == rows.value then BottomClass
      else MiddleClass
  }

  /** Reference definition: the row positions a cell occupies in a `rows` by `columns` grid. */
  function RowPositions(index: nat, rows: nat, columns: nat): set<RowClass>
    requires columns >= 1
  {
    var row := index / columns;
    (if row == 0 then {Top} else {})
    + (if row == rows - 1 then {Bottom} else {})
    + (if 0 < row < rows - 1 then {Middle} else {})
  }

  /** The class string naming a set of row positions. */
  function RowClassString(positions: set<RowClass>): string {
    if Top in positions && Bottom in positions then TopClass + " " + BottomClass
    else if Top in positions then TopClass
    else if Bottom in positions then BottomClass
    else MiddleClass
  }

  /** A single-row grid classifies every cell, in range or not, as both top and bottom. */
  lemma GetClassSingleRow(index: nat, columns: Option<nat>)
    ensures GetClass(index, Some(1), columns) == "top bottom"
  {
  }

  lemma MulCancel(c: nat, a: nat, b: nat)
    requires c >= 1 && c * a < c * b
    ensures a < b
  {
  }

  lemma RowInRange(index: nat, rows: nat, columns: nat)
    requires columns >= 1 && index < rows * columns
    ensures index / columns < rows
  {
    var q := index / columns;
    assert columns * q <= index;
    MulCancel(columns, q, rows);
  }

  /**
   * In a grid of several rows every cell in range is in exactly one of top, middle and
   * bottom, decided by `floor(index / columns)` alone, and the class string names that
   * position. The one-row case is `GetClassSingleRow`.
   */
  lemma GetClassMultiRow(index: nat, rows: nat, columns: nat)
    requires rows > 1 && columns >= 1 && index < rows * columns
    ensures |RowPositions(index, rows, columns)| == 1
    ensures Top in RowPositions(index, rows, columns) <==> index / columns == 0
    ensures Bottom in RowPositions(index, rows, columns) <==> index / columns == rows - 1
    ensures Middle in RowPositions(index, rows, columns) <==> 0 < index / columns < rows - 1
    ensures GetClass(index, Some(rows), Some(columns)) == RowClassString(RowPositions(index, rows, columns))
  {
    RowInRange(index, rows, columns);
    var row := index / columns;
    var p := RowPositions(index, rows, columns);
    if row == 0 {
      assert p == {Top};
    } else if row == rows - 1 {
      assert p == {Bottom};
    } else {
      assert p == {Middle};
    }
  }

  /**
   * The row class reads the raw props, not the defaulted ones. With `rows` absent or 0 the
   * grid has one row, yet its cells are classed "top" only; with `columns` absent or 0 the
   * row is not a number and every cell is classed "middle", unless `rows` is exactly 1.
   */
  lemma GetClassDefaults(index: nat, rows: Option<nat>, columns: Option<nat>)
    ensures (rows.None? || rows == Some(0)) && columns.Some? && index < columns.value ==>
      GetClass(index, rows, columns) == "top"
    ensures rows != Some(1) && (columns.None? || columns == Some(0)) ==>
      GetClass(index, rows, columns) == "middle"
  {
  }

  /** `active` exactly on the active viewport, the empty string everywhere else. */
  function GetActiveClass(index: nat, activeViewportIndex: Option<int>): (r: string)
    ensures r == ActiveClass <==> activeViewportIndex == Some(index)
    ensures r == "" <==> activeViewportIndex != Some(index)
  {
    if activeViewportIndex == Some(index) then ActiveClass else ""
  }

  function CellClass(index: nat, props: GridProps): string {
    "viewportContainer " + GetClass(index, props.rows, props.columns) + " "
      + GetActiveClass(index, props.activeViewportIndex)
  }

  // ---------------------------------------------------------------------------------------
  // Layout class
  // ---------------------------------------------------------------------------------------

  function LayoutClass(rows: nat, columns: nat): string {
    "layout-" + Decimal.NatToString(rows) + "-" + Decimal.NatToString(columns)
  }

  predicate IsDash(c: char) {
    c == '-'
  }

  /** Reads the grid dimensions back out of a layout class name. */
  function ParseLayoutClass(s: string): Option<(nat, nat)> {
    if |s| < 7 || s[..7] != "layout-" then None
    else
      var rest := s[7..];
      match Sequences.FindIndex(rest, IsDash)
      case None => None
      case Some(k) =>
        var r := rest[..k];
        var c := rest[k + 1..];
        if Decimal.AllDigits(r) && Decimal.AllDigits(c) then Some((Decimal.ParseNat(r), Decimal.ParseNat(c)))
        else None
  }

  /** The layout class names the grid's dimensions unambiguously. */
  lemma LayoutClassRoundTrip(rows: nat, columns: nat)
    ensures ParseLayoutClass(LayoutClass(rows, columns)) == Some((rows, columns))
  {
    var r := Decimal.NatToString(rows);
    var c := Decimal.NatToString(columns);
    var s := LayoutClass(rows, columns);
    var rest := r + "-" + c;
    assert s[..7] == "layout-";
    assert s[7..] == rest;
    assert rest[|r|] == '-';
    assert forall i :: 0 <= i < |r| ==> !IsDash(rest[i]) by {
      forall i | 0 <= i < |r| ensures !IsDash(rest[i]) {
        assert rest[i] == r[i];
      }
    }
    var k := Sequences.FindIndex(rest, IsDash);
    assert k == Some(|r|);
    assert rest[..|r|] == r;
    assert rest[|r| + 1..] == c;
    Decimal.ParseNatToString(rows);
    Decimal.ParseNatToString(columns);
  }

  // ---------------------------------------------------------------------------------------
  // Content choice and stack resolution
  // ---------------------------------------------------------------------------------------

  /** The tri-state content decision of one cell. */
  function KindOf(d: Descriptor): ContentKind {
    if !Truthy(d.studyInstanceUid) || !Truthy(d.displaySetInstanceUid) then PlaceholderKind
    else if d.plugin == Some(CornerstonePlugin) then StackKind
    else PluginKind
  }

  function KeyOf(d: Descriptor): StackKey
    requires d.studyInstanceUid.Some? && d.displaySetInstanceUid.Some?
  {
    (d.studyInstanceUid.value, d.displaySetInstanceUid.value)
  }

  /**
   * The content choice depends on both identifiers being present and non-empty and, only
   * then, on whether the plugin is the `cornerstone` sentinel.
   */
  lemma ContentChoice(d: Descriptor)
    ensures KindOf(d) == PlaceholderKind <==> !Truthy(d.studyInstanceUid) || !Truthy(d.displaySetInstanceUid)
    ensures KindOf(d) == StackKind <==>
      Truthy(d.studyInstanceUid) && Truthy(d.displaySetInstanceUid) && d.plugin == Some(CornerstonePlugin)
    ensures KindOf(d) == PluginKind <==>
      Truthy(d.studyInstanceUid) && Truthy(d.displaySetInstanceUid) && d.plugin != Some(CornerstonePlugin)
    ensures forall p :: KindOf(d) == PlaceholderKind ==> KindOf(d.(plugin := p)) == PlaceholderKind
    ensures forall i :: KindOf(d.(viewportIndex := i)) == KindOf(d)
  {
  }

  /** The frames a registered stack keeps, or those a newly created stack gets. */
  function Frames(reg: Registry, key: StackKey, create: StackKey -> seq<string>): seq<string> {
    if key in reg then reg[key].imageIds else create(key)
  }

  /**
   * Find-or-create the stack for `key`, then reset its cursor to the first frame. The stack
   * object is shared with the registry, so the reset is visible there too.
   */
  function ResolveStack(reg: Registry, key: StackKey, create: StackKey -> seq<string>): (res: (Stack, Registry))
    ensures res.0.currentImageIdIndex == 0
    ensures key in reg ==> res.0.imageIds == reg[key].imageIds
    ensures key !in reg ==> res.0.imageIds == create(key)
    ensures key in res.1 && res.1[key] == res.0
    ensures res.1.Keys == reg.Keys + {key}
    ensures forall k :: k in reg && k != key ==> res.1[k] == reg[k]
  {
    var found := if key in reg then reg[key] else Stack(create(key), 0);
    var stack := found.(currentImageIdIndex := 0);
    (stack, reg[key := stack])
  }

  /** A stack already registered with its cursor at 0 resolves to itself and changes nothing. */
  lemma ResolveStackStable(reg: Registry, key: StackKey, create: StackKey -> seq<string>)
    requires key in reg && reg[key].currentImageIdIndex == 0
    ensures ResolveStack(reg, key, create) == (reg[key], reg)
  {
    var res := ResolveStack(reg, key, create);
    assert res.1 == reg;
  }

  /**
   * A cell's content: the placeholder and the plugin slot leave the registry alone; a stack
   * viewport shows the descriptor with its stack, found or created and reset to frame 0.
   */
  function ResolveContent(d: Descriptor, reg: Registry, create: StackKey -> seq<string>): (res: (Content, Registry))
    ensures res.0.Kind() == KindOf(d)
    ensures KindOf(d) != StackKind ==> res.1 == reg
    ensures res.0.PluginSlot? ==> res.0.plugin == d.plugin
    ensures res.0.StackViewport? ==>
      && res.0.data == d
      && res.0.stack.currentImageIdIndex == 0
      && res.0.stack.imageIds == Frames(reg, KeyOf(d), create)
      && res.1 == reg[KeyOf(d) := res.0.stack]
  {
    match KindOf(d)
    case PlaceholderKind => (Placeholder, reg)
    case StackKind =>
      var (stack, reg') := ResolveStack(reg, KeyOf(d), create);
      (StackViewport(d, stack), reg')
    case PluginKind => (PluginSlot(d.plugin), reg)
  }

  /** Closed form of a cell's content, in terms of the registry as it was before the render. */
  function ExpectedContent(d: Descriptor, reg: Registry, create: StackKey -> seq<string>): Content {
    match KindOf(d)
    case PlaceholderKind => Placeholder
    case StackKind => StackViewport(d, Stack(Frames(reg, KeyOf(d), create), 0))
    case PluginKind => PluginSlot(d.plugin)
  }

  /** The keys of the stacks a list of descriptors resolves. */
  function StackKeys(data: seq<Descriptor>): set<StackKey>
    decreases |data|
  {
    if |data| == 0 then {}
    else (if KindOf(data[0]) == StackKind then {KeyOf(data[0])} else {}) + StackKeys(data[1..])
  }

  lemma {:induction false} StackKeysMember(data: seq<Descriptor>, i: nat)
    requires i < |data| && KindOf(data[i]) == StackKind
    ensures KeyOf(data[i]) in StackKeys(data)
    decreases i
  {
    if i == 0 {
      assert KeyOf(data[0]) in (if KindOf(data[0]) == StackKind then {KeyOf(data[0])} else {});
    } else {
      assert data[1..][i - 1] == data[i];
      StackKeysMember(data[1..], i - 1);
    }
  }

  lemma {:induction false} NoStackKeys(data: seq<Descriptor>)
    requires forall i :: 0 <= i < |data| ==> KindOf(data[i]) != StackKind
    ensures StackKeys(data) == {}
    decreases |data|
  {
    if |data| > 0 {
      NoStackKeys(data[1..]);
    }
  }

  /** Closed form of the registry after the stacks of `data` were resolved in order. */
  function ResolvedRegistry(reg: Registry, data: seq<Descriptor>, create: StackKey -> seq<string>): Registry {
    map k | k in reg.Keys + StackKeys(data) ::
      if k in StackKeys(data) then Stack(Frames(reg, k, create), 0) else reg[k]
  }

  /** With no stack to resolve the registry is left as it was. */
  lemma ResolvedRegistryUntouched(reg: Registry, data: seq<Descriptor>, create: StackKey -> seq<string>)
    requires StackKeys(data) == {}
    ensures ResolvedRegistry(reg, data, create) == reg
  {
    var m := ResolvedRegistry(reg, data, create);
    assert m.Keys == reg.Keys;
    forall k | k in m ensures m[k] == reg[k] {
    }
  }

  /**
   * The per-cell map, resolving stacks in cell order. Each cell's content is determined by
   * its descriptor and the registry before the render; every stack it touched ends up
   * registered with its cursor at 0, keeping its frames; every other stack is untouched.
   */
  function RenderCells(data: seq<Descriptor>, offset: nat, props: GridProps, reg: Registry,
                       create: StackKey -> seq<string>): (out: (seq<Cell>, Registry))
    ensures |out.0| == |data|
    ensures forall i :: 0 <= i < |data| ==>
      out.0[i] == Cell(CellClass(offset + i, props), ExpectedContent(data[i], reg, create))
    ensures out.1 == ResolvedRegistry(reg, data, create)
    decreases |data|
  {
    if |data| == 0 then
      ResolvedRegistryUntouched(reg, data, create);
      ([], reg)
    else
      var first := ResolveContent(data[0], reg, create);
      var rest := RenderCells(data[1..], offset + 1, props, first.1, create);
      RenderCellsStep(data, offset, props, reg, first, rest, create);
      ([Cell(CellClass(offset, props), first.0)] + rest.0, rest.1)
  }

  /** Resolving the first cell leaves the frames every later cell sees as they were. */
  lemma ResolveContentKeepsFrames(d: Descriptor, reg: Registry, create: StackKey -> seq<string>)
    ensures forall k :: Frames(ResolveContent(d, reg, create).1, k, create) == Frames(reg, k, create)
    ensures forall e :: ExpectedContent(e, ResolveContent(d, reg, create).1, create) == ExpectedContent(e, reg, create)
  {
    var reg1 := ResolveContent(d, reg, create).1;
    forall k ensures Frames(reg1, k, create) == Frames(reg, k, create) {
    }
    forall e ensures ExpectedContent(e, reg1, create) == ExpectedContent(e, reg, create) {
      if KindOf(e) == StackKind {
        assert Frames(reg1, KeyOf(e), create) == Frames(reg, KeyOf(e), create);
      }
    }
  }

  /** The inductive step of RenderCells: resolving the first cell does not change the closed forms. */
  lemma RenderCellsStep(data: seq<Descriptor>, offset: nat, props: GridProps, reg: Registry,
                        first: (Content, Registry), rest: (seq<Cell>, Registry),
                        create: StackKey -> seq<string>)
    requires |data| > 0
    requires first == ResolveContent(data[0], reg, create)
    requires |rest.0| == |data| - 1
    requires forall i :: 0 <= i < |rest.0| ==>
      rest.0[i] == Cell(CellClass(offset + 1 + i, props), ExpectedContent(data[1..][i], first.1, create))
    requires rest.1 == ResolvedRegistry(first.1, data[1..], create)
    ensures forall i :: 0 <= i < |data| ==>
      ([Cell(CellClass(offset, props), first.0)] + rest.0)[i]
        == Cell(CellClass(offset + i, props), ExpectedContent(data[i], reg, create))
    ensures rest.1 == ResolvedRegistry(reg, data, create)
  {
    ResolveContentKeepsFrames(data[0], reg, create);
    forall i | 0 < i < |data|
      ensures ([Cell(CellClass(offset, props), first.0)] + rest.0)[i]
        == Cell(CellClass(offset + i, props), ExpectedContent(data[i], reg, create))
    {
      assert data[1..][i - 1] == data[i];
    }
    ResolvedRegistryStep(data, reg, first.1, create);
  }

  lemma ResolvedRegistryStep(data: seq<Descriptor>, reg: Registry, reg1: Registry, create: StackKey -> seq<string>)
    requires |data| > 0
    requires reg1 == ResolveContent(data[0], reg, create).1
    ensures ResolvedRegistry(reg1, data[1..], create) == ResolvedRegistry(reg, data, create)
  {
    ResolveContentKeepsFrames(data[0], reg, create);
    var a := ResolvedRegistry(reg1, data[1..], create);
    var b := ResolvedRegistry(reg, data, create);
    assert a.Keys == b.Keys;
    forall k | k in a.Keys ensures a[k] == b[k] {
      assert Frames(reg1, k, create) == Frames(reg, k, create);
    }
  }

  // ---------------------------------------------------------------------------------------
  // Render
  // ---------------------------------------------------------------------------------------

  /** The host's array after the render: padded and re-indexed, or re-indexed up to the cut. */
  function CallerDataAfter(props: GridProps): seq<Descriptor> {
    var reindexed := Reindex(Reconcile(props));
    var n := CellCount(props);
    if |props.viewportData| <= n then reindexed else reindexed + props.viewportData[n..]
  }

  /**
   * One render pass: one cell per grid position, each the closed form of its re-indexed
   * reconciled descriptor, with the registry and the host's array as the pass leaves them.
   */
  function Render(props: GridProps, reg: Registry, create: StackKey -> seq<string>): (r: RenderResult)
    ensures |r.view.cells| == CellCount(props)
    ensures forall i :: 0 <= i < |r.view.cells| ==>
      r.view.cells[i] == Cell(CellClass(i, props), ExpectedContent(Reindex(Reconcile(props))[i], reg, create))
    ensures r.registry == ResolvedRegistry(reg, Reindex(Reconcile(props)), create)
    ensures r.viewportData == CallerDataAfter(props)
    ensures r.view.layoutClass == LayoutClass(OrOne(props.rows), OrOne(props.columns))
  {
    var out := RenderCells(Reindex(Reconcile(props)), 0, props, reg, create);
    RenderResult(GridView(LayoutClass(OrOne(props.rows), OrOne(props.columns)), out.0), CallerDataAfter(props), out.1)
  }

  /**
   * Each cell is classified by its position and the active index and shows the content its
   * reconciled descriptor selects; a stack cell shows that descriptor, re-indexed to the
   * cell's position, with the stack now registered for it, whose cursor is 0.
   */
  lemma RenderShowsDescriptors(props: GridProps, reg: Registry, create: StackKey -> seq<string>, i: nat)
    requires i < CellCount(props)
    ensures Render(props, reg, create).view.cells[i].className == CellClass(i, props)
    ensures Render(props, reg, create).view.cells[i].content.Kind() == KindOf(Reconcile(props)[i])
    ensures KindOf(Reconcile(props)[i]) == PluginKind ==>
      Render(props, reg, create).view.cells[i].content == PluginSlot(Reconcile(props)[i].plugin)
    ensures KindOf(Reconcile(props)[i]) == StackKind ==>
      && KeyOf(Reconcile(props)[i]) in Render(props, reg, create).registry
      && Render(props, reg, create).registry[KeyOf(Reconcile(props)[i])].currentImageIdIndex == 0
      && Render(props, reg, create).view.cells[i].content
           == StackViewport(Reconcile(props)[i].(viewportIndex := Some(i)),
                            Render(props, reg, create).registry[KeyOf(Reconcile(props)[i])])
  {
    var data := Reindex(Reconcile(props));
    assert data[i] == Reconcile(props)[i].(viewportIndex := Some(i));
    assert KindOf(data[i]) == KindOf(Reconcile(props)[i]);
    if KindOf(data[i]) == StackKind {
      StackKeysMember(data, i);
    }
  }

  /** A render leaves every stack that no cell shows as it was. */
  lemma RenderRegistryFrame(props: GridProps, reg: Registry, create: StackKey -> seq<string>, k: StackKey)
    requires k in reg
    requires forall i :: 0 <= i < CellCount(props) && KindOf(Reconcile(props)[i]) == StackKind ==>
      KeyOf(Reconcile(props)[i]) != k
    ensures k in Render(props, reg, create).registry
    ensures Render(props, reg, create).registry[k] == reg[k]
  {
    var data := Reindex(Reconcile(props));
    StackKeysReindex(Reconcile(props));
    if k in StackKeys(Reconcile(props)) {
      var i := StackKeysOrigin(Reconcile(props), k);
    }
  }

  lemma {:induction false} StackKeysOrigin(data: seq<Descriptor>, k: StackKey) returns (i: nat)
    requires k in StackKeys(data)
    ensures i < |data| && KindOf(data[i]) == StackKind && KeyOf(data[i]) == k
    decreases |data|
  {
    if KindOf(data[0]) == StackKind && KeyOf(data[0]) == k {
      i := 0;
    } else {
      var j := StackKeysOrigin(data[1..], k);
      i := j + 1;
    }
  }

  /** Re-indexing changes neither the content kinds nor the stack keys. */
  lemma {:induction false} StackKeysReindex(data: seq<Descriptor>)
    ensures StackKeys(Reindex(data)) == StackKeys(data)
  {
    StackKeysShift(data, 0);
    assert data[0..] == data;
  }

  lemma {:induction false} StackKeysShift(data: seq<Descriptor>, start: nat)
    requires start <= |data|
    ensures StackKeys(Reindex(data)[start..]) == StackKeys(data[start..])
    decreases |data| - start
  {
    if start < |data| {
      StackKeysShift(data, start + 1);
      assert Reindex(data)[start..][1..] == Reindex(data)[start + 1..];
      assert data[start..][1..] == data[start + 1..];
    }
  }

  /**
   * The host's array after a render: a short array has been padded in place to one entry per
   * cell; entries up to the cell count carry their position as index and are otherwise
   * unchanged; entries past the cell count are untouched.
   */
  lemma RenderCallerData(props: GridProps, reg: Registry, create: StackKey -> seq<string>)
    ensures var after := Render(props, reg, create).viewportData;
      var n := CellCount(props);
      && |after| == (if |props.viewportData| <= n then n else |props.viewportData|)
      && (forall i :: 0 <= i < n ==> after[i] == Reconcile(props)[i].(viewportIndex := Some(i)))
      && (forall i :: 0 <= i < n && i < |props.viewportData| ==>
            after[i] == props.viewportData[i].(viewportIndex := Some(i)))
      && (forall i :: n <= i < |props.viewportData| ==> after[i] == props.viewportData[i])
  {
    CallerDataShape(props);
  }

  lemma CallerDataShape(props: GridProps)
    ensures var after := CallerDataAfter(props);
      var n := CellCount(props);
      && |after| == (if |props.viewportData| <= n then n else |props.viewportData|)
      && (forall i :: 0 <= i < n ==> after[i] == Reconcile(props)[i].(viewportIndex := Some(i)))
      && (forall i :: 0 <= i < n && i < |props.viewportData| ==>
            after[i] == props.viewportData[i].(viewportIndex := Some(i)))
      && (forall i :: n <= i < |props.viewportData| ==> after[i] == props.viewportData[i])
  {
    var n := CellCount(props);
    var r := Reconcile(props);
    forall i | 0 <= i < n && i < |props.viewportData|
      ensures r[i] == props.viewportData[i]
    {
      if |props.viewportData| <= n {
        assert r[..|props.viewportData|][i] == r[i];
      }
    }
  }

  /** The host's array as a render leaves it reconciles to the same list on the next render. */
  lemma ReconcileCallerData(props: GridProps)
    ensures var again := props.(viewportData := CallerDataAfter(props));
      && CellCount(again) == CellCount(props)
      && Reindex(Reconcile(again)) == Reindex(Reconcile(props))
      && CallerDataAfter(again) == CallerDataAfter(props)
  {
    var again := props.(viewportData := CallerDataAfter(props));
    var n := CellCount(props);
    var data := Reindex(Reconcile(props));
    assert CellCount(again) == n;
    assert Reconcile(again) == data;
  }

  /** Resolving the same stacks again, from the registry they produced, changes nothing. */
  lemma ResolvedRegistryStable(reg: Registry, data: seq<Descriptor>, create: StackKey -> seq<string>)
    ensures var reg1 := ResolvedRegistry(reg, data, create);
      && ResolvedRegistry(reg1, data, create) == reg1
      && forall i :: 0 <= i < |data| ==> ExpectedContent(data[i], reg1, create) == ExpectedContent(data[i], reg, create)
  {
    var reg1 := ResolvedRegistry(reg, data, create);
    forall k | k in StackKeys(data) ensures Frames(reg1, k, create) == Frames(reg, k, create) {
    }
    forall i | 0 <= i < |data| ensures ExpectedContent(data[i], reg1, create) == ExpectedContent(data[i], reg, create) {
      if KindOf(data[i]) == StackKind {
        StackKeysMember(data, i);
      }
    }
    var reg2 := ResolvedRegistry(reg1, data, create);
    assert reg2.Keys == reg1.Keys;
    forall k | k in reg2 ensures reg2[k] == reg1[k] {
    }
  }

  /**
   * Rendering again, with the host's array as the first render left it and the registry the
   * first render produced, shows the same cells and leaves everything as it was.
   */
  lemma RenderIdempotent(props: GridProps, reg: Registry, create: StackKey -> seq<string>)
    ensures var r := Render(props, reg, create);
      Render(props.(viewportData := r.viewportData), r.registry, create) == r
  {
    var r := Render(props, reg, create);
    var again := props.(viewportData := r.viewportData);
    ReconcileCallerData(props);
    var data := Reindex(Reconcile(props));
    ResolvedRegistryStable(reg, data, create);
    var r2 := Render(again, r.registry, create);
    assert r2.view.cells == r.view.cells;
  }

  // ---------------------------------------------------------------------------------------
  // Scenarios
  // ---------------------------------------------------------------------------------------

  /** A 2x2 grid with no descriptors gets four placeholders indexed 0 to 3. */
  lemma EmptyTwoByTwo(reg: Registry, create: StackKey -> seq<string>)
    ensures var r := Render(GridProps(Some(2), Some(2), [], None), reg, create);
      && |r.view.cells| == 4
      && (forall i :: 0 <= i < 4 ==> r.view.cells[i].content == Placeholder)
      && (forall i :: 0 <= i < 4 ==> r.viewportData[i].viewportIndex == Some(i))
      && r.registry == reg
  {
    var props := GridProps(Some(2), Some(2), [], None);
    var rec := Reconcile(props);
    var data := Reindex(rec);
    assert |data| == 4;
    forall i | 0 <= i < 4 ensures KindOf(data[i]) == PlaceholderKind {
      assert data[i].studyInstanceUid == rec[i].studyInstanceUid == None;
    }
    NoStackKeys(data);
    ResolvedRegistryUntouched(reg, data, create);
    assert CallerDataAfter(props) == data;
  }

  /** A one-row grid of three columns given five descriptors keeps the first three, re-indexed. */
  lemma TruncateOneByThree(five: seq<Descriptor>, reg: Registry, create: StackKey -> seq<string>)
    requires |five| == 5
    ensures var r := Render(GridProps(Some(1), Some(3), five, None), reg, create);
      && |r.view.cells| == 3
      && (forall i :: 0 <= i < 3 ==> r.view.cells[i].className == "viewportContainer top bottom ")
      && (forall i :: 0 <= i < 3 ==> r.viewportData[i] == five[i].(viewportIndex := Some(i)))
      && r.viewportData[3..] == five[3..]
  {
    var props := GridProps(Some(1), Some(3), five, None);
    assert CellCount(props) == 3;
    forall i | 0 <= i < 3 ensures CellClass(i, props) == "viewportContainer top bottom " {
      GetClassSingleRow(i, Some(3));
    }
    CallerDataShape(props);
    var after := CallerDataAfter(props);
    assert after[3..] == five[3..];
  }

  /** With no props at all the grid has one cell, classed "middle" because `columns` is absent. */
  lemma DefaultOneByOne(reg: Registry, create: StackKey -> seq<string>)
    ensures var r := Render(GridProps(None, None, [], None), reg, create);
      && |r.view.cells| == 1
      && r.view.cells[0].className == "viewportContainer middle "
      && r.view.cells[0].content == Placeholder
      && r.view.layoutClass == "layout-1-1"
  {
    var props := GridProps(None, None, [], None);
    assert CellCount(props) == 1;
    GetClassDefaults(0, None, None);
    assert CellClass(0, props) == "viewportContainer middle ";
    assert Reindex(Reconcile(props))[0].studyInstanceUid.None?;
    assert LayoutClass(1, 1) == "layout-1-1" by {
      assert Decimal.NatToString(1) == "1";
    }
  }
}

/**
 * The host's descriptor array with object identity. A JavaScript array holds references,
 * and a render writes `viewportIndex` into the objects the array lists, so an object listed
 * at two positions shows the write at both. Here the array is a list of references into a
 * heap of descriptor objects, and the render's writes happen one cell at a time, in cell order.
 *
 * What the cells show does not depend on sharing: each cell writes its own position just
 * before it reads the object. Only the array the host is left with does.
 */
module GridHost {
  import opened Wrappers
  import opened GridLayout

  /** An object reference. */
  type Ref = nat

  /** The host's array: references into the heap; `next` is beyond every allocated reference. */
  datatype Host = Host(refs: seq<Ref>, heap: map<Ref, Descriptor>, next: Ref)

  predicate Valid(h: Host) {
    && (forall k :: 0 <= k < |h.refs| ==> h.refs[k] in h.heap)
    && (forall r :: r in h.heap ==> r < h.next)
  }

  /** The descriptors the array lists, position by position. */
  function Contents(h: Host): (c: seq<Descriptor>)
    requires Valid(h)
    ensures |c| == |h.refs|
  {
    seq(|h.refs|, k requires 0 <= k < |h.refs| => h.heap[h.refs[k]])
  }

  /** No object is listed at two positions. */
  predicate Distinct(refs: seq<Ref>) {
    forall a, b :: 0 <= a < b < |refs| ==> refs[a] != refs[b]
  }

  /** The props a render receives when the host passes this array. */
  function PropsOf(h: Host, rows: Option<nat>, columns: Option<nat>, active: Option<int>): GridProps
    requires Valid(h)
  {
    GridProps(rows, columns, Contents(h), active)
  }

  /** `push` of one freshly allocated object per descriptor of `pad`, in order. */
  function Push(h: Host, pad: seq<Descriptor>): (r: Host)
    requires Valid(h)
    ensures Valid(r)
    ensures |r.refs| == |h.refs| + |pad|
    ensures forall r0 :: r0 in h.heap ==> r0 in r.heap && r.heap[r0] == h.heap[r0]
    ensures forall k :: 0 <= k < |h.refs| ==> r.refs[k] == h.refs[k]
    ensures forall k :: |h.refs| <= k < |r.refs| ==> r.refs[k] == h.next + (k - |h.refs|)
    ensures forall k :: |h.refs| <= k < |r.refs| ==> r.heap[r.refs[k]] == pad[k - |h.refs|]
    decreases |pad|
  {
    if |pad| == 0 then h
    else Push(Host(h.refs + [h.next], h.heap[h.next := pad[0]], h.next + 1), pad[1..])
  }

  /** Pushing appends the new descriptors and keeps a list without sharing free of it. */
  lemma PushContents(h: Host, pad: seq<Descriptor>)
    requires Valid(h)
    ensures Contents(Push(h, pad)) == Contents(h) + pad
    ensures Distinct(h.refs) ==> Distinct(Push(h, pad).refs)
  {
    var r := Push(h, pad);
    assert Contents(r) == Contents(h) + pad by {
      forall k | 0 <= k < |r.refs| ensures Contents(r)[k] == (Contents(h) + pad)[k] {
        if k < |h.refs| {
          assert h.refs[k] in h.heap;
        }
      }
    }
    if Distinct(h.refs) {
      forall a, b | 0 <= a < b < |r.refs| ensures r.refs[a] != r.refs[b] {
        if a < |h.refs| && b >= |h.refs| {
          assert h.refs[a] in h.heap;
        }
      }
    }
  }

  /** The array after the padding step: short arrays are padded in place, others are kept. */
  function Padded(h: Host, rows: Option<nat>, columns: Option<nat>): (r: Host)
    requires Valid(h)
    ensures Valid(r)
    ensures |r.refs| >= GridSize(rows, columns)
  {
    var n := GridSize(rows, columns);
    if |h.refs| < n then Push(h, Padding(|h.refs|, n - |h.refs|, OrOne(rows), OrOne(columns)))
    else h
  }

  /** The padded array lists the host's descriptors followed by the padding, without new sharing. */
  lemma PaddedContents(h: Host, rows: Option<nat>, columns: Option<nat>)
    requires Valid(h)
    ensures var n := GridSize(rows, columns);
      |h.refs| < n ==> Contents(Padded(h, rows, columns)) == Contents(h) + Padding(|h.refs|, n - |h.refs|, OrOne(rows), OrOne(columns))
    ensures |h.refs| >= GridSize(rows, columns) ==> Padded(h, rows, columns) == h
    ensures Distinct(h.refs) ==> Distinct(Padded(h, rows, columns).refs)
  {
    var n := GridSize(rows, columns);
    if |h.refs| < n {
      PushContents(h, Padding(|h.refs|, n - |h.refs|, OrOne(rows), OrOne(columns)));
    }
  }

  /** The heap once cells 0 to m-1 have each written their position into their object. */
  function WriteIndices(refs: seq<Ref>, heap: map<Ref, Descriptor>, m: nat): (r: map<Ref, Descriptor>)
    requires m <= |refs|
    requires forall k :: 0 <= k < |refs| ==> refs[k] in heap
    ensures r.Keys == heap.Keys
  {
    if m == 0 then heap
    else
      var before := WriteIndices(refs, heap, m - 1);
      before[refs[m - 1] := before[refs[m - 1]].(viewportIndex := Some(m - 1))]
  }

  /** The last position below `m` at which `x` is listed, if any. */
  function LastPosition(refs: seq<Ref>, x: Ref, m: nat): (r: Option<nat>)
    requires m <= |refs|
    ensures r.Some? ==> r.value < m && refs[r.value] == x
    ensures r.Some? ==> forall j :: r.value < j < m ==> refs[j] != x
    ensures r.None? <==> forall j :: 0 <= j < m ==> refs[j] != x
  {
    if m == 0 then None
    else if refs[m - 1] == x then Some(m - 1)
    else LastPosition(refs, x, m - 1)
  }

  /** In a list without sharing, an entry's last position below `m` is its own, if below `m`. */
  lemma DistinctLastPosition(refs: seq<Ref>, m: nat, k: nat)
    requires Distinct(refs) && m <= |refs| && k < |refs|
    ensures LastPosition(refs, refs[k], m) == if k < m then Some(k) else None
  {
  }

  /** After in-order writes, each object holds the position of its last write, if it got one. */
  lemma {:induction false} WriteIndicesLastWins(refs: seq<Ref>, heap: map<Ref, Descriptor>, m: nat, x: Ref)
    requires m <= |refs|
    requires forall k :: 0 <= k < |refs| ==> refs[k] in heap
    requires x in heap
    ensures WriteIndices(refs, heap, m)[x] ==
      match LastPosition(refs, x, m)
      case None => heap[x]
      case Some(i) => heap[x].(viewportIndex := Some(i))
  {
    if m > 0 {
      WriteIndicesLastWins(refs, heap, m - 1, x);
    }
  }

  /**
   * The host's array after one render pass: padded in place, and every object among the
   * first cells holding the position of the last cell that lists it.
   */
  function HostAfter(h: Host, rows: Option<nat>, columns: Option<nat>): (r: Host)
    requires Valid(h)
    ensures Valid(r)
  {
    var p := Padded(h, rows, columns);
    p.(heap := WriteIndices(p.refs, p.heap, GridSize(rows, columns)))
  }

  /** What cell i reads: its object after the earlier cells' writes and its own. */
  function CellReads(h: Host, rows: Option<nat>, columns: Option<nat>): (c: seq<Descriptor>)
    requires Valid(h)
    ensures |c| == GridSize(rows, columns)
  {
    var p := Padded(h, rows, columns);
    seq(GridSize(rows, columns), i requires 0 <= i < GridSize(rows, columns) =>
      WriteIndices(p.refs, p.heap, i)[p.refs[i]].(viewportIndex := Some(i)))
  }

  /** The padded array lists the reconciled descriptors first. */
  lemma PaddedListsReconciled(h: Host, rows: Option<nat>, columns: Option<nat>, active: Option<int>)
    requires Valid(h)
    ensures forall i :: 0 <= i < GridSize(rows, columns) ==>
      Contents(Padded(h, rows, columns))[i] == Reconcile(PropsOf(h, rows, columns, active))[i]
  {
    var props := PropsOf(h, rows, columns, active);
    var rec := Reconcile(props);
    var c := Contents(Padded(h, rows, columns));
    PaddedContents(h, rows, columns);
    forall i | 0 <= i < GridSize(rows, columns) ensures c[i] == rec[i] {
      if |h.refs| < CellCount(props) {
        if i < |h.refs| {
          assert rec[..|h.refs|][i] == rec[i];
        }
      } else {
        assert rec == Contents(h)[..|rec|];
      }
    }
  }

  /**
   * Sharing does not reach the cells: every cell reads its own reconciled descriptor with
   * its own position, which is what `Render` over the listed descriptors shows.
   */
  lemma CellsIgnoreSharing(h: Host, rows: Option<nat>, columns: Option<nat>, active: Option<int>)
    requires Valid(h)
    ensures CellReads(h, rows, columns) == Reindex(Reconcile(PropsOf(h, rows, columns, active)))
  {
    var seen := CellReads(h, rows, columns);
    var want := Reindex(Reconcile(PropsOf(h, rows, columns, active)));
    assert |seen| == |want|;
    forall i | 0 <= i < |want| ensures seen[i] == want[i] {
      CellReadsEntry(h, rows, columns, active, i);
    }
  }

  lemma CellReadsEntry(h: Host, rows: Option<nat>, columns: Option<nat>, active: Option<int>, i: nat)
    requires Valid(h)
    requires i < CellCount(PropsOf(h, rows, columns, active))
    ensures i < |CellReads(h, rows, columns)|
    ensures CellReads(h, rows, columns)[i] == Reconcile(PropsOf(h, rows, columns, active))[i].(viewportIndex := Some(i))
  {
    var p := Padded(h, rows, columns);
    PaddedListsReconciled(h, rows, columns, active);
    var x := p.refs[i];
    var w := WriteIndices(p.refs, p.heap, i)[x];
    WriteIndicesLastWins(p.refs, p.heap, i, x);
    assert w.(viewportIndex := Some(i)) == p.heap[x].(viewportIndex := Some(i)) by {
      match LastPosition(p.refs, x, i)
      case None =>
      case Some(j) =>
    }
    assert CellReads(h, rows, columns)[i] == w.(viewportIndex := Some(i));
    assert Contents(p)[i] == p.heap[x];
  }

  /**
   * The array the host is left with: the same length as after the padding step, each entry
   * its object as padded, with `viewportIndex` set to the last cell position listing that
   * object when some cell does.
   */
  lemma HostAfterContents(h: Host, rows: Option<nat>, columns: Option<nat>)
    requires Valid(h)
    ensures var p := Padded(h, rows, columns);
      var after := Contents(HostAfter(h, rows, columns));
      && |after| == |p.refs|
      && forall k :: 0 <= k < |after| ==>
           after[k] == match LastPosition(p.refs, p.refs[k], GridSize(rows, columns))
                       case None => Contents(p)[k]
                       case Some(i) => Contents(p)[k].(viewportIndex := Some(i))
  {
    var p := Padded(h, rows, columns);
    var after := Contents(HostAfter(h, rows, columns));
    forall k | 0 <= k < |after|
      ensures after[k] == match LastPosition(p.refs, p.refs[k], GridSize(rows, columns))
                          case None => Contents(p)[k]
                          case Some(i) => Contents(p)[k].(viewportIndex := Some(i))
    {
      WriteIndicesLastWins(p.refs, p.heap, GridSize(rows, columns), p.refs[k]);
    }
  }

  /**
   * When no object is listed twice, the value model of the host's array is exact: the array
   * is left as `CallerDataAfter` describes.
   */
  lemma DistinctHostAgrees(h: Host, rows: Option<nat>, columns: Option<nat>, active: Option<int>)
    requires Valid(h) && Distinct(h.refs)
    ensures Contents(HostAfter(h, rows, columns)) == CallerDataAfter(PropsOf(h, rows, columns, active))
  {
    var after := Contents(HostAfter(h, rows, columns));
    var want := CallerDataAfter(PropsOf(h, rows, columns, active));
    HostAfterLength(h, rows, columns, active);
    forall k | 0 <= k < |after| ensures after[k] == want[k] {
      DistinctEntry(h, rows, columns, active, k);
    }
  }

  lemma HostAfterLength(h: Host, rows: Option<nat>, columns: Option<nat>, active: Option<int>)
    requires Valid(h)
    ensures |Padded(h, rows, columns).refs| == |CallerDataAfter(PropsOf(h, rows, columns, active))|
    ensures |Contents(HostAfter(h, rows, columns))| == |CallerDataAfter(PropsOf(h, rows, columns, active))|
  {
    PaddedContents(h, rows, columns);
  }

  lemma DistinctEntry(h: Host, rows: Option<nat>, columns: Option<nat>, active: Option<int>, k: nat)
    requires Valid(h) && Distinct(h.refs)
    requires k < |Padded(h, rows, columns).refs|
    ensures k < |CallerDataAfter(PropsOf(h, rows, columns, active))|
    ensures Contents(HostAfter(h, rows, columns))[k] == CallerDataAfter(PropsOf(h, rows, columns, active))[k]
  {
    var props := PropsOf(h, rows, columns, active);
    var p := Padded(h, rows, columns);
    var m := GridSize(rows, columns);
    PaddedContents(h, rows, columns);
    HostAfterLength(h, rows, columns, active);
    PaddedListsReconciled(h, rows, columns, active);
    CallerDataShape(props);
    DistinctLastPosition(p.refs, m, k);
    WriteIndicesLastWins(p.refs, p.heap, m, p.refs[k]);
    assert Contents(p)[k] == p.heap[p.refs[k]];
    if k >= m {
      assert p == h;
    }
  }

  // ---------------------------------------------------------------------------------------
  // Scenarios
  // ---------------------------------------------------------------------------------------

  /** One object listed twice in a one-by-two grid: both entries end up with index 1. */
  lemma SharedDescriptorTwice(d: Descriptor)
    ensures var h := Host([7, 7], map[7 := d], 8);
      && Valid(h)
      && Contents(HostAfter(h, Some(1), Some(2))) == [d.(viewportIndex := Some(1)), d.(viewportIndex := Some(1))]
  {
    var h := Host([7, 7], map[7 := d], 8);
    PaddedContents(h, Some(1), Some(2));
    assert Padded(h, Some(1), Some(2)) == h;
    assert GridSize(Some(1), Some(2)) == 2;
    assert LastPosition(h.refs, 7, 2) == Some(1);
    WriteIndicesLastWins(h.refs, h.heap, 2, 7);
    var after := HostAfter(h, Some(1), Some(2));
    assert after.refs == [7, 7];
    assert after.heap[7] == d.(viewportIndex := Some(1));
  }

  /**
   * Five entries on a one-by-three grid whose first object is listed again at position 3:
   * the entry beyond the grid shows the write made for cell 0.
   */
  lemma SharedBeyondTheGrid(a: Descriptor, b: Descriptor, c: Descriptor, e: Descriptor)
    ensures var h := Host([0, 1, 2, 0, 4], map[0 := a, 1 := b, 2 := c, 4 := e], 5);
      && Valid(h)
      && Contents(HostAfter(h, Some(1), Some(3)))[3] == a.(viewportIndex := Some(0))
      && Contents(HostAfter(h, Some(1), Some(3)))[4] == e
  {
    var h := Host([0, 1, 2, 0, 4], map[0 := a, 1 := b, 2 := c, 4 := e], 5);
    PaddedContents(h, Some(1), Some(3));
    assert Padded(h, Some(1), Some(3)) == h;
    assert GridSize(Some(1), Some(3)) == 3;
    assert LastPosition(h.refs, 0, 3) == Some(0);
    assert LastPosition(h.refs, 4, 3) == None;
    WriteIndicesLastWins(h.refs, h.heap, 3, 0);
    WriteIndicesLastWins(h.refs, h.heap, 3, 4);
    var after := HostAfter(h, Some(1), Some(3));
    assert after.refs == h.refs;
  }
}

/**
 * Descriptor derivation of the render context: the 16 x 16 grid of
 * resources indexed by descriptor set and binding is scanned set by set and
 * slot by slot; every used slot contributes a layout binding and a
 * descriptor write, and every set with at least one used slot gets a set
 * layout. The set layouts are compacted (an unused set index leaves no gap),
 * while each write remembers the set index it came from and is later aimed
 * at the descriptor set allocated at that index.
 */
module Descriptors {
  import opened Base
  import opened Resources

  /** The driver's descriptor-type values for the two buffer kinds. */
  const DESCRIPTOR_TYPE_UNIFORM_BUFFER: nat := 6
  const DESCRIPTOR_TYPE_STORAGE_BUFFER: nat := 7

  /** One binding of a set layout. */
  datatype LayoutBinding = LayoutBinding(binding: nat, descriptorType: nat)

  /** The buffer a write describes: the device buffer of the cell at `cell`, over its whole size. */
  datatype BufferInfo = BufferInfo(cell: Location, range: nat)

  /** A descriptor write, with the set index it was produced for. */
  datatype Write = Write(setId: nat, binding: nat, descriptorType: nat, buffer: Option<BufferInfo>)

  type Grid = seq<seq<Resource>>

  predicate GridShaped(g: Grid)
  {
    |g| == MAX_DESCRIPTOR_SETS && forall s | 0 <= s < |g| :: |g[s]| == MAX_BINDINGS_PER_SET
  }

  /** A slot is used unless its type is NONE. */
  predicate Used(cell: Resource)
  {
    cell.rtype != RENDER_RESOURCE_TYPE_NONE
  }

  /** The descriptor type of a used slot; a non-buffer type has none (all ones). */
  function DescriptorType(rtype: nat): nat
  {
    if rtype == RENDER_RESOURCE_TYPE_UNIFORM_BUFFER then DESCRIPTOR_TYPE_UNIFORM_BUFFER
    else if rtype == RENDER_RESOURCE_TYPE_STORAGE_BUFFER then DESCRIPTOR_TYPE_STORAGE_BUFFER
    else U32_MAX
  }

  /** Only a buffer slot gets buffer info. */
  function BufferOf(cell: Resource, s: nat, b: nat): Option<BufferInfo>
  {
    if IsBuffer(cell.rtype) then Some(BufferInfo(Location(s, b), cell.size)) else None
  }

  /**
   * The layout bindings of the first `n` slots of a set: one per used slot,
   * in slot order, each numbered by its slot.
   */
  function SetBindings(row: seq<Resource>, n: nat): (r: seq<LayoutBinding>)
    requires n <= |row|
    ensures |r| <= n
  {
    if n == 0 then []
    else SetBindings(row, n - 1) + (if Used(row[n - 1]) then [LayoutBinding(n - 1, DescriptorType(row[n - 1].rtype))] else [])
  }

  /** The writes of the first `n` slots of set `s`, in slot order. */
  function SetWrites(row: seq<Resource>, s: nat, n: nat): (r: seq<Write>)
    requires n <= |row|
  {
    if n == 0 then []
    else
      SetWrites(row, s, n - 1)
      + (if Used(row[n - 1]) then [Write(s, n - 1, DescriptorType(row[n - 1].rtype), BufferOf(row[n - 1], s, n - 1))] else [])
  }

  /** Set index `s` gets a layout exactly when one of its slots is used. */
  predicate SetUsed(g: Grid, s: nat)
    requires GridShaped(g) && s < |g|
  {
    |Bindings(g[s])| != 0
  }

  /** The set indices among the first `n` that get a layout, ascending. */
  function UsedSets(g: Grid, n: nat): (r: seq<nat>)
    requires GridShaped(g) && n <= |g|
    ensures |r| <= n
  {
    if n == 0 then [] else UsedSets(g, n - 1) + (if SetUsed(g, n - 1) then [n - 1] else [])
  }

  /** The compacted set layouts of the first `n` set indices. */
  function SetLayouts(g: Grid, n: nat): (r: seq<seq<LayoutBinding>>)
    requires GridShaped(g) && n <= |g|
  {
    if n == 0 then []
    else SetLayouts(g, n - 1) + (if SetUsed(g, n - 1) then [Bindings(g[n - 1])] else [])
  }

  /** The writes of the first `n` set indices, set by set. */
  function AllWrites(g: Grid, n: nat): (r: seq<Write>)
    requires GridShaped(g) && n <= |g|
  {
    if n == 0 then [] else AllWrites(g, n - 1) + SetWrites(g[n - 1], n - 1, |g[n - 1]|)
  }

  /** The layout bindings of a whole set. */
  function Bindings(row: seq<Resource>): seq<LayoutBinding>
  {
    SetBindings(row, |row|)
  }

  /** The set indices that get a layout. */
  function UsedSetIndices(g: Grid): seq<nat>
    requires GridShaped(g)
  {
    UsedSets(g, |g|)
  }

  /** The compacted set layouts of the grid. */
  function Layouts(g: Grid): seq<seq<LayoutBinding>>
    requires GridShaped(g)
  {
    SetLayouts(g, |g|)
  }

  /** The write list of the grid. */
  function Writes(g: Grid): seq<Write>
    requires GridShaped(g)
  {
    AllWrites(g, |g|)
  }

  // ---------------------------------------------------------------
  // Properties
  // ---------------------------------------------------------------

  /** The binding a used slot contributes. */
  function BindingOf(row: seq<Resource>, b: nat): LayoutBinding
    requires b < |row|
  {
    LayoutBinding(b, DescriptorType(row[b].rtype))
  }

  /**
   * `r` holds exactly the bindings of the used slots among the first `n`:
   * each one is numbered by a used slot and has that slot's descriptor
   * type, they are in strictly ascending binding order, and every used
   * slot has one.
   */
  predicate ExactBindings(row: seq<Resource>, n: nat, r: seq<LayoutBinding>)
    requires n <= |row|
  {
    (forall k | 0 <= k < |r| :: r[k].binding < n && Used(row[r[k].binding]) && r[k] == BindingOf(row, r[k].binding))
    && (forall k, k' | 0 <= k < k' < |r| :: r[k].binding < r[k'].binding)
    && (forall b | 0 <= b < n && Used(row[b]) :: BindingOf(row, b) in r)
  }

  lemma {:induction false} BindingsExact(row: seq<Resource>, n: nat)
    requires n <= |row|
    ensures ExactBindings(row, n, SetBindings(row, n))
  {
    if n > 0 {
      BindingsExact(row, n - 1);
      BindingsStep(row, n);
    }
  }

  /** One more slot keeps the bindings exact. */
  lemma BindingsStep(row: seq<Resource>, n: nat)
    requires 0 < n <= |row|
    requires ExactBindings(row, n - 1, SetBindings(row, n - 1))
    ensures ExactBindings(row, n, SetBindings(row, n))
  {
    var r := SetBindings(row, n);
    var r' := SetBindings(row, n - 1);
    assert forall k | 0 <= k < |r'| :: r[k] == r'[k];
  }

  /**
   * The writes of a set follow its layout bindings one for one: same
   * binding, same descriptor type, with the set's index.
   */
  predicate WritesMatchBindings(w: seq<Write>, l: seq<LayoutBinding>, s: nat)
  {
    |w| == |l|
    && forall k | 0 <= k < |w| :: w[k].setId == s && w[k].binding == l[k].binding && w[k].descriptorType == l[k].descriptorType
  }

  lemma {:induction false} WritesFollowBindings(row: seq<Resource>, s: nat, n: nat)
    requires n <= |row|
    ensures WritesMatchBindings(SetWrites(row, s, n), SetBindings(row, n), s)
  {
    if n > 0 {
      WritesFollowBindings(row, s, n - 1);
      var w := SetWrites(row, s, n);
      var l := SetBindings(row, n);
      var w' := SetWrites(row, s, n - 1);
      var l' := SetBindings(row, n - 1);
      assert forall k | 0 <= k < |w'| :: w[k] == w'[k] && l[k] == l'[k];
    }
  }

  /**
   * `u` holds exactly the set indices among the first `n` that get a
   * layout, in strictly ascending order.
   */
  predicate ExactUsedSets(g: Grid, n: nat, u: seq<nat>)
    requires GridShaped(g) && n <= |g|
  {
    (forall k | 0 <= k < |u| :: u[k] < n && SetUsed(g, u[k]))
    && (forall k, k' | 0 <= k < k' < |u| :: u[k] < u[k'])
    && (forall s | 0 <= s < n && SetUsed(g, s) :: s in u)
  }

  lemma {:induction false} UsedSetsExact(g: Grid, n: nat)
    requires GridShaped(g) && n <= |g|
    ensures ExactUsedSets(g, n, UsedSets(g, n))
  {
    if n > 0 {
      UsedSetsExact(g, n - 1);
      UsedSetsStep(g, n);
    }
  }

  /** One more set index keeps the used indices exact. */
  lemma UsedSetsStep(g: Grid, n: nat)
    requires GridShaped(g) && 0 < n <= |g|
    requires ExactUsedSets(g, n - 1, UsedSets(g, n - 1))
    ensures ExactUsedSets(g, n, UsedSets(g, n))
  {
    var u' := UsedSets(g, n - 1);
    if SetUsed(g, n - 1) {
      assert UsedSets(g, n) == u' + [n - 1];
    } else {
      assert UsedSets(g, n) == u';
    }
  }

  /** The k-th set layout is the layout of the k-th used set index. */
  predicate LayoutsMatchUsedSets(g: Grid, l: seq<seq<LayoutBinding>>, u: seq<nat>)
    requires GridShaped(g)
  {
    |l| == |u| && forall k | 0 <= k < |l| :: u[k] < |g| && l[k] == Bindings(g[u[k]])
  }

  lemma {:induction false} LayoutsFollowUsedSets(g: Grid, n: nat)
    requires GridShaped(g) && n <= |g|
    ensures LayoutsMatchUsedSets(g, SetLayouts(g, n), UsedSets(g, n))
  {
    if n > 0 {
      LayoutsFollowUsedSets(g, n - 1);
      LayoutsStep(g, n);
    }
  }

  /** One more set index extends the layouts and the used indices together, or neither. */
  lemma LayoutsStep(g: Grid, n: nat)
    requires GridShaped(g) && 0 < n <= |g|
    requires LayoutsMatchUsedSets(g, SetLayouts(g, n - 1), UsedSets(g, n - 1))
    ensures LayoutsMatchUsedSets(g, SetLayouts(g, n), UsedSets(g, n))
  {
    var l := SetLayouts(g, n - 1);
    var u := UsedSets(g, n - 1);
    if SetUsed(g, n - 1) {
      assert SetLayouts(g, n) == l + [Bindings(g[n - 1])];
      assert UsedSets(g, n) == u + [n - 1];
    } else {
      assert SetLayouts(g, n) == l;
      assert UsedSets(g, n) == u;
    }
  }

  /** The write a used slot at set `s`, binding `b` contributes. */
  function WriteAt(row: seq<Resource>, s: nat, b: nat): Write
    requires b < |row|
  {
    Write(s, b, DescriptorType(row[b].rtype), BufferOf(row[b], s, b))
  }

  /** Slot order: by set index, then by binding. */
  predicate SlotBefore(a: Write, b: Write)
  {
    a.setId < b.setId || (a.setId == b.setId && a.binding < b.binding)
  }

  /**
   * `w` holds exactly the writes of the used slots among the first `n` of
   * set `s`, in strictly ascending binding order.
   */
  predicate ExactSetWrites(row: seq<Resource>, s: nat, n: nat, w: seq<Write>)
    requires n <= |row|
  {
    (forall k | 0 <= k < |w| :: w[k].binding < n && Used(row[w[k].binding]) && w[k] == WriteAt(row, s, w[k].binding))
    && (forall k, k' | 0 <= k < k' < |w| :: w[k].binding < w[k'].binding)
    && (forall b | 0 <= b < n && Used(row[b]) :: WriteAt(row, s, b) in w)
  }

  lemma {:induction false} SetWritesExact(row: seq<Resource>, s: nat, n: nat)
    requires n <= |row|
    ensures ExactSetWrites(row, s, n, SetWrites(row, s, n))
  {
    if n > 0 {
      SetWritesExact(row, s, n - 1);
      SetWritesStep(row, s, n);
    }
  }

  /** One more slot keeps the writes of a set exact. */
  lemma SetWritesStep(row: seq<Resource>, s: nat, n: nat)
    requires 0 < n <= |row|
    requires ExactSetWrites(row, s, n - 1, SetWrites(row, s, n - 1))
    ensures ExactSetWrites(row, s, n, SetWrites(row, s, n))
  {
    var w := SetWrites(row, s, n);
    var w' := SetWrites(row, s, n - 1);
    assert forall k | 0 <= k < |w'| :: w[k] == w'[k];
  }

  /** Write `w` is the one the used slot at its set index and binding contributes. */
  predicate WriteOfSlot(g: Grid, w: Write)
    requires GridShaped(g)
  {
    w.setId < MAX_DESCRIPTOR_SETS && w.binding < MAX_BINDINGS_PER_SET
    && Used(g[w.setId][w.binding]) && w == WriteAt(g[w.setId], w.setId, w.binding)
  }

  /**
   * `w` holds exactly one write per used slot of the first `n` sets: each
   * write is that of a used slot, the writes are in strict slot order (so
   * no slot has two), and every used slot has its write.
   */
  predicate ExactWrites(g: Grid, n: nat, w: seq<Write>)
    requires GridShaped(g) && n <= |g|
  {
    (forall k | 0 <= k < |w| :: w[k].setId < n && WriteOfSlot(g, w[k]))
    && (forall k, k' | 0 <= k < k' < |w| :: SlotBefore(w[k], w[k']))
    && (forall s, b | 0 <= s < n && 0 <= b < MAX_BINDINGS_PER_SET && Used(g[s][b]) :: WriteAt(g[s], s, b) in w)
  }

  lemma {:induction false} OneWritePerUsedSlot(g: Grid, n: nat)
    requires GridShaped(g) && n <= |g|
    ensures ExactWrites(g, n, AllWrites(g, n))
  {
    if n > 0 {
      OneWritePerUsedSlot(g, n - 1);
      assert |g[n - 1]| == MAX_BINDINGS_PER_SET;
      SetWritesExact(g[n - 1], n - 1, |g[n - 1]|);
      var prev := AllWrites(g, n - 1);
      var last := SetWrites(g[n - 1], n - 1, |g[n - 1]|);
      var w := AllWrites(g, n);
      assert w == prev + last;
    }
  }

  /** A set index has a layout exactly when one of its slots is used. */
  lemma SetUsedIffSlotUsed(g: Grid, s: nat)
    requires GridShaped(g) && s < |g|
    ensures SetUsed(g, s) <==> exists b | 0 <= b < MAX_BINDINGS_PER_SET :: Used(g[s][b])
  {
    assert |g[s]| == MAX_BINDINGS_PER_SET;
    BindingsExact(g[s], |g[s]|);
    var l := Bindings(g[s]);
    if SetUsed(g, s) {
      assert Used(g[s][l[0].binding]);
    }
  }

  /** The full pipeline layout exists exactly when some slot of the grid is used. */
  lemma FullLayoutIffAnySlotUsed(g: Grid)
    requires GridShaped(g)
    ensures |Layouts(g)| != 0 <==>
      exists s, b | 0 <= s < MAX_DESCRIPTOR_SETS && 0 <= b < MAX_BINDINGS_PER_SET :: Used(g[s][b])
  {
    LayoutsFollowUsedSets(g, |g|);
    UsedSetsExact(g, |g|);
    var u := UsedSetIndices(g);
    if |u| != 0 {
      SetUsedIffSlotUsed(g, u[0]);
    }
    if exists s, b | 0 <= s < MAX_DESCRIPTOR_SETS && 0 <= b < MAX_BINDINGS_PER_SET :: Used(g[s][b]) {
      var s, b :| 0 <= s < MAX_DESCRIPTOR_SETS && 0 <= b < MAX_BINDINGS_PER_SET && Used(g[s][b]);
      SetUsedIffSlotUsed(g, s);
      assert s in u;
    }
  }

  /** The used set indices are exactly 0, 1, ..., k - 1 for some k. */
  predicate Contiguous(u: seq<nat>)
  {
    forall m | 0 <= m < |u| :: u[m] == m
  }

  /**
   * A write reaches the layout made for its own set when its set index
   * names, among the compacted layouts, the one built from that set.
   */
  predicate WriteReachesOwnLayout(u: seq<nat>, w: Write)
  {
    w.setId < |u| && u[w.setId] == w.setId
  }

  /**
   * Each write is aimed at the descriptor set allocated at its own set
   * index, while the sets are allocated from the compacted layouts: every
   * write reaches the layout of its own set exactly when the used set
   * indices are 0 .. k-1. Nothing in the derivation checks this.
   */
  lemma WritesReachOwnLayoutIffContiguous(g: Grid)
    requires GridShaped(g)
    ensures var u := UsedSetIndices(g);
      var w := Writes(g);
      (forall k | 0 <= k < |w| :: WriteReachesOwnLayout(u, w[k])) <==> Contiguous(u)
  {
    var u := UsedSetIndices(g);
    var w := Writes(g);
    OneWritePerUsedSlot(g, |g|);
    UsedSetsExact(g, |g|);
    if Contiguous(u) {
      forall k | 0 <= k < |w|
        ensures WriteReachesOwnLayout(u, w[k])
      {
        var s := w[k].setId;
        assert WriteOfSlot(g, w[k]);
        SetUsedIffSlotUsed(g, s);
        assert s in u;
      }
    }
    if forall k | 0 <= k < |w| :: WriteReachesOwnLayout(u, w[k]) {
      forall m | 0 <= m < |u|
        ensures u[m] == m
      {
        UsedSetReached(g, m);
      }
    }
  }

  /** A used set index reached by its own writes equals its rank among the used sets. */
  lemma UsedSetReached(g: Grid, m: nat)
    requires GridShaped(g) && m < |UsedSetIndices(g)|
    requires var u := UsedSetIndices(g);
      var w := Writes(g);
      forall k | 0 <= k < |w| :: WriteReachesOwnLayout(u, w[k])
    ensures UsedSetIndices(g)[m] == m
  {
    var u := UsedSetIndices(g);
    var w := Writes(g);
    UsedSetsExact(g, |g|);
    OneWritePerUsedSlot(g, |g|);
    var s := u[m];
    SetUsedIffSlotUsed(g, s);
    var b :| 0 <= b < MAX_BINDINGS_PER_SET && Used(g[s][b]);
    assert WriteAt(g[s], s, b) in w;
    assert WriteReachesOwnLayout(u, WriteAt(g[s], s, b));
    // u[s] == s, and with u strictly ascending u[j] >= j for every j:
    // s > m would give u[s] > u[m] == s.
    AscendingSpread(u, m);
  }

  lemma {:induction false} AscendingSpread(u: seq<nat>, m: nat)
    requires m < |u|
    requires forall k, k' | 0 <= k < k' < |u| :: u[k] < u[k']
    ensures u[m] >= u[0] + m
  {
    if m > 0 {
      AscendingSpread(u, m - 1);
    }
  }

  /**
   * When no resource was declared the grid holds no used slot, and the
   * derivation yields no set layout and no write, as skipping it would.
   */
  lemma EmptyGridDerivesNothing(g: Grid)
    requires GridShaped(g)
    requires forall s, b | 0 <= s < MAX_DESCRIPTOR_SETS && 0 <= b < MAX_BINDINGS_PER_SET :: !Used(g[s][b])
    ensures Layouts(g) == [] && Writes(g) == []
  {
    FullLayoutIffAnySlotUsed(g);
    NoUsedSlotNoWrites(g, |g|);
  }

  lemma {:induction false} NoUsedSlotNoSetWrites(row: seq<Resource>, s: nat, n: nat)
    requires n <= |row| && forall b | 0 <= b < n :: !Used(row[b])
    ensures SetWrites(row, s, n) == []
  {
    if n > 0 {
      NoUsedSlotNoSetWrites(row, s, n - 1);
    }
  }

  lemma {:induction false} NoUsedSlotNoWrites(g: Grid, n: nat)
    requires GridShaped(g) && n <= |g|
    requires forall s, b | 0 <= s < MAX_DESCRIPTOR_SETS && 0 <= b < MAX_BINDINGS_PER_SET :: !Used(g[s][b])
    ensures AllWrites(g, n) == []
  {
    if n > 0 {
      NoUsedSlotNoWrites(g, n - 1);
      NoUsedSlotNoSetWrites(g[n - 1], n - 1, |g[n - 1]|);
    }
  }

  /**
   * With a single resource, at set 1, binding 0, there is one set layout,
   * allocated as set 0, and one write, which keeps set index 1: it is aimed
   * at a set that was never allocated.
   */
  lemma GapMisaimsWrite(g: Grid)
    requires GridShaped(g)
    requires forall s, b | 0 <= s < MAX_DESCRIPTOR_SETS && 0 <= b < MAX_BINDINGS_PER_SET ::
      Used(g[s][b]) <==> (s == 1 && b == 0)
    ensures Layouts(g) == [Bindings(g[1])]
    ensures Writes(g) == [WriteAt(g[1], 1, 0)]
    ensures !WriteReachesOwnLayout(UsedSetIndices(g), WriteAt(g[1], 1, 0))
  {
    OneWritePerUsedSlot(g, |g|);
    LayoutsFollowUsedSets(g, |g|);
    UsedSetsExact(g, |g|);
    var u := UsedSetIndices(g);
    var w := Writes(g);
    assert Used(g[1][0]);
    SetUsedIffSlotUsed(g, 1);
    assert 1 in u;
    forall j | 0 <= j < |u|
      ensures u[j] == 1
    {
      SetUsedIffSlotUsed(g, u[j]);
    }
    AscendingSpread(u, |u| - 1);
    assert u == [1];
    assert WriteAt(g[1], 1, 0) in w;
    forall k | 0 <= k < |w|
      ensures w[k] == WriteAt(g[1], 1, 0)
    {
      assert WriteOfSlot(g, w[k]);
    }
    assert |w| >= 2 ==> SlotBefore(w[0], w[1]);
  }

  // ---------------------------------------------------------------
  // The derivation in place
  // ---------------------------------------------------------------

  /** The grid's cells as values. */
  function Cells(grid: array2<Resource>): (g: Grid)
    requires grid.Length0 == MAX_DESCRIPTOR_SETS && grid.Length1 == MAX_BINDINGS_PER_SET
    reads grid
    ensures GridShaped(g)
    ensures forall s, b | 0 <= s < MAX_DESCRIPTOR_SETS && 0 <= b < MAX_BINDINGS_PER_SET :: g[s][b] == grid[s, b]
  {
    seq(MAX_DESCRIPTOR_SETS, s reads grid requires 0 <= s < MAX_DESCRIPTOR_SETS =>
      seq(MAX_BINDINGS_PER_SET, b reads grid requires 0 <= b < MAX_BINDINGS_PER_SET => grid[s, b]))
  }

  /**
   * The double scan over sets and slots: it collects the set layouts and
   * the writes, and reports whether a full pipeline layout is made.
   */
  method DeriveDescriptors(grid: array2<Resource>) returns (layouts: seq<seq<LayoutBinding>>, writes: seq<Write>, fullLayout: bool)
    requires grid.Length0 == MAX_DESCRIPTOR_SETS && grid.Length1 == MAX_BINDINGS_PER_SET
    ensures layouts == Layouts(Cells(grid))
    ensures writes == Writes(Cells(grid))
    ensures fullLayout <==> exists s, b | 0 <= s < MAX_DESCRIPTOR_SETS && 0 <= b < MAX_BINDINGS_PER_SET :: Used(grid[s, b])
  {
    ghost var g := Cells(grid);
    layouts := [];
    writes := [];
    var i := 0;
    while i < MAX_DESCRIPTOR_SETS
      invariant 0 <= i <= MAX_DESCRIPTOR_SETS
      invariant layouts == SetLayouts(g, i) && writes == AllWrites(g, i)
    {
      var bindings: seq<LayoutBinding> := [];
      var j := 0;
      while j < MAX_BINDINGS_PER_SET
        invariant 0 <= j <= MAX_BINDINGS_PER_SET
        invariant bindings == SetBindings(g[i], j)
        invariant writes == AllWrites(g, i) + SetWrites(g[i], i, j)
      {
        var cell := grid[i, j];
        if cell.rtype != RENDER_RESOURCE_TYPE_NONE {
          var descriptorType := DescriptorType(cell.rtype);
          bindings := bindings + [LayoutBinding(j, descriptorType)];
          writes := writes + [Write(i, j, descriptorType, BufferOf(cell, i, j))];
        }
        j := j + 1;
      }
      if |bindings| != 0 {
        layouts := layouts + [bindings];
      }
      i := i + 1;
    }
    fullLayout := |layouts| != 0;
    FullLayoutIffAnySlotUsed(g);
  }
}

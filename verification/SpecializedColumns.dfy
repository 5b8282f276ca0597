// Allocation of specialized columns to gates and their repetitions.
module SpecializedColumns {
  import opened Bits

  // ---- One kind of column ----

  /** `copies` consecutive ranges of `width` columns, the first `used` of which a repetition works on. */
  datatype Slot = Slot(width: nat, copies: nat, used: nat)

  function Total(slots: seq<Slot>): nat
  {
    if slots == [] then 0 else Total(slots[..|slots| - 1]) + Size(slots[|slots| - 1])
  }

  function Size(s: Slot): nat
  {
    s.width * s.copies
  }

  /** First column of copy i of slot g. */
  function Start(slots: seq<Slot>, g: nat, i: nat): nat
    requires g < |slots|
  {
    Total(slots[..g]) + i * slots[g].width
  }

  predicate Contains(slots: seq<Slot>, g: nat, i: nat, column: nat)
    requires g < |slots|
  {
    Start(slots, g, i) <= column < Start(slots, g, i) + slots[g].width
  }

  /** The slot and the copy that a column belongs to. */
  function Owner(slots: seq<Slot>, column: nat): (nat, nat)
    requires column < Total(slots)
  {
    var last := |slots| - 1;
    if column < Total(slots[..last]) then Owner(slots[..last], column)
    else (last, if slots[last].width > 0 then (column - Total(slots[..last])) / slots[last].width else 0)
  }

  lemma {:induction false} TotalMonotone(slots: seq<Slot>, g: nat)
    requires g < |slots|
    ensures Total(slots[..g]) + Size(slots[g]) <= Total(slots)
  {
    var last := |slots| - 1;
    if g < last {
      assert slots[..last][..g] == slots[..g];
      TotalMonotone(slots[..last], g);
    } else {
      assert slots[..g] == slots[..last];
    }
  }

  lemma CopyWithin(s: Slot, i: nat, offset: nat)
    requires i * s.width <= offset < i * s.width + s.width && i < s.copies
    ensures offset < Size(s) && offset / s.width == i
  {
    QuotientRange(offset, s.width, i);
    MultipleAtLeast(s.copies - i, s.width);
    assert (s.copies - i) * s.width == s.copies * s.width - i * s.width;
  }

  lemma CopyOfOffset(s: Slot, offset: nat)
    requires offset < Size(s)
    ensures s.width > 0 && offset / s.width < s.copies
    ensures offset / s.width * s.width <= offset < offset / s.width * s.width + s.width
  {
    QuotientBelow(offset, s.width, s.copies);
    QuotientRange(offset, s.width, offset / s.width);
  }

  /** Within the range of a slot, the copies divide the columns among them. */
  lemma CopyOfColumn(slots: seq<Slot>, g: nat, i: nat, column: nat)
    requires g < |slots| && i < slots[g].copies
    ensures Contains(slots, g, i, column) <==>
              Total(slots[..g]) <= column < Total(slots[..g]) + Size(slots[g]) &&
              slots[g].width > 0 && i == (column - Total(slots[..g])) / slots[g].width
  {
    hide Size;
    var offset := column - Total(slots[..g]);
    if Contains(slots, g, i, column) {
      CopyWithin(slots[g], i, offset);
    } else if 0 <= offset < Size(slots[g]) {
      CopyOfOffset(slots[g], offset);
    }
  }

  /** Every allocated column lies in exactly one copy of one slot: the ranges are disjoint and leave no gap. */
  lemma {:induction false} ExactlyOneOwner(slots: seq<Slot>, column: nat, g: nat, i: nat)
    requires column < Total(slots) && g < |slots| && i < slots[g].copies
    ensures Owner(slots, column).0 < |slots| && Owner(slots, column).1 < slots[Owner(slots, column).0].copies
    ensures Contains(slots, g, i, column) <==> (g, i) == Owner(slots, column)
  {
    hide Size, Contains;
    var last := |slots| - 1;
    var below := Total(slots[..last]);
    CopyOfColumn(slots, g, i, column);
    if column < below {
      if g < last {
        assert slots[..last][..g] == slots[..g];
        CopyOfColumn(slots[..last], g, i, column);
        ExactlyOneOwner(slots[..last], column, g, i);
      } else {
        OwnerInRange(slots[..last], column);
      }
    } else {
      CopyOfOffset(slots[last], column - below);
      if g < last {
        assert slots[..last][..g] == slots[..g];
        TotalMonotone(slots[..last], g);
      }
    }
  }

  lemma {:induction false} OwnerInRange(slots: seq<Slot>, column: nat)
    requires column < Total(slots)
    ensures Owner(slots, column).0 < |slots| && Owner(slots, column).1 < slots[Owner(slots, column).0].copies
  {
    var last := |slots| - 1;
    if column < Total(slots[..last]) {
      OwnerInRange(slots[..last], column);
    } else {
      CopyOfOffset(slots[last], column - Total(slots[..last]));
    }
  }

  /** Ranges of different copies have no column in common, and none lies outside what is allocated. */
  lemma CopiesDisjoint(slots: seq<Slot>, column: nat, g: nat, i: nat, h: nat, j: nat)
    requires g < |slots| && i < slots[g].copies && h < |slots| && j < slots[h].copies
    requires Contains(slots, g, i, column) && Contains(slots, h, j, column)
    ensures (g, i) == (h, j) && column < Total(slots)
  {
    hide Contains;
    TotalMonotone(slots, g);
    CopyOfColumn(slots, g, i, column);
    ExactlyOneOwner(slots, column, g, i);
    ExactlyOneOwner(slots, column, h, j);
  }

  /** A copy that a repetition works on contains the column. */
  predicate CopyUses(slots: seq<Slot>, g: nat, i: nat, column: nat)
  {
    g < |slots| && i < slots[g].used && Contains(slots, g, i, column)
  }

  ghost predicate InUse(slots: seq<Slot>, column: nat)
  {
    exists g: nat, i: nat :: CopyUses(slots, g, i, column)
  }

  ghost predicate Filled(slots: seq<Slot>)
  {
    forall column: nat :: column < Total(slots) ==> InUse(slots, column)
  }

  /** Nothing but ranges without columns is left unused. */
  predicate NothingUnused(slots: seq<Slot>)
  {
    forall g :: 0 <= g < |slots| && slots[g].used < slots[g].copies ==> slots[g].width == 0
  }

  predicate UsesCopies(slots: seq<Slot>)
  {
    forall g :: 0 <= g < |slots| ==> slots[g].used <= slots[g].copies
  }

  /** All columns are in use exactly when no copy with columns is left unused. */
  lemma FilledExactly(slots: seq<Slot>)
    requires UsesCopies(slots)
    ensures Filled(slots) <==> NothingUnused(slots)
  {
    if NothingUnused(slots) {
      forall column: nat | column < Total(slots)
        ensures InUse(slots, column)
      {
        OwnerInUse(slots, column);
      }
    } else {
      var g: nat :| g < |slots| && slots[g].used < slots[g].copies && slots[g].width > 0;
      UnusedColumn(slots, g);
    }
  }

  lemma OwnerInUse(slots: seq<Slot>, column: nat)
    requires NothingUnused(slots) && column < Total(slots)
    ensures InUse(slots, column)
  {
    OwnerInRange(slots, column);
    var (g, i) := Owner(slots, column);
    ExactlyOneOwner(slots, column, g, i);
    assert CopyUses(slots, g, i, column);
  }

  lemma CopyBegins(slots: seq<Slot>, g: nat, i: nat)
    requires g < |slots| && slots[g].width > 0
    ensures Contains(slots, g, i, Start(slots, g, i))
  {
  }

  /** The first column of an unused copy belongs to no copy in use. */
  lemma UnusedColumn(slots: seq<Slot>, g: nat)
    requires UsesCopies(slots) && g < |slots| && slots[g].used < slots[g].copies && slots[g].width > 0
    ensures Start(slots, g, slots[g].used) < Total(slots) && !InUse(slots, Start(slots, g, slots[g].used))
  {
    hide Contains, Start;
    var i := slots[g].used;
    var column := Start(slots, g, i);
    CopyBegins(slots, g, i);
    CopiesDisjoint(slots, column, g, i, g, i);
    if h: nat, j: nat :| CopyUses(slots, h, j, column) {
      CopiesDisjoint(slots, column, g, i, h, j);
    }
  }

  // ---- The allocator ----

  datatype Width = Width(variables: nat, witnesses: nat, constants: nat)

  datatype Placement = UniqueOnRow | MultipleOnRow(perChunk: Width)

  /** A gate to be placed over specialized columns. */
  datatype Request = Request(width: Width, repetitions: nat, share: bool, placement: Placement)

  /** What is recorded for a gate. */
  datatype Offsets = Offsets(initial: Width, perRepetition: Width, constantsAvailable: nat)

  /**
   * The loop over the repetitions starts from one copy, so that a gate without repetitions reserves the columns of one.
   */
  function Copies(r: Request): nat
  {
    if r.repetitions == 0 then 1 else r.repetitions
  }

  function VariableSlots(requests: seq<Request>): (s: seq<Slot>)
    ensures |s| == |requests|
  {
    seq(|requests|, i requires 0 <= i < |requests| =>
      Slot(requests[i].width.variables, Copies(requests[i]), requests[i].repetitions))
  }

  function WitnessSlots(requests: seq<Request>): (s: seq<Slot>)
    ensures |s| == |requests|
  {
    seq(|requests|, i requires 0 <= i < |requests| =>
      Slot(requests[i].width.witnesses, Copies(requests[i]), requests[i].repetitions))
  }

  /** Shared constants are stored once for all repetitions. */
  function ConstantSlots(requests: seq<Request>): (s: seq<Slot>)
    ensures |s| == |requests|
  {
    seq(|requests|, i requires 0 <= i < |requests| =>
      if requests[i].share then Slot(requests[i].width.constants, 1, if requests[i].repetitions > 0 then 1 else 0)
      else Slot(requests[i].width.constants, Copies(requests[i]), requests[i].repetitions))
  }

  /** No panic: shared constants need a chunked placement that advances by whole copies. */
  predicate Placeable(r: Request)
  {
    r.share ==> r.placement.MultipleOnRow? &&
                r.placement.perChunk.variables == r.width.variables &&
                r.placement.perChunk.witnesses == r.width.witnesses
  }

  lemma SlotsSnoc(requests: seq<Request>, r: Request)
    ensures Total(VariableSlots(requests + [r])) == Total(VariableSlots(requests)) + r.width.variables * Copies(r)
    ensures Total(WitnessSlots(requests + [r])) == Total(WitnessSlots(requests)) + r.width.witnesses * Copies(r)
    ensures Total(ConstantSlots(requests + [r]))
         == Total(ConstantSlots(requests)) + r.width.constants * if r.share then 1 else Copies(r)
  {
    var n := |requests|;
    assert VariableSlots(requests + [r])[..n] == VariableSlots(requests);
    assert WitnessSlots(requests + [r])[..n] == WitnessSlots(requests);
    assert ConstantSlots(requests + [r])[..n] == ConstantSlots(requests);
  }

  class ColumnAllocator {
    const copyColumns: nat
    const witnessColumns: nat
    var variables: nat
    var witnesses: nat
    var constants: nat
    var offsets: seq<Offsets>
    ghost var requests: seq<Request>

    ghost predicate Valid()
      reads this
    {
      && variables == Total(VariableSlots(requests)) && witnesses == Total(WitnessSlots(requests))
      && constants == Total(ConstantSlots(requests)) && |offsets| == |requests|
      && forall g: nat :: g < |requests| ==> Recorded(copyColumns, witnessColumns, requests, g, offsets[g])
    }

    constructor (copyColumns: nat, witnessColumns: nat)
      ensures Valid() && requests == [] && this.copyColumns == copyColumns && this.witnessColumns == witnessColumns
    {
      this.copyColumns, this.witnessColumns := copyColumns, witnessColumns;
      variables, witnesses, constants, offsets, requests := 0, 0, 0, [], [];
    }

    /** `allow_gate` over specialized columns; the result is false where the code panics. */
    method AllowGate(r: Request) returns (ok: bool)
      requires Valid()
      modifies this
      ensures ok <==> (r.share ==> r.placement.MultipleOnRow? &&
                                   r.placement.perChunk.variables == r.width.variables &&
                                   r.placement.perChunk.witnesses == r.width.witnesses)
      ensures Valid() && requests == old(requests) + if ok then [r] else []
    {
      ok := Placeable(r);
      if !ok {
        return;
      }
      var total := TotalWidth(r);
      var initial := Width(copyColumns + variables, witnessColumns + witnesses, constants);
      var perRepetition := if r.share then r.placement.perChunk else r.width;
      SlotsSnoc(requests, r);
      ghost var before := requests;
      offsets := offsets + [Offsets(initial, perRepetition, r.width.constants)];
      variables, witnesses, constants := variables + total.variables, witnesses + total.witnesses,
        constants + total.constants;
      requests := requests + [r];
      forall g: nat | g < |requests|
        ensures Recorded(copyColumns, witnessColumns, requests, g, offsets[g])
      {
        assert requests[..g] == if g < |before| then before[..g] else before;
      }
    }

    /** The loop over the repetitions. */
    method TotalWidth(r: Request) returns (total: Width)
      ensures total == Width(r.width.variables * Copies(r), r.width.witnesses * Copies(r),
                             r.width.constants * if r.share then 1 else Copies(r))
    {
      total := r.width;
      for i: nat := 1 to if r.repetitions == 0 then 1 else r.repetitions
        invariant total
                  == Width(r.width.variables * i, r.width.witnesses * i, r.width.constants * if r.share then 1 else i)
      {
        total := Width(total.variables + r.width.variables, total.witnesses + r.width.witnesses,
                       total.constants + if r.share then 0 else r.width.constants);
      }
    }
  }

  /** The record of gate g: its ranges begin where those of the gates before it end. */
  ghost predicate Recorded(copyColumns: nat, witnessColumns: nat, requests: seq<Request>, g: nat, o: Offsets)
    requires g < |requests|
  {
    && o.initial.variables == copyColumns + Total(VariableSlots(requests[..g]))
    && o.initial.witnesses == witnessColumns + Total(WitnessSlots(requests[..g]))
    && o.initial.constants == Total(ConstantSlots(requests[..g]))
    && o.perRepetition.variables == requests[g].width.variables &&
      o.perRepetition.witnesses == requests[g].width.witnesses
    && (!requests[g].share ==> o.perRepetition.constants == requests[g].width.constants)
    && o.constantsAvailable == requests[g].width.constants
  }

  /** The variable columns of repetition i of gate g, from its record. */
  predicate UsesVariable(o: Offsets, i: nat, column: nat)
  {
    var start := o.initial.variables + i * o.perRepetition.variables;
    start <= column < start + o.perRepetition.variables
  }

  /** Every variable column above the general-purpose ones is reserved for exactly one copy of one gate. */
  lemma VariablesPartitioned(a: ColumnAllocator, column: nat, g: nat, i: nat)
    requires a.Valid() && a.copyColumns <= column < a.copyColumns + a.variables
    requires g < |a.requests| && i < Copies(a.requests[g])
    ensures var owner := Owner(VariableSlots(a.requests), column - a.copyColumns);
            && owner.0 < |a.requests| && owner.1 < Copies(a.requests[owner.0])
            && (UsesVariable(a.offsets[g], i, column) <==> (g, i) == owner)
  {
    var slots := VariableSlots(a.requests);
    assert slots[..g] == VariableSlots(a.requests[..g]);
    assert Recorded(a.copyColumns, a.witnessColumns, a.requests, g, a.offsets[g]);
    ExactlyOneOwner(slots, column - a.copyColumns, g, i);
  }

  predicate UsesWitness(o: Offsets, i: nat, column: nat)
  {
    var start := o.initial.witnesses + i * o.perRepetition.witnesses;
    start <= column < start + o.perRepetition.witnesses
  }

  /** The same for witness columns. */
  lemma WitnessesPartitioned(a: ColumnAllocator, column: nat, g: nat, i: nat)
    requires a.Valid() && a.witnessColumns <= column < a.witnessColumns + a.witnesses
    requires g < |a.requests| && i < Copies(a.requests[g])
    ensures var owner := Owner(WitnessSlots(a.requests), column - a.witnessColumns);
            && owner.0 < |a.requests| && owner.1 < Copies(a.requests[owner.0])
            && (UsesWitness(a.offsets[g], i, column) <==> (g, i) == owner)
  {
    var slots := WitnessSlots(a.requests);
    assert slots[..g] == WitnessSlots(a.requests[..g]);
    assert Recorded(a.copyColumns, a.witnessColumns, a.requests, g, a.offsets[g]);
    ExactlyOneOwner(slots, column - a.witnessColumns, g, i);
  }

  /** The constants available to repetition i of gate g: those of the gate, when they are shared. */
  predicate UsesConstant(o: Offsets, share: bool, i: nat, column: nat)
  {
    var start := o.initial.constants + if share then 0 else i * o.perRepetition.constants;
    start <= column < start + o.constantsAvailable
  }

  /** Constant columns are reserved for one gate each, and for one copy each when they are not shared. */
  lemma ConstantsPartitioned(a: ColumnAllocator, column: nat, g: nat, i: nat)
    requires a.Valid() && column < a.constants && g < |a.requests| && i < Copies(a.requests[g])
    ensures var owner := Owner(ConstantSlots(a.requests), column);
            && owner.0 < |a.requests|
            && (UsesConstant(a.offsets[g], a.requests[g].share, i, column) <==>
                  g == owner.0 && (a.requests[g].share || i == owner.1))
  {
    var slots, share := ConstantSlots(a.requests), a.requests[g].share;
    assert slots[..g] == ConstantSlots(a.requests[..g]);
    assert Recorded(a.copyColumns, a.witnessColumns, a.requests, g, a.offsets[g]);
    ExactlyOneOwner(slots, column, g, if share then 0 else i);
  }

  // ---- What the repetitions use ----

  datatype Kind = Variables | Witnesses | Constants

  function Slots(kind: Kind, requests: seq<Request>): (s: seq<Slot>)
    ensures |s| == |requests|
  {
    match kind
    case Variables => VariableSlots(requests)
    case Witnesses => WitnessSlots(requests)
    case Constants => ConstantSlots(requests)
  }

  function ColumnsOf(kind: Kind, w: Width): nat
  {
    match kind
    case Variables => w.variables
    case Witnesses => w.witnesses
    case Constants => w.constants
  }

  /** The first specialized column of a kind. */
  function FirstColumn(a: ColumnAllocator, kind: Kind): nat
  {
    match kind
    case Variables => a.copyColumns
    case Witnesses => a.witnessColumns
    case Constants => 0
  }

  /** The number of specialized columns of a kind. */
  function ColumnCount(a: ColumnAllocator, kind: Kind): nat
    reads a
  {
    match kind
    case Variables => a.variables
    case Witnesses => a.witnesses
    case Constants => a.constants
  }

  /** All repetitions of a gate use the same constants. */
  predicate Shared(kind: Kind, r: Request)
  {
    kind == Constants && r.share
  }

  /** A repetition that exists, i of gate g, works on the column. */
  ghost predicate RepetitionUses(a: ColumnAllocator, kind: Kind, g: nat, i: nat, column: nat)
    requires a.Valid()
    reads a
  {
    && g < |a.requests| && i < a.requests[g].repetitions
    && match kind
       case Variables => UsesVariable(a.offsets[g], i, column)
       case Witnesses => UsesWitness(a.offsets[g], i, column)
       case Constants => UsesConstant(a.offsets[g], a.requests[g].share, i, column)
  }

  ghost predicate ColumnInUse(a: ColumnAllocator, kind: Kind, column: nat)
    requires a.Valid()
    reads a
  {
    exists g: nat, i: nat :: RepetitionUses(a, kind, g, i, column)
  }

  /** A gate without repetitions has no columns of the kind, so that none are reserved in vain. */
  predicate AllNeeded(kind: Kind, requests: seq<Request>)
  {
    forall g :: 0 <= g < |requests| && requests[g].repetitions == 0 ==> ColumnsOf(kind, requests[g].width) == 0
  }

  /** The copy that repetition i works on. */
  function CopyOf(kind: Kind, r: Request, i: nat): nat
  {
    if Shared(kind, r) then 0 else i
  }

  lemma VariableCopy(a: ColumnAllocator, g: nat, i: nat, column: nat)
    requires a.Valid() && g < |a.requests|
    ensures UsesVariable(a.offsets[g], i, column)
       <==> a.copyColumns <= column && Contains(VariableSlots(a.requests), g, i, column - a.copyColumns)
  {
    assert VariableSlots(a.requests)[..g] == VariableSlots(a.requests[..g]);
    assert Recorded(a.copyColumns, a.witnessColumns, a.requests, g, a.offsets[g]);
  }

  lemma WitnessCopy(a: ColumnAllocator, g: nat, i: nat, column: nat)
    requires a.Valid() && g < |a.requests|
    ensures UsesWitness(a.offsets[g], i, column)
       <==> a.witnessColumns <= column && Contains(WitnessSlots(a.requests), g, i, column - a.witnessColumns)
  {
    assert WitnessSlots(a.requests)[..g] == WitnessSlots(a.requests[..g]);
    assert Recorded(a.copyColumns, a.witnessColumns, a.requests, g, a.offsets[g]);
  }

  lemma ConstantCopy(a: ColumnAllocator, g: nat, i: nat, column: nat)
    requires a.Valid() && g < |a.requests|
    ensures UsesConstant(a.offsets[g], a.requests[g].share, i, column)
       <==> Contains(ConstantSlots(a.requests), g, if a.requests[g].share then 0 else i, column)
  {
    assert ConstantSlots(a.requests)[..g] == ConstantSlots(a.requests[..g]);
    assert Recorded(a.copyColumns, a.witnessColumns, a.requests, g, a.offsets[g]);
  }

  /** What repetition i uses is the copy with its number, or the only one. */
  lemma UseIsCopy(a: ColumnAllocator, kind: Kind, g: nat, i: nat, column: nat)
    requires a.Valid() && g < |a.requests| && i < a.requests[g].repetitions
    ensures RepetitionUses(a, kind, g, i, column) <==>
              FirstColumn(a, kind) <= column &&
              Contains(Slots(kind, a.requests), g, CopyOf(kind, a.requests[g], i), column - FirstColumn(a, kind))
    ensures CopyOf(kind, a.requests[g], i) < Slots(kind, a.requests)[g].used <= Slots(kind, a.requests)[g].copies
  {
    hide Contains, UsesVariable, UsesWitness, UsesConstant;
    match kind
    case Variables => VariableCopy(a, g, i, column);
    case Witnesses => WitnessCopy(a, g, i, column);
    case Constants => ConstantCopy(a, g, i, column);
  }

  /** Repetitions, of one gate or of two, never use the same column unless they share it as a constant of their gate. */
  lemma RepetitionsDisjoint(a: ColumnAllocator, kind: Kind, column: nat, g: nat, i: nat, h: nat, j: nat)
    requires a.Valid() && RepetitionUses(a, kind, g, i, column) && RepetitionUses(a, kind, h, j, column)
    ensures g == h < |a.requests| && (Shared(kind, a.requests[g]) || i == j)
    ensures FirstColumn(a, kind) <= column < FirstColumn(a, kind) + ColumnCount(a, kind)
  {
    hide Contains, Slots, UsesVariable, UsesWitness, UsesConstant;
    UseIsCopy(a, kind, g, i, column);
    UseIsCopy(a, kind, h, j, column);
    CopiesDisjoint(Slots(kind, a.requests), column - FirstColumn(a, kind), g, CopyOf(kind, a.requests[g], i),
                   h, CopyOf(kind, a.requests[h], j));
    SlotsCount(a, kind);
  }

  lemma SlotsCount(a: ColumnAllocator, kind: Kind)
    requires a.Valid()
    ensures ColumnCount(a, kind) == Total(Slots(kind, a.requests))
  {
  }

  /** A column is used by a repetition exactly when its copy is. */
  lemma InUseAsCopy(a: ColumnAllocator, kind: Kind, column: nat)
    requires a.Valid() && FirstColumn(a, kind) <= column
    ensures ColumnInUse(a, kind, column) <==> InUse(Slots(kind, a.requests), column - FirstColumn(a, kind))
  {
    hide Contains;
    var slots := Slots(kind, a.requests);
    var offset: nat := column - FirstColumn(a, kind);
    if g: nat, i: nat :| RepetitionUses(a, kind, g, i, column) {
      UseIsCopy(a, kind, g, i, column);
      assert CopyUses(slots, g, CopyOf(kind, a.requests[g], i), offset);
    }
    if g: nat, i: nat :| CopyUses(slots, g, i, offset) {
      UseIsCopy(a, kind, g, i, column);
      assert RepetitionUses(a, kind, g, i, column);
    }
  }

  lemma NeededSlots(kind: Kind, requests: seq<Request>)
    ensures UsesCopies(Slots(kind, requests))
    ensures NothingUnused(Slots(kind, requests)) <==> AllNeeded(kind, requests)
  {
    var slots := Slots(kind, requests);
    forall g | 0 <= g < |requests|
      ensures slots[g].width == ColumnsOf(kind, requests[g].width) && slots[g].used <= slots[g].copies
      ensures slots[g].used < slots[g].copies <==> requests[g].repetitions == 0
    {
    }
  }

  /** The repetitions fill the specialized columns of a kind exactly when no gate without repetitions has any. */
  lemma RepetitionsFill(a: ColumnAllocator, kind: Kind)
    requires a.Valid()
    ensures (forall column: nat :: FirstColumn(a, kind) <= column < FirstColumn(a, kind) + ColumnCount(a, kind) ==>
               ColumnInUse(a, kind, column))
       <==> AllNeeded(kind, a.requests)
  {
    var slots, first := Slots(kind, a.requests), FirstColumn(a, kind);
    NeededSlots(kind, a.requests);
    SlotsCount(a, kind);
    FilledExactly(slots);
    forall column: nat | first <= column
      ensures ColumnInUse(a, kind, column) <==> InUse(slots, column - first)
    {
      InUseAsCopy(a, kind, column);
    }
    if !Filled(slots) {
      var column: nat :| column < Total(slots) && !InUse(slots, column);
      assert !ColumnInUse(a, kind, first + column);
    }
  }

  /** For instance, three variable columns reserved for a gate without repetitions are used by nobody. */
  lemma ReservedInVain(a: ColumnAllocator, column: nat)
    requires a.Valid() && a.requests == [Request(Width(3, 0, 0), 0, false, UniqueOnRow)]
    ensures a.variables == 3 && !ColumnInUse(a, Variables, column)
  {
    assert VariableSlots(a.requests) == [] + [Slot(3, 1, 0)];
    assert Total([]) == 0;
  }
}

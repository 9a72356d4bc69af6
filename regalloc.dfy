/**
 * The local register allocator (p5-regalloc.c): one forward pass over the
 * instruction list that rewrites virtual registers into physical ones,
 * evicting the resident whose next read is furthest away and splicing spill
 * stores and reloads into the list.
 *
 * The code is modelled as written:
 *  - every spill store and reload goes directly AFTER the instruction being
 *    processed (`prev_insn` is the current instruction), so a later insertion
 *    lands in front of an earlier one;
 *  - the distance scan counts reads only and runs to the end of the list;
 *  - `allocate` and `ensure` scan all MAX_PHYSICAL_REGS slots of `name`, while
 *    `reset_mappings` (and the pre-call spill, when it runs) touch only the
 *    first K, so the initial contents of the remaining slots are an input;
 *  - the pre-call spill is guarded by a test that compares the operand array
 *    with the `CALL` opcode and so never holds: `Step` takes a flag that
 *    selects between that behaviour (as written) and the intended one;
 *  - the source starts `local_allocator` at NULL and never sets it, so any
 *    spill dereferences NULL; the model takes the position of the function's
 *    `ADD_I SP, -X => SP` instruction as an explicit input instead.
 */
module RegAlloc {
  import opened Wrappers
  import opened Iloc

  /** `STORE_AI pr => BP, off`, the store a spill inserts. */
  function SpillStore(pr: int, bpOffset: int): Insn {
    Insn3(StoreAI, PhysicalReg(pr), BaseReg, IntConst(bpOffset))
  }

  /** `LOAD_AI BP, off => pr`, the load a reload inserts. */
  function Reload(bpOffset: int, pr: int): Insn {
    Insn3(LoadAI, BaseReg, IntConst(bpOffset), PhysicalReg(pr))
  }

  /** The function's local frame allocator, `ADD_I SP, imm => SP`. */
  predicate IsFrameAllocator(insn: Insn) {
    insn.form == AddI && insn.op[0] == StackReg && insn.op[1].IntConst? && insn.op[2] == StackReg
  }

  /** `code` with the immediate of the frame allocator at `fa` replaced by `imm`. */
  function SetFrameSize(code: seq<Insn>, fa: nat, imm: int): seq<Insn>
    requires fa < |code|
  {
    code[fa := code[fa].(op := code[fa].op[1 := IntConst(imm)])]
  }

  /** An instruction the pass has work to do for: a call, or one naming a virtual register. */
  predicate Active(insn: Insn) {
    insn.form == Call || !NoVirtual(insn)
  }

  /** How many instructions from index `from` on are active. */
  function ActiveFrom(code: seq<Insn>, from: nat): nat
    decreases |code| - from
  {
    if from >= |code| then 0 else (if Active(code[from]) then 1 else 0) + ActiveFrom(code, from + 1)
  }

  /** A virtual register id fits the `offset` table; a physical one fits the `name` table. */
  predicate OperandOk(o: Operand, maxVirtual: int, maxPhysical: int) {
    && (o.VirtualReg? ==> 0 <= o.id < maxVirtual)
    && (o.PhysicalReg? ==> 0 <= o.id < maxPhysical)
  }

  predicate InsnOk(insn: Insn, maxVirtual: int, maxPhysical: int) {
    && VirtualsAccessed(insn)
    && OperandOk(insn.op[0], maxVirtual, maxPhysical)
    && OperandOk(insn.op[1], maxVirtual, maxPhysical)
    && OperandOk(insn.op[2], maxVirtual, maxPhysical)
  }

  predicate CodeOk(code: seq<Insn>, maxVirtual: int, maxPhysical: int) {
    forall j {:trigger InsnOk(code[j], maxVirtual, maxPhysical)} :: 0 <= j < |code| ==> InsnOk(code[j], maxVirtual, maxPhysical)
  }

  /** `insn` with each virtual register that `bound` maps renamed to the physical register it maps it to. */
  function RenameWith(insn: Insn, bound: map<int, int>): (r: Insn)
    ensures r.form == insn.form && |r.op| == 3
    ensures forall s :: 0 <= s < 3 ==> r.op[s] == RenameBy(insn.op[s], bound)
  {
    insn.(op := [RenameBy(insn.op[0], bound), RenameBy(insn.op[1], bound), RenameBy(insn.op[2], bound)])
  }

  function RenameBy(o: Operand, bound: map<int, int>): Operand {
    if o.VirtualReg? && o.id in bound then PhysicalReg(bound[o.id]) else o
  }

  /**
   * What every helper of the pass does to the list around the instruction at
   * `at`: the instructions before it are untouched (the frame allocator aside,
   * whose immediate may change), and the part after it gains only
   * instructions that need no allocation.  `fa0`/`fa1` are the frame
   * allocator's positions before and after.
   */
  ghost predicate SplicedAfter(c0: seq<Insn>, c1: seq<Insn>, at: nat, fa0: nat, fa1: nat) {
    && at < |c0| && at < |c1|
    && (fa0 <= at ==> fa1 == fa0)
    && (fa0 > at ==> fa1 > at)
    && (forall j :: 0 <= j < at && j != fa0 ==> c1[j] == c0[j])
    && ActiveFrom(c1, at + 1) == ActiveFrom(c0, at + 1)
  }

  /**
   * The replacement `replace_register` makes in one instruction: every
   * `VIRTUAL_REG vr` operand becomes `PHYSICAL_REG pr`.
   */
  function Replaced(insn: Insn, vr: int, pr: int): (r: Insn)
    ensures r.form == insn.form && |r.op| == 3
    ensures forall s :: 0 <= s < 3 ==> r.op[s] != VirtualReg(vr)
    ensures forall s :: 0 <= s < 3 && insn.op[s] != VirtualReg(vr) ==> r.op[s] == insn.op[s]
    ensures forall s :: 0 <= s < 3 && insn.op[s] == VirtualReg(vr) ==> r.op[s] == PhysicalReg(pr)
  {
    insn.(op := [Rename(insn.op[0], vr, pr), Rename(insn.op[1], vr, pr), Rename(insn.op[2], vr, pr)])
  }

  /** Renaming operand `m` of `ops` leaves none of the first `m + 1` virtual operands that were gone before. */
  lemma ReplacedLeaves(insn: Insn, ops: seq<Operand>, m: nat, pr: int)
    requires m < |ops| && ops[m].VirtualReg?
    requires forall n :: 0 <= n < m && ops[n].VirtualReg? ==> forall s :: 0 <= s < 3 ==> insn.op[s] != ops[n]
    ensures forall n :: 0 <= n <= m && ops[n].VirtualReg? ==>
      forall s :: 0 <= s < 3 ==> Replaced(insn, ops[m].id, pr).op[s] != ops[n]
  {
  }

  function Rename(o: Operand, vr: int, pr: int): Operand {
    if o == VirtualReg(vr) then PhysicalReg(pr) else o
  }

  /** The index of the first instruction at or after `from` that reads `vr` (|code| if none). */
  function FirstRead(code: seq<Insn>, vr: int, from: nat): (r: nat)
    requires from <= |code|
    ensures from <= r <= |code|
    decreases |code| - from
  {
    if from == |code| || ReadsVirtual(code[from], vr) then from
    else FirstRead(code, vr, from + 1)
  }

  /** `FirstRead` finds a read of `vr`, and no instruction before it reads `vr`. */
  lemma {:induction false} FirstReadIsFirst(code: seq<Insn>, vr: int, from: nat)
    requires from <= |code|
    ensures FirstRead(code, vr, from) < |code| ==> ReadsVirtual(code[FirstRead(code, vr, from)], vr)
    ensures forall j :: from <= j < FirstRead(code, vr, from) ==> !ReadsVirtual(code[j], vr)
    decreases |code| - from
  {
    if from < |code| && !ReadsVirtual(code[from], vr) {
      FirstReadIsFirst(code, vr, from + 1);
    }
  }

  /** Conversely, an index with a read and none before it is the one `FirstRead` finds. */
  lemma {:induction false} FirstReadAt(code: seq<Insn>, vr: int, from: nat, i: nat)
    requires from <= i <= |code|
    requires i < |code| ==> ReadsVirtual(code[i], vr)
    requires forall j :: from <= j < i ==> !ReadsVirtual(code[j], vr)
    ensures FirstRead(code, vr, from) == i
    decreases i - from
  {
    if from < i {
      FirstReadAt(code, vr, from + 1, i);
    }
  }

  /** The value `dist(vr, from)` returns: distance to the next read, or INT_MAX. */
  function Distance(code: seq<Insn>, vr: int, from: nat): (d: int)
    requires from <= |code|
    ensures 0 <= d
  {
    var r := FirstRead(code, vr, from);
    if r == |code| then INT_MAX else r - from
  }

  /** The distances from `from` of the residents of the first `n` registers. */
  function Dists(code: seq<Insn>, names: seq<int>, from: nat, n: nat): (ds: seq<int>)
    requires from <= |code| && n <= |names|
    ensures |ds| == n
    ensures forall q :: 0 <= q < n ==> ds[q] == Distance(code, names[q], from)
  {
    seq(n, q requires 0 <= q < n => Distance(code, names[q], from))
  }

  /**
   * The choice of `allocate`'s eviction loop over the distances `ds`: the
   * pair (register, distance) kept by `if (distance > max_dist)`, starting
   * from (-1, -1).
   */
  function Furthest(ds: seq<int>): (int, int)
  {
    if ds == [] then (-1, -1)
    else
      var best := Furthest(ds[..|ds| - 1]);
      var d := ds[|ds| - 1];
      if d > best.1 then (|ds| - 1, d) else best
  }

  /**
   * Of non-negative distances, the chosen register has the greatest, and
   * every register before it a strictly smaller one: ties go to the lowest
   * index.
   */
  lemma {:induction false} FurthestIsFurthest(ds: seq<int>)
    requires |ds| >= 1 && forall q :: 0 <= q < |ds| ==> ds[q] >= 0
    ensures 0 <= Furthest(ds).0 < |ds| && Furthest(ds).1 == ds[Furthest(ds).0]
    ensures forall q :: 0 <= q < |ds| ==> ds[q] <= Furthest(ds).1
    ensures forall q :: 0 <= q < Furthest(ds).0 ==> ds[q] < Furthest(ds).1
  {
    var init := ds[..|ds| - 1];
    if |ds| > 1 {
      FurthestIsFurthest(init);
    }
  }

  /** Past an insertion point, the count is the old one shifted by one. */
  lemma {:induction false} ActiveFromInsert(c: seq<Insn>, p: nat, x: Insn, from: nat)
    requires p <= from <= |c|
    ensures ActiveFrom(Insert(c, p, x), from + 1) == ActiveFrom(c, from)
    decreases |c| - from
  {
    if from < |c| {
      ActiveFromInsert(c, p, x, from + 1);
    }
  }

  /** Replacing an instruction by one equally active, or one before `from`, keeps the count. */
  lemma {:induction false} ActiveFromUpdate(c: seq<Insn>, k: nat, y: Insn, from: nat)
    requires k < |c| && (from <= k ==> Active(y) == Active(c[k]))
    ensures ActiveFrom(c[k := y], from) == ActiveFrom(c, from)
    decreases |c| - from
  {
    if from < |c| {
      ActiveFromUpdate(c, k, y, from + 1);
    }
  }

  /** The tail after `at` keeps its count when an inactive `x` is spliced in after `at`. */
  lemma InsertTail(c: seq<Insn>, at: nat, x: Insn)
    requires at < |c| && !Active(x)
    ensures ActiveFrom(Insert(c, at + 1, x), at + 1) == ActiveFrom(c, at + 1)
  {
    ActiveFromInsert(c, at + 1, x, at + 1);
  }

  /** Rewriting the frame allocator's immediate changes no instruction's activity. */
  lemma SetFrameSizeTail(c: seq<Insn>, fa: nat, imm: int, at: nat)
    requires fa < |c| && IsFrameAllocator(c[fa]) && at < |c|
    ensures ActiveFrom(SetFrameSize(c, fa, imm), at + 1) == ActiveFrom(c, at + 1)
  {
    ActiveFromUpdate(c, fa, SetFrameSize(c, fa, imm)[fa], at + 1);
  }

  lemma SplicedAfterRefl(c: seq<Insn>, at: nat, fa: nat)
    requires at < |c|
    ensures SplicedAfter(c, c, at, fa, fa)
  {
  }

  lemma SplicedAfterTrans(a: seq<Insn>, b: seq<Insn>, c: seq<Insn>, at: nat, f0: nat, f1: nat, f2: nat)
    requires SplicedAfter(a, b, at, f0, f1) && SplicedAfter(b, c, at, f1, f2)
    ensures SplicedAfter(a, c, at, f0, f2)
  {
  }

  /** A frame-size rewrite followed by one inactive insertion after `at` is a splice. */
  lemma SpliceOne(c: seq<Insn>, at: nat, fa: nat, imm: int, x: Insn)
    requires at < |c| && fa < |c| && IsFrameAllocator(c[fa]) && !Active(x)
    ensures var c' := Insert(SetFrameSize(c, fa, imm), at + 1, x);
      SplicedAfter(c, c', at, fa, if at + 1 <= fa then fa + 1 else fa)
      && (fa != at ==> c'[at] == c[at])
  {
    SetFrameSizeTail(c, fa, imm, at);
    InsertTail(SetFrameSize(c, fa, imm), at, x);
  }

  /** Overwriting the instruction at `at` itself is a splice after `at`. */
  lemma ReplaceSpliced(c: seq<Insn>, at: nat, fa: nat, x: Insn)
    requires at < |c|
    ensures SplicedAfter(c, c[at := x], at, fa, fa)
  {
    ActiveFromUpdate(c, at, x, at + 1);
  }

  /** Renaming to a register inside the `name` table keeps an instruction well formed. */
  lemma ReplacedOk(insn: Insn, vr: int, pr: int, maxVirtual: int, maxPhysical: int)
    requires InsnOk(insn, maxVirtual, maxPhysical) && 0 <= pr < maxPhysical
    ensures InsnOk(Replaced(insn, vr, pr), maxVirtual, maxPhysical)
  {
  }

  /** The allocator instruction names no virtual register and is no call. */
  lemma FrameAllocatorInactive(insn: Insn)
    requires IsFrameAllocator(insn)
    ensures !Active(insn) && !WriteOperand(insn).VirtualReg?
  {
  }

  /** The frame allocator sits at `fa` and its immediate is `imm`. */
  predicate FrameOk(code: seq<Insn>, fa: nat, imm: int) {
    fa < |code| && IsFrameAllocator(code[fa]) && code[fa].op[1] == IntConst(imm)
  }

  /**
   * A spill keeps the list well formed and moves the frame allocator by one
   * when its store lands at or before it.
   */
  lemma SpillKeepsFrame(code: seq<Insn>, fa: nat, imm: int, at: nat, pr: int, maxVirtual: int, maxPhysical: int)
    requires fa < |code| && IsFrameAllocator(code[fa]) && CodeOk(code, maxVirtual, maxPhysical)
    requires at < |code| && 0 <= pr < maxPhysical
    ensures var c' := Insert(SetFrameSize(code, fa, imm), at + 1, SpillStore(pr, imm));
      && FrameOk(c', if at + 1 <= fa then fa + 1 else fa, imm)
      && CodeOk(c', maxVirtual, maxPhysical)
  {
    var c1 := SetFrameSize(code, fa, imm);
    assert InsnOk(c1[fa], maxVirtual, maxPhysical);
    assert CodeOk(c1, maxVirtual, maxPhysical);
    assert InsnOk(SpillStore(pr, imm), maxVirtual, maxPhysical);
  }

  /** A reload keeps the list well formed and the frame allocator's immediate. */
  lemma ReloadKeepsFrame(code: seq<Insn>, fa: nat, imm: int, at: nat, off: int, pr: int, maxVirtual: int, maxPhysical: int)
    requires FrameOk(code, fa, imm) && CodeOk(code, maxVirtual, maxPhysical)
    requires at < |code| && 0 <= pr < maxPhysical
    ensures var c' := Insert(code, at + 1, Reload(off, pr));
      && FrameOk(c', if at + 1 <= fa then fa + 1 else fa, imm)
      && CodeOk(c', maxVirtual, maxPhysical)
  {
    assert InsnOk(Reload(off, pr), maxVirtual, maxPhysical);
  }

  /** Where an instruction of the rewritten list comes from. */
  datatype Origin =
    | From(index: nat, bound: map<int, int>)  // the input instruction at `index`, its virtual registers renamed by `bound`
    | Stored            // a spill store the pass spliced in
    | Reloaded          // a reload the pass spliced in

  /** `insn` has the shape of a spill store, `STORE_AI pr => BP, off`. */
  predicate IsSpillStore(insn: Insn) {
    insn.form == StoreAI && insn.op[0].PhysicalReg? && insn.op[1] == BaseReg && insn.op[2].IntConst?
  }

  /** `insn` has the shape of a reload, `LOAD_AI BP, off => pr`. */
  predicate IsReload(insn: Insn) {
    insn.form == LoadAI && insn.op[0] == BaseReg && insn.op[1].IntConst? && insn.op[2].PhysicalReg?
  }

  /** The input indices `origin` lists, in list order. */
  function Originals(origin: seq<Origin>): seq<nat> {
    OriginalsUpTo(origin, |origin|)
  }

  /** The input indices among the first `n` entries of `origin`, in order. */
  function OriginalsUpTo(origin: seq<Origin>, n: nat): seq<nat>
    requires n <= |origin|
  {
    if n == 0 then [] else OriginalsUpTo(origin, n - 1) + (if origin[n - 1].From? then [origin[n - 1].index] else [])
  }

  /** How many spill stores `origin` lists. */
  function StoreCount(origin: seq<Origin>): nat {
    StoresUpTo(origin, |origin|)
  }

  /** How many spill stores the first `n` entries of `origin` list. */
  function StoresUpTo(origin: seq<Origin>, n: nat): nat
    requires n <= |origin|
  {
    if n == 0 then 0 else StoresUpTo(origin, n - 1) + (if origin[n - 1] == Stored then 1 else 0)
  }

  /** The indices 0, 1, ..., n - 1 in order. */
  function Iota(n: nat): (r: seq<nat>)
    ensures |r| == n && forall j :: 0 <= j < n ==> r[j] == j
  {
    if n == 0 then [] else Iota(n - 1) + [n - 1]
  }

  /** The origins of a list of `n` input instructions nothing has been spliced into. */
  function Untouched(n: nat): (r: seq<Origin>)
    ensures |r| == n && forall j :: 0 <= j < n ==> r[j] == From(j, map[])
  {
    seq(n, j requires 0 <= j => From(j, map[]))
  }

  /** An untouched list lists every input index, in order, and no store. */
  lemma UntouchedTrace(n: nat)
    ensures Originals(Untouched(n)) == Iota(n) && StoreCount(Untouched(n)) == 0
  {
    UntouchedUpTo(n, n);
  }

  lemma {:induction false} UntouchedUpTo(n: nat, m: nat)
    requires m <= n
    ensures OriginalsUpTo(Untouched(n), m) == Iota(m) && StoresUpTo(Untouched(n), m) == 0
  {
    if m > 0 {
      UntouchedUpTo(n, m - 1);
    }
  }

  /**
   * `c`, whose frame allocator is at `fa`, is the input list `c0` (frame
   * allocator at `fa0`) as the pass rewrites it, `origin[p]` telling where
   * `c[p]` comes from: every input instruction appears exactly once and in
   * input order, with virtual-register operands renamed to physical ones
   * by the binding its origin records and nothing else changed, except that
   * the frame allocator keeps all but its immediate; every other
   * instruction is a spill store or a reload.
   */
  ghost predicate Traced(c0: seq<Insn>, fa0: nat, c: seq<Insn>, fa: nat, origin: seq<Origin>) {
    && fa0 < |c0| && fa < |c| && |origin| == |c|
    && Originals(origin) == Iota(|c0|)
    && origin[fa].From? && origin[fa].index == fa0
    && c[fa] == c0[fa0].(op := c0[fa0].op[1 := c[fa].op[1]])
    && Shapes(c0, c, fa, origin)
  }

  /** Each instruction of `c` but the frame allocator at `fa` has the shape its origin gives it. */
  ghost predicate Shapes(c0: seq<Insn>, c: seq<Insn>, fa: nat, origin: seq<Origin>) {
    && |origin| == |c|
    && forall p :: 0 <= p < |c| ==> ShapeAt(c0, c, fa, origin, p)
  }

  /**
   * Entry `p` of `c` has the shape its origin says: an input instruction
   * renamed by its binding (the frame allocator at `fa` aside), a spill
   * store or a reload.
   */
  ghost predicate ShapeAt(c0: seq<Insn>, c: seq<Insn>, fa: nat, origin: seq<Origin>, p: nat)
    requires p < |c| && |origin| == |c|
  {
    match origin[p]
    case From(i, bound) => p == fa || (i < |c0| && c[p] == RenameWith(c0[i], bound))
    case Stored => IsSpillStore(c[p])
    case Reloaded => IsReload(c[p])
  }

  lemma TracedStart(c0: seq<Insn>, fa0: nat)
    requires fa0 < |c0|
    ensures Traced(c0, fa0, c0, fa0, Untouched(|c0|))
  {
    assert c0[fa0].op[1 := c0[fa0].op[1]] == c0[fa0].op;
    UntouchedTrace(|c0|);
    forall p | 0 <= p < |c0|
      ensures ShapeAt(c0, c0, fa0, Untouched(|c0|), p)
    {
      RenameWithEmpty(c0[p]);
    }
  }

  /** The empty binding renames nothing. */
  lemma RenameWithEmpty(insn: Insn)
    ensures RenameWith(insn, map[]) == insn
  {
    assert [insn.op[0], insn.op[1], insn.op[2]] == insn.op;
  }

  /**
   * `replace_register(vr, pr)` on an instruction renamed by `bound` renames
   * it by `bound` with `vr` bound to `pr`, unless `vr` was bound already.
   */
  lemma ReplacedRenameWith(insn: Insn, bound: map<int, int>, vr: int, pr: int)
    ensures Replaced(RenameWith(insn, bound), vr, pr) == RenameWith(insn, Bind(bound, vr, pr))
  {
  }

  /** Splicing a non-original `o` into `origin` adds no input index, and one store when `o` is one. */
  lemma OriginInsert(origin: seq<Origin>, at: nat, o: Origin)
    requires at <= |origin| && !o.From?
    ensures Originals(Insert(origin, at, o)) == Originals(origin)
    ensures StoreCount(Insert(origin, at, o)) == StoreCount(origin) + (if o == Stored then 1 else 0)
  {
    InsertUpTo(origin, at, o, |origin|);
  }

  /** Past the insertion point, the first `n + 1` entries list what the first `n` did, plus `o`. */
  lemma {:induction false} InsertUpTo(origin: seq<Origin>, at: nat, o: Origin, n: nat)
    requires at <= n <= |origin| && !o.From?
    ensures OriginalsUpTo(Insert(origin, at, o), n + 1) == OriginalsUpTo(origin, n)
    ensures StoresUpTo(Insert(origin, at, o), n + 1) == StoresUpTo(origin, n) + (if o == Stored then 1 else 0)
  {
    var r := Insert(origin, at, o);
    if n == at {
      AgreeUpTo(r, origin, at);
    } else {
      InsertUpTo(origin, at, o, n - 1);
      assert r[n] == origin[n - 1];
    }
  }

  /** Entries of the same kind, with the same input index when they come from the input. */
  predicate SameKind(x: Origin, y: Origin) {
    x.From? == y.From? && (x.From? ==> x.index == y.index) && (x == Stored <==> y == Stored)
  }

  /** Lists agreeing in kind on their first `n` entries list the same indices and stores among them. */
  lemma {:induction false} AgreeUpTo(a: seq<Origin>, b: seq<Origin>, n: nat)
    requires n <= |a| && n <= |b| && forall j :: 0 <= j < n ==> SameKind(a[j], b[j])
    ensures OriginalsUpTo(a, n) == OriginalsUpTo(b, n) && StoresUpTo(a, n) == StoresUpTo(b, n)
  {
    if n > 0 {
      AgreeUpTo(a, b, n - 1);
    }
  }

  /**
   * Splicing a spill store or a reload in after `at` keeps the trace, and a
   * store adds one to the count.
   */
  lemma TracedInsert(c0: seq<Insn>, fa0: nat, c: seq<Insn>, fa: nat, origin: seq<Origin>, at: nat, x: Insn, o: Origin)
    requires Traced(c0, fa0, c, fa, origin) && at < |c|
    requires (o == Stored && IsSpillStore(x)) || (o == Reloaded && IsReload(x))
    ensures Traced(c0, fa0, Insert(c, at + 1, x), if at + 1 <= fa then fa + 1 else fa, Insert(origin, at + 1, o))
    ensures StoreCount(Insert(origin, at + 1, o)) == StoreCount(origin) + (if o == Stored then 1 else 0)
  {
    OriginInsert(origin, at + 1, o);
    ShapesInsert(c0, c, fa, origin, at, x, o);
  }

  lemma ShapesInsert(c0: seq<Insn>, c: seq<Insn>, fa: nat, origin: seq<Origin>, at: nat, x: Insn, o: Origin)
    requires Shapes(c0, c, fa, origin) && at < |c|
    requires (o == Stored && IsSpillStore(x)) || (o == Reloaded && IsReload(x))
    ensures Shapes(c0, Insert(c, at + 1, x), if at + 1 <= fa then fa + 1 else fa, Insert(origin, at + 1, o))
  {
    var c', o', fa' := Insert(c, at + 1, x), Insert(origin, at + 1, o), if at + 1 <= fa then fa + 1 else fa;
    forall p | 0 <= p < |c'|
      ensures ShapeAt(c0, c', fa', o', p)
    {
      if p > at + 1 {
        assert c'[p] == c[p - 1] && o'[p] == origin[p - 1];
        assert ShapeAt(c0, c, fa, origin, p - 1);
      } else if p < at + 1 {
        assert ShapeAt(c0, c, fa, origin, p);
      }
    }
  }

  /** Rewriting the frame allocator's immediate keeps the trace. */
  lemma TracedSetFrame(c0: seq<Insn>, fa0: nat, c: seq<Insn>, fa: nat, origin: seq<Origin>, imm: int)
    requires Traced(c0, fa0, c, fa, origin)
    ensures Traced(c0, fa0, SetFrameSize(c, fa, imm), fa, origin)
  {
    assert c0[fa0].op[1 := c[fa].op[1]][1 := IntConst(imm)] == c0[fa0].op[1 := IntConst(imm)];
    var c' := SetFrameSize(c, fa, imm);
    forall p | 0 <= p < |c'|
      ensures ShapeAt(c0, c', fa, origin, p)
    {
      assert ShapeAt(c0, c, fa, origin, p);
    }
  }

  /** `replace_register` on any instruction keeps the trace. */
  /** `origin` once `vr` is renamed to `pr` at `at`: an input instruction there records the binding. */
  function Rebound(origin: seq<Origin>, at: nat, vr: int, pr: int): (r: seq<Origin>)
    requires at < |origin|
    ensures |r| == |origin| && forall j :: 0 <= j < |r| ==> SameKind(r[j], origin[j])
  {
    if origin[at].From? then origin[at := From(origin[at].index, Bind(origin[at].bound, vr, pr))] else origin
  }

  lemma TracedReplace(c0: seq<Insn>, fa0: nat, c: seq<Insn>, fa: nat, origin: seq<Origin>, at: nat, vr: int, pr: int)
    requires Traced(c0, fa0, c, fa, origin) && at < |c| && IsFrameAllocator(c[fa])
    ensures Traced(c0, fa0, c[at := Replaced(c[at], vr, pr)], fa, Rebound(origin, at, vr, pr))
  {
    var x := Replaced(c[at], vr, pr);
    var c', o' := c[at := x], Rebound(origin, at, vr, pr);
    AgreeUpTo(o', origin, |origin|);
    forall p | 0 <= p < |c'| && p != at
      ensures ShapeAt(c0, c', fa, o', p)
    {
      assert ShapeAt(c0, c, fa, origin, p);
    }
    assert ShapeAt(c0, c, fa, origin, at);
    if at == fa || !origin[at].From? {
      assert x.op == c[at].op;
    } else {
      ReplacedRenameWith(c0[origin[at].index], origin[at].bound, vr, pr);
    }
  }

  /**
   * The allocator's list invariant: `c` is well formed and traces back to
   * the input `c0`, whose frame allocator's immediate is `imm0`; the frame
   * allocator of `c` has grown by one word for each of the `n` spill stores
   * in `c`.
   */
  ghost predicate ListInv(c0: seq<Insn>, fa0: nat, imm0: int, c: seq<Insn>, fa: nat, origin: seq<Origin>, n: nat,
                          maxVirtual: int, maxPhysical: int) {
    && Traced(c0, fa0, c, fa, origin) && c0[fa0].op[1] == IntConst(imm0)
    && FrameOk(c, fa, imm0 - WORD_SIZE * n) && CodeOk(c, maxVirtual, maxPhysical)
    && StoreCount(origin) == n
  }

  /** A spill keeps the list invariant, with one store more. */
  lemma SpillKeepsList(c0: seq<Insn>, fa0: nat, imm0: int, c: seq<Insn>, fa: nat, origin: seq<Origin>, n: nat,
                       maxVirtual: int, maxPhysical: int, at: nat, pr: int)
    requires ListInv(c0, fa0, imm0, c, fa, origin, n, maxVirtual, maxPhysical) && at < |c| && 0 <= pr < maxPhysical
    ensures var imm := imm0 - WORD_SIZE * (n + 1);
      ListInv(c0, fa0, imm0, Insert(SetFrameSize(c, fa, imm), at + 1, SpillStore(pr, imm)),
              if at + 1 <= fa then fa + 1 else fa, Insert(origin, at + 1, Stored), n + 1, maxVirtual, maxPhysical)
  {
    SpillKeepsFrame(c, fa, imm0 - WORD_SIZE * (n + 1), at, pr, maxVirtual, maxPhysical);
    TracedSpill(c0, fa0, c, fa, origin, at, pr, imm0 - WORD_SIZE * (n + 1));
  }

  /** A spill keeps the trace, with one store more. */
  lemma TracedSpill(c0: seq<Insn>, fa0: nat, c: seq<Insn>, fa: nat, origin: seq<Origin>, at: nat, pr: int, imm: int)
    requires Traced(c0, fa0, c, fa, origin) && at < |c|
    ensures Traced(c0, fa0, Insert(SetFrameSize(c, fa, imm), at + 1, SpillStore(pr, imm)),
                   if at + 1 <= fa then fa + 1 else fa, Insert(origin, at + 1, Stored))
    ensures StoreCount(Insert(origin, at + 1, Stored)) == StoreCount(origin) + 1
  {
    TracedSetFrame(c0, fa0, c, fa, origin, imm);
    TracedInsert(c0, fa0, SetFrameSize(c, fa, imm), fa, origin, at, SpillStore(pr, imm), Stored);
  }

  /** A reload keeps the list invariant. */
  lemma ReloadKeepsList(c0: seq<Insn>, fa0: nat, imm0: int, c: seq<Insn>, fa: nat, origin: seq<Origin>, n: nat,
                        maxVirtual: int, maxPhysical: int, at: nat, off: int, pr: int)
    requires ListInv(c0, fa0, imm0, c, fa, origin, n, maxVirtual, maxPhysical) && at < |c| && 0 <= pr < maxPhysical
    ensures ListInv(c0, fa0, imm0, Insert(c, at + 1, Reload(off, pr)),
                    if at + 1 <= fa then fa + 1 else fa, Insert(origin, at + 1, Reloaded), n, maxVirtual, maxPhysical)
  {
    ReloadKeepsFrame(c, fa, imm0 - WORD_SIZE * n, at, off, pr, maxVirtual, maxPhysical);
    TracedInsert(c0, fa0, c, fa, origin, at, Reload(off, pr), Reloaded);
  }

  /** `replace_register` with a register inside the table keeps the list invariant. */
  lemma ReplaceKeepsList(c0: seq<Insn>, fa0: nat, imm0: int, c: seq<Insn>, fa: nat, origin: seq<Origin>, n: nat,
                         maxVirtual: int, maxPhysical: int, at: nat, vr: int, pr: int)
    requires ListInv(c0, fa0, imm0, c, fa, origin, n, maxVirtual, maxPhysical) && at < |c| && 0 <= pr < maxPhysical
    ensures ListInv(c0, fa0, imm0, c[at := Replaced(c[at], vr, pr)], fa, Rebound(origin, at, vr, pr), n, maxVirtual, maxPhysical)
  {
    ReplacedOk(c[at], vr, pr, maxVirtual, maxPhysical);
    TracedReplace(c0, fa0, c, fa, origin, at, vr, pr);
    AgreeUpTo(Rebound(origin, at, vr, pr), origin, |origin|);
    if at == fa {
      assert Replaced(c[at], vr, pr) == c[at];
    }
  }

  /** The part of the allocator's state a spill changes: the list, the frame allocator's position, the slots. */
  datatype SpillState = SpillState(code: seq<Insn>, fa: nat, offsets: seq<int>)

  predicate SpillStateOk(s: SpillState) {
    s.fa < |s.code| && IsFrameAllocator(s.code[s.fa])
  }

  /**
   * `spill(pr)` right after `at` for a register holding `vr`: the frame
   * grows by one word, the store of `pr` to the new slot goes in after
   * `at`, and the slot is recorded for `vr`.
   */
  function SpillOne(s: SpillState, pr: int, vr: int, at: nat): (r: SpillState)
    requires SpillStateOk(s) && at < |s.code| && 0 <= vr < |s.offsets|
    ensures SpillStateOk(r) && |r.code| == |s.code| + 1 && |r.offsets| == |s.offsets|
    ensures r.code[r.fa].op[1] == IntConst(s.code[s.fa].op[1].value - WORD_SIZE)
  {
    var imm := s.code[s.fa].op[1].value - WORD_SIZE;
    SpillState(Insert(SetFrameSize(s.code, s.fa, imm), at + 1, SpillStore(pr, imm)),
               if at + 1 <= s.fa then s.fa + 1 else s.fa,
               s.offsets[vr := imm])
  }

  /**
   * The spill at a call at `at` over the first `n` registers, whose
   * residents are `names`: register 0 first, every occupied one is spilled.
   */
  function CallSpills(s: SpillState, names: seq<int>, n: nat, at: nat): (r: SpillState)
    requires SpillStateOk(s) && at < |s.code| && n <= |names|
    requires forall q :: 0 <= q < n ==> names[q] == INVALID || 0 <= names[q] < |s.offsets|
    ensures SpillStateOk(r) && |r.offsets| == |s.offsets|
    ensures |r.code| == |s.code| + Occupied(names, n)
  {
    if n == 0 then s
    else
      var t := CallSpills(s, names, n - 1, at);
      if names[n - 1] != INVALID then SpillOne(t, n - 1, names[n - 1], at) else t
  }

  /** The spill at a call over one register more. */
  lemma CallSpillsNext(s: SpillState, names: seq<int>, n: nat, at: nat)
    requires SpillStateOk(s) && at < |s.code| && n < |names|
    requires forall q :: 0 <= q <= n ==> names[q] == INVALID || 0 <= names[q] < |s.offsets|
    ensures CallSpills(s, names, n + 1, at) ==
      var t := CallSpills(s, names, n, at);
      if names[n] != INVALID then SpillOne(t, n, names[n], at) else t
  {
  }

  /** Where `SpillOne` leaves each instruction of the list. */
  lemma SpillOneShape(t: SpillState, pr: int, vr: int, at: nat)
    requires SpillStateOk(t) && at < |t.code| && 0 <= vr < |t.offsets|
    ensures var r, imm := SpillOne(t, pr, vr, at), t.code[t.fa].op[1].value - WORD_SIZE;
      && r.fa == (if t.fa <= at then t.fa else t.fa + 1)
      && r.code[r.fa] == t.code[t.fa].(op := t.code[t.fa].op[1 := IntConst(imm)])
      && r.code[at + 1] == SpillStore(pr, imm)
      && (forall j :: 0 <= j <= at && j != t.fa ==> r.code[j] == t.code[j])
      && (forall j :: at < j < |t.code| && j != t.fa ==> r.code[j + 1] == t.code[j])
      && r.offsets == t.offsets[vr := imm]
  {
  }

  /** Where `SpillOne` puts the store, and where it moves the instructions after `at`. */
  lemma SpillOneTail(t: SpillState, pr: int, vr: int, at: nat)
    requires SpillStateOk(t) && at < |t.code| && 0 <= vr < |t.offsets|
    ensures var r := SpillOne(t, pr, vr, at);
      && r.code[at + 1] == SpillStore(pr, t.code[t.fa].op[1].value - WORD_SIZE)
      && forall j :: at < j < |t.code| && j != t.fa ==> r.code[j + 1] == t.code[j]
  {
  }

  /**
   * After the spill at a call at `at`, with `m` occupied registers among the
   * first `n`, the frame allocator's immediate has dropped by `m` words, and
   * the allocator has moved back by `m` when it came after `at`.
   */
  lemma {:induction false} CallSpillsFrame(s: SpillState, names: seq<int>, n: nat, at: nat)
    requires SpillStateOk(s) && at < |s.code| && n <= |names|
    requires forall q :: 0 <= q < n ==> names[q] == INVALID || 0 <= names[q] < |s.offsets|
    ensures var r := CallSpills(s, names, n, at);
      && r.fa == (if s.fa <= at then s.fa else s.fa + Occupied(names, n))
      && r.code[r.fa].op[1] == IntConst(s.code[s.fa].op[1].value - WORD_SIZE * Occupied(names, n))
  {
    if n > 0 {
      var t := CallSpills(s, names, n - 1, at);
      CallSpillsFrame(s, names, n - 1, at);
      if names[n - 1] != INVALID {
        assert CallSpills(s, names, n, at) == SpillOne(t, n - 1, names[n - 1], at);
        assert Occupied(names, n) == Occupied(names, n - 1) + 1;
      } else {
        assert CallSpills(s, names, n, at) == t && Occupied(names, n) == Occupied(names, n - 1);
      }
    }
  }

  /**
   * `r` is `s` after `m` spills right after `at`: the frame allocator has
   * grown by `m` words (and moved back by `m` when it came after `at`), the
   * other instructions up to `at` are in place, and the ones after `at`
   * have moved back by `m`.
   */
  ghost predicate SpilledLayout(s: SpillState, r: SpillState, at: nat, m: nat)
    requires SpillStateOk(s)
  {
    && at < |s.code| && |r.code| == |s.code| + m
    && r.fa == (if s.fa <= at then s.fa else s.fa + m) && r.fa < |r.code|
    && r.code[r.fa] == s.code[s.fa].(op := s.code[s.fa].op[1 := IntConst(s.code[s.fa].op[1].value - WORD_SIZE * m)])
    && (forall j :: 0 <= j <= at && j != s.fa ==> r.code[j] == s.code[j])
    && (forall j :: at < j < |s.code| && j != s.fa ==> r.code[j + m] == s.code[j])
  }

  lemma LayoutRefl(s: SpillState, at: nat)
    requires SpillStateOk(s) && at < |s.code|
    ensures SpilledLayout(s, s, at, 0)
  {
    assert s.code[s.fa].op[1 := IntConst(s.code[s.fa].op[1].value)] == s.code[s.fa].op;
  }

  /** One more spill after `at` extends the layout by one. */
  lemma LayoutStep(s: SpillState, t: SpillState, at: nat, m: nat, pr: int, vr: int)
    requires SpillStateOk(s) && SpillStateOk(t) && SpilledLayout(s, t, at, m) && 0 <= vr < |t.offsets|
    ensures SpilledLayout(s, SpillOne(t, pr, vr, at), at, m + 1)
  {
    var r := SpillOne(t, pr, vr, at);
    SpillOneShape(t, pr, vr, at);
    assert t.code[t.fa].op[1].value - WORD_SIZE == s.code[s.fa].op[1].value - WORD_SIZE * (m + 1);
    assert r.code[r.fa].op == s.code[s.fa].op[1 := IntConst(s.code[s.fa].op[1].value - WORD_SIZE * (m + 1))];
    KeepsStep(s.code, s.fa, t.code, t.fa, r.code, at, m);
  }

  /**
   * After the spill at a call at `at`, with `m` occupied registers among the
   * first `n`, the frame allocator has grown by `m` words and the list has
   * gained `m` instructions right after the call, nothing else changing.
   */
  lemma {:induction false} CallSpillsLayout(s: SpillState, names: seq<int>, n: nat, at: nat)
    requires SpillStateOk(s) && at < |s.code| && n <= |names|
    requires forall q :: 0 <= q < n ==> names[q] == INVALID || 0 <= names[q] < |s.offsets|
    ensures SpilledLayout(s, CallSpills(s, names, n, at), at, Occupied(names, n))
  {
    if n == 0 {
      LayoutRefl(s, at);
    } else {
      var t := CallSpills(s, names, n - 1, at);
      CallSpillsLayout(s, names, n - 1, at);
      if names[n - 1] != INVALID {
        assert CallSpills(s, names, n, at) == SpillOne(t, n - 1, names[n - 1], at);
        assert Occupied(names, n) == Occupied(names, n - 1) + 1;
        LayoutStep(s, t, at, Occupied(names, n - 1), n - 1, names[n - 1]);
      } else {
        assert CallSpills(s, names, n, at) == t && Occupied(names, n) == Occupied(names, n - 1);
      }
    }
  }

  /** One more store spliced in after `at` shifts the tail once more and leaves the prefix. */
  lemma KeepsStep(sc: seq<Insn>, sfa: nat, tc: seq<Insn>, tfa: nat, rc: seq<Insn>, at: nat, m: nat)
    requires at < |sc| && |tc| == |sc| + m && |rc| == |tc| + 1 && tfa == (if sfa <= at then sfa else sfa + m)
    requires forall j :: 0 <= j <= at && j != sfa ==> tc[j] == sc[j]
    requires forall j :: at < j < |sc| && j != sfa ==> tc[j + m] == sc[j]
    requires forall j :: 0 <= j <= at && j != tfa ==> rc[j] == tc[j]
    requires forall j :: at < j < |tc| && j != tfa ==> rc[j + 1] == tc[j]
    ensures forall j :: 0 <= j <= at && j != sfa ==> rc[j] == sc[j]
    ensures forall j :: at < j < |sc| && j != sfa ==> rc[j + (m + 1)] == sc[j]
  {
    forall j | at < j < |sc| && j != sfa
      ensures rc[j + (m + 1)] == sc[j]
    {
      assert rc[(j + m) + 1] == tc[j + m];
    }
  }

  /**
   * After the spill at a call at `at`, the stores sit right after the call,
   * the last register's first; the store of an occupied register `pr`
   * writes the slot carved when `pr` was spilled.
   */
  lemma {:induction false} CallSpillsStores(s: SpillState, names: seq<int>, n: nat, at: nat)
    requires SpillStateOk(s) && at < |s.code| && n <= |names|
    requires forall q :: 0 <= q < n ==> names[q] == INVALID || 0 <= names[q] < |s.offsets|
    ensures StoresAfter(CallSpills(s, names, n, at).code, names, n, at, s.code[s.fa].op[1].value)
  {
    if n > 0 {
      var t := CallSpills(s, names, n - 1, at);
      CallSpillsStores(s, names, n - 1, at);
      if names[n - 1] != INVALID {
        CallSpillsFrame(s, names, n - 1, at);
        assert CallSpills(s, names, n, at) == SpillOne(t, n - 1, names[n - 1], at);
        StoresSpillOne(s, t, names, n, at);
      } else {
        assert CallSpills(s, names, n, at) == t;
        StoresSkip(t.code, names, n, at, s.code[s.fa].op[1].value);
      }
    }
  }

  /** A free register adds no store. */
  lemma StoresSkip(code: seq<Insn>, names: seq<int>, n: nat, at: nat, imm: int)
    requires 0 < n <= |names| && names[n - 1] == INVALID
    requires StoresAfter(code, names, n - 1, at, imm)
    ensures StoresAfter(code, names, n, at, imm)
  {
    assert Occupied(names, n) == Occupied(names, n - 1);
  }

  /** The spill of register `n - 1` after `at` puts its store in front of the earlier ones. */
  lemma StoresSpillOne(s: SpillState, t: SpillState, names: seq<int>, n: nat, at: nat)
    requires SpillStateOk(s) && SpillStateOk(t) && 0 < n <= |names| && names[n - 1] != INVALID
    requires 0 <= names[n - 1] < |t.offsets|
    requires at < |t.code| && (t.fa <= at || t.fa > at + Occupied(names, n - 1))
    requires t.code[t.fa].op[1] == IntConst(s.code[s.fa].op[1].value - WORD_SIZE * Occupied(names, n - 1))
    requires StoresAfter(t.code, names, n - 1, at, s.code[s.fa].op[1].value)
    ensures StoresAfter(SpillOne(t, n - 1, names[n - 1], at).code, names, n, at, s.code[s.fa].op[1].value)
  {
    var imm, m := s.code[s.fa].op[1].value, Occupied(names, n - 1);
    SpillOneTail(t, n - 1, names[n - 1], at);
    assert t.code[t.fa].op[1].value - WORD_SIZE == imm - WORD_SIZE * (m + 1);
    StoresStep(names, n, t.code, t.fa, SpillOne(t, n - 1, names[n - 1], at).code, at, imm);
  }

  /**
   * Right after `at`, `code` holds the stores of the occupied ones among the
   * first `n` registers, the last register's first, each to the slot carved
   * when it was spilled: the `k`-th spill writes `imm` less `k` words.
   */
  ghost predicate StoresAfter(code: seq<Insn>, names: seq<int>, n: nat, at: nat, imm: int)
    requires n <= |names|
  {
    forall pr :: 0 <= pr < n && names[pr] != INVALID ==>
      at < at + 1 + Occupied(names, n) - Occupied(names, pr + 1) < |code|
      && code[at + 1 + Occupied(names, n) - Occupied(names, pr + 1)] == SpillStore(pr, imm - WORD_SIZE * Occupied(names, pr + 1))
  }

  /** One more store spliced in right after `at` moves the earlier ones back by one. */
  lemma StoresStep(names: seq<int>, n: nat, tc: seq<Insn>, tfa: nat, rc: seq<Insn>, at: nat, imm: int)
    requires 0 < n <= |names| && names[n - 1] != INVALID && at < |tc| && |rc| == |tc| + 1
    requires tfa <= at || tfa > at + Occupied(names, n - 1)
    requires StoresAfter(tc, names, n - 1, at, imm)
    requires rc[at + 1] == SpillStore(n - 1, imm - WORD_SIZE * (Occupied(names, n - 1) + 1))
    requires forall j :: at < j < |tc| && j != tfa ==> rc[j + 1] == tc[j]
    ensures StoresAfter(rc, names, n, at, imm)
  {
    OccupiedMono(names, n - 1);
    var m := Occupied(names, n - 1);
    assert Occupied(names, n) == m + 1;
    forall pr | 0 <= pr < n && names[pr] != INVALID
      ensures at < at + 1 + (m + 1) - Occupied(names, pr + 1) < |rc|
      ensures rc[at + 1 + (m + 1) - Occupied(names, pr + 1)] == SpillStore(pr, imm - WORD_SIZE * Occupied(names, pr + 1))
    {
      if pr < n - 1 {
        var p := at + 1 + m - Occupied(names, pr + 1);
        assert Occupied(names, pr + 1) == Occupied(names, pr) + 1;
        assert at < p < |tc| && tc[p] == SpillStore(pr, imm - WORD_SIZE * Occupied(names, pr + 1));
        assert rc[p + 1] == tc[p];
      }
    }
  }

  /** Occupied counts grow by at most one per register. */
  lemma {:induction false} OccupiedMono(names: seq<int>, n: nat)
    requires n <= |names|
    ensures forall q :: 0 <= q <= n ==> Occupied(names, q) <= Occupied(names, n)
  {
    if n > 0 {
      OccupiedMono(names, n - 1);
    }
  }

  /** The last of the first `n` registers whose resident is `v`, or -1 when none holds it. */
  function LastHolder(names: seq<int>, n: nat, v: int): (h: int)
    requires n <= |names|
    ensures -1 <= h < n && (h >= 0 ==> names[h] == v)
    ensures forall q :: h < q < n ==> names[q] != v
  {
    if n == 0 then -1 else if names[n - 1] == v then n - 1 else LastHolder(names, n - 1, v)
  }

  /**
   * After the spill at a call, the slot recorded for a virtual register is
   * the one its last holder among the first `n` registers was stored to
   * (see `CallSpillsStores`); a register no one held keeps its slot.
   */
  lemma {:induction false} CallSpillsSlots(s: SpillState, names: seq<int>, n: nat, at: nat)
    requires SpillStateOk(s) && at < |s.code| && n <= |names|
    requires forall q :: 0 <= q < n ==> names[q] == INVALID || 0 <= names[q] < |s.offsets|
    ensures var r, imm := CallSpills(s, names, n, at), s.code[s.fa].op[1].value;
      forall v :: 0 <= v < |s.offsets| ==>
        r.offsets[v] == (if LastHolder(names, n, v) < 0 then s.offsets[v]
                         else imm - WORD_SIZE * Occupied(names, LastHolder(names, n, v) + 1))
  {
    if n > 0 {
      CallSpillsSlots(s, names, n - 1, at);
      CallSpillsFrame(s, names, n - 1, at);
    }
  }

  /**
   * `pr` is the register `allocate` evicts when every register is taken:
   * its resident's next read from `from` is furthest away, and every
   * register before it holds one read strictly sooner.
   */
  ghost predicate EvictionChoice(code: seq<Insn>, names: seq<int>, from: nat, pr: int)
    requires from <= |code|
  {
    && 0 <= pr < |names|
    && (forall q :: 0 <= q < |names| ==> Distance(code, names[q], from) <= Distance(code, names[pr], from))
    && (forall q :: 0 <= q < pr ==> Distance(code, names[q], from) < Distance(code, names[pr], from))
  }

  /**
   * The allocator's whole state as a value: the list, the frame allocator's
   * position, and the `name` and `offset` tables.  The functions below give
   * the state each routine of the pass leaves, as the source computes it;
   * the `Allocator` methods are proved to leave exactly that state.
   */
  datatype AllocState = AllocState(code: seq<Insn>, fa: nat, names: seq<int>, offsets: seq<int>)

  /** The `Allocator` invariant on a value: a frame allocator, a well-formed list, tables in range. */
  predicate StateOk(s: AllocState) {
    && s.fa < |s.code| && IsFrameAllocator(s.code[s.fa])
    && 1 <= |s.names|
    && (forall pr :: 0 <= pr < |s.names| ==> s.names[pr] == INVALID || 0 <= s.names[pr] < |s.offsets|)
    && CodeOk(s.code, |s.offsets|, |s.names|)
  }

  /**
   * `r` is a state the work on the instruction at `at` can leave after `s`:
   * the tables keep their sizes and the instructions after `at` still hold
   * the same work.
   */
  ghost predicate Follows(s: AllocState, r: AllocState, at: nat) {
    && StateOk(r) && |r.names| == |s.names| && |r.offsets| == |s.offsets|
    && at < |r.code| && |s.code| <= |r.code|
    && ActiveFrom(r.code, at + 1) == ActiveFrom(s.code, at + 1)
  }

  /** The instruction at `at`, when it is not the frame allocator, is still in place and still not the frame allocator. */
  ghost predicate Keeps(s: AllocState, r: AllocState, at: nat)
    requires at < |s.code| && at < |r.code|
  {
    s.fa != at ==> r.fa != at && r.code[at] == s.code[at]
  }

  /** Where position `p` goes when an instruction is spliced in after `at`. */
  function Shifted(p: nat, at: nat): nat {
    if at + 1 <= p then p + 1 else p
  }

  /** `spill(pr)` with its store right after `at`: `SpillOne` for `pr`'s resident, and `pr` freed. */
  function AfterSpill(s: AllocState, pr: int, at: nat): (r: AllocState)
    requires StateOk(s) && at < |s.code| && 0 <= pr < |s.names| && s.names[pr] != INVALID
    ensures Follows(s, r, at) && Keeps(s, r, at) && r.names == s.names[pr := INVALID]
  {
    var imm := s.code[s.fa].op[1].value - WORD_SIZE;
    SpillKeepsFrame(s.code, s.fa, imm, at, pr, |s.offsets|, |s.names|);
    SpliceOne(s.code, at, s.fa, imm, SpillStore(pr, imm));
    var t := SpillOne(SpillState(s.code, s.fa, s.offsets), pr, s.names[pr], at);
    AllocState(t.code, t.fa, s.names[pr := INVALID], t.offsets)
  }

  /** `insert_load(off, pr)` right after `at`. */
  function AfterLoad(s: AllocState, off: int, pr: int, at: nat): (r: AllocState)
    requires StateOk(s) && at < |s.code| && 0 <= pr < |s.names|
    ensures Follows(s, r, at) && Keeps(s, r, at) && r.names == s.names && r.offsets == s.offsets
  {
    ReloadKeepsFrame(s.code, s.fa, s.code[s.fa].op[1].value, at, off, pr, |s.offsets|, |s.names|);
    InsertTail(s.code, at, Reload(off, pr));
    AllocState(Insert(s.code, at + 1, Reload(off, pr)), Shifted(s.fa, at), s.names, s.offsets)
  }

  /** The first register holding `v`, or |names| when none does: the scans of `ensure` and `allocate`. */
  function FirstHolder(names: seq<int>, v: int): (pr: nat)
    ensures pr <= |names| && (pr < |names| ==> names[pr] == v)
    ensures forall q :: 0 <= q < pr ==> names[q] != v
  {
    if names == [] then 0 else if names[0] == v then 0 else 1 + FirstHolder(names[1..], v)
  }

  /** The register `allocate`'s eviction loop picks: `Furthest` over the residents' distances from `from`. */
  function Victim(code: seq<Insn>, names: seq<int>, from: nat): (pr: int)
    requires from <= |code| && 1 <= |names|
    ensures EvictionChoice(code, names, from, pr)
  {
    var ds := Dists(code, names, from, |names|);
    FurthestIsFurthest(ds);
    Furthest(ds).0
  }

  /**
   * `allocate(vr)` at `at` and the register it returns: the first free
   * register, or else the `Victim`, spilled right after `at`; either way
   * the register then holds `vr` and no other register changes.
   */
  function AfterAllocate(s: AllocState, vr: int, at: nat): (r: (AllocState, int))
    requires StateOk(s) && at < |s.code| && 0 <= vr < |s.offsets|
    ensures Follows(s, r.0, at) && Keeps(s, r.0, at)
    ensures 0 <= r.1 < |s.names| && r.0.names == s.names[r.1 := vr]
  {
    var free := FirstHolder(s.names, INVALID);
    if free < |s.names| then (s.(names := s.names[free := vr]), free)
    else
      var pr := Victim(s.code, s.names, at + 1);
      var t := AfterSpill(s, pr, at);
      assert t.names[pr := vr] == s.names[pr := vr];
      (t.(names := t.names[pr := vr]), pr)
  }

  /**
   * `ensure(vr)` at `at` and the register it returns: the first register
   * already holding `vr`, with nothing changed; or else `allocate`'s, with
   * a reload from `vr`'s slot right after `at` when it has one.
   */
  function AfterEnsure(s: AllocState, vr: int, at: nat): (r: (AllocState, int))
    requires StateOk(s) && at < |s.code| && 0 <= vr < |s.offsets|
    ensures Follows(s, r.0, at) && Keeps(s, r.0, at)
    ensures 0 <= r.1 < |s.names| && r.0.names[r.1] == vr
  {
    var held := FirstHolder(s.names, vr);
    if held < |s.names| then (s, held)
    else
      var (t, pr) := AfterAllocate(s, vr, at);
      if t.offsets[vr] != INVALID then (AfterLoad(t, t.offsets[vr], pr, at), pr) else (t, pr)
  }

  /**
   * One read operand `vr` of the instruction at `at`: `ensure` it, rename it
   * there, and free its register when `dist(vr, i->next)` is INT_MAX.
   */
  function AfterRead(s: AllocState, vr: int, at: nat): (r: (AllocState, int))
    requires StateOk(s) && at < |s.code| && 0 <= vr < |s.offsets|
    ensures Follows(s, r.0, at) && 0 <= r.1 < |s.names|
    ensures s.fa != at ==> r.0.fa != at && r.0.code[at] == Replaced(s.code[at], vr, r.1)
  {
    var (t, pr) := AfterEnsure(s, vr, at);
    (AfterUse(t, vr, pr, at), pr)
  }

  /**
   * The read of `vr`, held in `pr`, by the instruction at `at`: the
   * instruction renamed, and `pr` freed when no later instruction reads `vr`.
   */
  function AfterUse(s: AllocState, vr: int, pr: int, at: nat): (r: AllocState)
    requires StateOk(s) && at < |s.code| && 0 <= pr < |s.names| && 0 <= vr < |s.offsets|
    ensures Follows(s, r, at) && r.fa == s.fa && r.code == s.code[at := Replaced(s.code[at], vr, pr)]
    ensures r.names == if Distance(r.code, vr, at + 1) == INT_MAX then s.names[pr := INVALID] else s.names
  {
    var c := s.code[at := Replaced(s.code[at], vr, pr)];
    ActiveFromUpdate(s.code, at, c[at], at + 1);
    ReplacedOk(s.code[at], vr, pr, |s.offsets|, |s.names|);
    AllocState(c, s.fa, if Distance(c, vr, at + 1) == INT_MAX then s.names[pr := INVALID] else s.names, s.offsets)
  }

  /** A state with the physical register each virtual register renamed so far was bound to. */
  datatype Renaming = Renaming(state: AllocState, bound: map<int, int>)

  /** `bound` after `vr` is renamed to `pr`: a register already renamed keeps its first binding. */
  function Bind(bound: map<int, int>, vr: int, pr: int): map<int, int> {
    if vr in bound then bound else bound[vr := pr]
  }

  /**
   * The read loop of the instruction at `at` over its first `m` read
   * operands `ops` (taken before the loop, repeats included), and the
   * registers the renaming bound: the instruction is the one it was, each
   * bound virtual register renamed to its register.
   */
  function AfterReads(s: AllocState, at: nat, ops: seq<Operand>, m: nat): (r: Renaming)
    requires StateOk(s) && at < |s.code| && m <= |ops|
    requires forall n :: 0 <= n < |ops| && ops[n].VirtualReg? ==> 0 <= ops[n].id < |s.offsets|
    ensures Follows(s, r.state, at)
    ensures s.fa != at ==> r.state.fa != at && r.state.code[at] == RenameWith(s.code[at], r.bound)
    decreases m
  {
    if m == 0 then
      RenameWithEmpty(s.code[at]);
      Renaming(s, map[])
    else
      var t := AfterReads(s, at, ops, m - 1);
      if ops[m - 1].VirtualReg? then
        var (u, pr) := AfterRead(t.state, ops[m - 1].id, at);
        ReplacedRenameWith(s.code[at], t.bound, ops[m - 1].id, pr);
        Renaming(u, Bind(t.bound, ops[m - 1].id, pr))
      else t
  }

  /** The read loop over `m + 1` operands is the loop over `m` and then the read of operand `m`, when virtual. */
  lemma ReadsUnfold(s: AllocState, at: nat, ops: seq<Operand>, m: nat)
    requires StateOk(s) && at < |s.code| && m < |ops|
    requires forall n :: 0 <= n < |ops| && ops[n].VirtualReg? ==> 0 <= ops[n].id < |s.offsets|
    ensures var t := AfterReads(s, at, ops, m).state;
      AfterReads(s, at, ops, m + 1).state == if ops[m].VirtualReg? then AfterRead(t, ops[m].id, at).0 else t
  {
  }

  /** The read loop of the instruction at `at` over all its read operands. */
  function AfterReadLoop(s: AllocState, at: nat): (r: Renaming)
    requires StateOk(s) && at < |s.code|
    ensures Follows(s, r.state, at) && r.state.code[at] == RenameWith(s.code[at], r.bound)
    ensures s.fa != at ==> r.state.fa != at
  {
    var ops := ReadOperands(s.code[at]);
    assert InsnOk(s.code[at], |s.offsets|, |s.names|);
    ReadsQuiet(s, at, ops, |ops|);
    RenameWithEmpty(s.code[at]);
    AfterReads(s, at, ops, |ops|)
  }

  /**
   * The write of the instruction at `at`: a virtual register still in the
   * write slot gets `allocate`'s register and is renamed.
   */
  function AfterWrite(s: AllocState, at: nat): (r: Renaming)
    requires StateOk(s) && at < |s.code|
    ensures Follows(s, r.state, at) && r.state.code[at] == RenameWith(s.code[at], r.bound)
    ensures forall v :: v in r.bound ==> WriteOperand(s.code[at]) == VirtualReg(v)
  {
    var w := WriteOperand(s.code[at]);
    RenameWithEmpty(s.code[at]);
    if w.VirtualReg? then
      WriteOperandOk(s.code[at], |s.offsets|, |s.names|);
      FrameAllocatorInactive(s.code[s.fa]);
      var (t, pr) := AfterAllocate(s, w.id, at);
      var c := t.code[at := Replaced(t.code[at], w.id, pr)];
      ActiveFromUpdate(t.code, at, c[at], at + 1);
      ReplacedOk(t.code[at], w.id, pr, |t.offsets|, |t.names|);
      ReplacedRenameWith(s.code[at], map[], w.id, pr);
      Renaming(t.(code := c), map[w.id := pr])
    else Renaming(s, map[])
  }

  /**
   * The reads and then the write of the instruction at `at`: the
   * instruction ends renamed by the registers both bound.
   */
  function AfterRename(s: AllocState, at: nat): (r: Renaming)
    requires StateOk(s) && at < |s.code|
    ensures Follows(s, r.state, at) && r.state.code[at] == RenameWith(s.code[at], r.bound)
    ensures NoVirtual(s.code[at]) ==> r == Renaming(s, map[])
  {
    var rd := AfterReadLoop(s, at);
    var wr := AfterWrite(rd.state, at);
    WrittenUnbound(s.code[at], rd.bound);
    RenameWithTwice(s.code[at], rd.bound, wr.bound);
    if NoVirtual(s.code[at]) then
      assert rd == Renaming(s, map[]) && wr == Renaming(s, map[]);
      Renaming(wr.state, rd.bound + wr.bound)
    else Renaming(wr.state, rd.bound + wr.bound)
  }

  /** The first `k` of `names` freed. */
  function Freed(names: seq<int>, k: nat): (r: seq<int>)
    ensures |r| == |names|
  {
    seq(|names|, q requires 0 <= q < |names| => if q < k then INVALID else names[q])
  }

  /** The intended spill before the `CALL` at `at`: `CallSpills` over the first `k` registers, all then free. */
  function AfterCallSpill(s: AllocState, k: nat, at: nat): (r: AllocState)
    requires StateOk(s) && at < |s.code| && k <= |s.names|
    ensures Follows(s, r, at) && Keeps(s, r, at)
  {
    var t := CallSpills(SpillState(s.code, s.fa, s.offsets), s.names, k, at);
    CallSpillsOk(SpillState(s.code, s.fa, s.offsets), s.names, k, at, |s.offsets|);
    CallSpillsLayout(SpillState(s.code, s.fa, s.offsets), s.names, k, at);
    AllocState(t.code, t.fa, Freed(s.names, k), t.offsets)
  }

  /**
   * One iteration of `allocate_registers`' loop at `i` with `k` registers:
   * the pre-call spill when `spillAtCalls` holds and the instruction is a
   * `CALL`, then the reads and the write; the instruction ends renamed by
   * the registers they bound.
   */
  function AfterStep(s: AllocState, k: nat, i: nat, spillAtCalls: bool): (r: Renaming)
    requires StateOk(s) && i < |s.code| && k <= |s.names|
    ensures Follows(s, r.state, i) && r.state.code[i] == RenameWith(s.code[i], r.bound)
    ensures (!spillAtCalls || s.code[i].form != Call) && NoVirtual(s.code[i]) ==> r.state == s
    ensures !Active(s.code[i]) ==> r.state == s
  {
    var s1 := if spillAtCalls && s.code[i].form == Call then AfterCallSpill(s, k, i) else s;
    AfterRename(s1, i)
  }

  /** `reset_mappings(k)`: the first `k` registers freed and every spill slot forgotten. */
  function AfterReset(s: AllocState, k: nat): (r: AllocState)
    requires StateOk(s) && k <= |s.names|
    ensures StateOk(r) && r.code == s.code && r.fa == s.fa && |r.names| == |s.names| && |r.offsets| == |s.offsets|
  {
    s.(names := Freed(s.names, k), offsets := seq(|s.offsets|, v => INVALID))
  }

  /** The loop of `allocate_registers` from position `i` to the end of the list. */
  function AfterPass(s: AllocState, k: nat, i: nat, spillAtCalls: bool): AllocState
    requires StateOk(s) && i <= |s.code| && k <= |s.names|
    decreases ActiveFrom(s.code, i), |s.code| - i
  {
    if i == |s.code| then s
    else
      var r := AfterStep(s, k, i, spillAtCalls).state;
      StepShrinks(s, k, i, spillAtCalls);
      AfterPass(r, k, i + 1, spillAtCalls)
  }

  /** A step leaves the work after it and, unless it leaves the state alone, takes an active instruction off. */
  lemma StepShrinks(s: AllocState, k: nat, i: nat, spillAtCalls: bool)
    requires StateOk(s) && i < |s.code| && k <= |s.names|
    ensures var r := AfterStep(s, k, i, spillAtCalls).state;
      StateOk(r) && i + 1 <= |r.code| && k <= |r.names|
    ensures var r := AfterStep(s, k, i, spillAtCalls).state;
      || ActiveFrom(r.code, i + 1) < ActiveFrom(s.code, i)
      || (ActiveFrom(r.code, i + 1) == ActiveFrom(s.code, i) && |r.code| == |s.code|)
  {
    assert ActiveFrom(s.code, i) == (if Active(s.code[i]) then 1 else 0) + ActiveFrom(s.code, i + 1);
  }

  /** The pass from `i` is one step and then the pass from `i + 1`; at the end of the list it is done. */
  lemma PassUnfold(s: AllocState, k: nat, i: nat, spillAtCalls: bool)
    requires StateOk(s) && i <= |s.code| && k <= |s.names|
    ensures i == |s.code| ==> AfterPass(s, k, i, spillAtCalls) == s
    ensures i < |s.code| ==>
      AfterPass(s, k, i, spillAtCalls) == AfterPass(AfterStep(s, k, i, spillAtCalls).state, k, i + 1, spillAtCalls)
  {
  }

  /** A well-formed instruction writes only a virtual register the `offset` table covers. */
  lemma WriteOperandOk(insn: Insn, maxVirtual: int, maxPhysical: int)
    requires InsnOk(insn, maxVirtual, maxPhysical)
    ensures WriteOperand(insn).VirtualReg? ==> 0 <= WriteOperand(insn).id < maxVirtual
  {
  }

  /** A virtual register left in the write slot after renaming by `bound` is one `bound` does not bind. */
  lemma WrittenUnbound(insn: Insn, bound: map<int, int>)
    ensures WriteOperand(RenameWith(insn, bound)).VirtualReg? ==>
      WriteOperand(RenameWith(insn, bound)).id !in bound && WriteOperand(insn) == WriteOperand(RenameWith(insn, bound))
  {
  }

  /** Renaming by `a` and then by `b`, which binds nothing `a` does, renames by both. */
  lemma RenameWithTwice(insn: Insn, a: map<int, int>, b: map<int, int>)
    requires forall v :: v in b ==> v !in a
    ensures RenameWith(RenameWith(insn, a), b) == RenameWith(insn, a + b)
  {
  }

  /** A read loop over operands none of which is virtual changes nothing and binds nothing. */
  lemma {:induction false} ReadsQuiet(s: AllocState, at: nat, ops: seq<Operand>, m: nat)
    requires StateOk(s) && at < |s.code| && m <= |ops|
    requires forall n :: 0 <= n < |ops| && ops[n].VirtualReg? ==> 0 <= ops[n].id < |s.offsets|
    ensures (forall n :: 0 <= n < m ==> !ops[n].VirtualReg?) ==> AfterReads(s, at, ops, m) == Renaming(s, map[])
  {
    if m > 0 {
      ReadsQuiet(s, at, ops, m - 1);
    }
  }

  /** The spill at a call keeps the list well formed and the work after the call. */
  lemma {:induction false} CallSpillsOk(s: SpillState, names: seq<int>, n: nat, at: nat, maxVirtual: int)
    requires SpillStateOk(s) && at < |s.code| && n <= |names|
    requires forall q :: 0 <= q < n ==> names[q] == INVALID || 0 <= names[q] < |s.offsets|
    requires CodeOk(s.code, maxVirtual, |names|)
    ensures var r := CallSpills(s, names, n, at);
      CodeOk(r.code, maxVirtual, |names|) && ActiveFrom(r.code, at + 1) == ActiveFrom(s.code, at + 1)
  {
    if n > 0 {
      CallSpillsOk(s, names, n - 1, at, maxVirtual);
      var t := CallSpills(s, names, n - 1, at);
      if names[n - 1] != INVALID {
        var imm := t.code[t.fa].op[1].value - WORD_SIZE;
        SpillKeepsFrame(t.code, t.fa, imm, at, n - 1, maxVirtual, |names|);
        SpliceOne(t.code, at, t.fa, imm, SpillStore(n - 1, imm));
      }
    }
  }

  /** The allocator's state: the global tables and the instruction list it rewrites. */
  class Allocator {
    /** `name[pr]`: the virtual register held in physical register `pr`, or INVALID. */
    const name: array<int>
    /** `offset[vr]`: the BP offset where `vr` was spilled, or INVALID. */
    const offset: array<int>
    /** The instruction list, spliced in place. */
    var code: seq<Insn>
    /** Position of the frame allocator `ADD_I SP, -X => SP` of the function. */
    var frameAlloc: nat
    /** Spill slots carved so far. */
    ghost var spills: nat
    /** The frame allocator's immediate before the pass. */
    ghost const frameSize0: int
    /** The list and its frame allocator's position before the pass. */
    ghost const input: seq<Insn>
    ghost const inputFrame: nat
    /** Where each instruction of `code` comes from. */
    ghost var origin: seq<Origin>

    ghost predicate Valid()
      reads this, name, offset
    {
      TablesOk() && ListOk()
    }

    /** Every register holds INVALID or a virtual register the `offset` table covers. */
    ghost predicate TablesOk()
      reads name
    {
      && name != offset
      && 1 <= name.Length
      && (forall pr :: 0 <= pr < name.Length ==> name[pr] == INVALID || 0 <= name[pr] < offset.Length)
    }

    /**
     * The list is well formed, traces back to the input, and its frame
     * allocator has grown by one word per spill store in it.
     */
    ghost predicate ListOk()
      reads this
    {
      ListInv(input, inputFrame, frameSize0, code, frameAlloc, origin, spills, offset.Length, name.Length)
    }

    /** The part of the state a spill changes. */
    function State(): SpillState
      reads this, offset
    {
      SpillState(code, frameAlloc, offset[..])
    }

    /** The allocator's whole state as a value. */
    function Contents(): AllocState
      reads this, name, offset
    {
      AllocState(code, frameAlloc, name[..], offset[..])
    }

    /** The frame allocator's current immediate: minus the frame size. */
    function FrameSize(): int
      reads this
      requires frameAlloc < |code| && code[frameAlloc].op[1].IntConst?
    {
      code[frameAlloc].op[1].value
    }

    /**
     * A fresh allocator over `code0`, with `names0` as the contents of the
     * `name` table (the slots `reset_mappings` does not reach keep them) and
     * the zero-initialised `offset` table of MAX_VIRTUAL_REGS entries.
     */
    constructor (code0: seq<Insn>, fa: nat, names0: seq<int>, maxVirtual: nat)
      requires 1 <= |names0| && fa < |code0| && IsFrameAllocator(code0[fa])
      requires forall pr :: 0 <= pr < |names0| ==> names0[pr] == INVALID || 0 <= names0[pr] < maxVirtual
      requires CodeOk(code0, maxVirtual, |names0|)
      ensures Valid() && fresh(name) && fresh(offset)
      ensures name[..] == names0 && offset.Length == maxVirtual
      ensures code == code0 && frameAlloc == fa && spills == 0
      ensures FrameSize() == code0[fa].op[1].value
      ensures input == code0 && inputFrame == fa && frameSize0 == code0[fa].op[1].value
    {
      name := new int[|names0|](pr requires 0 <= pr < |names0| => names0[pr]);
      offset := new int[maxVirtual](vr => 0);
      code := code0;
      frameAlloc := fa;
      spills := 0;
      frameSize0 := code0[fa].op[1].value;
      input, inputFrame := code0, fa;
      origin := Untouched(|code0|);
      TracedStart(code0, fa);
      UntouchedTrace(|code0|);
      new;
      assert name[..] == names0;
    }

    /** The store `name[pr] = v` of a register `pr` and INVALID or a tracked `v`. */
    method SetName(pr: int, v: int)
      requires Valid() && 0 <= pr < name.Length && (v == INVALID || 0 <= v < offset.Length)
      modifies name
      ensures Valid() && name[..] == old(name[..])[pr := v]
    {
      name[pr] := v;
    }

    /** `replace_register`: rewrite `vr` to `pr` in the instruction at `at`. */
    method ReplaceRegister(vr: int, pr: int, at: nat)
      requires Valid() && at < |code| && 0 <= pr < name.Length
      modifies this`code, this`origin
      ensures Valid() && origin == Rebound(old(origin), at, vr, pr)
      ensures code == old(code)[at := Replaced(old(code)[at], vr, pr)]
      ensures SplicedAfter(old(code), code, at, frameAlloc, frameAlloc)
    {
      var insn := code[at];
      var ops: seq<Operand> := insn.op;
      for s := 0 to 3
        invariant |ops| == 3
        invariant forall t :: 0 <= t < s ==> ops[t] == Replaced(insn, vr, pr).op[t]
        invariant forall t :: s <= t < 3 ==> ops[t] == insn.op[t]
      {
        if ops[s] == VirtualReg(vr) {
          ops := ops[s := PhysicalReg(pr)];
        }
      }
      assert ops == Replaced(insn, vr, pr).op;
      ReplaceSpliced(code, at, frameAlloc, insn.(op := ops));
      ReplaceKeepsList(input, inputFrame, frameSize0, code, frameAlloc, origin, spills, offset.Length, name.Length, at, vr, pr);
      code, origin := code[at := insn.(op := ops)], Rebound(origin, at, vr, pr);
    }

    /**
     * `insert_spill`: grow the frame by one word (lower the frame allocator's
     * immediate by WORD_SIZE) and splice `STORE_AI pr => BP, new` in directly
     * after `at`; returns the new immediate, the slot's BP offset.
     */
    method InsertSpill(pr: int, at: nat) returns (bpOffset: int)
      requires Valid() && at < |code| && 0 <= pr < name.Length
      modifies this`code, this`frameAlloc, this`spills, this`origin
      ensures Valid()
      ensures bpOffset == old(FrameSize()) - WORD_SIZE && FrameSize() == bpOffset
      ensures spills == old(spills) + 1
      ensures code == Insert(SetFrameSize(old(code), old(frameAlloc), bpOffset), at + 1, SpillStore(pr, bpOffset))
      ensures frameAlloc == if at + 1 <= old(frameAlloc) then old(frameAlloc) + 1 else old(frameAlloc)
      ensures SplicedAfter(old(code), code, at, old(frameAlloc), frameAlloc)
      ensures old(frameAlloc) != at ==> code[at] == old(code)[at]
    {
      var imm := code[frameAlloc].op[1].value;
      bpOffset := imm - WORD_SIZE;
      ghost var c0, fa0, o0, n0 := code, frameAlloc, origin, spills;
      SpliceOne(c0, at, fa0, bpOffset, SpillStore(pr, bpOffset));
      code := Insert(SetFrameSize(code, frameAlloc, bpOffset), at + 1, SpillStore(pr, bpOffset));
      frameAlloc := if at + 1 <= frameAlloc then frameAlloc + 1 else frameAlloc;
      origin, spills := Insert(origin, at + 1, Stored), spills + 1;
      SpillKeepsList(input, inputFrame, frameSize0, c0, fa0, o0, n0, offset.Length, name.Length, at, pr);
    }

    /** `insert_load`: splice `LOAD_AI BP, off => pr` in directly after `at`. */
    method InsertLoad(bpOffset: int, pr: int, at: nat)
      requires Valid() && at < |code| && 0 <= pr < name.Length
      modifies this`code, this`frameAlloc, this`origin
      ensures Valid() && FrameSize() == old(FrameSize())
      ensures Contents() == AfterLoad(old(Contents()), bpOffset, pr, at)
      ensures code == Insert(old(code), at + 1, Reload(bpOffset, pr))
      ensures frameAlloc == if at + 1 <= old(frameAlloc) then old(frameAlloc) + 1 else old(frameAlloc)
      ensures SplicedAfter(old(code), code, at, old(frameAlloc), frameAlloc)
      ensures old(frameAlloc) != at ==> code[at] == old(code)[at]
    {
      ghost var c0, fa0, o0 := code, frameAlloc, origin;
      InsertTail(c0, at, Reload(bpOffset, pr));
      code := Insert(code, at + 1, Reload(bpOffset, pr));
      frameAlloc := if at + 1 <= frameAlloc then frameAlloc + 1 else frameAlloc;
      origin := Insert(origin, at + 1, Reloaded);
      ReloadKeepsList(input, inputFrame, frameSize0, c0, fa0, o0, spills, offset.Length, name.Length, at, bpOffset, pr);
    }

    /**
     * `dist`: the 0-based distance from `from` to the first instruction that
     * reads `vr`, or INT_MAX when none up to the end of the list does.
     * Writes of `vr` are not uses.
     */
    method Dist(vr: int, from: nat) returns (d: int)
      requires from <= |code|
      ensures d == Distance(code, vr, from)
      ensures d != INT_MAX ==>
        && 0 <= d && from + d < |code| && ReadsVirtual(code[from + d], vr)
        && forall j :: from <= j < from + d ==> !ReadsVirtual(code[j], vr)
      ensures |code| - from <= INT_MAX ==>
        (d == INT_MAX <==> forall j :: from <= j < |code| ==> !ReadsVirtual(code[j], vr))
    {
      d := 0;
      var i := from;
      while i < |code|
        invariant from <= i <= |code| && d == i - from
        invariant forall j :: from <= j < i ==> !ReadsVirtual(code[j], vr)
      {
        var readOps := ReadOperands(code[i]);
        var k := 0;
        while k < |readOps|
          invariant 0 <= k <= |readOps|
          invariant forall m :: 0 <= m < k ==> readOps[m] != VirtualReg(vr)
        {
          if readOps[k] == VirtualReg(vr) {
            assert SlotReads(code[i], k, vr);
            FirstReadAt(code, vr, from, i);
            return;
          }
          k := k + 1;
        }
        assert !ReadsVirtual(code[i], vr);
        i := i + 1;
        d := d + 1;
      }
      FirstReadAt(code, vr, from, |code|);
      d := INT_MAX;
    }

    /**
     * `spill`: store the value of `pr` to a new frame slot right after `at`,
     * record the slot in `offset` for its resident, and free `pr`.
     */
    method Spill(pr: int, at: nat)
      requires Valid() && at < |code| && 0 <= pr < name.Length && name[pr] != INVALID
      modifies this, name, offset
      ensures Valid() && Contents() == AfterSpill(old(Contents()), pr, at)
      ensures name[pr] == INVALID && forall q :: 0 <= q < name.Length && q != pr ==> name[q] == old(name[q])
      ensures offset[old(name[pr])] == FrameSize()
      ensures forall v :: 0 <= v < offset.Length && v != old(name[pr]) ==> offset[v] == old(offset[v])
      ensures FrameSize() == old(FrameSize()) - WORD_SIZE && spills == old(spills) + 1
      ensures code == Insert(SetFrameSize(old(code), old(frameAlloc), FrameSize()), at + 1, SpillStore(pr, FrameSize()))
      ensures frameAlloc == if at + 1 <= old(frameAlloc) then old(frameAlloc) + 1 else old(frameAlloc)
      ensures SplicedAfter(old(code), code, at, old(frameAlloc), frameAlloc)
      ensures old(frameAlloc) != at ==> code[at] == old(code)[at]
    {
      var vr := name[pr];
      var bpOffset := InsertSpill(pr, at);
      offset[vr] := bpOffset;
      SetName(pr, INVALID);
      assert offset[..] == old(offset[..])[vr := bpOffset];
    }

    /**
     * The scan `for (pr = 0; pr < MAX_PHYSICAL_REGS; pr++) if (name[pr] == v)`:
     * the first register holding `v`, or `name.Length` when none does.
     */
    method FindName(v: int) returns (pr: int)
      ensures pr == FirstHolder(name[..], v)
      ensures 0 <= pr <= name.Length
      ensures pr < name.Length ==> name[pr] == v
      ensures forall q :: 0 <= q < pr ==> name[q] != v
    {
      pr := 0;
      while pr < name.Length
        invariant 0 <= pr <= name.Length
        invariant forall q :: 0 <= q < pr ==> name[q] != v
      {
        if name[pr] == v {
          return;
        }
        pr := pr + 1;
      }
    }

    /**
     * The eviction scan of `allocate`: the register whose resident's next
     * read from `from` is furthest away, the first such on a tie.
     */
    method ChooseVictim(from: nat) returns (spillPr: int)
      requires from <= |code| && 1 <= name.Length
      ensures spillPr == Victim(code, name[..], from)
      ensures EvictionChoice(code, name[..], from, spillPr)
    {
      ghost var ds := Dists(code, name[..], from, name.Length);
      var maxDist := -1;
      spillPr := -1;
      var pr := 0;
      while pr < name.Length
        invariant 0 <= pr <= name.Length
        invariant (spillPr, maxDist) == Furthest(ds[..pr])
      {
        var d := Dist(name[pr], from);
        assert ds[..pr + 1][..pr] == ds[..pr];
        if d > maxDist {
          maxDist := d;
          spillPr := pr;
        }
        pr := pr + 1;
      }
      assert ds[..name.Length] == ds;
      FurthestIsFurthest(ds);
    }

    /**
     * The full-file branch of `allocate`: the register `ChooseVictim` picks
     * among the residents' distances from the next instruction is spilled
     * right after `at` and handed to `vr`.
     */
    method Evict(vr: int, at: nat) returns (pr: int)
      requires Valid() && at < |code| && 0 <= vr < offset.Length
      requires forall q :: 0 <= q < name.Length ==> name[q] != INVALID
      modifies this, name, offset
      ensures Valid() && 0 <= pr < name.Length && name[pr] == vr
      ensures pr == Victim(old(code), old(name[..]), at + 1)
      ensures Contents() == AfterSpill(old(Contents()), pr, at).(names := old(name[..])[pr := vr])
      ensures forall q :: 0 <= q < name.Length && q != pr ==> name[q] == old(name[q])
      ensures EvictionChoice(old(code), old(name[..]), at + 1, pr)
      ensures offset[old(name[pr])] == FrameSize()
      ensures forall v :: 0 <= v < offset.Length && v != old(name[pr]) ==> offset[v] == old(offset[v])
      ensures FrameSize() == old(FrameSize()) - WORD_SIZE && spills == old(spills) + 1
      ensures code == Insert(SetFrameSize(old(code), old(frameAlloc), FrameSize()), at + 1, SpillStore(pr, FrameSize()))
      ensures SplicedAfter(old(code), code, at, old(frameAlloc), frameAlloc)
      ensures old(frameAlloc) != at ==> code[at] == old(code)[at]
    {
      pr := ChooseVictim(at + 1);
      Spill(pr, at);
      ghost var offsets := offset[..];
      SetName(pr, vr);
      assert offset[..] == offsets;
    }

    /**
     * `allocate`: give `vr` the lowest-numbered free register; when none is
     * free, evict one (`Evict`).
     */
    method Allocate(vr: int, at: nat) returns (pr: int)
      requires Valid() && at < |code| && 0 <= vr < offset.Length
      modifies this, name, offset
      ensures Valid() && spills >= old(spills)
      ensures (Contents(), pr) == AfterAllocate(old(Contents()), vr, at)
      ensures 0 <= pr < name.Length && name[pr] == vr
      ensures forall q :: 0 <= q < name.Length && q != pr ==> name[q] == old(name[q])
      ensures old(name[pr]) == INVALID ==>
        && (forall q :: 0 <= q < pr ==> old(name[q]) != INVALID)
        && code == old(code) && frameAlloc == old(frameAlloc) && spills == old(spills)
        && (forall v :: 0 <= v < offset.Length ==> offset[v] == old(offset[v]))
      ensures old(name[pr]) != INVALID ==>
        && (forall q :: 0 <= q < name.Length ==> old(name[q]) != INVALID)
        && EvictionChoice(old(code), old(name[..]), at + 1, pr)
        && offset[old(name[pr])] == FrameSize()
        && (forall v :: 0 <= v < offset.Length && v != old(name[pr]) ==> offset[v] == old(offset[v]))
        && FrameSize() == old(FrameSize()) - WORD_SIZE && spills == old(spills) + 1
        && code == Insert(SetFrameSize(old(code), old(frameAlloc), FrameSize()), at + 1, SpillStore(pr, FrameSize()))
      ensures SplicedAfter(old(code), code, at, old(frameAlloc), frameAlloc)
      ensures old(frameAlloc) != at ==> code[at] == old(code)[at]
    {
      pr := FindName(INVALID);
      if pr < name.Length {
        SetName(pr, vr);
        SplicedAfterRefl(code, at, frameAlloc);
        return;
      }
      pr := Evict(vr, at);
    }

    /**
     * `ensure`: the first register already holding `vr` if there is one
     * (nothing else changes); otherwise `allocate`'s register, reloaded from
     * `vr`'s spill slot right after `at` when `offset[vr]` is not INVALID.
     */
    method Ensure(vr: int, at: nat) returns (pr: int)
      requires Valid() && at < |code| && 0 <= vr < offset.Length
      modifies this, name, offset
      ensures Valid() && spills >= old(spills)
      ensures (Contents(), pr) == AfterEnsure(old(Contents()), vr, at)
      ensures 0 <= pr < name.Length && name[pr] == vr
      ensures forall q :: 0 <= q < name.Length && q != pr ==> name[q] == old(name[q])
      ensures old(name[pr]) == vr ==>
        && (forall q :: 0 <= q < pr ==> old(name[q]) != vr)
        && code == old(code) && frameAlloc == old(frameAlloc) && spills == old(spills)
        && (forall v :: 0 <= v < offset.Length ==> offset[v] == old(offset[v]))
      ensures old(name[pr]) != vr ==>
        && (forall q :: 0 <= q < name.Length ==> old(name[q]) != vr)
        && (old(name[pr]) == INVALID ==> forall q :: 0 <= q < pr ==> old(name[q]) != INVALID)
        && (old(name[pr]) != INVALID ==> EvictionChoice(old(code), old(name[..]), at + 1, pr))
      ensures old(name[pr]) != vr ==>
        var spilled := if old(name[pr]) == INVALID then old(code)
                       else Insert(SetFrameSize(old(code), old(frameAlloc), FrameSize()), at + 1, SpillStore(pr, FrameSize()));
        code == if old(offset[vr]) != INVALID then Insert(spilled, at + 1, Reload(old(offset[vr]), pr)) else spilled
      ensures old(name[pr]) != vr && old(name[pr]) != INVALID ==>
        && spills == old(spills) + 1 && FrameSize() == old(FrameSize()) - WORD_SIZE
        && offset[old(name[pr])] == FrameSize()
        && (forall v :: 0 <= v < offset.Length && v != old(name[pr]) ==> offset[v] == old(offset[v]))
      ensures old(name[pr]) == INVALID ==> spills == old(spills) && offset[..] == old(offset[..])
      ensures SplicedAfter(old(code), code, at, old(frameAlloc), frameAlloc)
      ensures old(frameAlloc) != at ==> code[at] == old(code)[at]
    {
      pr := FindName(vr);
      if pr < name.Length {
        SplicedAfterRefl(code, at, frameAlloc);
        return;
      }
      pr := LoadMissing(vr, at);
    }

    /**
     * The half of `ensure` for a `vr` no register holds: `allocate` a
     * register and, when `vr` was spilled, reload it right after `at`.
     */
    method LoadMissing(vr: int, at: nat) returns (pr: int)
      requires Valid() && at < |code| && 0 <= vr < offset.Length
      requires forall q :: 0 <= q < name.Length ==> name[q] != vr
      modifies this, name, offset
      ensures Valid() && spills >= old(spills)
      ensures var (t, p) := AfterAllocate(old(Contents()), vr, at);
        pr == p && Contents() == if t.offsets[vr] != INVALID then AfterLoad(t, t.offsets[vr], p, at) else t
      ensures 0 <= pr < name.Length && name[pr] == vr
      ensures forall q :: 0 <= q < name.Length && q != pr ==> name[q] == old(name[q])
      ensures old(name[pr]) == INVALID ==>
        && (forall q :: 0 <= q < pr ==> old(name[q]) != INVALID)
        && spills == old(spills) && FrameSize() == old(FrameSize()) && offset[..] == old(offset[..])
      ensures old(name[pr]) != INVALID ==>
        && EvictionChoice(old(code), old(name[..]), at + 1, pr)
        && spills == old(spills) + 1 && FrameSize() == old(FrameSize()) - WORD_SIZE
        && offset[old(name[pr])] == FrameSize()
        && (forall v :: 0 <= v < offset.Length && v != old(name[pr]) ==> offset[v] == old(offset[v]))
      ensures var spilled := if old(name[pr]) == INVALID then old(code)
                             else Insert(SetFrameSize(old(code), old(frameAlloc), FrameSize()), at + 1, SpillStore(pr, FrameSize()));
        code == if old(offset[vr]) != INVALID then Insert(spilled, at + 1, Reload(old(offset[vr]), pr)) else spilled
      ensures SplicedAfter(old(code), code, at, old(frameAlloc), frameAlloc)
      ensures old(frameAlloc) != at ==> code[at] == old(code)[at]
    {
      ghost var c0, fa0 := code, frameAlloc;
      pr := Allocate(vr, at);
      if offset[vr] != INVALID {
        ghost var c1, fa1, offsets := code, frameAlloc, offset[..];
        InsertLoad(offset[vr], pr, at);
        assert offset[..] == offsets;
        SplicedAfterTrans(c0, c1, code, at, fa0, fa1, frameAlloc);
      } else if old(name[pr]) == INVALID {
        assert offset[..] == old(offset[..]);
      }
    }

    /** `reset_mappings`: free the first `k` registers and forget every spill slot. */
    method ResetMappings(k: nat)
      requires Valid() && k <= name.Length
      modifies name, offset
      ensures Valid() && Contents() == AfterReset(old(Contents()), k)
      ensures forall pr :: 0 <= pr < k ==> name[pr] == INVALID
      ensures forall pr :: k <= pr < name.Length ==> name[pr] == old(name[pr])
      ensures forall vr :: 0 <= vr < offset.Length ==> offset[vr] == INVALID
    {
      for i := 0 to k
        invariant Valid()
        invariant forall pr :: 0 <= pr < i ==> name[pr] == INVALID
        invariant forall pr :: i <= pr < name.Length ==> name[pr] == old(name[pr])
      {
        name[i] := INVALID;
      }
      for i := 0 to offset.Length
        invariant Valid()
        invariant forall pr :: 0 <= pr < k ==> name[pr] == INVALID
        invariant forall pr :: k <= pr < name.Length ==> name[pr] == old(name[pr])
        invariant forall vr :: 0 <= vr < i ==> offset[vr] == INVALID
      {
        offset[i] := INVALID;
      }
      assert name[..] == Freed(old(name[..]), k);
      assert offset[..] == seq(offset.Length, v => INVALID);
    }

    /**
     * One iteration of the pre-call loop: spill `pr` if it holds a value,
     * as `SpillOne` does to the list, its frame allocator and the slots.
     * `c0`/`fa0` are the list and frame allocator position before the loop.
     */
    method SpillIfLive(pr: int, at: nat, ghost c0: seq<Insn>, ghost fa0: nat)
      requires Valid() && at < |code| && 0 <= pr < name.Length
      requires SplicedAfter(c0, code, at, fa0, frameAlloc) && (fa0 != at ==> code[at] == c0[at])
      modifies this, name, offset
      ensures Valid() && name[pr] == INVALID
      ensures forall q :: 0 <= q < name.Length && q != pr ==> name[q] == old(name[q])
      ensures spills == old(spills) + (if old(name[pr]) != INVALID then 1 else 0)
      ensures old(name[pr]) != INVALID ==>
        && FrameSize() == old(FrameSize()) - WORD_SIZE && offset[old(name[pr])] == FrameSize()
        && (forall v :: 0 <= v < offset.Length && v != old(name[pr]) ==> offset[v] == old(offset[v]))
        && code == Insert(SetFrameSize(old(code), old(frameAlloc), FrameSize()), at + 1, SpillStore(pr, FrameSize()))
      ensures old(name[pr]) == INVALID ==> code == old(code) && frameAlloc == old(frameAlloc) && offset[..] == old(offset[..])
      ensures State() == if old(name[pr]) != INVALID then SpillOne(old(State()), pr, old(name[pr]), at) else old(State())
      ensures SplicedAfter(c0, code, at, fa0, frameAlloc) && (fa0 != at ==> code[at] == c0[at])
    {
      if name[pr] != INVALID {
        ghost var c1, fa1, s1 := code, frameAlloc, State();
        ghost var vr := name[pr];
        Spill(pr, at);
        assert offset[..] == s1.offsets[vr := FrameSize()];
        SplicedAfterTrans(c0, c1, code, at, fa0, fa1, frameAlloc);
      }
    }

    /**
     * The state of the pre-call loop at `at` once registers below `pr` are
     * handled: against the residents `names0`, the spill state `s0`, the
     * spill count `spills0`, the list `c0` and the frame allocator position
     * `fa0` before the loop, those registers are free, later ones untouched,
     * and the list, frame allocator and slots are `CallSpills` over them.
     */
    ghost predicate SpilledUpTo(pr: nat, at: nat, names0: seq<int>, s0: SpillState, spills0: nat, c0: seq<Insn>, fa0: nat)
      reads this, name, offset
    {
      && Valid() && at < |code| && pr <= |names0| == name.Length
      && SpillStateOk(s0) && at < |s0.code| && |s0.offsets| == offset.Length
      && (forall q :: 0 <= q < |names0| ==> names0[q] == INVALID || 0 <= names0[q] < offset.Length)
      && (forall q :: 0 <= q < pr ==> name[q] == INVALID)
      && (forall q :: pr <= q < name.Length ==> name[q] == names0[q])
      && spills == spills0 + Occupied(names0, pr)
      && State() == CallSpills(s0, names0, pr, at)
      && SplicedAfter(c0, code, at, fa0, frameAlloc) && (fa0 != at ==> code[at] == c0[at])
    }

    /** One iteration of the pre-call loop, register `pr`. */
    method SpillNext(pr: nat, at: nat, ghost names0: seq<int>, ghost s0: SpillState, ghost spills0: nat,
                     ghost c0: seq<Insn>, ghost fa0: nat)
      requires pr < |names0| && SpilledUpTo(pr, at, names0, s0, spills0, c0, fa0)
      modifies this, name, offset
      ensures SpilledUpTo(pr + 1, at, names0, s0, spills0, c0, fa0)
    {
      CallSpillsNext(s0, names0, pr, at);
      SpillIfLive(pr, at, c0, fa0);
    }

    /**
     * The intended spill before a `CALL` at `at`: every occupied register among the
     * first `k` is spilled (its store lands right after the call) and freed;
     * the list, the frame allocator and the slots end as `CallSpills` says.
     */
    method SpillBeforeCall(k: nat, at: nat)
      requires Valid() && at < |code| && k <= name.Length
      modifies this, name, offset
      ensures Valid() && Contents() == AfterCallSpill(old(Contents()), k, at)
      ensures forall pr :: 0 <= pr < k ==> name[pr] == INVALID
      ensures forall pr :: k <= pr < name.Length ==> name[pr] == old(name[pr])
      ensures spills == old(spills) + Occupied(old(name[..]), k)
      ensures State() == CallSpills(old(State()), old(name[..]), k, at)
      ensures SplicedAfter(old(code), code, at, old(frameAlloc), frameAlloc)
      ensures old(frameAlloc) != at ==> code[at] == old(code)[at]
    {
      ghost var names0, s0 := name[..], State();
      SplicedAfterRefl(code, at, frameAlloc);
      for pr := 0 to k
        invariant SpilledUpTo(pr, at, names0, s0, old(spills), old(code), old(frameAlloc))
      {
        SpillNext(pr, at, names0, s0, old(spills), old(code), old(frameAlloc));
      }
      assert name[..] == Freed(names0, k);
    }

    /**
     * One read operand `vr` of the instruction at `at`: `ensure` it, rename
     * it, and free its register when `dist(vr, i->next)` is INT_MAX.
     */
    method ReadOne(vr: int, at: nat) returns (pr: int)
      requires Valid() && at < |code| && 0 <= vr < offset.Length
      modifies this, name, offset
      ensures Valid() && spills >= old(spills) && 0 <= pr < name.Length
      ensures (Contents(), pr) == AfterRead(old(Contents()), vr, at)
      ensures SplicedAfter(old(code), code, at, old(frameAlloc), frameAlloc)
      ensures name[pr] == if Distance(code, vr, at + 1) == INT_MAX then INVALID else vr
    {
      ghost var c0, fa0 := code, frameAlloc;
      pr := Ensure(vr, at);
      ghost var c1, fa1 := code, frameAlloc;
      UseRegister(vr, pr, at);
      SplicedAfterTrans(c0, c1, code, at, fa0, fa1, frameAlloc);
    }

    /** The rest of a read of `vr`, held in `pr`, at `at`: `replace_register`, then the `dist` test. */
    method UseRegister(vr: int, pr: int, at: nat)
      requires Valid() && at < |code| && 0 <= pr < name.Length && 0 <= vr < offset.Length
      modifies this`code, this`origin, name
      ensures Valid() && Contents() == AfterUse(old(Contents()), vr, pr, at)
      ensures SplicedAfter(old(code), code, at, frameAlloc, frameAlloc)
    {
      ReplaceRegister(vr, pr, at);
      var d := Dist(vr, at + 1);
      if d == INT_MAX {
        SetName(pr, INVALID);
      }
    }

    /**
     * Progress of the read loop of the step at `at` over its read operands
     * `ops`, `m` of them handled, from the state `s0` before the loop: the
     * state is `AfterReads`', the list a splice after `at`, and no handled
     * virtual operand is left in the instruction.
     */
    ghost predicate ReadProgress(at: nat, ops: seq<Operand>, m: nat, s0: AllocState)
      reads this, name, offset
    {
      && Valid() && StateOk(s0) && at < |s0.code| && m <= |ops|
      && (forall n :: 0 <= n < |ops| && ops[n].VirtualReg? ==> 0 <= ops[n].id < |s0.offsets| && s0.fa != at)
      && Contents() == AfterReads(s0, at, ops, m).state
      && SplicedAfter(s0.code, code, at, s0.fa, frameAlloc)
      && (forall n :: 0 <= n < m && ops[n].VirtualReg? ==>
            forall s :: 0 <= s < 3 ==> code[at].op[s] != ops[n])
    }

    /**
     * One iteration of the read loop of the step at `at`: the read operand
     * `ops[m]`, when virtual, goes through `ReadOne`.
     */
    method ReadSlot(at: nat, ops: seq<Operand>, m: nat, ghost s0: AllocState)
      requires m < |ops| && ReadProgress(at, ops, m, s0)
      modifies this, name, offset
      ensures ReadProgress(at, ops, m + 1, s0) && spills >= old(spills)
    {
      ReadsUnfold(s0, at, ops, m);
      if ops[m].VirtualReg? {
        ghost var c1, fa1 := code, frameAlloc;
        var pr := ReadOne(ops[m].id, at);
        SplicedAfterTrans(s0.code, c1, code, at, s0.fa, fa1, frameAlloc);
        assert code[at] == Replaced(c1[at], ops[m].id, pr);
        ReplacedLeaves(c1[at], ops, m, pr);
      }
    }

    /**
     * The read half of the step at `at`: each virtual register the
     * instruction reads (in slot order, repeats included) goes through
     * `ReadOne`.
     */
    method AllocateReads(at: nat)
      requires Valid() && at < |code|
      modifies this, name, offset
      ensures Valid() && spills >= old(spills)
      ensures Contents() == AfterReadLoop(old(Contents()), at).state
      ensures SplicedAfter(old(code), code, at, old(frameAlloc), frameAlloc)
      ensures forall s :: 0 <= s < 3 && IsRead(code[at], s) ==> !code[at].op[s].VirtualReg?
    {
      ghost var s0 := Contents();
      if frameAlloc == at {
        FrameAllocatorInactive(code[at]);
      }
      assert InsnOk(s0.code[at], offset.Length, name.Length);
      SplicedAfterRefl(code, at, frameAlloc);
      var readOps := ReadOperands(code[at]);
      forall n | 0 <= n < |readOps| && readOps[n].VirtualReg?
        ensures 0 <= readOps[n].id < offset.Length && s0.fa != at
      {
        assert readOps[n] == s0.code[at].op[n];
      }
      var m := 0;
      while m < |readOps|
        invariant ReadProgress(at, readOps, m, s0) && spills >= old(spills)
        decreases |readOps| - m
      {
        ReadSlot(at, readOps, m, s0);
        m := m + 1;
      }
      assert Contents() == AfterReadLoop(s0, at).state;
      forall s | 0 <= s < 3 && IsRead(code[at], s)
        ensures !code[at].op[s].VirtualReg?
      {
        assert readOps[s] == s0.code[at].op[s];
      }
    }

    /**
     * The write half of the step at `at`: a virtual register the instruction
     * still writes gets the register `pr` from `allocate`, which then holds
     * it, and is renamed; otherwise nothing changes and `pr` is INVALID.
     */
    method AllocateWrite(at: nat) returns (pr: int)
      requires Valid() && at < |code|
      modifies this, name, offset
      ensures Valid() && spills >= old(spills)
      ensures Contents() == AfterWrite(old(Contents()), at).state
      ensures var w := WriteOperand(old(code)[at]);
        if w.VirtualReg? then
          && AfterWrite(old(Contents()), at).bound == map[w.id := pr]
          && 0 <= pr < name.Length && name[pr] == w.id
          && code[at] == Replaced(old(code)[at], w.id, pr)
        else pr == INVALID
      ensures SplicedAfter(old(code), code, at, old(frameAlloc), frameAlloc)
      ensures !WriteOperand(code[at]).VirtualReg?
    {
      var w := WriteOperand(code[at]);
      if w.VirtualReg? {
        if frameAlloc == at {
          FrameAllocatorInactive(code[at]);
        }
        assert InsnOk(code[at], offset.Length, name.Length);
        ghost var c0, fa0 := code, frameAlloc;
        pr := Allocate(w.id, at);
        ghost var c1, fa1 := code, frameAlloc;
        ReplaceRegister(w.id, pr, at);
        SplicedAfterTrans(c0, c1, code, at, fa0, fa1, frameAlloc);
      } else {
        pr := INVALID;
        SplicedAfterRefl(code, at, frameAlloc);
      }
    }

    /**
     * The reads and then the write of the instruction at `i`.  Afterwards the
     * instruction names no virtual register.
     */
    method RenameAll(i: nat)
      requires Valid() && i < |code|
      modifies this, name, offset
      ensures Valid() && spills >= old(spills)
      ensures Contents() == AfterRename(old(Contents()), i).state
      ensures SplicedAfter(old(code), code, i, old(frameAlloc), frameAlloc)
      ensures NoVirtual(code[i])
    {
      ghost var c1, fa1 := code, frameAlloc;
      assert InsnOk(c1[i], offset.Length, name.Length);
      AllocateReads(i);
      ghost var c2, fa2 := code, frameAlloc;
      var pr := AllocateWrite(i);
      SplicedAfterTrans(c1, c2, code, i, fa1, fa2, frameAlloc);
      assert WriteOperand(code[i]) == if WriteSlot(code[i].form).Some? then code[i].op[WriteSlot(code[i].form).value] else Empty;
    }

    /**
     * One iteration of the pass over the instruction at `i`: the pre-call
     * spill for a `CALL` when `spillAtCalls` holds, then the reads, then the
     * write.  Afterwards the instruction names no virtual register.  The
     * code as written never takes the pre-call branch (see `CallAsWritten`),
     * so it runs with `spillAtCalls` false; `true` is the evidently intended
     * behaviour (see `CallSpilled`).
     */
    method Step(k: nat, i: nat, spillAtCalls: bool)
      requires Valid() && i < |code| && k <= name.Length
      modifies this, name, offset
      ensures Valid() && spills >= old(spills)
      ensures Contents() == AfterStep(old(Contents()), k, i, spillAtCalls).state
      ensures SplicedAfter(old(code), code, i, old(frameAlloc), frameAlloc)
      ensures NoVirtual(code[i])
      ensures spillAtCalls && old(code)[i].form == Call ==>
        && (forall pr :: 0 <= pr < k ==> name[pr] == INVALID)
        && (forall pr :: k <= pr < name.Length ==> name[pr] == old(name[pr]))
        && State() == CallSpills(old(State()), old(name[..]), k, i)
    {
      ghost var c0, fa0 := code, frameAlloc;
      if fa0 == i {
        FrameAllocatorInactive(c0[i]);
      }
      if spillAtCalls && code[i].form == Call {
        assert InsnOk(c0[i], offset.Length, name.Length);
        SpillBeforeCall(k, i);
        assert NoVirtual(code[i]);
      } else {
        SplicedAfterRefl(code, i, frameAlloc);
      }
      ghost var c1, fa1 := code, frameAlloc;
      RenameAll(i);
      SplicedAfterTrans(c0, c1, code, i, fa0, fa1, frameAlloc);
    }

    /**
     * The body of `allocate_registers` for a non-NULL list with `k` physical
     * registers, with the pre-call spill as `Step` describes: the state
     * `reset_mappings` and then the loop leave.  Afterwards no virtual
     * register remains, and the list traces back to the input: the input
     * instructions, renamed, in order, with only spill stores and reloads
     * between them, and the frame allocator's immediate lowered by one word
     * per spill store.
     */
    method Run(k: nat, spillAtCalls: bool)
      requires Valid() && k <= name.Length
      modifies this, name, offset
      ensures Valid()
      ensures Contents() == AfterPass(AfterReset(old(Contents()), k), k, 0, spillAtCalls)
      ensures forall j :: 0 <= j < |code| ==> NoVirtual(code[j])
      ensures FrameSize() == old(FrameSize()) - WORD_SIZE * (spills - old(spills))
      ensures Traced(input, inputFrame, code, frameAlloc, origin)
      ensures FrameSize() == input[inputFrame].op[1].value - WORD_SIZE * StoreCount(origin)
    {
      ResetMappings(k);
      Pass(k, spillAtCalls, AfterPass(Contents(), k, 0, spillAtCalls));
    }

    /** The loop of `allocate_registers` over the whole list with `k` physical registers. */
    method Pass(k: nat, spillAtCalls: bool, ghost target: AllocState)
      requires PassProgress(k, 0, spillAtCalls, target)
      modifies this, name, offset
      ensures Valid() && spills >= old(spills) && Contents() == target
      ensures forall j :: 0 <= j < |code| ==> NoVirtual(code[j])
    {
      var i := 0;
      while i < |code|
        invariant PassProgress(k, i, spillAtCalls, target) && spills >= old(spills)
        decreases ActiveFrom(code, i), |code| - i
      {
        Advance(k, i, spillAtCalls, target);
        i := i + 1;
      }
      PassUnfold(Contents(), k, i, spillAtCalls);
    }

    /**
     * Progress of the loop of `allocate_registers`, `i` instructions done:
     * what the rest of the loop leaves is `target`, and the instructions
     * done name no virtual register.  The first is said of every state equal
     * to the current one, so that `AfterPass` is unfolded only where a step
     * is taken.
     */
    ghost predicate PassProgress(k: nat, i: nat, spillAtCalls: bool, target: AllocState)
      reads this, name, offset
    {
      && Valid() && i <= |code| && k <= name.Length
      && (forall t {:trigger AfterPass(t, k, i, spillAtCalls)} ::
            t == Contents() ==> AfterPass(t, k, i, spillAtCalls) == target)
      && (forall j :: 0 <= j < i ==> NoVirtual(code[j]))
    }

    /** One iteration of the loop of `allocate_registers`: `Step` at `i`. */
    method Advance(k: nat, i: nat, spillAtCalls: bool, ghost target: AllocState)
      requires PassProgress(k, i, spillAtCalls, target) && i < |code|
      modifies this, name, offset
      ensures PassProgress(k, i + 1, spillAtCalls, target) && spills >= old(spills)
      ensures ActiveFrom(code, i + 1) < old(ActiveFrom(code, i))
           || (ActiveFrom(code, i + 1) == old(ActiveFrom(code, i)) && |code| == old(|code|))
    {
      ghost var c0, fa0, s := code, frameAlloc, Contents();
      PassUnfold(s, k, i, spillAtCalls);
      Step(k, i, spillAtCalls);
      assert AfterPass(Contents(), k, i + 1, spillAtCalls) == target;
      forall j | 0 <= j < i
        ensures NoVirtual(code[j])
      {
        if j == fa0 {
          FrameAllocatorInactive(code[j]);
        }
      }
    }
  }

  /** The allocator's starting state over `code` with the `name` table `names0`. */
  function Start(code: seq<Insn>, fa: nat, names0: seq<int>, maxVirtual: nat): (s: AllocState)
    ensures s.code == code && s.names == names0 && |s.offsets| == maxVirtual
  {
    AllocState(code, fa, names0, seq(maxVirtual, v => INVALID))
  }

  /** `reset_mappings` leaves the same state whatever the `offset` table held. */
  lemma ResetStart(s: AllocState, code: seq<Insn>, fa: nat, names0: seq<int>, maxVirtual: nat, k: nat)
    requires StateOk(s) && k <= |s.names|
    requires s.code == code && s.fa == fa && s.names == names0 && |s.offsets| == maxVirtual
    ensures StateOk(Start(code, fa, names0, maxVirtual))
    ensures AfterReset(s, k) == AfterReset(Start(code, fa, names0, maxVirtual), k)
  {
  }

  /**
   * `allocate_registers(list, k)`: a missing list is left alone; otherwise the
   * pass runs over it with `k` physical registers.  `fa` locates the frame
   * allocator and `names0` is the `name` table as the pass finds it.  The
   * result is the list `reset_mappings` and the loop leave; it names no
   * virtual register, every physical register it names is below |names0|,
   * and it traces back to the input with the frame allocator grown by one
   * word per spill store.
   */
  method AllocateRegisters(list: Option<seq<Insn>>, k: nat, fa: nat, names0: seq<int>, maxVirtual: nat)
    returns (result: Option<seq<Insn>>)
    requires 1 <= |names0| && k <= |names0|
    requires forall pr :: 0 <= pr < |names0| ==> names0[pr] == INVALID || 0 <= names0[pr] < maxVirtual
    requires list.Some? ==> fa < |list.value| && IsFrameAllocator(list.value[fa]) && CodeOk(list.value, maxVirtual, |names0|)
    ensures result.None? <==> list.None?
    ensures result.Some? ==> result.value == AfterPass(AfterReset(Start(list.value, fa, names0, maxVirtual), k), k, 0, false).code
    ensures result.Some? ==> forall j :: 0 <= j < |result.value| ==> NoVirtual(result.value[j])
    ensures result.Some? ==> CodeOk(result.value, maxVirtual, |names0|)
    ensures result.Some? ==> exists fa' :: 0 <= fa' < |result.value| && FrameGrown(result.value[fa'], list.value[fa].op[1].value)
    ensures result.Some? ==> exists origin: seq<Origin>, fa': nat ::
      && Traced(list.value, fa, result.value, fa', origin)
      && result.value[fa'].op[1] == IntConst(list.value[fa].op[1].value - WORD_SIZE * StoreCount(origin))
  {
    if list.None? {
      return None;
    }
    var a := new Allocator(list.value, fa, names0, maxVirtual);
    ghost var s0 := a.Contents();
    ResetStart(s0, list.value, fa, names0, maxVirtual, k);
    a.Run(k, false);
    assert a.Contents() == AfterPass(AfterReset(s0, k), k, 0, false);
    result := Some(a.code);
    GrownBy(a.code[a.frameAlloc], list.value[fa].op[1].value, StoreCount(a.origin));
  }

  /**
   * A body that keeps two values live at once: the frame allocator,
   * `loadI 1 => %vr0`, `loadI 2 => %vr1`, `add %vr0, %vr1 => %vr2`.
   */
  function AddDemo(): seq<Insn> {
    [Insn3(AddI, StackReg, IntConst(0), StackReg),
     Insn2(LoadI, IntConst(1), VirtualReg(0)),
     Insn2(LoadI, IntConst(2), VirtualReg(1)),
     Insn3(Add, VirtualReg(0), VirtualReg(1), VirtualReg(2))]
  }

  /** `AddDemo` with its first `n` instructions after the frame allocator allocated, and the `name` table then. */
  function AddDemoAfter(n: nat): AllocState
    requires n <= 3
  {
    var c := AddDemo();
    var c1 := c[1 := Insn2(LoadI, IntConst(1), PhysicalReg(0))];
    var c2 := c1[2 := Insn2(LoadI, IntConst(2), PhysicalReg(1))];
    var c3 := c2[3 := Insn3(Add, PhysicalReg(0), PhysicalReg(1), PhysicalReg(0))];
    var none := [INVALID, INVALID, INVALID];
    if n == 0 then AllocState(c, 0, [INVALID, INVALID], none)
    else if n == 1 then AllocState(c1, 0, [0, INVALID], none)
    else if n == 2 then AllocState(c2, 0, [0, 1], none)
    else AllocState(c3, 0, [2, INVALID], none)
  }

  /** The first `loadI` gets the first free register, 0. */
  lemma AddDemoFirst()
    ensures StateOk(AddDemoAfter(0)) && AfterStep(AddDemoAfter(0), 2, 1, false).state == AddDemoAfter(1)
  {
    var s := AddDemoAfter(0);
    assert FirstHolder(s.names, INVALID) == 0;
    assert s.names[0 := 0] == [0, INVALID];
    assert AfterReadLoop(s, 1) == Renaming(s, map[]);
  }

  /** The second `loadI` gets register 1, register 0 still holding `%vr0`. */
  lemma AddDemoSecond()
    ensures StateOk(AddDemoAfter(1)) && AfterStep(AddDemoAfter(1), 2, 2, false).state == AddDemoAfter(2)
  {
    var s := AddDemoAfter(1);
    assert FirstHolder(s.names, INVALID) == 1;
    assert s.names[1 := 1] == [0, 1];
    assert AfterReadLoop(s, 2) == Renaming(s, map[]);
  }

  /** The add reads both registers, frees both after this last use, and writes its sum to register 0. */
  lemma AddDemoThird()
    ensures StateOk(AddDemoAfter(2)) && AfterStep(AddDemoAfter(2), 2, 3, false).state == AddDemoAfter(3)
  {
    var s := AddDemoAfter(2);
    var ops := ReadOperands(s.code[3]);
    assert ops == [VirtualReg(0), VirtualReg(1)];
    var ca := s.code[3 := Insn3(Add, PhysicalReg(0), VirtualReg(1), VirtualReg(2))];
    var cb := s.code[3 := Insn3(Add, PhysicalReg(0), PhysicalReg(1), VirtualReg(2))];
    var a := AllocState(ca, 0, [INVALID, 1], s.offsets);
    var b := AllocState(cb, 0, [INVALID, INVALID], s.offsets);
    assert FirstHolder(s.names, 0) == 0;
    assert Replaced(s.code[3], 0, 0) == ca[3];
    assert AfterEnsure(s, 0, 3) == (s, 0);
    assert Distance(ca, 0, 4) == INT_MAX;
    assert s.names[0 := INVALID] == a.names;
    assert AfterUse(s, 0, 0, 3) == a;
    assert AfterRead(s, 0, 3) == (a, 0);
    assert FirstHolder(a.names, 1) == 1;
    assert AfterEnsure(a, 1, 3) == (a, 1);
    assert Replaced(ca[3], 1, 1) == cb[3];
    assert Distance(cb, 1, 4) == INT_MAX;
    assert a.names[1 := INVALID] == b.names;
    assert AfterUse(a, 1, 1, 3) == b;
    assert AfterRead(a, 1, 3) == (b, 1);
    assert AfterReadLoop(s, 3).state == b;
    assert FirstHolder(b.names, INVALID) == 0;
    assert b.names[0 := 2] == [2, INVALID];
    assert Replaced(cb[3], 2, 0) == AddDemoAfter(3).code[3];
  }

  /** The pass over `AddDemo` from instruction `n + 1`, the first `n` allocated, ends with all three allocated. */
  lemma {:induction false} AddDemoRest(n: nat)
    requires n <= 3
    ensures StateOk(AddDemoAfter(n)) && AfterPass(AddDemoAfter(n), 2, n + 1, false) == AddDemoAfter(3)
    decreases 3 - n
  {
    PassUnfold(AddDemoAfter(n), 2, n + 1, false);
    if n < 3 {
      if n == 0 {
        AddDemoFirst();
      } else if n == 1 {
        AddDemoSecond();
      } else {
        AddDemoThird();
      }
      AddDemoRest(n + 1);
    }
  }

  /**
   * With two registers and both free, the pass gives the two live values
   * of `AddDemo` registers 0 and 1, frees both at the add, their last use,
   * and reuses register 0 for the sum; no spill is needed.
   */
  lemma AddDemoAllocated()
    ensures StateOk(AddDemoAfter(0))
    ensures AfterReset(AddDemoAfter(0), 2) == AddDemoAfter(0)
    ensures AfterPass(AddDemoAfter(0), 2, 0, false) == AddDemoAfter(3)
  {
    AddDemoRest(0);
    AddDemoStart();
    PassUnfold(AddDemoAfter(0), 2, 0, false);
  }

  /**
   * `allocate_registers` on `AddDemo` with two free registers: registers 0,
   * 1 and then 0 again.
   */
  method AddDemoRun() returns (code: seq<Insn>)
    ensures code == AddDemoAfter(3).code
  {
    AddDemoAllocated();
    assert Start(AddDemo(), 0, [INVALID, INVALID], 3) == AddDemoAfter(0);
    var r := AllocateRegisters(Some(AddDemo()), 2, 0, [INVALID, INVALID], 3);
    code := r.value;
  }

  /** The frame allocator is left alone, and `reset_mappings` finds nothing to free. */
  lemma AddDemoStart()
    ensures StateOk(AddDemoAfter(0))
    ensures AfterReset(AddDemoAfter(0), 2) == AddDemoAfter(0)
    ensures AfterStep(AddDemoAfter(0), 2, 0, false).state == AddDemoAfter(0)
  {
    var s := AddDemoAfter(0);
    assert Freed(s.names, 2) == s.names;
    assert seq(|s.offsets|, v => INVALID) == s.offsets;
    assert !Active(s.code[0]);
  }

  /** A function body: the frame allocator, then a call with virtual register 0 in physical register 0. */
  function CallDemo(): seq<Insn> {
    [Insn3(AddI, StackReg, IntConst(-8), StackReg), Insn1(Call, CallLabel("f"))]
  }

  /** Spilling register 0, which holds virtual register 0, at the call of `CallDemo`. */
  lemma CallDemoSpills(s0: SpillState)
    requires s0.code == CallDemo() && s0.fa == 0 && |s0.offsets| == 1
    ensures CallSpills(s0, [0], 1, 1).code
         == [Insn3(AddI, StackReg, IntConst(-16), StackReg), Insn1(Call, CallLabel("f")), SpillStore(0, -16)]
  {
    CallSpillsNext(s0, [0], 0, 1);
    var framed := SetFrameSize(CallDemo(), 0, -16);
    assert [StackReg, IntConst(-8), StackReg][1 := IntConst(-16)] == [StackReg, IntConst(-16), StackReg];
    assert framed == [Insn3(AddI, StackReg, IntConst(-16), StackReg), Insn1(Call, CallLabel("f"))];
  }

  /**
   * The `CALL` test as written compares the operand array with the opcode,
   * so it never holds: the pass goes through the call with physical
   * register 0 still holding virtual register 0, and no store is emitted.
   */
  method CallAsWritten() returns (code: seq<Insn>, held: int)
    ensures code == CallDemo() && held == 0
  {
    var a := new Allocator(CallDemo(), 0, [0], 1);
    assert InsnOk(a.code[1], 1, 1);
    a.Step(1, 1, false);
    code, held := a.code, a.name[0];
  }

  /**
   * With the intended test, the call spills register 0: the frame grows by
   * one word, the store follows the call, and the register is freed.
   */
  method CallSpilled() returns (code: seq<Insn>, held: int)
    ensures code == [Insn3(AddI, StackReg, IntConst(-16), StackReg), Insn1(Call, CallLabel("f")), SpillStore(0, -16)]
    ensures held == INVALID
  {
    var a := new Allocator(CallDemo(), 0, [0], 1);
    ghost var s0 := a.State();
    a.Step(1, 1, true);
    CallDemoSpills(s0);
    code, held := a.code, a.name[0];
  }

  /** `insn` is a frame allocator whose immediate is `imm0` less some whole words. */
  predicate FrameGrown(insn: Insn, imm0: int) {
    && IsFrameAllocator(insn)
    && insn.op[1].value <= imm0
    && (imm0 - insn.op[1].value) % WORD_SIZE == 0
  }

  /** A frame allocator `n` words below `imm0` has grown by whole words. */
  lemma GrownBy(insn: Insn, imm0: int, n: nat)
    requires IsFrameAllocator(insn) && insn.op[1].value == imm0 - WORD_SIZE * n
    ensures FrameGrown(insn, imm0)
  {
    assert imm0 - insn.op[1].value == WORD_SIZE * n;
  }

  /** Number of occupied entries among the first `k` of `names`. */
  function Occupied(names: seq<int>, k: nat): nat
    requires k <= |names|
  {
    if k == 0 then 0 else Occupied(names, k - 1) + (if names[k - 1] != INVALID then 1 else 0)
  }
}

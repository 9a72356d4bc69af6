/**
 * Facts about generated instruction lists: which virtual registers they
 * write, whether every register is written before it is read, which labels
 * they define and which they jump to.
 */
module CodeFacts {
  import opened Wrappers
  import opened Iloc

  /** The lists of `parts`, one after another. */
  function Concat(parts: seq<seq<Insn>>): seq<Insn> {
    if |parts| == 0 then [] else Concat(parts[..|parts| - 1]) + parts[|parts| - 1]
  }

  /** The virtual register in slot `s` of `insn` when that slot is read. */
  function SlotReg(insn: Insn, s: nat): set<int>
    requires s < 3
  {
    if s < ReadCount(insn.form) && insn.op[s].VirtualReg? then {insn.op[s].id} else {}
  }

  /** The virtual registers `insn` reads. */
  function ReadRegs(insn: Insn): set<int> {
    SlotReg(insn, 0) + SlotReg(insn, 1) + SlotReg(insn, 2)
  }

  /** The virtual register `insn` writes, if any. */
  function WriteRegs(insn: Insn): set<int> {
    if WriteOperand(insn).VirtualReg? then {WriteOperand(insn).id} else {}
  }

  /** The labels `insn` may transfer control to. */
  function JumpTargets(insn: Insn): set<Operand> {
    match insn.form
    case Jump => {insn.op[0]}
    case Cbr => {insn.op[1], insn.op[2]}
    case _ => {}
  }

  /** The label `insn` defines, if it is a label instruction. */
  function LabelDefs(insn: Insn): set<Operand> {
    if insn.form == Label then {insn.op[0]} else {}
  }

  /** The virtual register an operand names, if any. */
  function Regs(o: Operand): set<int> {
    if o.VirtualReg? then {o.id} else {}
  }

  /** Forms that jump or define a label. */
  predicate Flow(form: Opcode) {
    form == Jump || form == Cbr || form == Label
  }

  // What each instruction shape the code generator emits reads, writes,
  // jumps to and defines.

  /** `op a, b => d`: arithmetic, comparison, `loadAO`. */
  lemma ArithFacts(form: Opcode, a: Operand, b: Operand, d: Operand)
    requires ReadCount(form) == 2 && WriteSlot(form) == Some(2) && !Flow(form)
    ensures ReadRegs(Insn3(form, a, b, d)) == Regs(a) + Regs(b)
    ensures WriteRegs(Insn3(form, a, b, d)) == Regs(d)
    ensures JumpTargets(Insn3(form, a, b, d)) == {} && LabelDefs(Insn3(form, a, b, d)) == {}
  {
  }

  /** `op a, c => d` with a constant `c`: `addI`, `multI`, `loadAI`. */
  lemma ImmFacts(form: Opcode, a: Operand, c: Operand, d: Operand)
    requires ReadCount(form) == 1 && WriteSlot(form) == Some(2) && !Flow(form)
    ensures ReadRegs(Insn3(form, a, c, d)) == Regs(a)
    ensures WriteRegs(Insn3(form, a, c, d)) == Regs(d)
    ensures JumpTargets(Insn3(form, a, c, d)) == {} && LabelDefs(Insn3(form, a, c, d)) == {}
  {
  }

  /** `op a => d`: `neg`, `not`, `i2i`. */
  lemma MoveFacts(form: Opcode, a: Operand, d: Operand)
    requires ReadCount(form) == 1 && WriteSlot(form) == Some(1) && !Flow(form)
    ensures ReadRegs(Insn2(form, a, d)) == Regs(a)
    ensures WriteRegs(Insn2(form, a, d)) == Regs(d)
    ensures JumpTargets(Insn2(form, a, d)) == {} && LabelDefs(Insn2(form, a, d)) == {}
  {
  }

  /** `loadI c => d`. */
  lemma LoadFacts(c: Operand, d: Operand)
    ensures ReadRegs(Insn2(LoadI, c, d)) == {}
    ensures WriteRegs(Insn2(LoadI, c, d)) == Regs(d)
    ensures JumpTargets(Insn2(LoadI, c, d)) == {} && LabelDefs(Insn2(LoadI, c, d)) == {}
  {
  }

  /** `op a` reading `a`: `push`, `print`. */
  lemma UseFacts(form: Opcode, a: Operand)
    requires ReadCount(form) == 1 && WriteSlot(form).None? && !Flow(form)
    ensures ReadRegs(Insn1(form, a)) == Regs(a)
    ensures WriteRegs(Insn1(form, a)) == {}
    ensures JumpTargets(Insn1(form, a)) == {} && LabelDefs(Insn1(form, a)) == {}
  {
  }

  /** `op a` touching no virtual register: `call`, `pop BP`. */
  lemma BareFacts(form: Opcode, a: Operand)
    requires ReadCount(form) == 0 && !Flow(form) && !a.VirtualReg?
    ensures ReadRegs(Insn1(form, a)) == {}
    ensures WriteRegs(Insn1(form, a)) == {}
    ensures JumpTargets(Insn1(form, a)) == {} && LabelDefs(Insn1(form, a)) == {}
  {
  }

  lemma ReturnFacts()
    ensures ReadRegs(Insn0(Return)) == {}
    ensures WriteRegs(Insn0(Return)) == {}
    ensures JumpTargets(Insn0(Return)) == {} && LabelDefs(Insn0(Return)) == {}
  {
  }

  /** `storeAI v => b, c`. */
  lemma StoreAIFacts(v: Operand, b: Operand, c: Operand)
    ensures ReadRegs(Insn3(StoreAI, v, b, c)) == Regs(v) + Regs(b)
    ensures WriteRegs(Insn3(StoreAI, v, b, c)) == {}
    ensures JumpTargets(Insn3(StoreAI, v, b, c)) == {} && LabelDefs(Insn3(StoreAI, v, b, c)) == {}
  {
  }

  /** `storeAO v => b, m`. */
  lemma StoreAOFacts(v: Operand, b: Operand, m: Operand)
    ensures ReadRegs(Insn3(StoreAO, v, b, m)) == Regs(v) + Regs(b) + Regs(m)
    ensures WriteRegs(Insn3(StoreAO, v, b, m)) == {}
    ensures JumpTargets(Insn3(StoreAO, v, b, m)) == {} && LabelDefs(Insn3(StoreAO, v, b, m)) == {}
  {
  }

  lemma JumpFacts(l: Operand)
    ensures ReadRegs(Insn1(Jump, l)) == {} && WriteRegs(Insn1(Jump, l)) == {}
    ensures JumpTargets(Insn1(Jump, l)) == {l} && LabelDefs(Insn1(Jump, l)) == {}
  {
  }

  lemma CbrFacts(c: Operand, t: Operand, f: Operand)
    ensures ReadRegs(Insn3(Cbr, c, t, f)) == Regs(c) && WriteRegs(Insn3(Cbr, c, t, f)) == {}
    ensures JumpTargets(Insn3(Cbr, c, t, f)) == {t, f} && LabelDefs(Insn3(Cbr, c, t, f)) == {}
  {
  }

  lemma LabelFacts(l: Operand)
    ensures ReadRegs(Insn1(Label, l)) == {} && WriteRegs(Insn1(Label, l)) == {}
    ensures JumpTargets(Insn1(Label, l)) == {} && LabelDefs(Insn1(Label, l)) == {l}
  {
  }

  // The shapes above for the opcodes the code generator emits, with the
  // opcode's slots already looked up.

  lemma DivFacts(a: Operand, b: Operand, d: Operand)
    ensures ReadRegs(Insn3(Div, a, b, d)) == Regs(a) + Regs(b) && WriteRegs(Insn3(Div, a, b, d)) == Regs(d)
    ensures JumpTargets(Insn3(Div, a, b, d)) == {} && LabelDefs(Insn3(Div, a, b, d)) == {}
  {
    ArithFacts(Div, a, b, d);
  }

  lemma MultFacts(a: Operand, b: Operand, d: Operand)
    ensures ReadRegs(Insn3(Mult, a, b, d)) == Regs(a) + Regs(b) && WriteRegs(Insn3(Mult, a, b, d)) == Regs(d)
    ensures JumpTargets(Insn3(Mult, a, b, d)) == {} && LabelDefs(Insn3(Mult, a, b, d)) == {}
  {
    ArithFacts(Mult, a, b, d);
  }

  lemma SubFacts(a: Operand, b: Operand, d: Operand)
    ensures ReadRegs(Insn3(Sub, a, b, d)) == Regs(a) + Regs(b) && WriteRegs(Insn3(Sub, a, b, d)) == Regs(d)
    ensures JumpTargets(Insn3(Sub, a, b, d)) == {} && LabelDefs(Insn3(Sub, a, b, d)) == {}
  {
    ArithFacts(Sub, a, b, d);
  }

  lemma LoadAOFacts(a: Operand, b: Operand, d: Operand)
    ensures ReadRegs(Insn3(LoadAO, a, b, d)) == Regs(a) + Regs(b) && WriteRegs(Insn3(LoadAO, a, b, d)) == Regs(d)
    ensures JumpTargets(Insn3(LoadAO, a, b, d)) == {} && LabelDefs(Insn3(LoadAO, a, b, d)) == {}
  {
    ArithFacts(LoadAO, a, b, d);
  }

  lemma MultIFacts(a: Operand, c: Operand, d: Operand)
    ensures ReadRegs(Insn3(MultI, a, c, d)) == Regs(a) && WriteRegs(Insn3(MultI, a, c, d)) == Regs(d)
    ensures JumpTargets(Insn3(MultI, a, c, d)) == {} && LabelDefs(Insn3(MultI, a, c, d)) == {}
  {
    ImmFacts(MultI, a, c, d);
  }

  lemma LoadAIFacts(a: Operand, c: Operand, d: Operand)
    ensures ReadRegs(Insn3(LoadAI, a, c, d)) == Regs(a) && WriteRegs(Insn3(LoadAI, a, c, d)) == Regs(d)
    ensures JumpTargets(Insn3(LoadAI, a, c, d)) == {} && LabelDefs(Insn3(LoadAI, a, c, d)) == {}
  {
    ImmFacts(LoadAI, a, c, d);
  }

  lemma AddIFacts(a: Operand, c: Operand, d: Operand)
    ensures ReadRegs(Insn3(AddI, a, c, d)) == Regs(a) && WriteRegs(Insn3(AddI, a, c, d)) == Regs(d)
    ensures JumpTargets(Insn3(AddI, a, c, d)) == {} && LabelDefs(Insn3(AddI, a, c, d)) == {}
  {
    ImmFacts(AddI, a, c, d);
  }

  lemma NegFacts(a: Operand, d: Operand)
    ensures ReadRegs(Insn2(Neg, a, d)) == Regs(a) && WriteRegs(Insn2(Neg, a, d)) == Regs(d)
    ensures JumpTargets(Insn2(Neg, a, d)) == {} && LabelDefs(Insn2(Neg, a, d)) == {}
  {
    MoveFacts(Neg, a, d);
  }

  lemma NotFacts(a: Operand, d: Operand)
    ensures ReadRegs(Insn2(Not, a, d)) == Regs(a) && WriteRegs(Insn2(Not, a, d)) == Regs(d)
    ensures JumpTargets(Insn2(Not, a, d)) == {} && LabelDefs(Insn2(Not, a, d)) == {}
  {
    MoveFacts(Not, a, d);
  }

  lemma I2IFacts(a: Operand, d: Operand)
    ensures ReadRegs(Insn2(I2I, a, d)) == Regs(a) && WriteRegs(Insn2(I2I, a, d)) == Regs(d)
    ensures JumpTargets(Insn2(I2I, a, d)) == {} && LabelDefs(Insn2(I2I, a, d)) == {}
  {
    MoveFacts(I2I, a, d);
  }

  lemma PushFacts(a: Operand)
    ensures ReadRegs(Insn1(Push, a)) == Regs(a) && WriteRegs(Insn1(Push, a)) == {}
    ensures JumpTargets(Insn1(Push, a)) == {} && LabelDefs(Insn1(Push, a)) == {}
  {
    UseFacts(Push, a);
  }

  lemma PrintFacts(a: Operand)
    ensures ReadRegs(Insn1(Print, a)) == Regs(a) && WriteRegs(Insn1(Print, a)) == {}
    ensures JumpTargets(Insn1(Print, a)) == {} && LabelDefs(Insn1(Print, a)) == {}
  {
    UseFacts(Print, a);
  }

  lemma PopFacts(a: Operand)
    requires !a.VirtualReg?
    ensures ReadRegs(Insn1(Pop, a)) == {} && WriteRegs(Insn1(Pop, a)) == {}
    ensures JumpTargets(Insn1(Pop, a)) == {} && LabelDefs(Insn1(Pop, a)) == {}
  {
    BareFacts(Pop, a);
  }

  lemma CallFacts(a: Operand)
    requires !a.VirtualReg?
    ensures ReadRegs(Insn1(Call, a)) == {} && WriteRegs(Insn1(Call, a)) == {}
    ensures JumpTargets(Insn1(Call, a)) == {} && LabelDefs(Insn1(Call, a)) == {}
  {
    BareFacts(Call, a);
  }

  /** The virtual registers `code` writes. */
  function Written(code: seq<Insn>): set<int> {
    if |code| == 0 then {} else Written(code[..|code| - 1]) + WriteRegs(code[|code| - 1])
  }

  /** The labels `code` may jump to. */
  function Targets(code: seq<Insn>): set<Operand> {
    if |code| == 0 then {} else Targets(code[..|code| - 1]) + JumpTargets(code[|code| - 1])
  }

  /** The labels `code` defines. */
  function Labels(code: seq<Insn>): set<Operand> {
    if |code| == 0 then {} else Labels(code[..|code| - 1]) + LabelDefs(code[|code| - 1])
  }

  /**
   * Every virtual register an instruction of `code` reads is in `pre` or is
   * written by an earlier instruction of `code`.
   */
  predicate DefinedBeforeUse(code: seq<Insn>, pre: set<int>) {
    |code| == 0 ||
    (DefinedBeforeUse(code[..|code| - 1], pre) && ReadRegs(code[|code| - 1]) <= pre + Written(code[..|code| - 1]))
  }

  /** Every jump target of `code` is a label `code` defines or one of `open`. */
  predicate Closed(code: seq<Insn>, open: set<Operand>) {
    Targets(code) <= Labels(code) + open
  }

  /** Statement code: self-contained, and every jump lands on one of its labels or on one of `open`. */
  predicate StmtCodeOk(code: seq<Insn>, open: set<Operand>) {
    DefinedBeforeUse(code, {}) && Closed(code, open)
  }

  /** Straight-line code reading only registers that `pre` or its own earlier instructions provide. */
  predicate Straight(code: seq<Insn>, pre: set<int>) {
    DefinedBeforeUse(code, pre) && Targets(code) == {}
  }

  /** An expression's code: straight-line, self-contained, and its result written. */
  predicate ExprCodeOk(code: seq<Insn>, temp: Operand) {
    Straight(code, {}) && Regs(temp) <= Written(code)
  }

  /** What `a + b` writes, jumps to and defines. */
  lemma {:induction false} Parts(a: seq<Insn>, b: seq<Insn>)
    ensures Written(a + b) == Written(a) + Written(b)
    ensures Targets(a + b) == Targets(a) + Targets(b)
    ensures Labels(a + b) == Labels(a) + Labels(b)
    decreases |b|
  {
    if |b| == 0 {
      assert a + b == a;
    } else {
      assert (a + b)[..|a + b| - 1] == a + b[..|b| - 1];
      Parts(a, b[..|b| - 1]);
    }
  }

  lemma {:induction false} DefinedMono(code: seq<Insn>, p: set<int>, q: set<int>)
    requires DefinedBeforeUse(code, p) && p <= q
    ensures DefinedBeforeUse(code, q)
    decreases |code|
  {
    if |code| > 0 {
      DefinedMono(code[..|code| - 1], p, q);
    }
  }

  /** Definedness composes: `b` may read what `a` wrote. */
  lemma {:induction false} DefinedAppend(a: seq<Insn>, b: seq<Insn>, pre: set<int>)
    requires DefinedBeforeUse(a, pre) && DefinedBeforeUse(b, pre + Written(a))
    ensures DefinedBeforeUse(a + b, pre)
    decreases |b|
  {
    if |b| == 0 {
      assert a + b == a;
    } else {
      var b' := b[..|b| - 1];
      assert (a + b)[..|a + b| - 1] == a + b';
      DefinedAppend(a, b', pre);
      Parts(a, b');
    }
  }

  /** Two independently well-defined pieces stay well defined side by side. */
  lemma {:induction false} DefinedJoin(a: seq<Insn>, b: seq<Insn>)
    requires DefinedBeforeUse(a, {}) && DefinedBeforeUse(b, {})
    ensures DefinedBeforeUse(a + b, {})
    ensures Written(a + b) == Written(a) + Written(b)
    ensures Targets(a + b) == Targets(a) + Targets(b)
    ensures Labels(a + b) == Labels(a) + Labels(b)
  {
    var none: set<int> := {};
    assert none + Written(a) == Written(a);
    DefinedMono(b, none, Written(a));
    DefinedAppend(a, b, none);
    Parts(a, b);
  }

  /** `a` then `b`, where `b` may read what `a` wrote. */
  lemma {:induction false} DefinedThen(a: seq<Insn>, b: seq<Insn>)
    requires DefinedBeforeUse(a, {}) && DefinedBeforeUse(b, Written(a))
    ensures DefinedBeforeUse(a + b, {})
    ensures Written(a + b) == Written(a) + Written(b)
    ensures Targets(a + b) == Targets(a) + Targets(b)
    ensures Labels(a + b) == Labels(a) + Labels(b)
  {
    var none: set<int> := {};
    assert none + Written(a) == Written(a);
    DefinedAppend(a, b, none);
    Parts(a, b);
  }

  /** A single instruction is well defined when what it reads is in `pre`. */
  lemma {:induction false} DefinedOne(x: Insn, pre: set<int>)
    requires ReadRegs(x) <= pre
    ensures DefinedBeforeUse([x], pre)
    ensures Written([x]) == WriteRegs(x)
    ensures Targets([x]) == JumpTargets(x) && Labels([x]) == LabelDefs(x)
  {
    assert [x][..0] == [];
  }

  /** Appending `x`, whose reads `code` or `pre` provide. */
  lemma {:induction false} DefinedSnoc(code: seq<Insn>, x: Insn, pre: set<int>)
    requires DefinedBeforeUse(code, pre) && ReadRegs(x) <= pre + Written(code)
    ensures DefinedBeforeUse(code + [x], pre)
    ensures Written(code + [x]) == Written(code) + WriteRegs(x)
    ensures Targets(code + [x]) == Targets(code) + JumpTargets(x)
    ensures Labels(code + [x]) == Labels(code) + LabelDefs(x)
  {
    assert (code + [x])[..|code|] == code;
  }

  lemma {:induction false} ConcatSnoc(parts: seq<seq<Insn>>, i: nat)
    requires i < |parts|
    ensures Concat(parts[..i + 1]) == Concat(parts[..i]) + parts[i]
  {
    assert parts[..i + 1][..i] == parts[..i];
  }

  /** Concatenated well-defined lists are well defined. */
  lemma {:induction false} DefinedConcat(parts: seq<seq<Insn>>)
    requires forall j :: 0 <= j < |parts| ==> DefinedBeforeUse(parts[j], {})
    ensures DefinedBeforeUse(Concat(parts), {})
  {
    if |parts| > 0 {
      DefinedConcat(parts[..|parts| - 1]);
      DefinedJoin(Concat(parts[..|parts| - 1]), parts[|parts| - 1]);
    }
  }

  /** Concatenated lists each closed under `open` are closed under `open`. */
  lemma {:induction false} ClosedConcat(parts: seq<seq<Insn>>, open: set<Operand>)
    requires forall j :: 0 <= j < |parts| ==> Closed(parts[j], open)
    ensures Closed(Concat(parts), open)
  {
    if |parts| > 0 {
      var init := parts[..|parts| - 1];
      ClosedConcat(init, open);
      Parts(Concat(init), parts[|parts| - 1]);
    }
  }

  /** Concatenated lists without jumps have no jumps. */
  lemma {:induction false} NoJumpsConcat(parts: seq<seq<Insn>>)
    requires forall j :: 0 <= j < |parts| ==> Targets(parts[j]) == {}
    ensures Targets(Concat(parts)) == {}
  {
    if |parts| > 0 {
      NoJumpsConcat(parts[..|parts| - 1]);
      Parts(Concat(parts[..|parts| - 1]), parts[|parts| - 1]);
    }
  }

  /** The registers written by concatenated lists. */
  lemma {:induction false} WrittenConcat(parts: seq<seq<Insn>>, j: nat)
    requires j < |parts|
    ensures Written(parts[j]) <= Written(Concat(parts))
  {
    var init := parts[..|parts| - 1];
    Parts(Concat(init), parts[|parts| - 1]);
    if j < |parts| - 1 {
      WrittenConcat(init, j);
    }
  }

  /** Expression code followed by one instruction writing its result `d`. */
  lemma ExprStep1(c: seq<Insn>, x: Insn, d: Operand)
    requires DefinedBeforeUse(c, {}) && Targets(c) == {}
    requires ReadRegs(x) <= Written(c) && JumpTargets(x) == {} && Regs(d) <= WriteRegs(x)
    ensures ExprCodeOk(c + [x], d)
  {
    DefinedSnoc(c, x, {});
  }

  /** Expression code followed by two instructions, the second writing `d`. */
  lemma ExprStep2(c: seq<Insn>, x: Insn, y: Insn, d: Operand)
    requires DefinedBeforeUse(c, {}) && Targets(c) == {}
    requires ReadRegs(x) <= Written(c) && JumpTargets(x) == {}
    requires ReadRegs(y) <= Written(c) + WriteRegs(x) && JumpTargets(y) == {}
    requires Regs(d) <= WriteRegs(y)
    ensures ExprCodeOk(c + [x] + [y], d)
  {
    DefinedSnoc(c, x, {});
    DefinedSnoc(c + [x], y, {});
  }

  /** Expression code followed by three instructions, the third writing `d`. */
  lemma ExprStep3(c: seq<Insn>, x: Insn, y: Insn, z: Insn, d: Operand)
    requires DefinedBeforeUse(c, {}) && Targets(c) == {}
    requires ReadRegs(x) <= Written(c) && JumpTargets(x) == {}
    requires ReadRegs(y) <= Written(c) + WriteRegs(x) && JumpTargets(y) == {}
    requires ReadRegs(z) <= Written(c) + WriteRegs(x) + WriteRegs(y) && JumpTargets(z) == {}
    requires Regs(d) <= WriteRegs(z)
    ensures ExprCodeOk(c + [x] + [y] + [z], d)
  {
    DefinedSnoc(c, x, {});
    DefinedSnoc(c + [x], y, {});
    DefinedSnoc(c + [x] + [y], z, {});
  }

  /** A label appended to `code`. */
  lemma LabelSnoc(code: seq<Insn>, l: Operand)
    requires DefinedBeforeUse(code, {})
    ensures DefinedBeforeUse(code + [Insn1(Label, l)], {})
    ensures Targets(code + [Insn1(Label, l)]) == Targets(code)
    ensures Labels(code + [Insn1(Label, l)]) == Labels(code) + {l}
  {
    LabelFacts(l);
    DefinedSnoc(code, Insn1(Label, l), {});
  }

  /** A jump to `j` appended to `code`. */
  lemma JumpSnoc(code: seq<Insn>, j: Operand)
    requires DefinedBeforeUse(code, {})
    ensures DefinedBeforeUse(code + [Insn1(Jump, j)], {})
    ensures Targets(code + [Insn1(Jump, j)]) == Targets(code) + {j}
    ensures Labels(code + [Insn1(Jump, j)]) == Labels(code)
  {
    JumpFacts(j);
    DefinedSnoc(code, Insn1(Jump, j), {});
  }

  /** A jump to `j` and a label `l` appended to `code`. */
  lemma JumpThenLabel(code: seq<Insn>, j: Operand, l: Operand)
    requires DefinedBeforeUse(code, {})
    ensures DefinedBeforeUse(code + [Insn1(Jump, j)] + [Insn1(Label, l)], {})
    ensures Targets(code + [Insn1(Jump, j)] + [Insn1(Label, l)]) == Targets(code) + {j}
    ensures Labels(code + [Insn1(Jump, j)] + [Insn1(Label, l)]) == Labels(code) + {l}
  {
    JumpSnoc(code, j);
    LabelSnoc(code + [Insn1(Jump, j)], l);
  }

  /** Two pieces of statement code side by side, each closed under `open`. */
  lemma StmtJoin(a: seq<Insn>, b: seq<Insn>, open: set<Operand>)
    requires StmtCodeOk(a, open) && StmtCodeOk(b, open)
    ensures StmtCodeOk(a + b, open)
  {
    DefinedJoin(a, b);
    forall x | x in Targets(a + b)
      ensures x in Labels(a + b) + open
    {
      if x in Targets(a) {
        assert x in Labels(a) + open;
      } else {
        assert x in Labels(b) + open;
      }
    }
  }

  /** Code closed under `p` is closed under every larger set. */
  lemma StmtWiden(code: seq<Insn>, p: set<Operand>, q: set<Operand>)
    requires StmtCodeOk(code, p) && p <= q
    ensures StmtCodeOk(code, q)
  {
  }

  // ---------------------------------------------------------------------
  // Fresh names: each register written once, each label defined once.
  // ---------------------------------------------------------------------

  /** No virtual register is written by two instructions of `code`. */
  predicate WriteOnce(code: seq<Insn>) {
    |code| == 0 ||
    (WriteOnce(code[..|code| - 1]) && WriteRegs(code[|code| - 1]) !! Written(code[..|code| - 1]))
  }

  /** No label is defined by two instructions of `code`. */
  predicate LabelOnce(code: seq<Insn>) {
    |code| == 0 ||
    (LabelOnce(code[..|code| - 1]) && LabelDefs(code[|code| - 1]) !! Labels(code[..|code| - 1]))
  }

  /** Every register of `s` lies in [lo, hi). */
  predicate Within(s: set<int>, lo: int, hi: int) {
    forall v :: v in s ==> lo <= v < hi
  }

  /** Every label of `s` is an anonymous label in [lo, hi). */
  predicate AnonWithin(s: set<Operand>, lo: int, hi: int) {
    forall x :: x in s ==> x.AnonLabel? && lo <= x.lid < hi
  }

  /** `code` writes each of its virtual registers once, and all of them lie in [lo, hi). */
  predicate RegsFresh(code: seq<Insn>, lo: int, hi: int) {
    WriteOnce(code) && Within(Written(code), lo, hi)
  }

  /** `code` defines each of its labels once, and all of them are anonymous labels in [lo, hi). */
  predicate LabelsFresh(code: seq<Insn>, lo: int, hi: int) {
    LabelOnce(code) && AnonWithin(Labels(code), lo, hi)
  }

  /** Expression code: fresh registers in [lo, hi), its temporary among them, and no labels. */
  predicate ExprFresh(code: seq<Insn>, temp: Operand, lo: int, hi: int) {
    RegsFresh(code, lo, hi) && Labels(code) == {} && Within(Regs(temp), lo, hi)
  }

  lemma {:induction false} WriteOnceAppend(a: seq<Insn>, b: seq<Insn>)
    requires WriteOnce(a) && WriteOnce(b) && Written(a) !! Written(b)
    ensures WriteOnce(a + b)
    decreases |b|
  {
    if |b| == 0 {
      assert a + b == a;
    } else {
      var b' := b[..|b| - 1];
      assert (a + b)[..|a + b| - 1] == a + b';
      assert (a + b)[|a + b| - 1] == b[|b| - 1];
      WriteOnceAppend(a, b');
      Parts(a, b');
    }
  }

  lemma {:induction false} LabelOnceAppend(a: seq<Insn>, b: seq<Insn>)
    requires LabelOnce(a) && LabelOnce(b) && Labels(a) !! Labels(b)
    ensures LabelOnce(a + b)
    decreases |b|
  {
    if |b| == 0 {
      assert a + b == a;
    } else {
      var b' := b[..|b| - 1];
      assert (a + b)[..|a + b| - 1] == a + b';
      assert (a + b)[|a + b| - 1] == b[|b| - 1];
      LabelOnceAppend(a, b');
      Parts(a, b');
    }
  }

  /** Code that defines no label defines none twice. */
  lemma {:induction false} NoLabelsOnce(code: seq<Insn>)
    requires Labels(code) == {}
    ensures LabelOnce(code)
    decreases |code|
  {
    if |code| > 0 {
      NoLabelsOnce(code[..|code| - 1]);
    }
  }

  /** Registers in [lo, mid) and registers in [mid, hi) are apart. */
  lemma Apart(s: set<int>, t: set<int>, lo: int, mid: int, hi: int)
    requires Within(s, lo, mid) && Within(t, mid, hi) && lo <= mid <= hi
    ensures s !! t && Within(s + t, lo, hi)
  {
    forall v | v in s
      ensures v !in t
    {
    }
  }

  /** Anonymous labels in [lo, mid) and anonymous labels in [mid, hi) are apart. */
  lemma AnonApart(s: set<Operand>, t: set<Operand>, lo: int, mid: int, hi: int)
    requires AnonWithin(s, lo, mid) && AnonWithin(t, mid, hi) && lo <= mid <= hi
    ensures s !! t && AnonWithin(s + t, lo, hi)
  {
  }

  /** `a`, writing registers in [lo, mid), then `b`, writing registers in [mid, hi). */
  lemma RegsJoin(a: seq<Insn>, b: seq<Insn>, lo: int, mid: int, hi: int)
    requires RegsFresh(a, lo, mid) && RegsFresh(b, mid, hi) && lo <= mid <= hi
    ensures RegsFresh(a + b, lo, hi)
    ensures Written(a + b) == Written(a) + Written(b) && Labels(a + b) == Labels(a) + Labels(b)
  {
    Parts(a, b);
    Apart(Written(a), Written(b), lo, mid, hi);
    WriteOnceAppend(a, b);
  }

  /** `p`, whose registers avoid the gap [m1, m2), then `c`, writing registers in that gap. */
  lemma RegsFillGap(p: seq<Insn>, c: seq<Insn>, lo: int, m1: int, m2: int, hi: int)
    requires RegsFresh(p, lo, hi) && RegsFresh(c, m1, m2) && lo <= m1 <= m2 <= hi
    requires forall v :: v in Written(p) ==> v < m1 || m2 <= v
    ensures RegsFresh(p + c, lo, hi)
    ensures Written(p + c) == Written(p) + Written(c) && Labels(p + c) == Labels(p) + Labels(c)
  {
    Parts(p, c);
    forall v | v in Written(c)
      ensures v !in Written(p)
    {
    }
    WriteOnceAppend(p, c);
  }

  /** One more instruction, writing registers in [mid, hi) above those of `code`. */
  lemma RegsSnocAbove(code: seq<Insn>, x: Insn, lo: int, mid: int, hi: int)
    requires RegsFresh(code, lo, mid) && Within(WriteRegs(x), mid, hi) && lo <= mid <= hi
    ensures RegsFresh(code + [x], lo, hi)
    ensures Written(code + [x]) == Written(code) + WriteRegs(x)
    ensures Labels(code + [x]) == Labels(code) + LabelDefs(x)
  {
    Apart(Written(code), WriteRegs(x), lo, mid, hi);
    RegsSnoc(code, x, lo, hi);
  }

  /** A single instruction writes and defines only its own registers and labels, each once. */
  lemma Single(x: Insn)
    ensures WriteOnce([x]) && Written([x]) == WriteRegs(x)
    ensures LabelOnce([x]) && Labels([x]) == LabelDefs(x)
  {
    var none: seq<Insn> := [];
    assert none + [x] == [x];
    LabelOnceSnoc(none, x);
    assert [x][..0] == none;
  }

  /** A label definition followed by three instructions that neither write a register nor define a label. */
  lemma LabelThenQuiet(a: Insn, b: Insn, c: Insn, d: Insn)
    requires WriteRegs(a) == {} && WriteRegs(b) == {} && WriteRegs(c) == {} && WriteRegs(d) == {}
    requires LabelDefs(b) == {} && LabelDefs(c) == {} && LabelDefs(d) == {}
    ensures WriteOnce([a] + [b] + [c] + [d]) && Written([a] + [b] + [c] + [d]) == {}
    ensures LabelOnce([a] + [b] + [c] + [d]) && Labels([a] + [b] + [c] + [d]) == LabelDefs(a)
  {
    var none: seq<Insn> := [];
    assert none + [a] == [a];
    LabelOnceSnoc(none, a);
    RegsSnoc(none, a, 0, 0);
    LabelOnceSnoc([a], b);
    RegsSnoc([a], b, 0, 0);
    LabelOnceSnoc([a] + [b], c);
    RegsSnoc([a] + [b], c, 0, 0);
    LabelOnceSnoc([a] + [b] + [c], d);
    RegsSnoc([a] + [b] + [c], d, 0, 0);
  }

  /** `a`, writing registers in [mid, hi), then `b`, writing registers in [lo, mid). */
  lemma RegsJoinBelow(a: seq<Insn>, b: seq<Insn>, lo: int, mid: int, hi: int)
    requires RegsFresh(a, mid, hi) && RegsFresh(b, lo, mid) && lo <= mid <= hi
    ensures RegsFresh(a + b, lo, hi)
    ensures Written(a + b) == Written(a) + Written(b) && Labels(a + b) == Labels(a) + Labels(b)
  {
    Parts(a, b);
    Apart(Written(b), Written(a), lo, mid, hi);
    WriteOnceAppend(a, b);
  }

  /** One more instruction, writing a register in [lo, hi) that `code` does not write. */
  lemma RegsSnoc(code: seq<Insn>, x: Insn, lo: int, hi: int)
    requires RegsFresh(code, lo, hi) && Within(WriteRegs(x), lo, hi) && WriteRegs(x) !! Written(code)
    ensures RegsFresh(code + [x], lo, hi)
    ensures Written(code + [x]) == Written(code) + WriteRegs(x)
    ensures Labels(code + [x]) == Labels(code) + LabelDefs(x)
  {
    assert (code + [x])[..|code|] == code;
  }

  /** `a` then `b`, the registers and labels of `b` above those of `a`. */
  lemma FreshJoin(a: seq<Insn>, b: seq<Insn>, r0: int, r1: int, r2: int, l0: int, l1: int, l2: int)
    requires RegsFresh(a, r0, r1) && RegsFresh(b, r1, r2) && r0 <= r1 <= r2
    requires LabelsFresh(a, l0, l1) && LabelsFresh(b, l1, l2) && l0 <= l1 <= l2
    ensures RegsFresh(a + b, r0, r2) && LabelsFresh(a + b, l0, l2)
    ensures Written(a + b) == Written(a) + Written(b) && Labels(a + b) == Labels(a) + Labels(b)
  {
    Parts(a, b);
    Apart(Written(a), Written(b), r0, r1, r2);
    AnonApart(Labels(a), Labels(b), l0, l1, l2);
    WriteOnceAppend(a, b);
    LabelOnceAppend(a, b);
  }

  /** One more instruction, with a register in [r0, r1) and a label in [l0, l1) that `code` has not used. */
  lemma FreshSnoc(code: seq<Insn>, x: Insn, r0: int, r1: int, l0: int, l1: int)
    requires RegsFresh(code, r0, r1) && LabelsFresh(code, l0, l1)
    requires Within(WriteRegs(x), r0, r1) && WriteRegs(x) !! Written(code)
    requires AnonWithin(LabelDefs(x), l0, l1) && LabelDefs(x) !! Labels(code)
    ensures RegsFresh(code + [x], r0, r1) && LabelsFresh(code + [x], l0, l1)
    ensures Written(code + [x]) == Written(code) + WriteRegs(x)
    ensures Labels(code + [x]) == Labels(code) + LabelDefs(x)
  {
    assert (code + [x])[..|code|] == code;
  }

  /** One more instruction defining no label that `code` defines. */
  lemma LabelOnceSnoc(code: seq<Insn>, x: Insn)
    requires LabelOnce(code) && LabelDefs(x) !! Labels(code)
    ensures LabelOnce(code + [x])
    ensures Labels(code + [x]) == Labels(code) + LabelDefs(x)
    ensures Written(code + [x]) == Written(code) + WriteRegs(x)
  {
    assert (code + [x])[..|code|] == code;
  }
}

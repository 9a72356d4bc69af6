/**
 * The code generator: one emitter per syntax-tree node kind, run bottom-up,
 * each producing the node's instruction list and, for an expression, the
 * virtual register that holds its value.  The layout functions below give
 * the exact code of each construct; the emitters in `CodeGenData` are
 * proved to produce it, and the lemmas here say what the layouts guarantee:
 * every virtual register is written before it is read, and every jump lands
 * on a label the code defines or on a label of an enclosing construct.
 */
module CodeGen {
  import opened Wrappers
  import opened Iloc
  import opened Ast
  import opened CodeFacts

  /** `var_offset`: the constant offset of a variable from its base; emits nothing. */
  function VarOffset(sym: Symbol): (op: Operand)
    ensures op.IntConst?
    ensures sym.storage == StaticVar ==> op.value == 0
    ensures sym.storage != StaticVar ==> op.value == sym.offset
  {
    match sym.storage
    case StaticVar => IntConst(0)
    case StackParam | StackLocal => IntConst(sym.offset)
  }

  /** The register `var_base` leaves a variable's base address in, `n` being the next free register. */
  function BaseOf(sym: Symbol, n: int): Operand {
    if sym.storage == StaticVar then VirtualReg(n) else BaseReg
  }

  /** The code `var_base` emits: a global's slot loaded into a fresh register, nothing for a frame variable. */
  function BaseLoad(sym: Symbol, n: int): seq<Insn> {
    if sym.storage == StaticVar then [Insn2(LoadI, IntConst(sym.offset), VirtualReg(n))] else []
  }

  /** How many fresh registers `var_base` takes. */
  function BaseRegs(sym: Symbol): nat {
    if sym.storage == StaticVar then 1 else 0
  }

  /** The opcode of each binary operator except `%`, which has none. */
  function BinOpcode(op: BinOp): (form: Opcode)
    requires op != ModOp
    ensures ReadCount(form) == 2 && WriteSlot(form) == Some(2)
    ensures form != Jump && form != Cbr && form != Label
  {
    match op
    case OrOp => Or
    case AndOp => And
    case EqOp => CmpEq
    case NeqOp => CmpNe
    case LtOp => CmpLt
    case LeOp => CmpLe
    case GeOp => CmpGe
    case GtOp => CmpGt
    case AddOp => Add
    case SubOp => Sub
    case MulOp => Mult
    case DivOp => Div
  }

  /**
   * A binary operation: left code, right code, then the operator into the
   * register `n`; `%` goes through a quotient `n + 1` and a product `n + 2`.
   */
  function BinaryCode(op: BinOp, lc: seq<Insn>, lt: Operand, rc: seq<Insn>, rt: Operand, n: int): seq<Insn> {
    if op == ModOp then
      lc + rc
      + [Insn3(Div, lt, rt, VirtualReg(n + 1))]
      + [Insn3(Mult, VirtualReg(n + 1), rt, VirtualReg(n + 2))]
      + [Insn3(Sub, lt, VirtualReg(n + 2), VirtualReg(n))]
    else
      lc + rc + [Insn3(BinOpcode(op), lt, rt, VirtualReg(n))]
  }

  function BinaryRegs(op: BinOp): nat {
    if op == ModOp then 3 else 1
  }

  /** A unary operation: the operand's code, then one instruction into register `n`. */
  function UnaryCode(op: UnOp, cc: seq<Insn>, ct: Operand, n: int): seq<Insn> {
    cc + [Insn2(if op == NegOp then Neg else Not, ct, VirtualReg(n))]
  }

  /**
   * A variable read.  A scalar is one base+offset load; an array element
   * scales its index by the word size and loads base+register.  The base
   * load comes first, the index code after it.
   */
  function LocationCode(sym: Symbol, index: Option<(seq<Insn>, Operand)>, n: int): seq<Insn>
    requires sym.kind == ArraySymbol ==> index.Some?
  {
    var b := BaseOf(sym, n);
    var m := n + BaseRegs(sym);
    if sym.kind == ArraySymbol then
      BaseLoad(sym, n) + index.value.0
      + [Insn3(MultI, index.value.1, IntConst(WORD_SIZE), VirtualReg(m + 1))]
      + [Insn3(LoadAO, b, VirtualReg(m + 1), VirtualReg(m))]
    else
      BaseLoad(sym, n) + [Insn3(LoadAI, b, VarOffset(sym), VirtualReg(m))]
  }

  /** The register a variable read leaves its value in. */
  function LocationResult(sym: Symbol, n: int): Operand {
    VirtualReg(n + BaseRegs(sym))
  }

  function LocationRegs(sym: Symbol): nat {
    BaseRegs(sym) + if sym.kind == ArraySymbol then 2 else 1
  }

  /**
   * An assignment.  An array element store evaluates the index, loads the
   * base and scales the index before the right-hand side's code; a scalar
   * store evaluates the right-hand side first.
   */
  function AssignCode(sym: Symbol, index: Option<(seq<Insn>, Operand)>, vc: seq<Insn>, vt: Operand, n: int): seq<Insn>
    requires sym.kind == ArraySymbol ==> index.Some?
  {
    var b := BaseOf(sym, n);
    var m := n + BaseRegs(sym);
    if sym.kind == ArraySymbol then
      index.value.0 + BaseLoad(sym, n) + [Insn3(MultI, index.value.1, IntConst(WORD_SIZE), VirtualReg(m))]
      + vc + [Insn3(StoreAO, vt, b, VirtualReg(m))]
    else
      vc + BaseLoad(sym, n) + [Insn3(StoreAI, vt, b, VarOffset(sym))]
  }

  function AssignRegs(sym: Symbol): nat {
    BaseRegs(sym) + if sym.kind == ArraySymbol then 1 else 0
  }

  /**
   * A return: the value's code and a move into RET when there is a value (a
   * value without a register is loaded from [BP-8] into register `n`), then
   * always a jump to the epilogue label.
   */
  function ReturnCode(res: Option<(seq<Insn>, Operand)>, epi: Operand, n: int): seq<Insn> {
    match res
    case None => [Insn1(Jump, epi)]
    case Some((c, t)) =>
      if t == Empty then
        c + [Insn3(LoadAI, BaseReg, IntConst(-WORD_SIZE), VirtualReg(n))] + [Insn2(I2I, VirtualReg(n), ReturnReg)] + [Insn1(Jump, epi)]
      else
        c + [Insn2(I2I, t, ReturnReg)] + [Insn1(Jump, epi)]
  }

  /** A while loop around the labels `top`, `body` and `end`. */
  function WhileCode(top: Operand, body: Operand, end: Operand, cc: seq<Insn>, ct: Operand, bc: seq<Insn>): seq<Insn> {
    [Insn1(Label, top)] + cc + [Insn3(Cbr, ct, body, end)] + [Insn1(Label, body)]
    + bc + [Insn1(Jump, top)] + [Insn1(Label, end)]
  }

  /**
   * A conditional.  With an else block the then-code jumps over it to the
   * `merge` label and the else-code stands at the `end` label.
   */
  function IfCode(body: Operand, end: Operand, merge: Operand, cc: seq<Insn>, ct: Operand, tc: seq<Insn>, ec: Option<seq<Insn>>): seq<Insn> {
    var head := cc + [Insn3(Cbr, ct, body, end)] + [Insn1(Label, body)] + tc;
    match ec
    case None => head + [Insn1(Label, end)]
    case Some(e) => head + [Insn1(Jump, merge)] + [Insn1(Label, end)] + e + [Insn1(Label, merge)]
  }

  /** A function's prologue: its label, the saved frame pointer, and a word reserved per block local. */
  function Prologue(name: string, locals: int): seq<Insn> {
    [Insn1(Label, CallLabel(name))] + [Insn1(Push, BaseReg)] + [Insn2(I2I, StackReg, BaseReg)]
    + [Insn3(AddI, StackReg, IntConst(locals * -WORD_SIZE), StackReg)]
  }

  /** A function's epilogue at label `epi`: the frame torn down and control returned. */
  function Epilogue(epi: Operand): seq<Insn> {
    [Insn1(Label, epi)] + [Insn2(I2I, BaseReg, StackReg)] + [Insn1(Pop, BaseReg)] + [Insn0(Opcode.Return)]
  }

  /** A function: prologue, body, epilogue. */
  function FuncCode(name: string, locals: int, epi: Operand, bc: seq<Insn>): seq<Insn> {
    Prologue(name, locals) + bc + Epilogue(epi)
  }

  /** The push of one argument: its register, or a fresh register `r` loaded with its literal value when it has none. */
  function PushOne(t: Operand, lit: int, r: int): seq<Insn> {
    if t == Empty then [Insn2(LoadI, IntConst(lit), VirtualReg(r))] + [Insn1(Push, VirtualReg(r))]
    else [Insn1(Push, t)]
  }

  /** How many of `temps` have no register. */
  function Missing(temps: seq<Operand>): nat {
    if |temps| == 0 then 0 else Missing(temps[1..]) + if temps[0] == Empty then 1 else 0
  }

  /** The pushes' code and the next free register after them. */
  datatype Pushed = Pushed(code: seq<Insn>, next: int)

  /**
   * The pushes of all arguments, last argument first; an argument without a
   * register takes the next fresh one, counting from `r`.
   */
  function Pushes(temps: seq<Operand>, lits: seq<int>, r: int): (p: Pushed)
    requires |temps| == |lits|
    ensures r <= p.next
  {
    if |temps| == 0 then Pushed([], r)
    else
      var rest := Pushes(temps[1..], lits[1..], r);
      Pushed(rest.code + PushOne(temps[0], lits[0], rest.next), rest.next + if temps[0] == Empty then 1 else 0)
  }

  /** The literal values the pushes fall back on. */
  function Lits(args: seq<Expr>): (r: seq<int>)
    ensures |r| == |args| && forall i :: 0 <= i < |args| ==> r[i] == LiteralInt(args[i])
  {
    seq(|args|, i requires 0 <= i < |args| => LiteralInt(args[i]))
  }

  /**
   * A call after the argument code and pushes `c`: the call itself, the
   * stack pointer restored by a word per argument (`count` of them), and the
   * return value copied into the fresh register `r`.  The generator passes
   * every argument's code in order followed by `Pushes` as `c`.
   */
  function CallCode(c: seq<Insn>, name: string, count: int, r: int): seq<Insn> {
    c + [Insn1(Call, CallLabel(name))] + [Insn3(AddI, StackReg, IntConst(count * WORD_SIZE), StackReg)]
    + [Insn2(I2I, ReturnReg, VirtualReg(r))]
  }

  /**
   * A print call: `print_str` prints its argument's string, the others load
   * the argument's literal value into its register and print that.  Neither
   * copies the argument's code.
   */
  function PrintCode(name: string, arg: Expr, t: Operand): seq<Insn> {
    if name == "print_str" then [Insn1(Print, StrConst(LiteralText(arg)))]
    else [Insn2(LoadI, IntConst(LiteralInt(arg)), t)] + [Insn1(Print, t)]
  }

  // ---------------------------------------------------------------------
  // What the layouts guarantee.
  // ---------------------------------------------------------------------

  lemma BaseLoadOk(sym: Symbol, n: int)
    ensures ExprCodeOk(BaseLoad(sym, n), BaseOf(sym, n))
    ensures Labels(BaseLoad(sym, n)) == {}
  {
    if sym.storage == StaticVar {
      LoadFacts(IntConst(sym.offset), VirtualReg(n));
      DefinedOne(Insn2(LoadI, IntConst(sym.offset), VirtualReg(n)), {});
    }
  }

  /** The three instructions of `%` after operand code `c`. */
  lemma ModTail(c: seq<Insn>, lt: Operand, rt: Operand, n: int)
    requires DefinedBeforeUse(c, {}) && Targets(c) == {}
    requires Regs(lt) + Regs(rt) <= Written(c)
    ensures ExprCodeOk(c
      + [Insn3(Div, lt, rt, VirtualReg(n + 1))]
      + [Insn3(Mult, VirtualReg(n + 1), rt, VirtualReg(n + 2))]
      + [Insn3(Sub, lt, VirtualReg(n + 2), VirtualReg(n))], VirtualReg(n))
  {
    DivFacts(lt, rt, VirtualReg(n + 1));
    MultFacts(VirtualReg(n + 1), rt, VirtualReg(n + 2));
    SubFacts(lt, VirtualReg(n + 2), VirtualReg(n));
    ExprStep3(c, Insn3(Div, lt, rt, VirtualReg(n + 1)), Insn3(Mult, VirtualReg(n + 1), rt, VirtualReg(n + 2)),
      Insn3(Sub, lt, VirtualReg(n + 2), VirtualReg(n)), VirtualReg(n));
  }

  /** A binary operation's code is well defined and leaves its value in register `n`. */
  lemma BinaryOk(op: BinOp, lc: seq<Insn>, lt: Operand, rc: seq<Insn>, rt: Operand, n: int)
    requires ExprCodeOk(lc, lt) && ExprCodeOk(rc, rt)
    ensures ExprCodeOk(BinaryCode(op, lc, lt, rc, rt, n), VirtualReg(n))
  {
    DefinedJoin(lc, rc);
    if op == ModOp {
      ModTail(lc + rc, lt, rt, n);
    } else {
      ArithFacts(BinOpcode(op), lt, rt, VirtualReg(n));
      ExprStep1(lc + rc, Insn3(BinOpcode(op), lt, rt, VirtualReg(n)), VirtualReg(n));
    }
  }

  lemma UnaryOk(op: UnOp, cc: seq<Insn>, ct: Operand, n: int)
    requires ExprCodeOk(cc, ct)
    ensures ExprCodeOk(UnaryCode(op, cc, ct, n), VirtualReg(n))
  {
    if op == NegOp {
      NegFacts(ct, VirtualReg(n));
      ExprStep1(cc, Insn2(Neg, ct, VirtualReg(n)), VirtualReg(n));
    } else {
      NotFacts(ct, VirtualReg(n));
      ExprStep1(cc, Insn2(Not, ct, VirtualReg(n)), VirtualReg(n));
    }
  }

  /** An array element read after the base code `bl` left the base in `b`. */
  lemma ElementLoadOk(bl: seq<Insn>, b: Operand, ic: seq<Insn>, it: Operand, m: int)
    requires ExprCodeOk(bl, b) && ExprCodeOk(ic, it)
    ensures ExprCodeOk(bl + ic
      + [Insn3(MultI, it, IntConst(WORD_SIZE), VirtualReg(m + 1))]
      + [Insn3(LoadAO, b, VirtualReg(m + 1), VirtualReg(m))], VirtualReg(m))
  {
    DefinedJoin(bl, ic);
    MultIFacts(it, IntConst(WORD_SIZE), VirtualReg(m + 1));
    LoadAOFacts(b, VirtualReg(m + 1), VirtualReg(m));
    ExprStep2(bl + ic, Insn3(MultI, it, IntConst(WORD_SIZE), VirtualReg(m + 1)),
      Insn3(LoadAO, b, VirtualReg(m + 1), VirtualReg(m)), VirtualReg(m));
  }

  /** A variable read is well defined and leaves its value in `LocationResult`. */
  lemma LocationOk(sym: Symbol, index: Option<(seq<Insn>, Operand)>, n: int)
    requires sym.kind == ArraySymbol ==> index.Some?
    requires index.Some? ==> ExprCodeOk(index.value.0, index.value.1)
    ensures ExprCodeOk(LocationCode(sym, index, n), LocationResult(sym, n))
  {
    BaseLoadOk(sym, n);
    if sym.kind == ArraySymbol {
      ElementLoadOk(BaseLoad(sym, n), BaseOf(sym, n), index.value.0, index.value.1, n + BaseRegs(sym));
    } else {
      var x := Insn3(LoadAI, BaseOf(sym, n), VarOffset(sym), VirtualReg(n + BaseRegs(sym)));
      LoadAIFacts(BaseOf(sym, n), VarOffset(sym), VirtualReg(n + BaseRegs(sym)));
      ExprStep1(BaseLoad(sym, n), x, VirtualReg(n + BaseRegs(sym)));
    }
  }

  /** An array element store, the base code `bl` leaving the base in `b`. */
  lemma StoreElementOk(ic: seq<Insn>, it: Operand, bl: seq<Insn>, b: Operand, vc: seq<Insn>, vt: Operand, m: int)
    requires ExprCodeOk(ic, it) && ExprCodeOk(bl, b) && ExprCodeOk(vc, vt)
    ensures Straight(ic + bl + [Insn3(MultI, it, IntConst(WORD_SIZE), VirtualReg(m))]
      + vc + [Insn3(StoreAO, vt, b, VirtualReg(m))], {})
  {
    DefinedJoin(ic, bl);
    var x := Insn3(MultI, it, IntConst(WORD_SIZE), VirtualReg(m));
    MultIFacts(it, IntConst(WORD_SIZE), VirtualReg(m));
    DefinedSnoc(ic + bl, x, {});
    var c := ic + bl + [x];
    DefinedJoin(c, vc);
    StoreAOFacts(vt, b, VirtualReg(m));
    DefinedSnoc(c + vc, Insn3(StoreAO, vt, b, VirtualReg(m)), {});
  }

  /** A scalar store after the value code `vc` and the base code `bl`. */
  lemma StoreScalarOk(vc: seq<Insn>, vt: Operand, bl: seq<Insn>, b: Operand, off: Operand)
    requires ExprCodeOk(vc, vt) && ExprCodeOk(bl, b)
    ensures Straight(vc + bl + [Insn3(StoreAI, vt, b, off)], {})
  {
    DefinedJoin(vc, bl);
    StoreAIFacts(vt, b, off);
    DefinedSnoc(vc + bl, Insn3(StoreAI, vt, b, off), {});
  }

  /** An assignment's code is well defined and jumps nowhere. */
  lemma AssignOk(sym: Symbol, index: Option<(seq<Insn>, Operand)>, vc: seq<Insn>, vt: Operand, n: int)
    requires sym.kind == ArraySymbol ==> index.Some?
    requires index.Some? ==> ExprCodeOk(index.value.0, index.value.1)
    requires ExprCodeOk(vc, vt)
    ensures Straight(AssignCode(sym, index, vc, vt, n), {})
  {
    BaseLoadOk(sym, n);
    if sym.kind == ArraySymbol {
      StoreElementOk(index.value.0, index.value.1, BaseLoad(sym, n), BaseOf(sym, n), vc, vt, n + BaseRegs(sym));
    } else {
      StoreScalarOk(vc, vt, BaseLoad(sym, n), BaseOf(sym, n), VarOffset(sym));
    }
  }

  /** A return whose value has no register: it is reloaded from [BP-8] into `n` before the move. */
  lemma ReturnReloadOk(c: seq<Insn>, epi: Operand, n: int)
    requires DefinedBeforeUse(c, {}) && Targets(c) == {}
    ensures DefinedBeforeUse(c + [Insn3(LoadAI, BaseReg, IntConst(-WORD_SIZE), VirtualReg(n))]
      + [Insn2(I2I, VirtualReg(n), ReturnReg)] + [Insn1(Jump, epi)], {})
    ensures Targets(c + [Insn3(LoadAI, BaseReg, IntConst(-WORD_SIZE), VirtualReg(n))]
      + [Insn2(I2I, VirtualReg(n), ReturnReg)] + [Insn1(Jump, epi)]) == {epi}
  {
    var x := Insn3(LoadAI, BaseReg, IntConst(-WORD_SIZE), VirtualReg(n));
    var y := Insn2(I2I, VirtualReg(n), ReturnReg);
    LoadAIFacts(BaseReg, IntConst(-WORD_SIZE), VirtualReg(n));
    I2IFacts(VirtualReg(n), ReturnReg);
    JumpFacts(epi);
    ExprStep2(c, x, y, ReturnReg);
    DefinedSnoc(c + [x] + [y], Insn1(Jump, epi), {});
  }

  /** A return whose value is in register `t`. */
  lemma ReturnMoveOk(c: seq<Insn>, t: Operand, epi: Operand)
    requires ExprCodeOk(c, t)
    ensures DefinedBeforeUse(c + [Insn2(I2I, t, ReturnReg)] + [Insn1(Jump, epi)], {})
    ensures Targets(c + [Insn2(I2I, t, ReturnReg)] + [Insn1(Jump, epi)]) == {epi}
  {
    var y := Insn2(I2I, t, ReturnReg);
    I2IFacts(t, ReturnReg);
    JumpFacts(epi);
    ExprStep1(c, y, ReturnReg);
    DefinedSnoc(c + [y], Insn1(Jump, epi), {});
  }

  /** A return is well defined and jumps only to the epilogue label. */
  lemma ReturnOk(res: Option<(seq<Insn>, Operand)>, epi: Operand, n: int)
    requires res.Some? ==> ExprCodeOk(res.value.0, res.value.1)
    ensures StmtCodeOk(ReturnCode(res, epi, n), {epi})
  {
    if res.None? {
      JumpFacts(epi);
      DefinedOne(Insn1(Jump, epi), {});
    } else if res.value.1 == Empty {
      ReturnReloadOk(res.value.0, epi, n);
    } else {
      ReturnMoveOk(res.value.0, res.value.1, epi);
    }
  }

  /**
   * A while loop's head: its top label, the condition, the branch to the
   * body or past the loop, and the body label.
   */
  lemma WhileHeadOk(top: Operand, body: Operand, end: Operand, cc: seq<Insn>, ct: Operand)
    requires ExprCodeOk(cc, ct)
    ensures DefinedBeforeUse([Insn1(Label, top)] + cc + [Insn3(Cbr, ct, body, end)] + [Insn1(Label, body)], {})
    ensures Targets([Insn1(Label, top)] + cc + [Insn3(Cbr, ct, body, end)] + [Insn1(Label, body)]) == {body, end}
    ensures {top, body} <= Labels([Insn1(Label, top)] + cc + [Insn3(Cbr, ct, body, end)] + [Insn1(Label, body)])
  {
    var l0 := Insn1(Label, top);
    var br := Insn3(Cbr, ct, body, end);
    var l1 := Insn1(Label, body);
    LabelFacts(top);
    LabelFacts(body);
    CbrFacts(ct, body, end);
    DefinedOne(l0, {});
    DefinedJoin([l0], cc);
    DefinedSnoc([l0] + cc, br, {});
    DefinedSnoc([l0] + cc + [br], l1, {});
  }

  /**
   * A while loop defines its three labels, so its code is closed under what
   * its body may escape to besides them.
   */
  lemma WhileOk(top: Operand, body: Operand, end: Operand, cc: seq<Insn>, ct: Operand, bc: seq<Insn>, open: set<Operand>)
    requires ExprCodeOk(cc, ct)
    requires StmtCodeOk(bc, open + {top, end})
    ensures StmtCodeOk(WhileCode(top, body, end, cc, ct, bc), open)
  {
    var d := [Insn1(Label, top)] + cc + [Insn3(Cbr, ct, body, end)] + [Insn1(Label, body)];
    var all := d + bc + [Insn1(Jump, top)] + [Insn1(Label, end)];
    WhileHeadOk(top, body, end, cc, ct);
    DefinedJoin(d, bc);
    JumpThenLabel(d + bc, top, end);
    forall x | x in Targets(all)
      ensures x in Labels(all) + open
    {
      if x in Targets(bc) {
        assert x in Labels(bc) + open + {top, end};
      }
    }
  }

  /** A conditional's head: the condition, the branch, and the label of the then-block. */
  lemma IfHeadOk(body: Operand, end: Operand, cc: seq<Insn>, ct: Operand)
    requires ExprCodeOk(cc, ct)
    ensures DefinedBeforeUse(cc + [Insn3(Cbr, ct, body, end)] + [Insn1(Label, body)], {})
    ensures Targets(cc + [Insn3(Cbr, ct, body, end)] + [Insn1(Label, body)]) == {body, end}
    ensures body in Labels(cc + [Insn3(Cbr, ct, body, end)] + [Insn1(Label, body)])
  {
    var br := Insn3(Cbr, ct, body, end);
    LabelFacts(body);
    CbrFacts(ct, body, end);
    DefinedSnoc(cc, br, {});
    DefinedSnoc(cc + [br], Insn1(Label, body), {});
  }

  /** The else part: a jump over it to `merge`, the `end` label, the else code, the `merge` label. */
  lemma ElseTailOk(head: seq<Insn>, end: Operand, merge: Operand, e: seq<Insn>)
    requires DefinedBeforeUse(head, {}) && DefinedBeforeUse(e, {})
    ensures DefinedBeforeUse(head + [Insn1(Jump, merge)] + [Insn1(Label, end)] + e + [Insn1(Label, merge)], {})
    ensures Targets(head + [Insn1(Jump, merge)] + [Insn1(Label, end)] + e + [Insn1(Label, merge)])
      == Targets(head) + {merge} + Targets(e)
    ensures Labels(head + [Insn1(Jump, merge)] + [Insn1(Label, end)] + e + [Insn1(Label, merge)])
      == Labels(head) + {end} + Labels(e) + {merge}
  {
    var f := head + [Insn1(Jump, merge)] + [Insn1(Label, end)];
    JumpThenLabel(head, merge, end);
    DefinedJoin(f, e);
    LabelSnoc(f + e, merge);
  }

  /** A conditional without an else block. */
  lemma IfThenOk(body: Operand, end: Operand, cc: seq<Insn>, ct: Operand, tc: seq<Insn>, open: set<Operand>)
    requires ExprCodeOk(cc, ct) && StmtCodeOk(tc, open)
    ensures StmtCodeOk(cc + [Insn3(Cbr, ct, body, end)] + [Insn1(Label, body)] + tc + [Insn1(Label, end)], open)
  {
    var d := cc + [Insn3(Cbr, ct, body, end)] + [Insn1(Label, body)];
    var all := d + tc + [Insn1(Label, end)];
    IfHeadOk(body, end, cc, ct);
    DefinedJoin(d, tc);
    LabelSnoc(d + tc, end);
    forall x | x in Targets(all)
      ensures x in Labels(all) + open
    {
      if x in Targets(tc) {
        assert x in Labels(tc) + open;
      }
    }
  }

  /** A conditional with an else block. */
  lemma IfElseOk(body: Operand, end: Operand, merge: Operand, cc: seq<Insn>, ct: Operand, tc: seq<Insn>, e: seq<Insn>, open: set<Operand>)
    requires ExprCodeOk(cc, ct) && StmtCodeOk(tc, open) && StmtCodeOk(e, open)
    ensures StmtCodeOk(cc + [Insn3(Cbr, ct, body, end)] + [Insn1(Label, body)] + tc
      + [Insn1(Jump, merge)] + [Insn1(Label, end)] + e + [Insn1(Label, merge)], open)
  {
    var d := cc + [Insn3(Cbr, ct, body, end)] + [Insn1(Label, body)];
    var all := d + tc + [Insn1(Jump, merge)] + [Insn1(Label, end)] + e + [Insn1(Label, merge)];
    IfHeadOk(body, end, cc, ct);
    DefinedJoin(d, tc);
    ElseTailOk(d + tc, end, merge, e);
    forall x | x in Targets(all)
      ensures x in Labels(all) + open
    {
      if x in Targets(tc) {
        assert x in Labels(tc) + open;
      } else if x in Targets(e) {
        assert x in Labels(e) + open;
      }
    }
  }

  /** A conditional defines its labels, so its code is closed under what its blocks may escape to. */
  lemma IfOk(body: Operand, end: Operand, merge: Operand, cc: seq<Insn>, ct: Operand, tc: seq<Insn>, ec: Option<seq<Insn>>, open: set<Operand>)
    requires ExprCodeOk(cc, ct) && StmtCodeOk(tc, open)
    requires ec.Some? ==> StmtCodeOk(ec.value, open)
    ensures StmtCodeOk(IfCode(body, end, merge, cc, ct, tc, ec), open)
  {
    if ec.None? {
      IfThenOk(body, end, cc, ct, tc, open);
    } else {
      IfElseOk(body, end, merge, cc, ct, tc, ec.value, open);
    }
  }

  lemma PrologueOk(name: string, locals: int)
    ensures DefinedBeforeUse(Prologue(name, locals), {})
    ensures Targets(Prologue(name, locals)) == {}
  {
    var a := Insn1(Label, CallLabel(name));
    var b := Insn1(Push, BaseReg);
    var c := Insn2(I2I, StackReg, BaseReg);
    LabelFacts(CallLabel(name));
    PushFacts(BaseReg);
    I2IFacts(StackReg, BaseReg);
    AddIFacts(StackReg, IntConst(locals * -WORD_SIZE), StackReg);
    DefinedOne(a, {});
    DefinedSnoc([a], b, {});
    DefinedSnoc([a] + [b], c, {});
    DefinedSnoc([a] + [b] + [c], Insn3(AddI, StackReg, IntConst(locals * -WORD_SIZE), StackReg), {});
  }

  lemma EpilogueOk(epi: Operand)
    ensures DefinedBeforeUse(Epilogue(epi), {})
    ensures Targets(Epilogue(epi)) == {} && epi in Labels(Epilogue(epi))
  {
    var w := Insn1(Label, epi);
    var x := Insn2(I2I, BaseReg, StackReg);
    var y := Insn1(Pop, BaseReg);
    LabelFacts(epi);
    I2IFacts(BaseReg, StackReg);
    PopFacts(BaseReg);
    ReturnFacts();
    DefinedOne(w, {});
    DefinedSnoc([w], x, {});
    DefinedSnoc([w] + [x], y, {});
    DefinedSnoc([w] + [x] + [y], Insn0(Opcode.Return), {});
  }

  /** A function defines its epilogue label, so a return inside it lands there. */
  lemma FuncOk(name: string, locals: int, epi: Operand, bc: seq<Insn>, open: set<Operand>)
    requires StmtCodeOk(bc, open + {epi})
    ensures StmtCodeOk(FuncCode(name, locals, epi, bc), open)
  {
    PrologueOk(name, locals);
    EpilogueOk(epi);
    DefinedJoin(Prologue(name, locals), bc);
    DefinedJoin(Prologue(name, locals) + bc, Epilogue(epi));
  }

  /** A literal argument's push: its value loaded into the fresh register `k`, which is pushed. */
  lemma PushLiteralOk(rest: seq<Insn>, lit: int, k: int, pre: set<int>)
    requires Straight(rest, pre)
    ensures Straight(rest + [Insn2(LoadI, IntConst(lit), VirtualReg(k))] + [Insn1(Push, VirtualReg(k))], pre)
  {
    var x := Insn2(LoadI, IntConst(lit), VirtualReg(k));
    LoadFacts(IntConst(lit), VirtualReg(k));
    PushFacts(VirtualReg(k));
    DefinedSnoc(rest, x, pre);
    DefinedSnoc(rest + [x], Insn1(Push, VirtualReg(k)), pre);
  }

  /** One push after the pushes `rest`. */
  lemma PushOneOk(rest: seq<Insn>, t: Operand, lit: int, k: int, pre: set<int>)
    requires Straight(rest, pre) && Regs(t) <= pre
    ensures Straight(rest + PushOne(t, lit, k), pre)
  {
    if t == Empty {
      PushLiteralOk(rest, lit, k, pre);
      assert rest + PushOne(t, lit, k) == rest + [Insn2(LoadI, IntConst(lit), VirtualReg(k))] + [Insn1(Push, VirtualReg(k))];
    } else {
      PushFacts(t);
      DefinedSnoc(rest, Insn1(Push, t), pre);
    }
  }

  /** The pushes read only argument registers that `pre` holds, and jump nowhere. */
  lemma {:induction false} PushesOk(temps: seq<Operand>, lits: seq<int>, r: int, pre: set<int>)
    requires |temps| == |lits|
    requires forall j :: 0 <= j < |temps| ==> Regs(temps[j]) <= pre
    ensures Straight(Pushes(temps, lits, r).code, pre)
    decreases |temps|
  {
    if |temps| > 0 {
      var rest := Pushes(temps[1..], lits[1..], r);
      PushesOk(temps[1..], lits[1..], r, pre);
      PushOneOk(rest.code, temps[0], lits[0], rest.next, pre);
    }
  }

  /** Without fallback loads, the pushes are exactly the argument registers, last first. */
  lemma {:induction false} PushesReversed(temps: seq<Operand>, lits: seq<int>, r: int)
    requires |temps| == |lits|
    requires forall j :: 0 <= j < |temps| ==> temps[j] != Empty
    ensures |Pushes(temps, lits, r).code| == |temps|
    ensures forall k :: 0 <= k < |temps| ==> Pushes(temps, lits, r).code[k] == Insn1(Push, temps[|temps| - 1 - k])
    decreases |temps|
  {
    if |temps| > 0 {
      PushesReversed(temps[1..], lits[1..], r);
    }
  }

  /** The pushes take exactly one fresh register per argument that has none. */
  lemma {:induction false} PushesFresh(temps: seq<Operand>, lits: seq<int>, r: int)
    requires |temps| == |lits|
    ensures Pushes(temps, lits, r).next == r + Missing(temps)
    decreases |temps|
  {
    if |temps| > 0 {
      PushesFresh(temps[1..], lits[1..], r);
    }
  }

  /** The argument code and the pushes: each push reads a register the argument code wrote. */
  lemma ArgumentsOk(codes: seq<seq<Insn>>, temps: seq<Operand>, lits: seq<int>, n: int)
    requires |temps| == |lits| && |codes| == |temps|
    requires forall j :: 0 <= j < |codes| ==> ExprCodeOk(codes[j], temps[j])
    ensures Straight(Concat(codes) + Pushes(temps, lits, n).code, {})
  {
    var a := Concat(codes);
    DefinedConcat(codes);
    NoJumpsConcat(codes);
    forall j | 0 <= j < |temps|
      ensures Regs(temps[j]) <= Written(a)
    {
      WrittenConcat(codes, j);
    }
    PushesOk(temps, lits, n, Written(a));
    DefinedThen(a, Pushes(temps, lits, n).code);
    assert Targets(Pushes(temps, lits, n).code) == {};
  }

  /** The call itself after the pushes `c`: the jump, the stack restored, the result copied into `r`. */
  lemma CallTailOk(c: seq<Insn>, name: string, count: int, r: int)
    requires Straight(c, {})
    ensures ExprCodeOk(CallCode(c, name, count, r), VirtualReg(r))
  {
    CallFacts(CallLabel(name));
    AddIFacts(StackReg, IntConst(count * WORD_SIZE), StackReg);
    I2IFacts(ReturnReg, VirtualReg(r));
    ExprStep3(c, Insn1(Call, CallLabel(name)), Insn3(AddI, StackReg, IntConst(count * WORD_SIZE), StackReg),
      Insn2(I2I, ReturnReg, VirtualReg(r)), VirtualReg(r));
  }

  /** A call's code is well defined, jumps nowhere and leaves the return value in its result register. */
  lemma CallOk(name: string, lits: seq<int>, codes: seq<seq<Insn>>, temps: seq<Operand>, n: int)
    requires |temps| == |lits| && |codes| == |temps|
    requires forall j :: 0 <= j < |codes| ==> ExprCodeOk(codes[j], temps[j])
    ensures var p := Pushes(temps, lits, n);
      ExprCodeOk(CallCode(Concat(codes) + p.code, name, |temps|, p.next), VirtualReg(p.next))
  {
    var p := Pushes(temps, lits, n);
    ArgumentsOk(codes, temps, lits, n);
    CallTailOk(Concat(codes) + p.code, name, |temps|, p.next);
  }

  /** A print call's code is well defined whatever register its argument left. */
  lemma PrintOk(name: string, arg: Expr, t: Operand)
    ensures ExprCodeOk(PrintCode(name, arg, t), Empty)
  {
    if name == "print_str" {
      PrintFacts(StrConst(LiteralText(arg)));
      DefinedOne(Insn1(Print, StrConst(LiteralText(arg))), {});
    } else {
      var x := Insn2(LoadI, IntConst(LiteralInt(arg)), t);
      LoadFacts(IntConst(LiteralInt(arg)), t);
      PrintFacts(t);
      DefinedOne(x, {});
      DefinedSnoc([x], Insn1(Print, t), {});
    }
  }

  // ---------------------------------------------------------------------
  // The layouts take fresh names: each register they write is written by
  // one instruction, above the registers of their parts, and each label
  // they define is defined by one instruction.
  // ---------------------------------------------------------------------

  /** A global's base load writes the one register `n`; a frame variable's writes nothing. */
  lemma BaseLoadFresh(sym: Symbol, n: int)
    ensures ExprFresh(BaseLoad(sym, n), BaseOf(sym, n), n, n + BaseRegs(sym))
  {
    if sym.storage == StaticVar {
      var x := Insn2(LoadI, IntConst(sym.offset), VirtualReg(n));
      var none: seq<Insn> := [];
      LoadFacts(IntConst(sym.offset), VirtualReg(n));
      RegsSnoc(none, x, n, n + 1);
      assert none + [x] == [x];
    }
  }

  /** A binary operation writes its result registers once, above both operands' registers. */
  lemma BinaryFresh(op: BinOp, lc: seq<Insn>, lt: Operand, rc: seq<Insn>, rt: Operand, r: int, a: int, n: int)
    requires ExprFresh(lc, lt, r, a) && ExprFresh(rc, rt, a, n) && r <= a <= n
    ensures ExprFresh(BinaryCode(op, lc, lt, rc, rt, n), VirtualReg(n), r, n + BinaryRegs(op))
  {
    var hi := n + BinaryRegs(op);
    RegsJoin(lc, rc, r, a, n);
    var c := lc + rc;
    if op == ModOp {
      ModFresh(c, lt, rt, r, n);
    } else {
      var x := Insn3(BinOpcode(op), lt, rt, VirtualReg(n));
      ArithFacts(BinOpcode(op), lt, rt, VirtualReg(n));
      RegsSnocAbove(c, x, r, n, hi);
    }
  }

  /** The remainder sequence writes `n + 1`, `n + 2`, then the result `n`, above the operands' registers. */
  lemma ModFresh(c: seq<Insn>, lt: Operand, rt: Operand, r: int, n: int)
    requires RegsFresh(c, r, n) && Labels(c) == {} && r <= n
    ensures RegsFresh(c + [Insn3(Div, lt, rt, VirtualReg(n + 1))] + [Insn3(Mult, VirtualReg(n + 1), rt, VirtualReg(n + 2))]
      + [Insn3(Sub, lt, VirtualReg(n + 2), VirtualReg(n))], r, n + 3)
    ensures Labels(c + [Insn3(Div, lt, rt, VirtualReg(n + 1))] + [Insn3(Mult, VirtualReg(n + 1), rt, VirtualReg(n + 2))]
      + [Insn3(Sub, lt, VirtualReg(n + 2), VirtualReg(n))]) == {}
  {
    var x := Insn3(Div, lt, rt, VirtualReg(n + 1));
    var y := Insn3(Mult, VirtualReg(n + 1), rt, VirtualReg(n + 2));
    var z := Insn3(Sub, lt, VirtualReg(n + 2), VirtualReg(n));
    DivFacts(lt, rt, VirtualReg(n + 1));
    MultFacts(VirtualReg(n + 1), rt, VirtualReg(n + 2));
    SubFacts(lt, VirtualReg(n + 2), VirtualReg(n));
    assert Within(Written(c), r, n + 1);
    RegsSnocAbove(c, x, r, n + 1, n + 2);
    RegsSnocAbove(c + [x], y, r, n + 2, n + 3);
    assert n !in Written(c + [x] + [y]);
    RegsSnoc(c + [x] + [y], z, r, n + 3);
  }

  lemma UnaryFresh(op: UnOp, cc: seq<Insn>, ct: Operand, r: int, n: int)
    requires ExprFresh(cc, ct, r, n) && r <= n
    ensures ExprFresh(UnaryCode(op, cc, ct, n), VirtualReg(n), r, n + 1)
  {
    assert n !in Written(cc);
    if op == NegOp {
      NegFacts(ct, VirtualReg(n));
      RegsSnoc(cc, Insn2(Neg, ct, VirtualReg(n)), r, n + 1);
    } else {
      NotFacts(ct, VirtualReg(n));
      RegsSnoc(cc, Insn2(Not, ct, VirtualReg(n)), r, n + 1);
    }
  }

  /** A variable read writes its base, address and value registers once, above the index's registers. */
  lemma LocationFresh(sym: Symbol, index: Option<(seq<Insn>, Operand)>, r: int, n: int)
    requires sym.kind == ArraySymbol ==> index.Some?
    requires index.Some? ==> ExprFresh(index.value.0, index.value.1, r, n)
    requires r <= n
    ensures ExprFresh(LocationCode(sym, index, n), LocationResult(sym, n), r, n + LocationRegs(sym))
  {
    BaseLoadFresh(sym, n);
    var m := n + BaseRegs(sym);
    var c := LocationCode(sym, index, n);
    if sym.kind == ArraySymbol {
      var bl := BaseLoad(sym, n) + index.value.0;
      assert c == bl + [Insn3(MultI, index.value.1, IntConst(WORD_SIZE), VirtualReg(m + 1))]
        + [Insn3(LoadAO, BaseOf(sym, n), VirtualReg(m + 1), VirtualReg(m))];
      RegsJoinBelow(BaseLoad(sym, n), index.value.0, r, n, m);
      ElementLoadFresh(bl, index.value.1, BaseOf(sym, n), r, m);
    } else {
      assert c == BaseLoad(sym, n) + [Insn3(LoadAI, BaseOf(sym, n), VarOffset(sym), VirtualReg(m))];
      ScalarLoadFresh(BaseLoad(sym, n), BaseOf(sym, n), VarOffset(sym), r, n, m);
    }
  }

  /** A scalar load puts the value in the new register `m`, above the base's registers. */
  lemma ScalarLoadFresh(bl: seq<Insn>, b: Operand, off: Operand, r: int, n: int, m: int)
    requires RegsFresh(bl, n, m) && Labels(bl) == {} && r <= n <= m
    ensures RegsFresh(bl + [Insn3(LoadAI, b, off, VirtualReg(m))], r, m + 1)
    ensures Labels(bl + [Insn3(LoadAI, b, off, VirtualReg(m))]) == {}
  {
    LoadAIFacts(b, off, VirtualReg(m));
    assert Within(Written(bl), r, m);
    RegsSnocAbove(bl, Insn3(LoadAI, b, off, VirtualReg(m)), r, m, m + 1);
  }

  /** The element address goes to `m + 1`, then the element to `m`, above the base's and index's registers. */
  lemma ElementLoadFresh(c: seq<Insn>, it: Operand, b: Operand, r: int, m: int)
    requires RegsFresh(c, r, m) && Labels(c) == {} && r <= m
    ensures RegsFresh(c + [Insn3(MultI, it, IntConst(WORD_SIZE), VirtualReg(m + 1))]
      + [Insn3(LoadAO, b, VirtualReg(m + 1), VirtualReg(m))], r, m + 2)
    ensures Labels(c + [Insn3(MultI, it, IntConst(WORD_SIZE), VirtualReg(m + 1))]
      + [Insn3(LoadAO, b, VirtualReg(m + 1), VirtualReg(m))]) == {}
  {
    var x := Insn3(MultI, it, IntConst(WORD_SIZE), VirtualReg(m + 1));
    var y := Insn3(LoadAO, b, VirtualReg(m + 1), VirtualReg(m));
    MultIFacts(it, IntConst(WORD_SIZE), VirtualReg(m + 1));
    LoadAOFacts(b, VirtualReg(m + 1), VirtualReg(m));
    assert Within(Written(c), r, m + 1);
    RegsSnocAbove(c, x, r, m + 1, m + 2);
    assert m !in Written(c + [x]);
    RegsSnoc(c + [x], y, r, m + 2);
  }

  /** An assignment writes its base and address registers once, above the index's and the value's registers. */
  lemma AssignFresh(sym: Symbol, index: Option<(seq<Insn>, Operand)>, vc: seq<Insn>, vt: Operand, r: int, a: int, n: int)
    requires sym.kind == ArraySymbol ==> index.Some?
    requires index.Some? ==> ExprFresh(index.value.0, index.value.1, r, a)
    requires ExprFresh(vc, vt, a, n) && r <= a <= n
    ensures RegsFresh(AssignCode(sym, index, vc, vt, n), r, n + AssignRegs(sym))
    ensures Labels(AssignCode(sym, index, vc, vt, n)) == {}
  {
    var hi := n + AssignRegs(sym);
    var m := n + BaseRegs(sym);
    var b := BaseOf(sym, n);
    var bl := BaseLoad(sym, n);
    BaseLoadFresh(sym, n);
    if sym.kind == ArraySymbol {
      var ic := index.value.0;
      var x := Insn3(MultI, index.value.1, IntConst(WORD_SIZE), VirtualReg(m));
      var y := Insn3(StoreAO, vt, b, VirtualReg(m));
      RegsJoin(ic, vc, r, a, n);
      RegsJoin(bl, [], n, m, m);
      MultIFacts(index.value.1, IntConst(WORD_SIZE), VirtualReg(m));
      StoreAOFacts(vt, b, VirtualReg(m));
      AssignArrayFresh(ic, bl, x, vc, y, r, a, n, m);
    } else {
      var y := Insn3(StoreAI, vt, b, VarOffset(sym));
      RegsJoin(vc, bl, r, n, hi);
      StoreAIFacts(vt, b, VarOffset(sym));
      RegsSnoc(vc + bl, y, r, hi);
    }
  }

  /** An element store: index code in [r, a), base in [n, m), scaled index `m`, value code in [a, n), the store. */
  lemma AssignArrayFresh(ic: seq<Insn>, bl: seq<Insn>, x: Insn, vc: seq<Insn>, y: Insn, r: int, a: int, n: int, m: int)
    requires RegsFresh(ic, r, a) && RegsFresh(bl, n, m) && RegsFresh(vc, a, n) && r <= a <= n <= m
    requires WriteRegs(x) == {m} && WriteRegs(y) == {}
    requires Labels(ic) == {} && Labels(bl) == {} && Labels(vc) == {} && LabelDefs(x) == {} && LabelDefs(y) == {}
    ensures RegsFresh(ic + bl + [x] + vc + [y], r, m + 1)
    ensures Labels(ic + bl + [x] + vc + [y]) == {}
  {
    assert Within(Written(bl), a, m);
    RegsJoin(ic, bl, r, a, m);
    RegsSnocAbove(ic + bl, x, r, m, m + 1);
    var c := ic + bl + [x];
    assert forall v :: v in Written(c) ==> v < a || n <= v;
    RegsFillGap(c, vc, r, a, n, m + 1);
    RegsSnoc(c + vc, y, r, m + 1);
  }

  /** A return writes only the reload register `n`, and only when its value has no register. */
  lemma ReturnFresh(res: Option<(seq<Insn>, Operand)>, epi: Operand, r: int, n: int)
    requires res.Some? ==> ExprFresh(res.value.0, res.value.1, r, n)
    requires r <= n
    ensures RegsFresh(ReturnCode(res, epi, n), r, n + if res.Some? && res.value.1 == Empty then 1 else 0)
    ensures Labels(ReturnCode(res, epi, n)) == {}
  {
    var hi := n + if res.Some? && res.value.1 == Empty then 1 else 0;
    var j := Insn1(Jump, epi);
    JumpFacts(epi);
    if res.None? {
      var none: seq<Insn> := [];
      RegsSnoc(none, j, r, hi);
      assert none + [j] == [j];
    } else if res.value.1 == Empty {
      var c := res.value.0;
      var x := Insn3(LoadAI, BaseReg, IntConst(-WORD_SIZE), VirtualReg(n));
      var y := Insn2(I2I, VirtualReg(n), ReturnReg);
      LoadAIFacts(BaseReg, IntConst(-WORD_SIZE), VirtualReg(n));
      I2IFacts(VirtualReg(n), ReturnReg);
      assert n !in Written(c);
      RegsSnoc(c, x, r, hi);
      RegsSnoc(c + [x], y, r, hi);
      RegsSnoc(c + [x] + [y], j, r, hi);
    } else {
      var c := res.value.0;
      var y := Insn2(I2I, res.value.1, ReturnReg);
      I2IFacts(res.value.1, ReturnReg);
      RegsSnoc(c, y, r, hi);
      RegsSnoc(c + [y], j, r, hi);
    }
  }

  /** Expression code, as statement code that defines no label. */
  lemma ExprAsStmt(cc: seq<Insn>, ct: Operand, r: int, a: int, l: int)
    requires ExprFresh(cc, ct, r, a)
    ensures RegsFresh(cc, r, a) && LabelsFresh(cc, l, l)
  {
    NoLabelsOnce(cc);
  }

  /** One instruction that writes no register and defines at most the label `l`. */
  lemma QuietFresh(x: Insn, r: int, l: int, l1: int)
    requires WriteRegs(x) == {} && (LabelDefs(x) == {} || LabelDefs(x) == {AnonLabel(l)}) && l <= l1
    requires LabelDefs(x) != {} ==> l < l1
    ensures RegsFresh([x], r, r) && LabelsFresh([x], l, l1)
    ensures Written([x]) == {} && Labels([x]) == LabelDefs(x)
  {
    Single(x);
  }

  /** A while loop defines its labels `l`, `l + 1` and `l + 2` once each, below its body's labels. */
  lemma WhileFresh(l: int, cc: seq<Insn>, ct: Operand, bc: seq<Insn>, r: int, a: int, n: int, m: int)
    requires ExprFresh(cc, ct, r, a) && RegsFresh(bc, a, n) && r <= a <= n
    requires LabelsFresh(bc, l + 3, m) && l + 3 <= m
    ensures RegsFresh(WhileCode(AnonLabel(l), AnonLabel(l + 1), AnonLabel(l + 2), cc, ct, bc), r, n)
    ensures LabelsFresh(WhileCode(AnonLabel(l), AnonLabel(l + 1), AnonLabel(l + 2), cc, ct, bc), l, m)
  {
    var top, body, end := AnonLabel(l), AnonLabel(l + 1), AnonLabel(l + 2);
    var br := Insn3(Cbr, ct, body, end);
    LabelFacts(top);
    LabelFacts(body);
    LabelFacts(end);
    CbrFacts(ct, body, end);
    JumpFacts(top);
    QuietFresh(Insn1(Label, top), r, l, l + 1);
    ExprAsStmt(cc, ct, r, a, l + 1);
    var c0 := [Insn1(Label, top)];
    FreshJoin(c0, cc, r, r, a, l, l + 1, l + 1);
    QuietFresh(br, a, l + 1, l + 1);
    FreshJoin(c0 + cc, [br], r, a, a, l, l + 1, l + 1);
    QuietFresh(Insn1(Label, body), a, l + 1, l + 2);
    FreshJoin(c0 + cc + [br], [Insn1(Label, body)], r, a, a, l, l + 1, l + 2);
    var c1 := c0 + cc + [br] + [Insn1(Label, body)];
    FreshJoin(c1, bc, r, a, n, l, l + 3, m);
    FreshSnoc(c1 + bc, Insn1(Jump, top), r, n, l, m);
    assert end !in Labels(c1) && end !in Labels(bc);
    FreshSnoc(c1 + bc + [Insn1(Jump, top)], Insn1(Label, end), r, n, l, m);
  }

  /** A conditional's head: the condition, the branch, and the then-block's label `l`, with `l + 1` left undefined. */
  lemma IfHeadFresh(l: int, cc: seq<Insn>, ct: Operand, r: int, a: int)
    requires ExprFresh(cc, ct, r, a) && r <= a
    ensures RegsFresh(cc + [Insn3(Cbr, ct, AnonLabel(l), AnonLabel(l + 1))] + [Insn1(Label, AnonLabel(l))], r, a)
    ensures LabelsFresh(cc + [Insn3(Cbr, ct, AnonLabel(l), AnonLabel(l + 1))] + [Insn1(Label, AnonLabel(l))], l, l + 1)
  {
    var br := Insn3(Cbr, ct, AnonLabel(l), AnonLabel(l + 1));
    LabelFacts(AnonLabel(l));
    CbrFacts(ct, AnonLabel(l), AnonLabel(l + 1));
    ExprAsStmt(cc, ct, r, a, l);
    QuietFresh(br, a, l, l);
    FreshJoin(cc, [br], r, a, a, l, l, l);
    QuietFresh(Insn1(Label, AnonLabel(l)), a, l, l + 1);
    FreshJoin(cc + [br], [Insn1(Label, AnonLabel(l))], r, a, a, l, l, l + 1);
  }

  /** A conditional without an else block defines `l` and `l + 1` once each, below its block's labels. */
  lemma IfThenFresh(l: int, cc: seq<Insn>, ct: Operand, tc: seq<Insn>, r: int, a: int, n: int, t: int)
    requires ExprFresh(cc, ct, r, a) && RegsFresh(tc, a, n) && r <= a <= n
    requires LabelsFresh(tc, l + 2, t) && l + 2 <= t
    ensures RegsFresh(IfCode(AnonLabel(l), AnonLabel(l + 1), Empty, cc, ct, tc, None), r, n)
    ensures LabelsFresh(IfCode(AnonLabel(l), AnonLabel(l + 1), Empty, cc, ct, tc, None), l, t)
  {
    var head := cc + [Insn3(Cbr, ct, AnonLabel(l), AnonLabel(l + 1))] + [Insn1(Label, AnonLabel(l))];
    IfHeadFresh(l, cc, ct, r, a);
    LabelFacts(AnonLabel(l + 1));
    FreshJoin(head, tc, r, a, n, l, l + 2, t);
    assert AnonLabel(l + 1) !in Labels(head) && AnonLabel(l + 1) !in Labels(tc);
    FreshSnoc(head + tc, Insn1(Label, AnonLabel(l + 1)), r, n, l, t);
  }

  /**
   * A conditional with an else block defines `l`, `l + 1` and the merge
   * label `e` once each; the then-block's labels lie in [l + 2, t) and the
   * else-block's in [t, e).
   */
  lemma IfElseFresh(l: int, cc: seq<Insn>, ct: Operand, tc: seq<Insn>, ec: seq<Insn>, r: int, a: int, b: int, n: int, t: int, e: int)
    requires ExprFresh(cc, ct, r, a) && RegsFresh(tc, a, b) && RegsFresh(ec, b, n) && r <= a <= b <= n
    requires LabelsFresh(tc, l + 2, t) && LabelsFresh(ec, t, e) && l + 2 <= t <= e
    ensures RegsFresh(IfCode(AnonLabel(l), AnonLabel(l + 1), AnonLabel(e), cc, ct, tc, Some(ec)), r, n)
    ensures LabelsFresh(IfCode(AnonLabel(l), AnonLabel(l + 1), AnonLabel(e), cc, ct, tc, Some(ec)), l, e + 1)
  {
    var head := cc + [Insn3(Cbr, ct, AnonLabel(l), AnonLabel(l + 1))] + [Insn1(Label, AnonLabel(l))];
    var merge := AnonLabel(e);
    IfHeadFresh(l, cc, ct, r, a);
    LabelFacts(AnonLabel(l + 1));
    LabelFacts(merge);
    JumpFacts(merge);
    FreshJoin(head, tc, r, a, b, l, l + 2, t);
    FreshSnoc(head + tc, Insn1(Jump, merge), r, b, l, t);
    assert AnonLabel(l + 1) !in Labels(head) && AnonLabel(l + 1) !in Labels(tc);
    FreshSnoc(head + tc + [Insn1(Jump, merge)], Insn1(Label, AnonLabel(l + 1)), r, b, l, t);
    var f := head + tc + [Insn1(Jump, merge)] + [Insn1(Label, AnonLabel(l + 1))];
    FreshJoin(f, ec, r, b, n, l, t, e);
    QuietFresh(Insn1(Label, merge), n, e, e + 1);
    FreshJoin(f + ec, [Insn1(Label, merge)], r, n, n, l, e, e + 1);
  }

  /** The prologue writes no virtual register and defines only the function's own label. */
  lemma PrologueFresh(name: string, locals: int)
    ensures WriteOnce(Prologue(name, locals)) && Written(Prologue(name, locals)) == {}
    ensures LabelOnce(Prologue(name, locals)) && Labels(Prologue(name, locals)) == {CallLabel(name)}
  {
    var a := Insn1(Label, CallLabel(name));
    var b := Insn1(Push, BaseReg);
    var c := Insn2(I2I, StackReg, BaseReg);
    var d := Insn3(AddI, StackReg, IntConst(locals * -WORD_SIZE), StackReg);
    LabelFacts(CallLabel(name));
    PushFacts(BaseReg);
    I2IFacts(StackReg, BaseReg);
    AddIFacts(StackReg, IntConst(locals * -WORD_SIZE), StackReg);
    LabelThenQuiet(a, b, c, d);
  }

  /** The epilogue writes no virtual register and defines only the label `epi`. */
  lemma EpilogueFresh(epi: Operand)
    ensures WriteOnce(Epilogue(epi)) && Written(Epilogue(epi)) == {}
    ensures LabelOnce(Epilogue(epi)) && Labels(Epilogue(epi)) == {epi}
  {
    var w := Insn1(Label, epi);
    var x := Insn2(I2I, BaseReg, StackReg);
    var y := Insn1(Pop, BaseReg);
    var z := Insn0(Opcode.Return);
    LabelFacts(epi);
    I2IFacts(BaseReg, StackReg);
    PopFacts(BaseReg);
    ReturnFacts();
    LabelThenQuiet(w, x, y, z);
  }

  /**
   * A function defines its own label and its epilogue label `l` once each,
   * besides its body's labels, and writes only its body's registers.
   */
  lemma FuncFresh(name: string, locals: int, l: int, bc: seq<Insn>, r: int, n: int, m: int)
    requires RegsFresh(bc, r, n) && LabelsFresh(bc, l + 1, m)
    ensures RegsFresh(FuncCode(name, locals, AnonLabel(l), bc), r, n)
    ensures LabelOnce(FuncCode(name, locals, AnonLabel(l), bc))
    ensures Labels(FuncCode(name, locals, AnonLabel(l), bc)) == {CallLabel(name)} + Labels(bc) + {AnonLabel(l)}
  {
    var pro := Prologue(name, locals);
    var epi := Epilogue(AnonLabel(l));
    PrologueFresh(name, locals);
    EpilogueFresh(AnonLabel(l));
    Parts(pro, bc);
    WriteOnceAppend(pro, bc);
    assert CallLabel(name) !in Labels(bc);
    LabelOnceAppend(pro, bc);
    Parts(pro + bc, epi);
    WriteOnceAppend(pro + bc, epi);
    assert AnonLabel(l) !in Labels(bc);
    LabelOnceAppend(pro + bc, epi);
  }

  /** The pushes write only their fallback registers, once each, from `r` on. */
  lemma {:induction false} PushesOnce(temps: seq<Operand>, lits: seq<int>, r: int)
    requires |temps| == |lits|
    ensures RegsFresh(Pushes(temps, lits, r).code, r, Pushes(temps, lits, r).next)
    ensures Labels(Pushes(temps, lits, r).code) == {}
    decreases |temps|
  {
    if |temps| > 0 {
      var rest := Pushes(temps[1..], lits[1..], r);
      var hi := Pushes(temps, lits, r).next;
      PushesOnce(temps[1..], lits[1..], r);
      if temps[0] == Empty {
        var x := Insn2(LoadI, IntConst(lits[0]), VirtualReg(rest.next));
        var y := Insn1(Push, VirtualReg(rest.next));
        LoadFacts(IntConst(lits[0]), VirtualReg(rest.next));
        PushFacts(VirtualReg(rest.next));
        assert rest.next !in Written(rest.code);
        RegsSnoc(rest.code, x, r, hi);
        RegsSnoc(rest.code + [x], y, r, hi);
        assert rest.code + PushOne(temps[0], lits[0], rest.next) == rest.code + [x] + [y];
      } else {
        PushFacts(temps[0]);
        RegsSnoc(rest.code, Insn1(Push, temps[0]), r, hi);
      }
    }
  }

  /** A call writes its fallback registers and its result register once, above its arguments' registers. */
  lemma CallFresh(name: string, lits: seq<int>, codes: seq<seq<Insn>>, temps: seq<Operand>, r: int, n: int)
    requires |temps| == |lits| && |codes| == |temps|
    requires RegsFresh(Concat(codes), r, n) && Labels(Concat(codes)) == {} && r <= n
    ensures var p := Pushes(temps, lits, n);
      ExprFresh(CallCode(Concat(codes) + p.code, name, |temps|, p.next), VirtualReg(p.next), r, p.next + 1)
  {
    var p := Pushes(temps, lits, n);
    var c := Concat(codes) + p.code;
    PushesOnce(temps, lits, n);
    RegsJoin(Concat(codes), p.code, r, n, p.next);
    CallTailFresh(c, name, |temps|, r, p.next);
  }

  /** The call, the stack restore and the copy into the fresh result register `k`. */
  lemma CallTailFresh(c: seq<Insn>, name: string, count: int, r: int, k: int)
    requires RegsFresh(c, r, k) && Labels(c) == {} && r <= k
    ensures ExprFresh(CallCode(c, name, count, k), VirtualReg(k), r, k + 1)
  {
    var x := Insn1(Call, CallLabel(name));
    var y := Insn3(AddI, StackReg, IntConst(count * WORD_SIZE), StackReg);
    var z := Insn2(I2I, ReturnReg, VirtualReg(k));
    CallFacts(CallLabel(name));
    AddIFacts(StackReg, IntConst(count * WORD_SIZE), StackReg);
    I2IFacts(ReturnReg, VirtualReg(k));
    RegsSnoc(c, x, r, k);
    RegsSnoc(c + [x], y, r, k);
    assert k !in Written(c + [x] + [y]);
    RegsSnoc(c + [x] + [y], z, r, k + 1);
  }

  /**
   * A print call writes at most its argument's register `t`, which its
   * argument's own code would have written: that code is not copied.
   */
  lemma PrintFresh(name: string, arg: Expr, t: Operand, r: int, n: int)
    requires Within(Regs(t), r, n)
    ensures ExprFresh(PrintCode(name, arg, t), Empty, r, n)
  {
    var none: seq<Insn> := [];
    if name == "print_str" {
      var y := Insn1(Print, StrConst(LiteralText(arg)));
      PrintFacts(StrConst(LiteralText(arg)));
      RegsSnoc(none, y, r, n);
      assert none + [y] == [y];
    } else {
      var x := Insn2(LoadI, IntConst(LiteralInt(arg)), t);
      LoadFacts(IntConst(LiteralInt(arg)), t);
      PrintFacts(t);
      RegsSnoc(none, x, r, n);
      assert none + [x] == [x];
      RegsSnoc([x], Insn1(Print, t), r, n);
    }
  }
}

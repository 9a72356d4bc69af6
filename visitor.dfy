/**
 * The code generator as the visitor runs it: `CodeGenData` holds the state
 * the hooks update in place (the current epilogue label, `while_count`,
 * `if_count` and the five label tables), and `Names` stands for the ILOC
 * library's global counters behind `virtual_register()` and
 * `anonymous_label()`.  Each hook method builds its node's code from its
 * children's code; the traversal methods at the end call the hooks in the
 * visitor's order and are proved to produce exactly what `Generation`
 * computes.
 */
module Visitor {
  import opened Wrappers
  import opened Iloc
  import opened Ast
  import opened CodeFacts
  import opened CodeGen
  import opened Generation

  /** The ILOC library's counters of fresh virtual registers and anonymous labels. */
  class Names {
    var nextReg: int
    var nextLabel: int

    constructor (r: int, l: int)
      ensures nextReg == r && nextLabel == l
    {
      nextReg := r;
      nextLabel := l;
    }

    /** `virtual_register()`. */
    method VirtualRegister() returns (o: Operand)
      modifies this
      ensures o == VirtualReg(old(nextReg))
      ensures nextReg == old(nextReg) + 1 && nextLabel == old(nextLabel)
    {
      o := VirtualReg(nextReg);
      nextReg := nextReg + 1;
    }

    /** `anonymous_label()`. */
    method AnonymousLabel() returns (o: Operand)
      modifies this
      ensures o == AnonLabel(old(nextLabel))
      ensures nextLabel == old(nextLabel) + 1 && nextReg == old(nextReg)
    {
      o := AnonLabel(nextLabel);
      nextLabel := nextLabel + 1;
    }
  }

  /** The live part of the generator's state. */
  datatype Saved = Saved(whileCount: int, ifCount: int, epilogue: Operand, loops: seq<Operand>, bodies: seq<Operand>,
    ends: seq<Operand>, ifBodies: seq<Operand>, ifEnds: seq<Operand>)
  {
    /** Each table holds its slot 0 and one slot per open construct. */
    predicate Shaped() {
      0 <= whileCount && |loops| == whileCount + 1 && |bodies| == whileCount + 1 && |ends| == whileCount + 1
      && 0 <= ifCount && |ifBodies| == ifCount + 1 && |ifEnds| == ifCount + 1
    }

    /** A while loop opens: its three labels take the next slot. */
    function PushWhile(top: Operand, body: Operand, end: Operand): Saved {
      this.(whileCount := whileCount + 1, loops := loops + [top], bodies := bodies + [body], ends := ends + [end])
    }

    /** The innermost while loop closes. */
    function PopWhile(): Saved
      requires Shaped() && 0 < whileCount
    {
      this.(whileCount := whileCount - 1, loops := loops[..whileCount], bodies := bodies[..whileCount], ends := ends[..whileCount])
    }

    /** A conditional opens: its two labels take the next slot. */
    function PushIf(body: Operand, end: Operand): Saved {
      this.(ifCount := ifCount + 1, ifBodies := ifBodies + [body], ifEnds := ifEnds + [end])
    }

    /** The innermost conditional closes. */
    function PopIf(): Saved
      requires Shaped() && 0 < ifCount
    {
      this.(ifCount := ifCount - 1, ifBodies := ifBodies[..ifCount], ifEnds := ifEnds[..ifCount])
    }
  }

  /** Closing a loop right after opening it gives back the tables as they were. */
  lemma PushPopWhile(v: Saved, top: Operand, body: Operand, end: Operand)
    requires v.Shaped()
    ensures v.PushWhile(top, body, end).PopWhile() == v
  {
    assert (v.loops + [top])[..v.whileCount + 1] == v.loops;
    assert (v.bodies + [body])[..v.whileCount + 1] == v.bodies;
    assert (v.ends + [end])[..v.whileCount + 1] == v.ends;
  }

  /** Opening a loop appends its labels to the loop context a statement sees. */
  lemma PushWhileTables(v: Saved, top: Operand, body: Operand, end: Operand)
    requires v.Shaped()
    ensures v.PushWhile(top, body, end).loops[1..] == v.loops[1..] + [top]
    ensures v.PushWhile(top, body, end).ends[1..] == v.ends[1..] + [end]
  {
    assert (v.loops + [top])[1..] == v.loops[1..] + [top];
    assert (v.ends + [end])[1..] == v.ends[1..] + [end];
  }

  /**
   * The code generator's state.  `zero` is what the zero-filled allocation
   * leaves in every table slot; slot 0 of the loop tables is never written.
   */
  class CodeGenData {
    var epilogue: Operand
    var whileCount: int
    var ifCount: int
    const loopLabel: array<Operand>
    const bodyLabel: array<Operand>
    const endLabel: array<Operand>
    const ifBodyLabel: array<Operand>
    const ifEndLabel: array<Operand>
    const zero: Operand
    const names: Names

    ghost predicate Valid()
      reads this, loopLabel, endLabel
    {
      loopLabel.Length == LABEL_SLOTS && bodyLabel.Length == LABEL_SLOTS && endLabel.Length == LABEL_SLOTS
      && ifBodyLabel.Length == LABEL_SLOTS && ifEndLabel.Length == LABEL_SLOTS
      && loopLabel != bodyLabel && loopLabel != endLabel && bodyLabel != endLabel
      && ifBodyLabel != ifEndLabel
      && loopLabel != ifBodyLabel && loopLabel != ifEndLabel
      && bodyLabel != ifBodyLabel && bodyLabel != ifEndLabel
      && endLabel != ifBodyLabel && endLabel != ifEndLabel
      && 0 <= whileCount < LABEL_SLOTS && 0 <= ifCount < LABEL_SLOTS
      && loopLabel[0] == zero && endLabel[0] == zero
    }

    /** What a statement sees: slot 0, the live parts of the loop tables, the epilogue label. */
    ghost function Ctx(): Ctx
      requires Valid()
      reads this, loopLabel, bodyLabel, endLabel, ifBodyLabel, ifEndLabel
    {
      var v := Snapshot();
      Generation.Ctx(zero, v.loops[1..], v.ends[1..], v.epilogue)
    }

    /** The state a statement's traversal leaves as it found it: both counts, the epilogue label, the live table slots. */
    ghost function Snapshot(): (v: Saved)
      requires Valid()
      reads this, loopLabel, bodyLabel, endLabel, ifBodyLabel, ifEndLabel
      ensures v.Shaped() && v.whileCount == whileCount && v.ifCount == ifCount && v.epilogue == epilogue
    {
      Saved(whileCount, ifCount, epilogue, loopLabel[..whileCount + 1], bodyLabel[..whileCount + 1],
        endLabel[..whileCount + 1], ifBodyLabel[..ifCount + 1], ifEndLabel[..ifCount + 1])
    }

    /** `CodeGenData_new`: zero-filled tables, both counts 0, no epilogue label yet. */
    constructor (zero: Operand, names: Names)
      ensures Valid() && fresh(loopLabel) && fresh(bodyLabel) && fresh(endLabel)
      ensures fresh(ifBodyLabel) && fresh(ifEndLabel)
      ensures this.zero == zero && this.names == names
      ensures whileCount == 0 && ifCount == 0 && epilogue == Empty
      ensures Ctx() == Generation.Ctx(zero, [], [], Empty)
    {
      this.zero := zero;
      this.names := names;
      epilogue := Empty;
      whileCount := 0;
      ifCount := 0;
      loopLabel := new Operand[LABEL_SLOTS](_ => zero);
      bodyLabel := new Operand[LABEL_SLOTS](_ => zero);
      endLabel := new Operand[LABEL_SLOTS](_ => zero);
      ifBodyLabel := new Operand[LABEL_SLOTS](_ => zero);
      ifEndLabel := new Operand[LABEL_SLOTS](_ => zero);
    }

    // -------------------------------------------------------------------
    // Functions.
    // -------------------------------------------------------------------

    /** `previsit_funcdecl`: a fresh epilogue label for the function about to be generated. */
    method PreFuncDecl()
      requires Valid()
      modifies this, names
      ensures Valid() && whileCount == old(whileCount) && ifCount == old(ifCount)
      ensures epilogue == AnonLabel(old(names.nextLabel))
      ensures names.nextLabel == old(names.nextLabel) + 1 && names.nextReg == old(names.nextReg)
    {
      epilogue := names.AnonymousLabel();
    }

    /** `gen_funcdecl`: the prologue, the body's code `bc`, the epilogue at the current epilogue label. */
    method GenFuncDecl(name: string, locals: nat, bc: seq<Insn>) returns (code: seq<Insn>)
      ensures code == FuncCode(name, locals, epilogue, bc)
      ensures |code| == |bc| + 8 && code[4..4 + |bc|] == bc
      ensures code[..4] == Prologue(name, locals) && code[4 + |bc|..] == Epilogue(epilogue)
    {
      code := [Insn1(Label, CallLabel(name))];
      code := code + [Insn1(Push, BaseReg)];
      code := code + [Insn2(I2I, StackReg, BaseReg)];
      code := code + [Insn3(AddI, StackReg, IntConst(locals * -WORD_SIZE), StackReg)];
      code := code + bc;
      code := code + [Insn1(Label, epilogue)];
      code := code + [Insn2(I2I, BaseReg, StackReg)];
      code := code + [Insn1(Pop, BaseReg)];
      code := code + [Insn0(Opcode.Return)];
    }

    // -------------------------------------------------------------------
    // Loops.
    // -------------------------------------------------------------------

    /** `gen_pre_while`: the next table slot gets three fresh labels: top, body, end. */
    method PreWhile()
      requires Valid() && whileCount + 1 < LABEL_SLOTS
      modifies this, names, loopLabel, bodyLabel, endLabel
      ensures Valid()
      ensures var l := old(names.nextLabel);
        Snapshot() == old(Snapshot()).PushWhile(AnonLabel(l), AnonLabel(l + 1), AnonLabel(l + 2))
      ensures names.nextLabel == old(names.nextLabel) + 3 && names.nextReg == old(names.nextReg)
    {
      whileCount := whileCount + 1;
      var top := names.AnonymousLabel();
      loopLabel[whileCount] := top;
      var body := names.AnonymousLabel();
      bodyLabel[whileCount] := body;
      var end := names.AnonymousLabel();
      endLabel[whileCount] := end;
    }

    /** `gen_post_while`: the loop's layout around the condition and body code, then the slot is released. */
    method PostWhile(cc: seq<Insn>, ct: Operand, bc: seq<Insn>) returns (code: seq<Insn>)
      requires Valid() && 0 < whileCount
      modifies this
      ensures Valid() && Snapshot() == old(Snapshot()).PopWhile()
      ensures var v := old(Snapshot()); var k := old(whileCount);
        code == WhileCode(v.loops[k], v.bodies[k], v.ends[k], cc, ct, bc)
    {
      var k := whileCount;
      code := [Insn1(Label, loopLabel[k])];
      code := code + cc;
      code := code + [Insn3(Cbr, ct, bodyLabel[k], endLabel[k])];
      code := code + [Insn1(Label, bodyLabel[k])];
      code := code + bc;
      code := code + [Insn1(Jump, loopLabel[k])];
      code := code + [Insn1(Label, endLabel[k])];
      whileCount := whileCount - 1;
    }

    /**
     * `gen_post_break`: a jump to the end label at slot `while_count`.  The
     * source's `while_count < 0` guard cannot fire: `Valid` keeps the count
     * at 0 or above, so outside every loop the jump goes through slot 0.
     */
    method Break() returns (code: seq<Insn>)
      requires Valid()
      ensures code == [Insn1(Jump, endLabel[whileCount])]
      ensures code == [Insn1(Jump, Innermost(Ctx().ends, zero))]
    {
      code := [Insn1(Jump, endLabel[whileCount])];
    }

    /** `gen_post_continue`: a jump to the top label at slot `while_count`, slot 0 outside every loop. */
    method Continue() returns (code: seq<Insn>)
      requires Valid()
      ensures code == [Insn1(Jump, loopLabel[whileCount])]
      ensures code == [Insn1(Jump, Innermost(Ctx().tops, zero))]
    {
      code := [Insn1(Jump, loopLabel[whileCount])];
    }

    // -------------------------------------------------------------------
    // Conditionals.
    // -------------------------------------------------------------------

    /** `gen_pre_conditional`: the next table slot gets two fresh labels: body, end. */
    method PreConditional()
      requires Valid() && ifCount + 1 < LABEL_SLOTS
      modifies this, names, ifBodyLabel, ifEndLabel
      ensures Valid()
      ensures var l := old(names.nextLabel); Snapshot() == old(Snapshot()).PushIf(AnonLabel(l), AnonLabel(l + 1))
      ensures names.nextLabel == old(names.nextLabel) + 2 && names.nextReg == old(names.nextReg)
    {
      ifCount := ifCount + 1;
      var body := names.AnonymousLabel();
      ifBodyLabel[ifCount] := body;
      var end := names.AnonymousLabel();
      ifEndLabel[ifCount] := end;
    }

    /**
     * `gen_post_conditional`: the condition, the branch, the then-code; with
     * an else block a fresh merge label is taken here, after both blocks.
     */
    method PostConditional(cc: seq<Insn>, ct: Operand, tc: seq<Insn>, ec: Option<seq<Insn>>) returns (code: seq<Insn>)
      requires Valid() && 0 < ifCount
      modifies this, names
      ensures Valid() && Snapshot() == old(Snapshot()).PopIf()
      ensures var v := old(Snapshot()); var k := old(ifCount);
        code == IfCode(v.ifBodies[k], v.ifEnds[k], if ec.Some? then AnonLabel(old(names.nextLabel)) else Empty, cc, ct, tc, ec)
      ensures names.nextLabel == old(names.nextLabel) + (if ec.Some? then 1 else 0)
      ensures names.nextReg == old(names.nextReg)
    {
      var k := ifCount;
      code := cc;
      code := code + [Insn3(Cbr, ct, ifBodyLabel[k], ifEndLabel[k])];
      code := code + [Insn1(Label, ifBodyLabel[k])];
      code := code + tc;
      if ec.Some? {
        var merge := names.AnonymousLabel();
        code := code + [Insn1(Jump, merge)];
        code := code + [Insn1(Label, ifEndLabel[k])];
        code := code + ec.value;
        code := code + [Insn1(Label, merge)];
      } else {
        code := code + [Insn1(Label, ifEndLabel[k])];
      }
      ifCount := ifCount - 1;
    }
  
    // -------------------------------------------------------------------
    // Expressions: each takes its registers after its children's.
    // -------------------------------------------------------------------

    /** `var_base`: a global's slot loaded into a fresh register; a frame variable's base is BP. */
    method VarBase(sym: Symbol) returns (code: seq<Insn>, base: Operand)
      modifies names
      ensures code == BaseLoad(sym, old(names.nextReg)) && base == BaseOf(sym, old(names.nextReg))
      ensures names.nextReg == old(names.nextReg) + BaseRegs(sym) && names.nextLabel == old(names.nextLabel)
    {
      code := [];
      match sym.storage
      case StaticVar =>
        base := names.VirtualRegister();
        code := code + [Insn2(LoadI, IntConst(sym.offset), base)];
      case StackParam | StackLocal =>
        base := BaseReg;
    }

    /** `gen_literal`: the literal's integer loaded into a fresh register. */
    method GenLiteral(v: int) returns (code: seq<Insn>, temp: Operand)
      modifies names
      ensures temp == VirtualReg(old(names.nextReg)) && code == [Insn2(LoadI, IntConst(v), temp)]
      ensures names.nextReg == old(names.nextReg) + 1 && names.nextLabel == old(names.nextLabel)
    {
      temp := names.VirtualRegister();
      code := [Insn2(LoadI, IntConst(v), temp)];
    }

    /** `gen_post_binaryop`: the result register first, then `%`'s quotient and product registers. */
    method GenBinary(op: BinOp, lc: seq<Insn>, lt: Operand, rc: seq<Insn>, rt: Operand) returns (code: seq<Insn>, temp: Operand)
      modifies names
      ensures code == BinaryCode(op, lc, lt, rc, rt, old(names.nextReg)) && temp == VirtualReg(old(names.nextReg))
      ensures names.nextReg == old(names.nextReg) + BinaryRegs(op) && names.nextLabel == old(names.nextLabel)
    {
      temp := names.VirtualRegister();
      code := lc + rc;
      if op == ModOp {
        var quotient := names.VirtualRegister();
        code := code + [Insn3(Div, lt, rt, quotient)];
        var product := names.VirtualRegister();
        code := code + [Insn3(Mult, quotient, rt, product)];
        code := code + [Insn3(Sub, lt, product, temp)];
      } else {
        code := code + [Insn3(BinOpcode(op), lt, rt, temp)];
      }
    }

    /** `gen_unaryop`. */
    method GenUnary(op: UnOp, cc: seq<Insn>, ct: Operand) returns (code: seq<Insn>, temp: Operand)
      modifies names
      ensures code == UnaryCode(op, cc, ct, old(names.nextReg)) && temp == VirtualReg(old(names.nextReg))
      ensures names.nextReg == old(names.nextReg) + 1 && names.nextLabel == old(names.nextLabel)
    {
      temp := names.VirtualRegister();
      code := cc;
      match op
      case NegOp =>
        code := code + [Insn2(Neg, ct, temp)];
      case NotOp =>
        code := code + [Insn2(Not, ct, temp)];
    }

    /**
     * `gen_post_location`: nothing for an assignment's target; otherwise the
     * base, the result register, and for an array element the scaled index.
     */
    method GenLocation(sym: Symbol, index: Option<(seq<Insn>, Operand)>, target: bool) returns (code: seq<Insn>, temp: Operand)
      requires sym.kind == ArraySymbol ==> index.Some?
      modifies names
      ensures target ==> code == [] && names.nextReg == old(names.nextReg)
      ensures !target ==> code == LocationCode(sym, index, old(names.nextReg)) && temp == LocationResult(sym, old(names.nextReg))
      ensures !target ==> names.nextReg == old(names.nextReg) + LocationRegs(sym)
      ensures names.nextLabel == old(names.nextLabel)
    {
      if target {
        return [], Empty;
      }
      var base;
      code, base := VarBase(sym);
      var offset := VarOffset(sym);
      temp := names.VirtualRegister();
      if sym.kind == ArraySymbol {
        code := code + index.value.0;
        var scaled := names.VirtualRegister();
        code := code + [Insn3(MultI, index.value.1, IntConst(WORD_SIZE), scaled)];
        code := code + [Insn3(LoadAO, base, scaled, temp)];
      } else {
        code := code + [Insn3(LoadAI, base, offset, temp)];
      }
    }

    /** `gen_assign`: an array store scales the index before the value's code; a scalar store follows it. */
    method GenAssign(sym: Symbol, index: Option<(seq<Insn>, Operand)>, vc: seq<Insn>, vt: Operand) returns (code: seq<Insn>)
      requires sym.kind == ArraySymbol ==> index.Some?
      modifies names
      ensures code == AssignCode(sym, index, vc, vt, old(names.nextReg))
      ensures names.nextReg == old(names.nextReg) + AssignRegs(sym) && names.nextLabel == old(names.nextLabel)
    {
      if sym.kind == ArraySymbol {
        code := index.value.0;
        var baseCode, base := VarBase(sym);
        code := code + baseCode;
        var scaled := names.VirtualRegister();
        code := code + [Insn3(MultI, index.value.1, IntConst(WORD_SIZE), scaled)];
        code := code + vc;
        code := code + [Insn3(StoreAO, vt, base, scaled)];
      } else {
        code := vc;
        var baseCode, base := VarBase(sym);
        code := code + baseCode;
        code := code + [Insn3(StoreAI, vt, base, VarOffset(sym))];
      }
    }

    /** `gen_return`: the value moved into RET (reloaded from [BP-8] when it has no register), then the epilogue jump. */
    method GenReturn(res: Option<(seq<Insn>, Operand)>) returns (code: seq<Insn>)
      modifies names
      ensures code == ReturnCode(res, epilogue, old(names.nextReg))
      ensures names.nextReg == old(names.nextReg) + (if res.Some? && res.value.1 == Empty then 1 else 0)
      ensures names.nextLabel == old(names.nextLabel)
    {
      code := [];
      if res.Some? {
        code := code + res.value.0;
        var result := res.value.1;
        if result == Empty {
          result := names.VirtualRegister();
          code := code + [Insn3(LoadAI, BaseReg, IntConst(-WORD_SIZE), result)];
        }
        code := code + [Insn2(I2I, result, ReturnReg)];
      }
      code := code + [Insn1(Jump, epilogue)];
    }

    /** The arguments' code, copied in order. */
    method CopyArgs(codes: seq<seq<Insn>>) returns (code: seq<Insn>)
      ensures code == Concat(codes)
    {
      code := [];
      var i := 0;
      while i < |codes|
        invariant 0 <= i <= |codes|
        invariant code == Concat(codes[..i])
      {
        ConcatSnoc(codes, i);
        code := code + codes[i];
        i := i + 1;
      }
      assert codes[..|codes|] == codes;
    }

    /**
     * The pushes after `code`, last argument first; an argument without a
     * register gets a fresh one loaded with its literal value.
     */
    method PushArgs(code0: seq<Insn>, args: seq<Expr>, temps: seq<Operand>) returns (code: seq<Insn>)
      requires |temps| == |args|
      modifies names
      ensures code == code0 + Pushes(temps, Lits(args), old(names.nextReg)).code
      ensures names.nextReg == Pushes(temps, Lits(args), old(names.nextReg)).next
      ensures names.nextLabel == old(names.nextLabel)
    {
      ghost var r0 := names.nextReg;
      ghost var lits := Lits(args);
      code := code0;
      var i := |args| - 1;
      assert temps[i + 1..] == [] && lits[i + 1..] == [];
      while i >= 0
        invariant -1 <= i < |args|
        invariant code == code0 + Pushes(temps[i + 1..], lits[i + 1..], r0).code
        invariant names.nextReg == Pushes(temps[i + 1..], lits[i + 1..], r0).next
        invariant names.nextLabel == old(names.nextLabel)
        decreases i
      {
        assert temps[i..][1..] == temps[i + 1..] && lits[i..][1..] == lits[i + 1..];
        var t := temps[i];
        if t == Empty {
          t := names.VirtualRegister();
          code := code + [Insn2(LoadI, IntConst(LiteralInt(args[i])), t)];
        }
        code := code + [Insn1(Push, t)];
        i := i - 1;
      }
      assert temps[0..] == temps && lits[0..] == lits;
    }

    /**
     * `gen_post_funccall`: a print call loads and prints its argument's
     * literal without its code; any other call copies the arguments' code,
     * pushes, calls, restores the stack and copies RET into a fresh register.
     */
    method GenFuncCall(name: string, args: seq<Expr>, codes: seq<seq<Insn>>, temps: seq<Operand>) returns (code: seq<Insn>, temp: Operand)
      requires |codes| == |args| && |temps| == |args| && (IsPrint(name) ==> |args| > 0)
      modifies names
      ensures IsPrint(name) ==>
        code == PrintCode(name, args[0], temps[0]) && temp == Empty && names.nextReg == old(names.nextReg)
      ensures !IsPrint(name) ==> var p := Pushes(temps, Lits(args), old(names.nextReg));
        code == CallCode(Concat(codes) + p.code, name, |args|, p.next) && temp == VirtualReg(p.next)
        && names.nextReg == p.next + 1
      ensures names.nextLabel == old(names.nextLabel)
    {
      if IsPrint(name) {
        var argReg := temps[0];
        if name == "print_str" {
          code := [Insn1(Print, StrConst(LiteralText(args[0])))];
        } else {
          code := [Insn2(LoadI, IntConst(LiteralInt(args[0])), argReg)];
          code := code + [Insn1(Print, argReg)];
        }
        temp := Empty;
      } else {
        code := CopyArgs(codes);
        code := PushArgs(code, args, temps);
        code := code + [Insn1(Call, CallLabel(name))];
        code := code + [Insn3(AddI, StackReg, IntConst(|args| * WORD_SIZE), StackReg)];
        temp := names.VirtualRegister();
        code := code + [Insn2(I2I, ReturnReg, temp)];
      }
    }

    /** `gen_vardecl`: an array takes its base register; its code is never copied into a block or the program. */
    method GenVarDecl(d: VarDecl) returns (code: seq<Insn>)
      requires d.sym.Some?
      modifies names
      ensures names.nextReg == old(names.nextReg) + DeclReg(d) && names.nextLabel == old(names.nextLabel)
      ensures d.sym.value.kind == ArraySymbol ==>
        code == BaseLoad(d.sym.value, old(names.nextReg)) + [Insn3(AddI, StackReg, IntConst(d.sym.value.length * WORD_SIZE), StackReg)]
      ensures d.sym.value.kind != ArraySymbol ==> code == []
    {
      var sym := d.sym.value;
      code := [];
      if sym.kind == ArraySymbol {
        var space := IntConst(sym.length * WORD_SIZE);
        var baseCode, base := VarBase(sym);
        code := baseCode + [Insn3(AddI, StackReg, space, StackReg)];
      }
    }

    // -------------------------------------------------------------------
    // The traversal: pre-visit hook, children in order, post-visit hook.
    // -------------------------------------------------------------------

    /** An optional index expression, visited when present. */
    method VisitIndex(index: Option<Expr>) returns (part: Option<(seq<Insn>, Operand)>)
      requires index.Some? ==> ExprReady(index.value)
      modifies names
      ensures var o := IndexGen(index, old(names.nextReg));
        part == IndexPart(o) && names.nextReg == AfterIndex(o, old(names.nextReg))
      ensures names.nextLabel == old(names.nextLabel)
      decreases index, 2
    {
      part := None;
      if index.Some? {
        var code, temp := VisitExpr(index.value);
        part := Some((code, temp));
      }
    }

    /** An expression's code and temporary, exactly as `ExprGen` gives them. */
    method VisitExpr(e: Expr) returns (code: seq<Insn>, temp: Operand)
      requires ExprReady(e)
      modifies names
      ensures var o := ExprGen(e, old(names.nextReg));
        code == o.code && temp == o.temp && names.nextReg == o.next
      ensures names.nextLabel == old(names.nextLabel)
      decreases e, 1
    {
      match e
      case Literal(_, v, _) =>
        code, temp := GenLiteral(v);
      case Binary(op, left, right) =>
        var lc, lt := VisitExpr(left);
        var rc, rt := VisitExpr(right);
        code, temp := GenBinary(op, lc, lt, rc, rt);
      case Unary(op, child) =>
        var cc, ct := VisitExpr(child);
        code, temp := GenUnary(op, cc, ct);
      case Location(_, sym, index) =>
        var part := VisitIndex(index);
        code, temp := GenLocation(sym.value, part, false);
      case FuncCall(name, _, args) =>
        var codes, temps := VisitArgs(e);
        code, temp := GenFuncCall(name, args, codes, temps);
    }

    /** A call's arguments, left to right, exactly as `ArgsGen` gives them. */
    method VisitArgs(e: Expr) returns (codes: seq<seq<Insn>>, temps: seq<Operand>)
      requires e.FuncCall? && ExprReady(e)
      modifies names
      ensures var a := ArgsGen(e, |e.args|, old(names.nextReg));
        codes == a.codes && temps == a.temps && names.nextReg == a.next
      ensures names.nextLabel == old(names.nextLabel)
      decreases e, 0
    {
      ghost var r0 := names.nextReg;
      codes, temps := [], [];
      var i := 0;
      while i < |e.args|
        invariant 0 <= i <= |e.args|
        invariant var a := ArgsGen(e, i, r0); codes == a.codes && temps == a.temps && names.nextReg == a.next
        invariant names.nextLabel == old(names.nextLabel)
      {
        var code, temp := VisitExpr(e.args[i]);
        codes := codes + [code];
        temps := temps + [temp];
        i := i + 1;
      }
    }

    /** A statement's code and the counters after it, exactly as `StmtGen` gives them in the current context. */
    method VisitStmt(s: Stmt) returns (code: seq<Insn>)
      requires Valid() && StmtReady(s) && Fits(s, whileCount, ifCount)
      modifies this, names, loopLabel, bodyLabel, endLabel, ifBodyLabel, ifEndLabel
      ensures Valid() && Snapshot() == old(Snapshot())
      ensures var o := StmtGen(s, old(Ctx()), old(names.nextReg), old(names.nextLabel));
        code == o.code && names.nextReg == o.next && names.nextLabel == o.nextLabel
      decreases s, 1
    {
      match s
      case Assignment(_, _) =>
        code := VisitAssignment(s);
      case Conditional(_, _, _) =>
        code := VisitConditional(s);
      case WhileLoop(_, _) =>
        code := VisitWhile(s);
      case Return(_, _) =>
        code := VisitReturn(s);
      case Break =>
        code := Break();
      case Continue =>
        code := Continue();
      case CallStmt(call) =>
        var unused;
        code, unused := VisitExpr(call);
    }

    /** An assignment: the target's index, the target itself (no code), the value, then `gen_assign`. */
    method VisitAssignment(s: Stmt) returns (code: seq<Insn>)
      requires s.Assignment? && Valid() && StmtReady(s)
      modifies names
      ensures var o := StmtGen(s, Ctx(), old(names.nextReg), old(names.nextLabel));
        code == o.code && names.nextReg == o.next && names.nextLabel == o.nextLabel
      decreases s, 0
    {
      var sym := s.target.sym.value;
      var part := VisitIndex(s.target.index);
      var none, unused := GenLocation(sym, part, true);
      var vc, vt := VisitExpr(s.rhs);
      code := GenAssign(sym, part, vc, vt);
    }

    /** A return: its value when present, then `gen_return`. */
    method VisitReturn(s: Stmt) returns (code: seq<Insn>)
      requires s.Return? && Valid() && StmtReady(s)
      modifies names
      ensures var o := StmtGen(s, Ctx(), old(names.nextReg), old(names.nextLabel));
        code == o.code && names.nextReg == o.next && names.nextLabel == o.nextLabel
      decreases s, 0
    {
      var part := VisitIndex(s.result);
      code := GenReturn(part);
    }

    method VisitConditional(s: Stmt) returns (code: seq<Insn>)
      requires s.Conditional? && Valid() && StmtReady(s) && Fits(s, whileCount, ifCount)
      modifies this, names, loopLabel, bodyLabel, endLabel, ifBodyLabel, ifEndLabel
      ensures Valid() && Snapshot() == old(Snapshot())
      ensures var o := StmtGen(s, old(Ctx()), old(names.nextReg), old(names.nextLabel));
        code == o.code && names.nextReg == o.next && names.nextLabel == o.nextLabel
      decreases s, 0
    {
      PreConditional();
      var cc, ct := VisitExpr(s.cond);
      var tc := VisitBlock(s.thenBlock);
      var ec := None;
      if s.elseBlock.Some? {
        var c := VisitBlock(s.elseBlock.value);
        ec := Some(c);
      }
      code := PostConditional(cc, ct, tc, ec);
    }

    method VisitWhile(s: Stmt) returns (code: seq<Insn>)
      requires s.WhileLoop? && Valid() && StmtReady(s) && Fits(s, whileCount, ifCount)
      modifies this, names, loopLabel, bodyLabel, endLabel, ifBodyLabel, ifEndLabel
      ensures Valid() && Snapshot() == old(Snapshot())
      ensures var o := StmtGen(s, old(Ctx()), old(names.nextReg), old(names.nextLabel));
        code == o.code && names.nextReg == o.next && names.nextLabel == o.nextLabel
      decreases s, 0
    {
      ghost var ctx := Ctx();
      ghost var l := names.nextLabel;
      ghost var v := Snapshot();
      PreWhile();
      PushWhileTables(v, AnonLabel(l), AnonLabel(l + 1), AnonLabel(l + 2));
      assert Ctx() == Generation.Ctx(zero, ctx.tops + [AnonLabel(l)], ctx.ends + [AnonLabel(l + 2)], ctx.epi);
      var cc, ct := VisitExpr(s.cond);
      var bc := VisitBlock(s.body);
      code := PostWhile(cc, ct, bc);
      PushPopWhile(v, AnonLabel(l), AnonLabel(l + 1), AnonLabel(l + 2));
    }

    /** Declarations in order; each post-visit's code is dropped, a global array's base register stays taken. */
    method VisitDecls(ds: seq<VarDecl>)
      requires forall i :: 0 <= i < |ds| ==> DeclReady(ds[i])
      modifies names
      ensures names.nextReg == DeclsNext(ds, old(names.nextReg)) && names.nextLabel == old(names.nextLabel)
    {
      var i := 0;
      while i < |ds|
        invariant 0 <= i <= |ds|
        invariant names.nextReg == DeclsNext(ds[..i], old(names.nextReg)) && names.nextLabel == old(names.nextLabel)
      {
        assert ds[..i + 1][..i] == ds[..i];
        var unused := GenVarDecl(ds[i]);
        i := i + 1;
      }
      assert ds[..|ds|] == ds;
    }

    /**
     * A block: its declarations' post-visits (whose code is dropped), then
     * its statements, whose code `gen_block` copies one after another.
     */
    method VisitBlock(b: Block) returns (code: seq<Insn>)
      requires Valid() && BlockReady(b) && BlockFits(b, whileCount, ifCount)
      modifies this, names, loopLabel, bodyLabel, endLabel, ifBodyLabel, ifEndLabel
      ensures Valid() && Snapshot() == old(Snapshot())
      ensures var o := BlockGen(b, old(Ctx()), old(names.nextReg), old(names.nextLabel));
        code == o.code && names.nextReg == o.next && names.nextLabel == o.nextLabel
      decreases b, 1
    {
      VisitDecls(b.vars);
      code := VisitStmts(b);
    }

    /** The statements of a block, their code one after another. */
    method VisitStmts(b: Block) returns (code: seq<Insn>)
      requires Valid() && BlockReady(b) && BlockFits(b, whileCount, ifCount)
      modifies this, names, loopLabel, bodyLabel, endLabel, ifBodyLabel, ifEndLabel
      ensures Valid() && Snapshot() == old(Snapshot())
      ensures var o := StmtsGen(b, |b.stmts|, old(Ctx()), old(names.nextReg), old(names.nextLabel));
        code == o.code && names.nextReg == o.next && names.nextLabel == o.nextLabel
      decreases b, 0
    {
      ghost var ctx := Ctx();
      code := [];
      var i := 0;
      while i < |b.stmts|
        invariant 0 <= i <= |b.stmts|
        invariant Valid() && Snapshot() == old(Snapshot())
        invariant var o := StmtsGen(b, i, ctx, old(names.nextReg), old(names.nextLabel));
          code == o.code && names.nextReg == o.next && names.nextLabel == o.nextLabel
      {
        ghost var p := StmtsGen(b, i, ctx, old(names.nextReg), old(names.nextLabel));
        var c := VisitStmt(b.stmts[i]);
        assert StmtsGen(b, i + 1, ctx, old(names.nextReg), old(names.nextLabel)) == StmtOut(p.code + c, names.nextReg, names.nextLabel);
        code := code + c;
        i := i + 1;
      }
    }

    /** A function: the epilogue label first, then the body outside every loop, then `gen_funcdecl`. */
    method VisitFunc(f: FuncDecl) returns (code: seq<Insn>)
      requires Valid() && whileCount == 0 && ifCount == 0 && BlockReady(f.body) && BlockFits(f.body, 0, 0)
      modifies this, names, loopLabel, bodyLabel, endLabel, ifBodyLabel, ifEndLabel
      ensures Valid() && whileCount == 0 && ifCount == 0
      ensures var o := FuncGen(f, zero, old(names.nextReg), old(names.nextLabel));
        code == o.code && names.nextReg == o.next && names.nextLabel == o.nextLabel
    {
      PreFuncDecl();
      assert Ctx() == Generation.Ctx(zero, [], [], epilogue);
      var bc := VisitBlock(f.body);
      code := GenFuncDecl(f.name, |f.body.vars|, bc);
    }

    /** The program: its global declarations, then every function, their code one after another. */
    method VisitProgram(p: Program) returns (code: seq<Insn>)
      requires Valid() && whileCount == 0 && ifCount == 0 && ProgramReady(p) && ProgramFits(p)
      modifies this, names, loopLabel, bodyLabel, endLabel, ifBodyLabel, ifEndLabel
      ensures var o := ProgramGen(p, zero, old(names.nextReg), old(names.nextLabel));
        code == o.code && names.nextReg == o.next && names.nextLabel == o.nextLabel
    {
      VisitDecls(p.vars);
      ghost var r1 := names.nextReg;
      code := [];
      var i := 0;
      while i < |p.funcs|
        invariant 0 <= i <= |p.funcs|
        invariant Valid() && whileCount == 0 && ifCount == 0
        invariant var o := FuncsGen(p, i, zero, r1, old(names.nextLabel));
          code == o.code && names.nextReg == o.next && names.nextLabel == o.nextLabel
      {
        var c := VisitFunc(p.funcs[i]);
        code := code + c;
        i := i + 1;
      }
    }
  }

  /**
   * `generate_code`: no tree gives an empty list; otherwise a fresh
   * generator state walks the tree and the program's code is copied out.
   * `zero` is what a zero-filled table slot reads as.
   */
  method GenerateCode(tree: Option<Program>, zero: Operand, names: Names) returns (iloc: seq<Insn>)
    requires tree.Some? ==> ProgramReady(tree.value) && ProgramFits(tree.value)
    requires names.nextReg >= 0
    modifies names
    ensures iloc == Generate(tree, zero, old(names.nextReg), old(names.nextLabel))
  {
    iloc := [];
    if tree.None? {
      return;
    }
    var data := new CodeGenData(zero, names);
    var code := data.VisitProgram(tree.value);
    iloc := CopyOut(code);
  }

  /** The final copy of the program's code into the returned list. */
  method CopyOut(code: seq<Insn>) returns (iloc: seq<Insn>)
    ensures iloc == code
  {
    iloc := [];
    var i := 0;
    while i < |code|
      invariant 0 <= i <= |code| && iloc == code[..i]
    {
      iloc := iloc + [code[i]];
      i := i + 1;
    }
  }
}

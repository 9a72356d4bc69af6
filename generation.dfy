/**
 * What the code generator's visitor produces for a whole tree.  The
 * traversal visits a node's children in order before its post-visit hook;
 * the hooks of while loops, conditionals and functions also run a pre-visit
 * before the children.  The functions here follow that order and thread the
 * two counters of fresh names: the next virtual register and the next
 * anonymous label.  Each node's code is the layout of `CodeGen` applied to
 * its children's code.
 *
 * The loop-label tables are seen here through their live part: `tops` and
 * `ends` hold the labels of the enclosing loops, outermost first (slots 1 to
 * `while_count` of the tables), and `zero` is slot 0, which is never written
 * and keeps the table's zero-filled initial contents.
 */
module Generation {
  import opened Wrappers
  import opened Iloc
  import opened Ast
  import opened CodeFacts
  import opened CodeGen

  // ---------------------------------------------------------------------
  // What the generator dereferences.
  // ---------------------------------------------------------------------

  /**
   * Every symbol the generator looks up resolves, every array reference has
   * an index, and every print call has an argument: the generator
   * dereferences all three without a check.
   */
  predicate ExprReady(e: Expr)
    decreases e
  {
    match e
    case Literal(_, _, _) => true
    case Binary(_, l, r) => ExprReady(l) && ExprReady(r)
    case Unary(_, c) => ExprReady(c)
    case Location(_, sym, index) =>
      sym.Some? && (sym.value.kind == ArraySymbol ==> index.Some?)
      && (index.Some? ==> ExprReady(index.value))
    case FuncCall(name, _, args) =>
      (IsPrint(name) ==> |args| > 0) && forall i :: 0 <= i < |args| ==> ExprReady(args[i])
  }

  /** A declaration's symbol resolves. */
  predicate DeclReady(d: VarDecl) {
    d.sym.Some?
  }

  predicate StmtReady(s: Stmt)
    decreases s
  {
    match s
    case Assignment(target, rhs) => target.Location? && ExprReady(target) && ExprReady(rhs)
    case Conditional(c, t, e) => ExprReady(c) && BlockReady(t) && (e.Some? ==> BlockReady(e.value))
    case WhileLoop(c, b) => ExprReady(c) && BlockReady(b)
    case Return(v, _) => v.Some? ==> ExprReady(v.value)
    case Break => true
    case Continue => true
    case CallStmt(call) => ExprReady(call)
  }

  predicate BlockReady(b: Block)
    decreases b
  {
    (forall i :: 0 <= i < |b.vars| ==> DeclReady(b.vars[i]))
    && forall i :: 0 <= i < |b.stmts| ==> StmtReady(b.stmts[i])
  }

  predicate ProgramReady(p: Program) {
    (forall i :: 0 <= i < |p.vars| ==> DeclReady(p.vars[i]))
    && forall i :: 0 <= i < |p.funcs| ==> BlockReady(p.funcs[i].body)
  }

  // ---------------------------------------------------------------------
  // Expressions.
  // ---------------------------------------------------------------------

  /** An expression's code attribute, its temporary register, and the next free register after it. */
  datatype ExprOut = ExprOut(code: seq<Insn>, temp: Operand, next: int)

  /** The code and temporaries of the first `i` arguments of the call `e`, in order. */
  datatype ArgsOut = ArgsOut(codes: seq<seq<Insn>>, temps: seq<Operand>, next: int)

  /** An optional index expression, generated from register `r` on. */
  function IndexGen(index: Option<Expr>, r: int): (o: Option<ExprOut>)
    requires index.Some? ==> ExprReady(index.value)
    ensures o.Some? <==> index.Some?
    decreases index, 0, 0
  {
    match index
    case None => None
    case Some(x) => Some(ExprGen(x, r))
  }

  /** The register after an optional index's code. */
  function AfterIndex(o: Option<ExprOut>, r: int): int {
    if o.Some? then o.value.next else r
  }

  /** An optional index's code and temporary, as the layouts take them. */
  function IndexPart(o: Option<ExprOut>): Option<(seq<Insn>, Operand)> {
    if o.Some? then Some((o.value.code, o.value.temp)) else None
  }

  /** The code the generator attaches to expression `e` when register `r` is the next free one. */
  function ExprGen(e: Expr, r: int): ExprOut
    requires ExprReady(e)
    decreases e, 1, 0
  {
    match e
    case Literal(_, v, _) =>
      ExprOut([Insn2(LoadI, IntConst(v), VirtualReg(r))], VirtualReg(r), r + 1)
    case Binary(op, left, right) =>
      var lo := ExprGen(left, r);
      var ro := ExprGen(right, lo.next);
      ExprOut(BinaryCode(op, lo.code, lo.temp, ro.code, ro.temp, ro.next), VirtualReg(ro.next), ro.next + BinaryRegs(op))
    case Unary(op, child) =>
      var co := ExprGen(child, r);
      ExprOut(UnaryCode(op, co.code, co.temp, co.next), VirtualReg(co.next), co.next + 1)
    case Location(_, sym, index) =>
      var io := IndexGen(index, r);
      var n := AfterIndex(io, r);
      ExprOut(LocationCode(sym.value, IndexPart(io), n), LocationResult(sym.value, n), n + LocationRegs(sym.value))
    case FuncCall(name, _, args) =>
      var ao := ArgsGen(e, |args|, r);
      if IsPrint(name) then
        ExprOut(PrintCode(name, args[0], ao.temps[0]), Empty, ao.next)
      else
        var po := Pushes(ao.temps, Lits(args), ao.next);
        ExprOut(CallCode(Concat(ao.codes) + po.code, name, |args|, po.next), VirtualReg(po.next), po.next + 1)
  }

  function ArgsGen(e: Expr, i: nat, r: int): (a: ArgsOut)
    requires e.FuncCall? && i <= |e.args|
    requires forall j :: 0 <= j < |e.args| ==> ExprReady(e.args[j])
    ensures |a.codes| == i && |a.temps| == i
    decreases e, 0, i
  {
    if i == 0 then ArgsOut([], [], r)
    else
      var p := ArgsGen(e, i - 1, r);
      var o := ExprGen(e.args[i - 1], p.next);
      ArgsOut(p.codes + [o.code], p.temps + [o.temp], o.next)
  }

  // ---------------------------------------------------------------------
  // Statements, blocks, functions, the program.
  // ---------------------------------------------------------------------

  /**
   * What a statement sees of the generator's state: slot 0 of the loop
   * tables, the labels of the enclosing loops, and the current epilogue label.
   */
  datatype Ctx = Ctx(zero: Operand, tops: seq<Operand>, ends: seq<Operand>, epi: Operand)

  /** A statement's code attribute and the two counters after it. */
  datatype StmtOut = StmtOut(code: seq<Insn>, next: int, nextLabel: int)

  /** The table entry at `while_count`: the innermost loop's label, or slot 0 outside every loop. */
  function Innermost(ls: seq<Operand>, zero: Operand): Operand {
    if |ls| == 0 then zero else ls[|ls| - 1]
  }

  /** The next free register after the declarations, which take one register per global array base from `r` on. */
  function DeclsNext(ds: seq<VarDecl>, r: int): (n: int)
    ensures r <= n
  {
    if |ds| == 0 then r else DeclsNext(ds[..|ds| - 1], r) + DeclReg(ds[|ds| - 1])
  }

  /** The register a declaration's post-visit takes: the base of a global array. */
  function DeclReg(d: VarDecl): nat {
    if d.sym.Some? && d.sym.value.kind == ArraySymbol then BaseRegs(d.sym.value) else 0
  }

  function StmtGen(s: Stmt, ctx: Ctx, r: int, l: int): StmtOut
    requires StmtReady(s)
    decreases s, 1, 0
  {
    match s
    case Assignment(target, rhs) =>
      var io := IndexGen(target.index, r);
      var vo := ExprGen(rhs, AfterIndex(io, r));
      var sym := target.sym.value;
      StmtOut(AssignCode(sym, IndexPart(io), vo.code, vo.temp, vo.next), vo.next + AssignRegs(sym), l)
    case Conditional(c, t, e) =>
      var co := ExprGen(c, r);
      var to := BlockGen(t, ctx, co.next, l + 2);
      if e.None? then
        StmtOut(IfCode(AnonLabel(l), AnonLabel(l + 1), Empty, co.code, co.temp, to.code, None), to.next, to.nextLabel)
      else
        var eo := BlockGen(e.value, ctx, to.next, to.nextLabel);
        StmtOut(IfCode(AnonLabel(l), AnonLabel(l + 1), AnonLabel(eo.nextLabel), co.code, co.temp, to.code, Some(eo.code)),
          eo.next, eo.nextLabel + 1)
    case WhileLoop(c, b) =>
      var co := ExprGen(c, r);
      var inner := Ctx(ctx.zero, ctx.tops + [AnonLabel(l)], ctx.ends + [AnonLabel(l + 2)], ctx.epi);
      var bo := BlockGen(b, inner, co.next, l + 3);
      StmtOut(WhileCode(AnonLabel(l), AnonLabel(l + 1), AnonLabel(l + 2), co.code, co.temp, bo.code), bo.next, bo.nextLabel)
    case Return(v, _) =>
      if v.None? then StmtOut(ReturnCode(None, ctx.epi, r), r, l)
      else
        var vo := ExprGen(v.value, r);
        StmtOut(ReturnCode(Some((vo.code, vo.temp)), ctx.epi, vo.next), vo.next + (if vo.temp == Empty then 1 else 0), l)
    case Break => StmtOut([Insn1(Jump, Innermost(ctx.ends, ctx.zero))], r, l)
    case Continue => StmtOut([Insn1(Jump, Innermost(ctx.tops, ctx.zero))], r, l)
    case CallStmt(call) =>
      var o := ExprGen(call, r);
      StmtOut(o.code, o.next, l)
  }

  /** A block: its declarations, then its statements' code one after another. */
  function BlockGen(b: Block, ctx: Ctx, r: int, l: int): StmtOut
    requires BlockReady(b)
    decreases b, 1, 0
  {
    StmtsGen(b, |b.stmts|, ctx, DeclsNext(b.vars, r), l)
  }

  /** The first `i` statements of `b`. */
  function StmtsGen(b: Block, i: nat, ctx: Ctx, r: int, l: int): StmtOut
    requires BlockReady(b) && i <= |b.stmts|
    decreases b, 0, i
  {
    if i == 0 then StmtOut([], r, l)
    else
      var p := StmtsGen(b, i - 1, ctx, r, l);
      var o := StmtGen(b.stmts[i - 1], ctx, p.next, p.nextLabel);
      StmtOut(p.code + o.code, o.next, o.nextLabel)
  }

  /** A function: a fresh epilogue label first, then the body outside every loop, then the frame around it. */
  function FuncGen(f: FuncDecl, zero: Operand, r: int, l: int): StmtOut
    requires BlockReady(f.body)
  {
    var bo := BlockGen(f.body, Ctx(zero, [], [], AnonLabel(l)), r, l + 1);
    StmtOut(FuncCode(f.name, |f.body.vars|, AnonLabel(l), bo.code), bo.next, bo.nextLabel)
  }

  /** The first `i` functions of `p`, their code one after another. */
  function FuncsGen(p: Program, i: nat, zero: Operand, r: int, l: int): StmtOut
    requires ProgramReady(p) && i <= |p.funcs|
  {
    if i == 0 then StmtOut([], r, l)
    else
      var q := FuncsGen(p, i - 1, zero, r, l);
      var o := FuncGen(p.funcs[i - 1], zero, q.next, q.nextLabel);
      StmtOut(q.code + o.code, o.next, o.nextLabel)
  }

  /** The program: its declarations, then every function's code in order. */
  function ProgramGen(p: Program, zero: Operand, r: int, l: int): StmtOut
    requires ProgramReady(p)
  {
    FuncsGen(p, |p.funcs|, zero, DeclsNext(p.vars, r), l)
  }

  /**
   * `generate_code`: no tree gives an empty list.  The register counter
   * starts at zero or above: register -1 is what the emitters read as "no
   * register".
   */
  function Generate(tree: Option<Program>, zero: Operand, r: int, l: int): seq<Insn>
    requires tree.Some? ==> ProgramReady(tree.value)
    requires r >= 0
  {
    match tree
    case None => []
    case Some(p) => ProgramGen(p, zero, r, l).code
  }

  // ---------------------------------------------------------------------
  // The generated code is well defined.
  // ---------------------------------------------------------------------

  /**
   * An expression's code reads only registers it wrote first, jumps nowhere
   * and leaves its value in its temporary; it takes registers from `r` on.
   */
  lemma ExprGenOk(e: Expr, r: int)
    requires ExprReady(e)
    ensures ExprCodeOk(ExprGen(e, r).code, ExprGen(e, r).temp)
    ensures r <= ExprGen(e, r).next
    decreases e, 1, 0
  {
    match e
    case Literal(_, v, _) =>
      LoadFacts(IntConst(v), VirtualReg(r));
      DefinedOne(Insn2(LoadI, IntConst(v), VirtualReg(r)), {});
    case Binary(op, left, right) =>
      var lo := ExprGen(left, r);
      var ro := ExprGen(right, lo.next);
      ExprGenOk(left, r);
      ExprGenOk(right, lo.next);
      BinaryOk(op, lo.code, lo.temp, ro.code, ro.temp, ro.next);
    case Unary(op, child) =>
      var co := ExprGen(child, r);
      ExprGenOk(child, r);
      UnaryOk(op, co.code, co.temp, co.next);
    case Location(_, sym, index) =>
      if index.Some? {
        ExprGenOk(index.value, r);
      }
      var io := IndexGen(index, r);
      LocationOk(sym.value, IndexPart(io), AfterIndex(io, r));
    case FuncCall(name, _, args) =>
      var ao := ArgsGen(e, |args|, r);
      ArgsGenOk(e, |args|, r);
      if IsPrint(name) {
        PrintOk(name, args[0], ao.temps[0]);
      } else {
        CallOk(name, Lits(args), ao.codes, ao.temps, ao.next);
      }
  }

  /** Each of the first `i` arguments' code is well defined on its own. */
  lemma ArgsGenOk(e: Expr, i: nat, r: int)
    requires e.FuncCall? && ExprReady(e) && i <= |e.args|
    ensures forall j :: 0 <= j < i ==> ExprCodeOk(ArgsGen(e, i, r).codes[j], ArgsGen(e, i, r).temps[j])
    ensures r <= ArgsGen(e, i, r).next
    decreases e, 0, i
  {
    if i > 0 {
      var p := ArgsGen(e, i - 1, r);
      ArgsGenOk(e, i - 1, r);
      ExprGenOk(e.args[i - 1], p.next);
    }
  }

  /** The labels of a live table part. */
  function Elems(ls: seq<Operand>): set<Operand> {
    set i | 0 <= i < |ls| :: ls[i]
  }

  lemma ElemsSnoc(ls: seq<Operand>, x: Operand)
    ensures Elems(ls + [x]) == Elems(ls) + {x}
  {
    var ls' := ls + [x];
    forall y | y in Elems(ls')
      ensures y in Elems(ls) + {x}
    {
      var i :| 0 <= i < |ls'| && ls'[i] == y;
      if i < |ls| {
        assert ls[i] == y;
      }
    }
    forall y | y in Elems(ls) + {x}
      ensures y in Elems(ls')
    {
      if y == x {
        assert ls'[|ls|] == x;
      } else {
        var i :| 0 <= i < |ls| && ls[i] == y;
        assert ls'[i] == y;
      }
    }
  }

  /**
   * Where a statement's code may jump outside itself: the epilogue, the labels
   * of the enclosing loops, and slot 0 of the tables when the statement holds
   * a `break` or `continue` that no loop encloses.
   */
  function Reach(ctx: Ctx, stray: bool): set<Operand> {
    {ctx.epi} + Elems(ctx.tops) + Elems(ctx.ends) + if stray && |ctx.tops| == 0 then {ctx.zero} else {}
  }

  /** A `break` or `continue` jumps to the innermost loop's label, or to slot 0 outside every loop. */
  lemma EscapeOk(ctx: Ctx, ls: seq<Operand>, r: int, l: int)
    requires |ctx.tops| == |ctx.ends| && (ls == ctx.tops || ls == ctx.ends)
    ensures StmtCodeOk([Insn1(Jump, Innermost(ls, ctx.zero))], Reach(ctx, true))
  {
    var j := Innermost(ls, ctx.zero);
    JumpFacts(j);
    DefinedOne(Insn1(Jump, j), {});
    if |ls| > 0 {
      assert j == ls[|ls| - 1];
      assert j in Elems(ls);
    }
  }

  /** The body of a loop sees the loop's own labels besides what the loop sees. */
  lemma InnerReach(ctx: Ctx, top: Operand, end: Operand, stray: bool)
    ensures Reach(Ctx(ctx.zero, ctx.tops + [top], ctx.ends + [end], ctx.epi), stray) <= Reach(ctx, false) + {top, end}
  {
    ElemsSnoc(ctx.tops, top);
    ElemsSnoc(ctx.ends, end);
  }

  /**
   * A statement's code is well defined and every jump in it lands on one of
   * its own labels or on `Reach`; it takes registers and labels from `r` and
   * `l` on.
   */
  lemma StmtGenOk(s: Stmt, ctx: Ctx, r: int, l: int)
    requires StmtReady(s) && |ctx.tops| == |ctx.ends|
    ensures StmtCodeOk(StmtGen(s, ctx, r, l).code, Reach(ctx, Stray(s)))
    ensures r <= StmtGen(s, ctx, r, l).next && l <= StmtGen(s, ctx, r, l).nextLabel
    decreases s, 1, 0
  {
    match s
    case Assignment(target, rhs) =>
      var io := IndexGen(target.index, r);
      if target.index.Some? {
        ExprGenOk(target.index.value, r);
      }
      var vo := ExprGen(rhs, AfterIndex(io, r));
      ExprGenOk(rhs, AfterIndex(io, r));
      AssignOk(target.sym.value, IndexPart(io), vo.code, vo.temp, vo.next);
    case Conditional(c, t, e) =>
      ConditionalOk(s, ctx, r, l);
    case WhileLoop(c, b) =>
      WhileLoopOk(s, ctx, r, l);
    case Return(v, _) =>
      if v.None? {
        ReturnOk(None, ctx.epi, r);
      } else {
        var vo := ExprGen(v.value, r);
        ExprGenOk(v.value, r);
        ReturnOk(Some((vo.code, vo.temp)), ctx.epi, vo.next);
      }
    case Break =>
      EscapeOk(ctx, ctx.ends, r, l);
    case Continue =>
      EscapeOk(ctx, ctx.tops, r, l);
    case CallStmt(call) =>
      ExprGenOk(call, r);
  }

  lemma ConditionalOk(s: Stmt, ctx: Ctx, r: int, l: int)
    requires s.Conditional? && StmtReady(s) && |ctx.tops| == |ctx.ends|
    ensures StmtCodeOk(StmtGen(s, ctx, r, l).code, Reach(ctx, Stray(s)))
    ensures r <= StmtGen(s, ctx, r, l).next && l <= StmtGen(s, ctx, r, l).nextLabel
    decreases s, 0, 0
  {
    var open := Reach(ctx, Stray(s));
    var co := ExprGen(s.cond, r);
    ExprGenOk(s.cond, r);
    var to := BlockGen(s.thenBlock, ctx, co.next, l + 2);
    BlockGenOk(s.thenBlock, ctx, co.next, l + 2);
    StmtWiden(to.code, Reach(ctx, BlockStray(s.thenBlock)), open);
    if s.elseBlock.None? {
      IfOk(AnonLabel(l), AnonLabel(l + 1), Empty, co.code, co.temp, to.code, None, open);
    } else {
      var eo := BlockGen(s.elseBlock.value, ctx, to.next, to.nextLabel);
      BlockGenOk(s.elseBlock.value, ctx, to.next, to.nextLabel);
      StmtWiden(eo.code, Reach(ctx, BlockStray(s.elseBlock.value)), open);
      IfOk(AnonLabel(l), AnonLabel(l + 1), AnonLabel(eo.nextLabel), co.code, co.temp, to.code, Some(eo.code), open);
    }
  }

  lemma WhileLoopOk(s: Stmt, ctx: Ctx, r: int, l: int)
    requires s.WhileLoop? && StmtReady(s) && |ctx.tops| == |ctx.ends|
    ensures StmtCodeOk(StmtGen(s, ctx, r, l).code, Reach(ctx, Stray(s)))
    ensures r <= StmtGen(s, ctx, r, l).next && l <= StmtGen(s, ctx, r, l).nextLabel
    decreases s, 0, 0
  {
    var co := ExprGen(s.cond, r);
    ExprGenOk(s.cond, r);
    var inner := Ctx(ctx.zero, ctx.tops + [AnonLabel(l)], ctx.ends + [AnonLabel(l + 2)], ctx.epi);
    var bo := BlockGen(s.body, inner, co.next, l + 3);
    BlockGenOk(s.body, inner, co.next, l + 3);
    InnerReach(ctx, AnonLabel(l), AnonLabel(l + 2), BlockStray(s.body));
    StmtWiden(bo.code, Reach(inner, BlockStray(s.body)), Reach(ctx, false) + {AnonLabel(l), AnonLabel(l + 2)});
    WhileOk(AnonLabel(l), AnonLabel(l + 1), AnonLabel(l + 2), co.code, co.temp, bo.code, Reach(ctx, false));
  }

  /** A block's code: its statements' code, closed under `Reach`. */
  lemma BlockGenOk(b: Block, ctx: Ctx, r: int, l: int)
    requires BlockReady(b) && |ctx.tops| == |ctx.ends|
    ensures StmtCodeOk(BlockGen(b, ctx, r, l).code, Reach(ctx, BlockStray(b)))
    ensures r <= BlockGen(b, ctx, r, l).next && l <= BlockGen(b, ctx, r, l).nextLabel
    decreases b, 1, 0
  {
    StmtsGenOk(b, |b.stmts|, ctx, DeclsNext(b.vars, r), l);
  }

  lemma StmtsGenOk(b: Block, i: nat, ctx: Ctx, r: int, l: int)
    requires BlockReady(b) && i <= |b.stmts| && |ctx.tops| == |ctx.ends|
    ensures StmtCodeOk(StmtsGen(b, i, ctx, r, l).code, Reach(ctx, BlockStray(b)))
    ensures r <= StmtsGen(b, i, ctx, r, l).next && l <= StmtsGen(b, i, ctx, r, l).nextLabel
    decreases b, 0, i
  {
    var open := Reach(ctx, BlockStray(b));
    if i == 0 {
      assert Targets([]) == {};
    } else {
      var p := StmtsGen(b, i - 1, ctx, r, l);
      var o := StmtGen(b.stmts[i - 1], ctx, p.next, p.nextLabel);
      StmtsGenOk(b, i - 1, ctx, r, l);
      StmtGenOk(b.stmts[i - 1], ctx, p.next, p.nextLabel);
      StmtWiden(o.code, Reach(ctx, Stray(b.stmts[i - 1])), open);
      StmtJoin(p.code, o.code, open);
    }
  }

  /** Slot 0 of the tables, for code that holds a stray `break` or `continue`; nothing otherwise. */
  function StrayTargets(stray: bool, zero: Operand): set<Operand> {
    if stray then {zero} else {}
  }

  /** A function's code defines its epilogue label, so it may jump outside itself only to slot 0, and only with a stray jump. */
  lemma FuncGenOk(f: FuncDecl, zero: Operand, r: int, l: int)
    requires BlockReady(f.body)
    ensures StmtCodeOk(FuncGen(f, zero, r, l).code, StrayTargets(BlockStray(f.body), zero))
    ensures r <= FuncGen(f, zero, r, l).next && l < FuncGen(f, zero, r, l).nextLabel
  {
    var epi := AnonLabel(l);
    var ctx := Ctx(zero, [], [], epi);
    var open := StrayTargets(BlockStray(f.body), zero);
    var bo := BlockGen(f.body, ctx, r, l + 1);
    BlockGenOk(f.body, ctx, r, l + 1);
    assert Elems([]) == {};
    StmtWiden(bo.code, Reach(ctx, BlockStray(f.body)), open + {epi});
    FuncOk(f.name, |f.body.vars|, epi, bo.code, open);
  }

  lemma FuncsGenOk(p: Program, i: nat, zero: Operand, r: int, l: int)
    requires ProgramReady(p) && i <= |p.funcs|
    ensures StmtCodeOk(FuncsGen(p, i, zero, r, l).code, StrayTargets(ProgramStray(p), zero))
    ensures r <= FuncsGen(p, i, zero, r, l).next && l <= FuncsGen(p, i, zero, r, l).nextLabel
  {
    var open := StrayTargets(ProgramStray(p), zero);
    if i == 0 {
      assert Targets([]) == {};
    } else {
      var q := FuncsGen(p, i - 1, zero, r, l);
      var o := FuncGen(p.funcs[i - 1], zero, q.next, q.nextLabel);
      FuncsGenOk(p, i - 1, zero, r, l);
      FuncGenOk(p.funcs[i - 1], zero, q.next, q.nextLabel);
      StmtWiden(o.code, StrayTargets(BlockStray(p.funcs[i - 1].body), zero), open);
      StmtJoin(q.code, o.code, open);
    }
  }

  /**
   * The generated program reads no virtual register before writing it, and
   * every jump lands on a label the program defines, except the jumps of a
   * `break` or `continue` outside every loop, which land on slot 0 of the
   * loop tables.
   */
  lemma GenerateOk(tree: Option<Program>, zero: Operand, r: int, l: int)
    requires tree.Some? ==> ProgramReady(tree.value)
    requires r >= 0
    ensures DefinedBeforeUse(Generate(tree, zero, r, l), {})
    ensures Targets(Generate(tree, zero, r, l)) <= Labels(Generate(tree, zero, r, l)) + {zero}
    ensures tree.Some? && !ProgramStray(tree.value) ==> Closed(Generate(tree, zero, r, l), {})
  {
    if tree.Some? {
      var p := tree.value;
      FuncsGenOk(p, |p.funcs|, zero, DeclsNext(p.vars, r), l);
    } else {
      assert Targets([]) == {};
    }
  }

  // ---------------------------------------------------------------------
  // The generated code takes fresh names.
  // ---------------------------------------------------------------------

  /**
   * An expression's code writes each register once, all of them from `r`
   * up to the next free register, and its temporary is one of them.
   */
  lemma ExprGenFresh(e: Expr, r: int)
    requires ExprReady(e)
    ensures ExprFresh(ExprGen(e, r).code, ExprGen(e, r).temp, r, ExprGen(e, r).next)
    ensures r <= ExprGen(e, r).next
    decreases e, 1, 0
  {
    match e
    case Literal(_, v, _) =>
      var x := Insn2(LoadI, IntConst(v), VirtualReg(r));
      var none: seq<Insn> := [];
      LoadFacts(IntConst(v), VirtualReg(r));
      RegsSnoc(none, x, r, r + 1);
      assert none + [x] == [x];
    case Binary(op, left, right) =>
      var lo := ExprGen(left, r);
      var ro := ExprGen(right, lo.next);
      ExprGenFresh(left, r);
      ExprGenFresh(right, lo.next);
      BinaryFresh(op, lo.code, lo.temp, ro.code, ro.temp, r, lo.next, ro.next);
    case Unary(op, child) =>
      var co := ExprGen(child, r);
      ExprGenFresh(child, r);
      UnaryFresh(op, co.code, co.temp, r, co.next);
    case Location(_, sym, index) =>
      if index.Some? {
        ExprGenFresh(index.value, r);
      }
      var io := IndexGen(index, r);
      LocationFresh(sym.value, IndexPart(io), r, AfterIndex(io, r));
    case FuncCall(name, _, args) =>
      var ao := ArgsGen(e, |args|, r);
      ArgsGenFresh(e, |args|, r);
      if IsPrint(name) {
        PrintFresh(name, args[0], ao.temps[0], r, ao.next);
      } else {
        CallFresh(name, Lits(args), ao.codes, ao.temps, r, ao.next);
      }
  }

  /** The first `i` arguments' code, one after another, writes each register once, from `r` on. */
  lemma ArgsGenFresh(e: Expr, i: nat, r: int)
    requires e.FuncCall? && ExprReady(e) && i <= |e.args|
    ensures RegsFresh(Concat(ArgsGen(e, i, r).codes), r, ArgsGen(e, i, r).next)
    ensures Labels(Concat(ArgsGen(e, i, r).codes)) == {}
    ensures forall j :: 0 <= j < i ==> Within(Regs(ArgsGen(e, i, r).temps[j]), r, ArgsGen(e, i, r).next)
    ensures r <= ArgsGen(e, i, r).next
    decreases e, 0, i
  {
    if i > 0 {
      var p := ArgsGen(e, i - 1, r);
      var o := ExprGen(e.args[i - 1], p.next);
      ArgsGenFresh(e, i - 1, r);
      ExprGenFresh(e.args[i - 1], p.next);
      ArgsSnocFresh(p.codes, p.temps, o.code, o.temp, r, p.next, o.next);
    }
  }

  /** One more argument's code, on registers from `a` up to `n`, keeps the arguments' code fresh. */
  lemma ArgsSnocFresh(codes: seq<seq<Insn>>, temps: seq<Operand>, c: seq<Insn>, t: Operand, r: int, a: int, n: int)
    requires |codes| == |temps|
    requires RegsFresh(Concat(codes), r, a) && Labels(Concat(codes)) == {}
    requires forall j :: 0 <= j < |temps| ==> Within(Regs(temps[j]), r, a)
    requires ExprFresh(c, t, a, n) && r <= a <= n
    ensures RegsFresh(Concat(codes + [c]), r, n) && Labels(Concat(codes + [c])) == {}
    ensures forall j :: 0 <= j < |temps + [t]| ==> Within(Regs((temps + [t])[j]), r, n)
  {
    var codes' := codes + [c];
    assert codes'[..|codes'| - 1] == codes;
    RegsJoin(Concat(codes), c, r, a, n);
    forall j | 0 <= j < |temps + [t]|
      ensures Within(Regs((temps + [t])[j]), r, n)
    {
      if j < |temps| {
        assert (temps + [t])[j] == temps[j];
        assert Within(Regs(temps[j]), r, a);
      }
    }
  }

  /**
   * A statement's code writes each register once and defines each label
   * once, the registers from `r` and the labels from `l` up to the next free
   * ones.
   */
  lemma StmtGenFresh(s: Stmt, ctx: Ctx, r: int, l: int)
    requires StmtReady(s)
    ensures RegsFresh(StmtGen(s, ctx, r, l).code, r, StmtGen(s, ctx, r, l).next)
    ensures LabelsFresh(StmtGen(s, ctx, r, l).code, l, StmtGen(s, ctx, r, l).nextLabel)
    ensures r <= StmtGen(s, ctx, r, l).next && l <= StmtGen(s, ctx, r, l).nextLabel
    decreases s, 1, 0
  {
    var o := StmtGen(s, ctx, r, l);
    match s
    case Assignment(target, rhs) =>
      var io := IndexGen(target.index, r);
      if target.index.Some? {
        ExprGenFresh(target.index.value, r);
      }
      var vo := ExprGen(rhs, AfterIndex(io, r));
      ExprGenFresh(rhs, AfterIndex(io, r));
      AssignFresh(target.sym.value, IndexPart(io), vo.code, vo.temp, r, AfterIndex(io, r), vo.next);
      NoLabelsOnce(o.code);
    case Conditional(c, t, e) =>
      ConditionalFresh(s, ctx, r, l);
    case WhileLoop(c, b) =>
      WhileLoopFresh(s, ctx, r, l);
    case Return(v, _) =>
      if v.None? {
        ReturnFresh(None, ctx.epi, r, r);
      } else {
        var vo := ExprGen(v.value, r);
        ExprGenFresh(v.value, r);
        ReturnFresh(Some((vo.code, vo.temp)), ctx.epi, r, vo.next);
      }
      NoLabelsOnce(o.code);
    case Break =>
      JumpFacts(Innermost(ctx.ends, ctx.zero));
      QuietFresh(Insn1(Jump, Innermost(ctx.ends, ctx.zero)), r, l, l);
    case Continue =>
      JumpFacts(Innermost(ctx.tops, ctx.zero));
      QuietFresh(Insn1(Jump, Innermost(ctx.tops, ctx.zero)), r, l, l);
    case CallStmt(call) =>
      ExprGenFresh(call, r);
      NoLabelsOnce(o.code);
  }

  lemma ConditionalFresh(s: Stmt, ctx: Ctx, r: int, l: int)
    requires s.Conditional? && StmtReady(s)
    ensures RegsFresh(StmtGen(s, ctx, r, l).code, r, StmtGen(s, ctx, r, l).next)
    ensures LabelsFresh(StmtGen(s, ctx, r, l).code, l, StmtGen(s, ctx, r, l).nextLabel)
    ensures r <= StmtGen(s, ctx, r, l).next && l <= StmtGen(s, ctx, r, l).nextLabel
    decreases s, 0, 0
  {
    var co := ExprGen(s.cond, r);
    ExprGenFresh(s.cond, r);
    var to := BlockGen(s.thenBlock, ctx, co.next, l + 2);
    BlockGenFresh(s.thenBlock, ctx, co.next, l + 2);
    if s.elseBlock.None? {
      IfThenFresh(l, co.code, co.temp, to.code, r, co.next, to.next, to.nextLabel);
    } else {
      var eo := BlockGen(s.elseBlock.value, ctx, to.next, to.nextLabel);
      BlockGenFresh(s.elseBlock.value, ctx, to.next, to.nextLabel);
      IfElseFresh(l, co.code, co.temp, to.code, eo.code, r, co.next, to.next, eo.next, to.nextLabel, eo.nextLabel);
    }
  }

  lemma WhileLoopFresh(s: Stmt, ctx: Ctx, r: int, l: int)
    requires s.WhileLoop? && StmtReady(s)
    ensures RegsFresh(StmtGen(s, ctx, r, l).code, r, StmtGen(s, ctx, r, l).next)
    ensures LabelsFresh(StmtGen(s, ctx, r, l).code, l, StmtGen(s, ctx, r, l).nextLabel)
    ensures r <= StmtGen(s, ctx, r, l).next && l <= StmtGen(s, ctx, r, l).nextLabel
    decreases s, 0, 0
  {
    var co := ExprGen(s.cond, r);
    ExprGenFresh(s.cond, r);
    var inner := Ctx(ctx.zero, ctx.tops + [AnonLabel(l)], ctx.ends + [AnonLabel(l + 2)], ctx.epi);
    var bo := BlockGen(s.body, inner, co.next, l + 3);
    BlockGenFresh(s.body, inner, co.next, l + 3);
    WhileFresh(l, co.code, co.temp, bo.code, r, co.next, bo.next, bo.nextLabel);
  }

  lemma BlockGenFresh(b: Block, ctx: Ctx, r: int, l: int)
    requires BlockReady(b)
    ensures RegsFresh(BlockGen(b, ctx, r, l).code, r, BlockGen(b, ctx, r, l).next)
    ensures LabelsFresh(BlockGen(b, ctx, r, l).code, l, BlockGen(b, ctx, r, l).nextLabel)
    ensures r <= BlockGen(b, ctx, r, l).next && l <= BlockGen(b, ctx, r, l).nextLabel
    decreases b, 1, 0
  {
    StmtsGenFresh(b, |b.stmts|, ctx, DeclsNext(b.vars, r), l);
  }

  lemma StmtsGenFresh(b: Block, i: nat, ctx: Ctx, r: int, l: int)
    requires BlockReady(b) && i <= |b.stmts|
    ensures RegsFresh(StmtsGen(b, i, ctx, r, l).code, r, StmtsGen(b, i, ctx, r, l).next)
    ensures LabelsFresh(StmtsGen(b, i, ctx, r, l).code, l, StmtsGen(b, i, ctx, r, l).nextLabel)
    ensures r <= StmtsGen(b, i, ctx, r, l).next && l <= StmtsGen(b, i, ctx, r, l).nextLabel
    decreases b, 0, i
  {
    if i > 0 {
      var p := StmtsGen(b, i - 1, ctx, r, l);
      var o := StmtGen(b.stmts[i - 1], ctx, p.next, p.nextLabel);
      StmtsGenFresh(b, i - 1, ctx, r, l);
      StmtGenFresh(b.stmts[i - 1], ctx, p.next, p.nextLabel);
      FreshJoin(p.code, o.code, r, p.next, o.next, l, p.nextLabel, o.nextLabel);
    }
  }

  /**
   * A function's code writes each register once and defines each label
   * once: its own label, and anonymous labels from `l` up to the next free one.
   */
  lemma FuncGenFresh(f: FuncDecl, zero: Operand, r: int, l: int)
    requires BlockReady(f.body)
    ensures RegsFresh(FuncGen(f, zero, r, l).code, r, FuncGen(f, zero, r, l).next)
    ensures LabelOnce(FuncGen(f, zero, r, l).code)
    ensures CallLabel(f.name) in Labels(FuncGen(f, zero, r, l).code)
    ensures forall x :: x in Labels(FuncGen(f, zero, r, l).code) ==>
      x == CallLabel(f.name) || (x.AnonLabel? && l <= x.lid < FuncGen(f, zero, r, l).nextLabel)
    ensures r <= FuncGen(f, zero, r, l).next && l < FuncGen(f, zero, r, l).nextLabel
  {
    var bo := BlockGen(f.body, Ctx(zero, [], [], AnonLabel(l)), r, l + 1);
    BlockGenFresh(f.body, Ctx(zero, [], [], AnonLabel(l)), r, l + 1);
    FuncFresh(f.name, |f.body.vars|, l, bo.code, r, bo.next, bo.nextLabel);
  }

  /** The labels of the functions `fs`. */
  function FuncLabels(fs: seq<FuncDecl>): set<Operand> {
    set j | 0 <= j < |fs| :: CallLabel(fs[j].name)
  }

  /** No two of the functions `fs` share a name. */
  predicate DistinctNames(fs: seq<FuncDecl>) {
    forall j, k :: 0 <= j < k < |fs| ==> fs[j].name != fs[k].name
  }

  /**
   * The first `i` functions' code writes each register once, defines only
   * their own labels and anonymous labels from `l` on, and defines each
   * label once when their names differ.
   */
  lemma FuncsGenFresh(p: Program, i: nat, zero: Operand, r: int, l: int)
    requires ProgramReady(p) && i <= |p.funcs|
    ensures RegsFresh(FuncsGen(p, i, zero, r, l).code, r, FuncsGen(p, i, zero, r, l).next)
    ensures forall x :: x in Labels(FuncsGen(p, i, zero, r, l).code) ==>
      x in FuncLabels(p.funcs[..i]) || (x.AnonLabel? && l <= x.lid < FuncsGen(p, i, zero, r, l).nextLabel)
    ensures DistinctNames(p.funcs[..i]) ==> LabelOnce(FuncsGen(p, i, zero, r, l).code)
    ensures r <= FuncsGen(p, i, zero, r, l).next && l <= FuncsGen(p, i, zero, r, l).nextLabel
  {
    if i > 0 {
      var q := FuncsGen(p, i - 1, zero, r, l);
      var f := p.funcs[i - 1];
      var o := FuncGen(f, zero, q.next, q.nextLabel);
      FuncsGenFresh(p, i - 1, zero, r, l);
      FuncGenFresh(f, zero, q.next, q.nextLabel);
      FuncLabelsSnoc(p.funcs, i);
      if DistinctNames(p.funcs[..i]) {
        DistinctPrefix(p.funcs, i);
      }
      FuncsSnocFresh(q.code, o.code, FuncLabels(p.funcs[..i - 1]), CallLabel(f.name),
        DistinctNames(p.funcs[..i - 1]), DistinctNames(p.funcs[..i]), r, q.next, o.next, l, q.nextLabel, o.nextLabel);
    }
  }

  /**
   * One more function's code, on registers from `a` up to `n` and with
   * anonymous labels from `m` up to `k`, keeps the functions' code fresh.
   */
  lemma FuncsSnocFresh(c: seq<Insn>, d: seq<Insn>, own: set<Operand>, name: Operand, before: bool, after: bool,
                       r: int, a: int, n: int, l: int, m: int, k: int)
    requires RegsFresh(c, r, a) && RegsFresh(d, a, n) && r <= a <= n && l <= m <= k
    requires name.CallLabel? && forall x :: x in own ==> x.CallLabel?
    requires forall x :: x in Labels(c) ==> x in own || (x.AnonLabel? && l <= x.lid < m)
    requires forall x :: x in Labels(d) ==> x == name || (x.AnonLabel? && m <= x.lid < k)
    requires before ==> LabelOnce(c)
    requires LabelOnce(d)
    requires after ==> before && name !in own
    ensures RegsFresh(c + d, r, n)
    ensures forall x :: x in Labels(c + d) ==> x in own + {name} || (x.AnonLabel? && l <= x.lid < k)
    ensures after ==> LabelOnce(c + d)
  {
    RegsJoin(c, d, r, a, n);
    if after {
      forall x | x in Labels(c)
        ensures x !in Labels(d)
      {
        if x.AnonLabel? {
          assert x.lid < m;
        } else {
          assert x in own;
        }
      }
      LabelOnceAppend(c, d);
    }
  }

  lemma FuncLabelsSnoc(fs: seq<FuncDecl>, i: nat)
    requires 0 < i <= |fs|
    ensures FuncLabels(fs[..i]) == FuncLabels(fs[..i - 1]) + {CallLabel(fs[i - 1].name)}
    ensures DistinctNames(fs[..i]) ==> CallLabel(fs[i - 1].name) !in FuncLabels(fs[..i - 1])
  {
    var a, b := fs[..i], fs[..i - 1];
    forall x | x in FuncLabels(a)
      ensures x in FuncLabels(b) + {CallLabel(fs[i - 1].name)}
    {
      var j :| 0 <= j < |a| && x == CallLabel(a[j].name);
      if j < i - 1 {
        assert b[j] == a[j];
      }
    }
    forall x | x in FuncLabels(b)
      ensures x in FuncLabels(a)
    {
      var j :| 0 <= j < |b| && x == CallLabel(b[j].name);
      assert a[j] == b[j];
    }
    assert a[i - 1] == fs[i - 1];
    if DistinctNames(a) {
      forall x | x in FuncLabels(b)
        ensures x != CallLabel(fs[i - 1].name)
      {
        var j :| 0 <= j < |b| && x == CallLabel(b[j].name);
        assert a[j] == b[j];
      }
    }
  }

  lemma DistinctPrefix(fs: seq<FuncDecl>, i: nat)
    requires 0 < i <= |fs| && DistinctNames(fs[..i])
    ensures DistinctNames(fs[..i - 1])
  {
    var a, b := fs[..i], fs[..i - 1];
    forall j, k | 0 <= j < k < |b|
      ensures b[j].name != b[k].name
    {
      assert a[j] == b[j] && a[k] == b[k];
    }
  }

  /**
   * Every virtual register of the generated program is written by exactly
   * one instruction, and all of them lie from `r` up to the counter's final
   * value.  Each function defines each of its labels once: its own name and
   * anonymous labels, which lie from `l` up to the final label counter and
   * are never shared between functions.  When the functions' names differ,
   * no label of the program is defined twice.
   */
  lemma GenerateFresh(tree: Option<Program>, zero: Operand, r: int, l: int)
    requires tree.Some? ==> ProgramReady(tree.value)
    requires r >= 0
    ensures WriteOnce(Generate(tree, zero, r, l))
    ensures tree.Some? ==> Within(Written(Generate(tree, zero, r, l)), r, ProgramGen(tree.value, zero, r, l).next)
    ensures tree.Some? ==> forall x :: x in Labels(Generate(tree, zero, r, l)) ==>
      x in FuncLabels(tree.value.funcs) || (x.AnonLabel? && l <= x.lid < ProgramGen(tree.value, zero, r, l).nextLabel)
    ensures tree.Some? && DistinctNames(tree.value.funcs) ==> LabelOnce(Generate(tree, zero, r, l))
  {
    if tree.Some? {
      var p := tree.value;
      FuncsGenFresh(p, |p.funcs|, zero, DeclsNext(p.vars, r), l);
      assert p.funcs[..|p.funcs|] == p.funcs;
    }
  }
}

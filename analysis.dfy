/**
 * The static analysis (p3-analysis.c): a visitor whose hooks check single
 * nodes and append to an error list, with two pieces of state, the loop
 * depth and the name of the function being walked.
 *
 * The pure functions below state what each hook reports and what the whole
 * walk reports; the class `AnalysisVisitor` holds the state the hooks update
 * in place, and its traversal methods are proved to append exactly those
 * errors.  The source defines a hook that would lower the loop depth when a
 * while loop is left but never registers it; `exitRegistered` selects
 * between that behaviour (false, as written) and the evidently intended one.
 */
module Analysis {
  import opened Wrappers
  import opened Ast

  /** The errors the hooks report; the message text and line numbers are not modelled. */
  datatype Error =
    | UndefinedSymbol(name: string)
    | ReturnMismatch(expected: DecafType, got: DecafType)
    | VoidLiteral
    | VoidVariable(name: string)
    | ZeroLengthArray(name: string)
    | ReservedName(name: string)
    | AssignMismatch(lhs: DecafType, rhs: DecafType)
    | UndefinedVariable(name: string)
    | MissingMain
    | BreakOutsideLoop
    | ContinueOutsideLoop
    | ConditionNotBool
    | VoidCall

  /** The `reserved[]` table: twelve words no variable may be named. */
  const RESERVED: seq<string> :=
    ["int", "bool", "void", "if", "else", "while", "return", "true", "false", "break", "continue", "main"]

  // ---------------------------------------------------------------------
  // Inferred types.
  // ---------------------------------------------------------------------

  /**
   * The `type` attribute of an expression node as the postvisit hooks read
   * it.  Literals, resolved locations and calls to known functions get one
   * from their previsit hooks; every other node has none, and an absent
   * attribute reads as UNKNOWN.
   */
  function InferredType(e: Expr): DecafType {
    match e
    case Literal(t, _, _) => t
    case Location(_, sym, _) => if sym.Some? then sym.value.typ else Unknown
    case FuncCall(_, callee, _) => if callee.Some? then callee.value.typ else Unknown
    case _ => Unknown
  }

  // ---------------------------------------------------------------------
  // What each hook reports.
  // ---------------------------------------------------------------------

  /** The errors for the entries of `words` equal to `name`, in table order. */
  function Matches(words: seq<string>, name: string): seq<Error> {
    if |words| == 0 then []
    else Matches(words[..|words| - 1], name) + if words[|words| - 1] == name then [ReservedName(name)] else []
  }

  predicate Distinct(words: seq<string>) {
    forall i, j :: 0 <= i < j < |words| ==> words[i] != words[j]
  }

  /** A table without repeats yields one error for a word it holds and none otherwise. */
  lemma {:induction false} DistinctMatches(words: seq<string>, name: string)
    requires Distinct(words)
    ensures Matches(words, name) == if name in words then [ReservedName(name)] else []
  {
    if |words| > 0 {
      var init := words[..|words| - 1];
      assert Distinct(init);
      DistinctMatches(init, name);
      assert name in words <==> name in init || words[|words| - 1] == name;
      if words[|words| - 1] == name {
        assert name !in init by {
          forall i | 0 <= i < |init|
            ensures init[i] != name
          {
            assert words[i] == init[i];
          }
        }
      }
    }
  }

  /** A variable named by a reserved word gets exactly one reserved-name error. */
  lemma ReservedOnce(name: string)
    ensures Matches(RESERVED, name) == if name in RESERVED then [ReservedName(name)] else []
  {
    DistinctMatches(RESERVED, name);
  }

  /** `postvisit_vardecl`: a void variable, a zero-length array, a reserved name. */
  function DeclErrors(d: VarDecl): seq<Error> {
    (if d.typ == VoidType then [VoidVariable(d.name)] else [])
    + (if d.isArray && d.arrayLength == 0 then [ZeroLengthArray(d.name)] else [])
    + Matches(RESERVED, d.name)
  }

  /** Each of the three conditions contributes exactly one error, and nothing else is reported. */
  lemma DeclErrorsExact(d: VarDecl)
    ensures |DeclErrors(d)| == (if d.typ == VoidType then 1 else 0)
      + (if d.isArray && d.arrayLength == 0 then 1 else 0) + (if d.name in RESERVED then 1 else 0)
    ensures VoidVariable(d.name) in DeclErrors(d) <==> d.typ == VoidType
    ensures ZeroLengthArray(d.name) in DeclErrors(d) <==> d.isArray && d.arrayLength == 0
    ensures ReservedName(d.name) in DeclErrors(d) <==> d.name in RESERVED
  {
    ReservedOnce(d.name);
  }

  /**
   * `postvisit_check_return`: nothing without a value or for a value of
   * unknown type; otherwise the current function's name `fn` is looked up
   * in `scope`, the symbols visible at the return statement (reported when
   * missing), and the type found compared with the value's.
   */
  function ReturnErrors(t: DecafType, fn: string, scope: map<string, Symbol>): seq<Error> {
    if t == Unknown then []
    else if fn !in scope then [UndefinedSymbol(fn)]
    else if scope[fn].typ != t then [ReturnMismatch(scope[fn].typ, t)]
    else []
  }

  /** `postvisit_assignment`: the target's and the value's inferred types differ. */
  function AssignErrors(target: Expr, value: Expr): seq<Error> {
    var lhs := InferredType(target);
    var rhs := InferredType(value);
    if lhs != rhs then [AssignMismatch(lhs, rhs)] else []
  }

  /** `postvisit_conditional`: the condition's inferred type is not BOOL. */
  function ConditionErrors(c: Expr): seq<Error> {
    if InferredType(c) != BoolType then [ConditionNotBool] else []
  }

  // ---------------------------------------------------------------------
  // What the walk reports.
  // ---------------------------------------------------------------------

  /**
   * An expression's errors in visiting order: a location's lookup, then its
   * index; a call's lookup, its arguments, then its void check; a literal's
   * void check.  Operators have no hooks.
   */
  function ExprErrors(e: Expr): seq<Error>
    decreases e, 1, 0
  {
    match e
    case Literal(t, _, _) => if t == VoidType then [VoidLiteral] else []
    case Binary(_, l, r) => ExprErrors(l) + ExprErrors(r)
    case Unary(_, c) => ExprErrors(c)
    case Location(name, sym, index) =>
      (if sym.None? then [UndefinedVariable(name)] else [])
      + (if index.Some? then ExprErrors(index.value) else [])
    case FuncCall(name, callee, args) =>
      (if callee.None? then [UndefinedSymbol(name)] else [])
      + ArgsErrors(e, |args|)
      + (if callee.Some? && callee.value.typ == VoidType then [VoidCall] else [])
  }

  /** The errors of the first `i` arguments of the call `e`. */
  function ArgsErrors(e: Expr, i: nat): seq<Error>
    requires e.FuncCall? && i <= |e.args|
    decreases e, 0, i
  {
    if i == 0 then [] else ArgsErrors(e, i - 1) + ExprErrors(e.args[i - 1])
  }

  /** The errors of a list of declarations, in order. */
  function DeclsErrors(ds: seq<VarDecl>): seq<Error> {
    if |ds| == 0 then [] else DeclsErrors(ds[..|ds| - 1]) + DeclErrors(ds[|ds| - 1])
  }

  /** The errors a statement's walk appends and the loop depth it leaves. */
  datatype Checked = Checked(errors: seq<Error>, depth: int)

  /**
   * A statement's walk from loop depth `depth` inside function `fn`.  A
   * while loop's previsit raises the depth for its condition and body; with
   * `exitRegistered` its exit hook lowers it again afterwards.
   */
  function StmtCheck(s: Stmt, depth: int, fn: string, exitRegistered: bool): Checked
    decreases s, 1, 0
  {
    match s
    case Assignment(target, value) =>
      Checked(ExprErrors(target) + ExprErrors(value) + AssignErrors(target, value), depth)
    case Conditional(c, t, e) =>
      var tc := BlockCheck(t, depth, fn, exitRegistered);
      var ec := if e.Some? then BlockCheck(e.value, tc.depth, fn, exitRegistered) else Checked([], tc.depth);
      Checked(ExprErrors(c) + tc.errors + ec.errors + ConditionErrors(c), ec.depth)
    case WhileLoop(c, b) =>
      var bc := BlockCheck(b, depth + 1, fn, exitRegistered);
      Checked(ExprErrors(c) + bc.errors, if exitRegistered then bc.depth - 1 else bc.depth)
    case Return(v, scope) =>
      if v.None? then Checked([], depth)
      else Checked(ExprErrors(v.value) + ReturnErrors(InferredType(v.value), fn, scope), depth)
    case Break => Checked(if depth == 0 then [BreakOutsideLoop] else [], depth)
    case Continue => Checked(if depth == 0 then [ContinueOutsideLoop] else [], depth)
    case CallStmt(call) => Checked(ExprErrors(call), depth)
  }

  /** A block's walk: its declarations, then its statements. */
  function BlockCheck(b: Block, depth: int, fn: string, exitRegistered: bool): Checked
    decreases b, 1, 0
  {
    var sc := StmtsCheck(b, |b.stmts|, depth, fn, exitRegistered);
    Checked(DeclsErrors(b.vars) + sc.errors, sc.depth)
  }

  /** The walk of the first `i` statements of `b`. */
  function StmtsCheck(b: Block, i: nat, depth: int, fn: string, exitRegistered: bool): Checked
    requires i <= |b.stmts|
    decreases b, 0, i
  {
    if i == 0 then Checked([], depth)
    else
      var p := StmtsCheck(b, i - 1, depth, fn, exitRegistered);
      var c := StmtCheck(b.stmts[i - 1], p.depth, fn, exitRegistered);
      Checked(p.errors + c.errors, c.depth)
  }

  /** The walk of the first `i` functions of `p`; the loop depth carries from one function to the next. */
  function FuncsCheck(p: Program, i: nat, depth: int, exitRegistered: bool): Checked
    requires i <= |p.funcs|
  {
    if i == 0 then Checked([], depth)
    else
      var q := FuncsCheck(p, i - 1, depth, exitRegistered);
      var c := BlockCheck(p.funcs[i - 1].body, q.depth, p.funcs[i - 1].name, exitRegistered);
      Checked(q.errors + c.errors, c.depth)
  }

  /** The program's walk from depth 0: the check for `main`, the globals, then every function. */
  function ProgramErrors(p: Program, globals: map<string, Symbol>, exitRegistered: bool): seq<Error> {
    (if "main" !in globals then [MissingMain] else [])
    + DeclsErrors(p.vars) + FuncsCheck(p, |p.funcs|, 0, exitRegistered).errors
  }

  // ---------------------------------------------------------------------
  // The loop depth.
  // ---------------------------------------------------------------------

  /** The number of while loops in `s`, nested ones included. */
  function Loops(s: Stmt): nat
    decreases s, 1, 0
  {
    match s
    case Conditional(_, t, e) => BlockLoops(t, |t.stmts|) + if e.Some? then BlockLoops(e.value, |e.value.stmts|) else 0
    case WhileLoop(_, b) => 1 + BlockLoops(b, |b.stmts|)
    case _ => 0
  }

  function BlockLoops(b: Block, i: nat): nat
    requires i <= |b.stmts|
    decreases b, 0, i
  {
    if i == 0 then 0 else BlockLoops(b, i - 1) + Loops(b.stmts[i - 1])
  }

  /** As written, a statement's walk raises the loop depth by one per while loop in it and never lowers it. */
  lemma {:induction false} DepthOnlyGrows(s: Stmt, depth: int, fn: string)
    ensures StmtCheck(s, depth, fn, false).depth == depth + Loops(s)
    decreases s, 1, 0
  {
    match s
    case Conditional(_, t, e) =>
      BlockDepthOnlyGrows(t, |t.stmts|, depth, fn);
      if e.Some? {
        BlockDepthOnlyGrows(e.value, |e.value.stmts|, depth + BlockLoops(t, |t.stmts|), fn);
      }
    case WhileLoop(_, b) =>
      BlockDepthOnlyGrows(b, |b.stmts|, depth + 1, fn);
    case _ =>
  }

  lemma {:induction false} BlockDepthOnlyGrows(b: Block, i: nat, depth: int, fn: string)
    requires i <= |b.stmts|
    ensures StmtsCheck(b, i, depth, fn, false).depth == depth + BlockLoops(b, i)
    decreases b, 0, i
  {
    if i > 0 {
      BlockDepthOnlyGrows(b, i - 1, depth, fn);
      DepthOnlyGrows(b.stmts[i - 1], depth + BlockLoops(b, i - 1), fn);
    }
  }

  /** With the exit hook registered, every statement leaves the loop depth as it found it. */
  lemma {:induction false} DepthRestored(s: Stmt, depth: int, fn: string)
    ensures StmtCheck(s, depth, fn, true).depth == depth
    decreases s, 1, 0
  {
    match s
    case Conditional(_, t, e) =>
      BlockDepthRestored(t, |t.stmts|, depth, fn);
      if e.Some? {
        BlockDepthRestored(e.value, |e.value.stmts|, depth, fn);
      }
    case WhileLoop(_, b) =>
      BlockDepthRestored(b, |b.stmts|, depth + 1, fn);
    case _ =>
  }

  lemma {:induction false} BlockDepthRestored(b: Block, i: nat, depth: int, fn: string)
    requires i <= |b.stmts|
    ensures StmtsCheck(b, i, depth, fn, true).depth == depth
    decreases b, 0, i
  {
    if i > 0 {
      BlockDepthRestored(b, i - 1, depth, fn);
      DepthRestored(b.stmts[i - 1], depth, fn);
    }
  }

  // ---------------------------------------------------------------------
  // Break and continue outside a loop.
  // ---------------------------------------------------------------------

  /** How many of `errs` report a `break` or `continue` outside a loop. */
  function OutsideLoop(errs: seq<Error>): nat {
    if |errs| == 0 then 0
    else OutsideLoop(errs[..|errs| - 1]) + if errs[|errs| - 1].BreakOutsideLoop? || errs[|errs| - 1].ContinueOutsideLoop? then 1 else 0
  }

  lemma {:induction false} OutsideLoopAppend(a: seq<Error>, b: seq<Error>)
    ensures OutsideLoop(a + b) == OutsideLoop(a) + OutsideLoop(b)
    decreases |b|
  {
    if |b| == 0 {
      assert a + b == a;
    } else {
      assert (a + b)[..|a + b| - 1] == a + b[..|b| - 1];
      assert (a + b)[|a + b| - 1] == b[|b| - 1];
      OutsideLoopAppend(a, b[..|b| - 1]);
    }
  }

  /** Errors that name no loop construct. */
  predicate NoLoopErrors(errs: seq<Error>) {
    forall k :: 0 <= k < |errs| ==> !errs[k].BreakOutsideLoop? && !errs[k].ContinueOutsideLoop?
  }

  lemma {:induction false} NoLoopErrorsCount(errs: seq<Error>)
    requires NoLoopErrors(errs)
    ensures OutsideLoop(errs) == 0
    decreases |errs|
  {
    if |errs| > 0 {
      NoLoopErrorsCount(errs[..|errs| - 1]);
    }
  }

  /** Expressions and declarations never report a loop construct. */
  lemma {:induction false} ExprNoLoopErrors(e: Expr)
    ensures NoLoopErrors(ExprErrors(e))
    decreases e, 1, 0
  {
    match e
    case Literal(_, _, _) =>
    case Binary(_, l, r) =>
      ExprNoLoopErrors(l);
      ExprNoLoopErrors(r);
    case Unary(_, c) =>
      ExprNoLoopErrors(c);
    case Location(_, _, index) =>
      if index.Some? {
        ExprNoLoopErrors(index.value);
      }
    case FuncCall(_, _, args) =>
      ArgsNoLoopErrors(e, |args|);
  }

  lemma {:induction false} ArgsNoLoopErrors(e: Expr, i: nat)
    requires e.FuncCall? && i <= |e.args|
    ensures NoLoopErrors(ArgsErrors(e, i))
    decreases e, 0, i
  {
    if i > 0 {
      ArgsNoLoopErrors(e, i - 1);
      ExprNoLoopErrors(e.args[i - 1]);
    }
  }

  lemma {:induction false} MatchesNoLoopErrors(words: seq<string>, name: string)
    ensures NoLoopErrors(Matches(words, name))
  {
    if |words| > 0 {
      MatchesNoLoopErrors(words[..|words| - 1], name);
    }
  }

  lemma DeclNoLoopErrors(d: VarDecl)
    ensures NoLoopErrors(DeclErrors(d))
  {
    MatchesNoLoopErrors(RESERVED, d.name);
  }

  lemma {:induction false} DeclsNoLoopErrors(ds: seq<VarDecl>)
    ensures NoLoopErrors(DeclsErrors(ds))
  {
    if |ds| > 0 {
      DeclsNoLoopErrors(ds[..|ds| - 1]);
      DeclNoLoopErrors(ds[|ds| - 1]);
    }
  }

  /** The number of `break`/`continue` statements in `s` outside every while loop of `s`. */
  function Strays(s: Stmt): nat
    decreases s, 1, 0
  {
    match s
    case Break => 1
    case Continue => 1
    case Conditional(_, t, e) => BlockStrays(t, |t.stmts|) + if e.Some? then BlockStrays(e.value, |e.value.stmts|) else 0
    case _ => 0
  }

  function BlockStrays(b: Block, i: nat): nat
    requires i <= |b.stmts|
    decreases b, 0, i
  {
    if i == 0 then 0 else BlockStrays(b, i - 1) + Strays(b.stmts[i - 1])
  }

  /** Counting agrees with the code generator's notion: some stray statement exists exactly when the count is positive. */
  lemma {:induction false} StraysExist(s: Stmt)
    ensures Strays(s) > 0 <==> Stray(s)
    decreases s, 1, 0
  {
    match s
    case Conditional(_, t, e) =>
      BlockStraysExist(t, |t.stmts|);
      if e.Some? {
        BlockStraysExist(e.value, |e.value.stmts|);
      }
    case _ =>
  }

  lemma {:induction false} BlockStraysExist(b: Block, i: nat)
    requires i <= |b.stmts|
    ensures BlockStrays(b, i) > 0 <==> exists j :: 0 <= j < i && Stray(b.stmts[j])
    decreases b, 0, i
  {
    if i > 0 {
      BlockStraysExist(b, i - 1);
      StraysExist(b.stmts[i - 1]);
    }
  }

  /**
   * With the exit hook registered, a statement walked outside every loop
   * reports exactly its stray `break`/`continue` statements, and one walked
   * inside a loop reports none.
   */
  lemma {:induction false} FixedReportsStrays(s: Stmt, depth: nat, fn: string)
    ensures OutsideLoop(StmtCheck(s, depth, fn, true).errors) == if depth == 0 then Strays(s) else 0
    decreases s, 1, 0
  {
    match s
    case Assignment(target, value) =>
      ExprNoLoopErrors(target);
      ExprNoLoopErrors(value);
      NoLoopErrorsCount(ExprErrors(target) + ExprErrors(value) + AssignErrors(target, value));
    case Conditional(_, _, _) =>
      ConditionalReportsStrays(s, depth, fn);
    case WhileLoop(c, b) =>
      ExprNoLoopErrors(c);
      NoLoopErrorsCount(ExprErrors(c));
      BlockReportsStrays(b, depth + 1, fn);
      OutsideLoopAppend(ExprErrors(c), BlockCheck(b, depth + 1, fn, true).errors);
    case Return(v, scope) =>
      if v.Some? {
        ExprNoLoopErrors(v.value);
        NoLoopErrorsCount(ExprErrors(v.value) + ReturnErrors(InferredType(v.value), fn, scope));
      }
    case Break =>
    case Continue =>
    case CallStmt(call) =>
      ExprNoLoopErrors(call);
      NoLoopErrorsCount(ExprErrors(call));
  }

  lemma {:induction false} ConditionalReportsStrays(s: Stmt, depth: nat, fn: string)
    requires s.Conditional?
    ensures OutsideLoop(StmtCheck(s, depth, fn, true).errors) == if depth == 0 then Strays(s) else 0
    decreases s, 0, 0
  {
    var c, t, e := s.cond, s.thenBlock, s.elseBlock;
    ExprNoLoopErrors(c);
    NoLoopErrorsCount(ExprErrors(c));
    NoLoopErrorsCount(ConditionErrors(c));
    var tc := BlockCheck(t, depth, fn, true);
    BlockDepthRestored(t, |t.stmts|, depth, fn);
    BlockReportsStrays(t, depth, fn);
    var ec := if e.Some? then BlockCheck(e.value, depth, fn, true) else Checked([], depth);
    if e.Some? {
      BlockReportsStrays(e.value, depth, fn);
    }
    OutsideLoopAppend(ExprErrors(c), tc.errors);
    OutsideLoopAppend(ExprErrors(c) + tc.errors, ec.errors);
    OutsideLoopAppend(ExprErrors(c) + tc.errors + ec.errors, ConditionErrors(c));
  }

  lemma BlockReportsStrays(b: Block, depth: nat, fn: string)
    ensures OutsideLoop(BlockCheck(b, depth, fn, true).errors) == if depth == 0 then BlockStrays(b, |b.stmts|) else 0
    decreases b, 1, 0
  {
    DeclsNoLoopErrors(b.vars);
    NoLoopErrorsCount(DeclsErrors(b.vars));
    StmtsReportStrays(b, |b.stmts|, depth, fn);
    OutsideLoopAppend(DeclsErrors(b.vars), StmtsCheck(b, |b.stmts|, depth, fn, true).errors);
  }

  lemma {:induction false} StmtsReportStrays(b: Block, i: nat, depth: nat, fn: string)
    requires i <= |b.stmts|
    ensures OutsideLoop(StmtsCheck(b, i, depth, fn, true).errors) == if depth == 0 then BlockStrays(b, i) else 0
    decreases b, 0, i
  {
    if i > 0 {
      StmtsReportStrays(b, i - 1, depth, fn);
      FixedReportsStrays(b.stmts[i - 1], depth, fn);
      StmtsOutsideLoopStep(b, i, depth, fn);
    }
  }

  /** With the exit hook registered, the count for `i` statements is the count for `i - 1` plus the last one's. */
  lemma StmtsOutsideLoopStep(b: Block, i: nat, depth: nat, fn: string)
    requires 0 < i <= |b.stmts|
    ensures OutsideLoop(StmtsCheck(b, i, depth, fn, true).errors)
         == OutsideLoop(StmtsCheck(b, i - 1, depth, fn, true).errors) + OutsideLoop(StmtCheck(b.stmts[i - 1], depth, fn, true).errors)
  {
    BlockDepthRestored(b, i - 1, depth, fn);
    OutsideLoopAppend(StmtsCheck(b, i - 1, depth, fn, true).errors, StmtCheck(b.stmts[i - 1], depth, fn, true).errors);
  }

  /**
   * As written, a `break` after a while loop in the same block goes
   * unreported: the loop's previsit raised the depth and nothing lowers it.
   */
  lemma AsWrittenMissesBreak()
    ensures var b := Block([], [WhileLoop(Literal(BoolType, 1, ""), Block([], [])), Break]);
      BlockStrays(b, 2) == 1 && BlockStray(b)
      && OutsideLoop(StmtsCheck(b, 2, 0, "main", false).errors) == 0
      && OutsideLoop(StmtsCheck(b, 2, 0, "main", true).errors) == 1
  {
    var b := Block([], [WhileLoop(Literal(BoolType, 1, ""), Block([], [])), Break]);
    assert Stray(b.stmts[1]);
    var w := StmtCheck(b.stmts[0], 0, "main", false);
    assert w == Checked([], 1);
    assert StmtsCheck(b, 2, 0, "main", false).errors == [];
    var f := StmtCheck(b.stmts[0], 0, "main", true);
    assert f == Checked([], 0);
    assert StmtsCheck(b, 2, 0, "main", true).errors == [BreakOutsideLoop];
    assert [BreakOutsideLoop][..0] == [];
  }

  // ---------------------------------------------------------------------
  // The visitor.
  // ---------------------------------------------------------------------

  /** `AnalysisData` with the error list, and the analysis visitor's hooks and walk. */
  class AnalysisVisitor {
    var errors: seq<Error>
    var loopDepth: int
    var currentFunction: string
    /** The program-level symbol table, where `check_mainExistProgram` looks `main` up. */
    const globals: map<string, Symbol>
    /** Whether `exit_whileloop` runs after each while loop; the source leaves it unregistered. */
    const exitRegistered: bool

    /** `AnalysisData_new`: no errors, depth 0, no current function. */
    constructor (globals: map<string, Symbol>, exitRegistered: bool)
      ensures errors == [] && loopDepth == 0 && currentFunction == ""
      ensures this.globals == globals && this.exitRegistered == exitRegistered
    {
      errors := [];
      loopDepth := 0;
      currentFunction := "";
      this.globals := globals;
      this.exitRegistered := exitRegistered;
    }

    /** `check_mainExistProgram`. */
    method CheckMainExists()
      modifies this
      ensures errors == old(errors) + (if "main" !in globals then [MissingMain] else [])
      ensures loopDepth == old(loopDepth) && currentFunction == old(currentFunction)
    {
      if "main" !in globals {
        errors := errors + [MissingMain];
      }
    }

    /** `previsit_funcdecl`. */
    method PreFuncDecl(name: string)
      modifies this
      ensures currentFunction == name && errors == old(errors) && loopDepth == old(loopDepth)
    {
      currentFunction := name;
    }

    /** `postvisit_funcdecl`. */
    method PostFuncDecl()
      modifies this
      ensures currentFunction == "" && errors == old(errors) && loopDepth == old(loopDepth)
    {
      currentFunction := "";
    }

    /** The reserved-word loop of `postvisit_vardecl`: one error per table entry equal to `name`. */
    method CheckReserved(name: string)
      modifies this
      ensures errors == old(errors) + Matches(RESERVED, name)
      ensures loopDepth == old(loopDepth) && currentFunction == old(currentFunction)
    {
      var i := 0;
      while i < 12
        invariant 0 <= i <= 12
        invariant errors == old(errors) + Matches(RESERVED[..i], name)
        invariant loopDepth == old(loopDepth) && currentFunction == old(currentFunction)
      {
        assert RESERVED[..i + 1][..i] == RESERVED[..i];
        if RESERVED[i] == name {
          errors := errors + [ReservedName(name)];
        }
        i := i + 1;
      }
      assert RESERVED[..12] == RESERVED;
    }

    /** `postvisit_vardecl`. */
    method PostVarDecl(d: VarDecl)
      modifies this
      ensures errors == old(errors) + DeclErrors(d)
      ensures loopDepth == old(loopDepth) && currentFunction == old(currentFunction)
    {
      if d.typ == VoidType {
        errors := errors + [VoidVariable(d.name)];
      }
      if d.isArray && d.arrayLength == 0 {
        errors := errors + [ZeroLengthArray(d.name)];
      }
      CheckReserved(d.name);
    }

    /** `postvisit_literal`. */
    method PostLiteral(t: DecafType)
      modifies this
      ensures errors == old(errors) + (if t == VoidType then [VoidLiteral] else [])
      ensures loopDepth == old(loopDepth) && currentFunction == old(currentFunction)
    {
      if t == VoidType {
        errors := errors + [VoidLiteral];
      }
    }

    /** `previsit_location`: an unresolved name is reported. */
    method PreLocation(name: string, sym: Option<Symbol>)
      modifies this
      ensures errors == old(errors) + (if sym.None? then [UndefinedVariable(name)] else [])
      ensures loopDepth == old(loopDepth) && currentFunction == old(currentFunction)
    {
      if sym.None? {
        errors := errors + [UndefinedVariable(name)];
      }
    }

    /**
     * `previsit_funcCall`: `callee` is what the name resolves to from the
     * call's scope; an unresolved name is reported.
     */
    method PreFuncCall(name: string, callee: Option<Symbol>)
      modifies this
      ensures errors == old(errors) + (if callee.None? then [UndefinedSymbol(name)] else [])
      ensures loopDepth == old(loopDepth) && currentFunction == old(currentFunction)
    {
      if callee.None? {
        errors := errors + [UndefinedSymbol(name)];
      }
    }

    /** `postvisit_funcCall`: a call whose inferred type is VOID is reported. */
    method PostFuncCall(callee: Option<Symbol>)
      modifies this
      ensures errors == old(errors) + (if callee.Some? && callee.value.typ == VoidType then [VoidCall] else [])
      ensures loopDepth == old(loopDepth) && currentFunction == old(currentFunction)
    {
      var t := if callee.Some? then callee.value.typ else Unknown;
      if t == VoidType {
        errors := errors + [VoidCall];
      }
    }

    /** `postvisit_check_return`, with `scope` the symbols visible at the return statement. */
    method PostReturn(value: Option<Expr>, scope: map<string, Symbol>)
      modifies this
      ensures errors == old(errors) + (if value.Some? then ReturnErrors(InferredType(value.value), currentFunction, scope) else [])
      ensures loopDepth == old(loopDepth) && currentFunction == old(currentFunction)
    {
      if value.Some? {
        var t := InferredType(value.value);
        if t == Unknown {
          return;
        }
        if currentFunction !in scope {
          errors := errors + [UndefinedSymbol(currentFunction)];
        } else if scope[currentFunction].typ != t {
          errors := errors + [ReturnMismatch(scope[currentFunction].typ, t)];
        }
      }
    }

    /** `postvisit_assignment`. */
    method PostAssignment(target: Expr, value: Expr)
      modifies this
      ensures errors == old(errors) + AssignErrors(target, value)
      ensures loopDepth == old(loopDepth) && currentFunction == old(currentFunction)
    {
      var lhs := InferredType(target);
      var rhs := InferredType(value);
      if lhs != rhs {
        errors := errors + [AssignMismatch(lhs, rhs)];
      }
    }

    /** `postvisit_conditional`. */
    method PostConditional(c: Expr)
      modifies this
      ensures errors == old(errors) + ConditionErrors(c)
      ensures loopDepth == old(loopDepth) && currentFunction == old(currentFunction)
    {
      if InferredType(c) != BoolType {
        errors := errors + [ConditionNotBool];
      }
    }

    /** `check_whileloop`: entering a loop. */
    method PreWhile()
      modifies this
      ensures loopDepth == old(loopDepth) + 1 && errors == old(errors) && currentFunction == old(currentFunction)
    {
      loopDepth := loopDepth + 1;
    }

    /** `exit_whileloop`: leaving a loop. */
    method ExitWhile()
      modifies this
      ensures loopDepth == old(loopDepth) - 1 && errors == old(errors) && currentFunction == old(currentFunction)
    {
      loopDepth := loopDepth - 1;
    }

    /** `previst_break`: reported iff the depth is 0. */
    method PreBreak()
      modifies this
      ensures errors == old(errors) + (if loopDepth == 0 then [BreakOutsideLoop] else [])
      ensures loopDepth == old(loopDepth) && currentFunction == old(currentFunction)
    {
      if loopDepth == 0 {
        errors := errors + [BreakOutsideLoop];
      }
    }

    /** `previst_continue`: reported iff the depth is 0. */
    method PreContinue()
      modifies this
      ensures errors == old(errors) + (if loopDepth == 0 then [ContinueOutsideLoop] else [])
      ensures loopDepth == old(loopDepth) && currentFunction == old(currentFunction)
    {
      if loopDepth == 0 {
        errors := errors + [ContinueOutsideLoop];
      }
    }

    // -------------------------------------------------------------------
    // The walk: previsit hook, children in order, postvisit hook.
    // -------------------------------------------------------------------

    method VisitExpr(e: Expr)
      modifies this
      ensures errors == old(errors) + ExprErrors(e)
      ensures loopDepth == old(loopDepth) && currentFunction == old(currentFunction)
      decreases e, 2
    {
      match e
      case Literal(t, _, _) =>
        PostLiteral(t);
      case Binary(_, l, r) =>
        VisitExpr(l);
        VisitExpr(r);
      case Unary(_, c) =>
        VisitExpr(c);
      case Location(name, sym, index) =>
        PreLocation(name, sym);
        if index.Some? {
          VisitExpr(index.value);
        }
      case FuncCall(_, _, _) =>
        VisitCall(e);
    }

    /** A call: `previsit_funcCall`, the arguments in order, `postvisit_funcCall`. */
    method VisitCall(e: Expr)
      requires e.FuncCall?
      modifies this
      ensures errors == old(errors) + ExprErrors(e)
      ensures loopDepth == old(loopDepth) && currentFunction == old(currentFunction)
      decreases e, 1
    {
      PreFuncCall(e.fname, e.callee);
      VisitArgs(e);
      PostFuncCall(e.callee);
    }

    method VisitArgs(e: Expr)
      requires e.FuncCall?
      modifies this
      ensures errors == old(errors) + ArgsErrors(e, |e.args|)
      ensures loopDepth == old(loopDepth) && currentFunction == old(currentFunction)
      decreases e, 0
    {
      var i := 0;
      while i < |e.args|
        invariant 0 <= i <= |e.args|
        invariant errors == old(errors) + ArgsErrors(e, i)
        invariant loopDepth == old(loopDepth) && currentFunction == old(currentFunction)
      {
        VisitExpr(e.args[i]);
        i := i + 1;
      }
    }

    method VisitDecls(ds: seq<VarDecl>)
      modifies this
      ensures errors == old(errors) + DeclsErrors(ds)
      ensures loopDepth == old(loopDepth) && currentFunction == old(currentFunction)
    {
      var i := 0;
      while i < |ds|
        invariant 0 <= i <= |ds|
        invariant errors == old(errors) + DeclsErrors(ds[..i])
        invariant loopDepth == old(loopDepth) && currentFunction == old(currentFunction)
      {
        assert ds[..i + 1][..i] == ds[..i];
        PostVarDecl(ds[i]);
        i := i + 1;
      }
      assert ds[..|ds|] == ds;
    }

    method VisitStmt(s: Stmt)
      modifies this
      ensures var c := StmtCheck(s, old(loopDepth), currentFunction, exitRegistered);
        errors == old(errors) + c.errors && loopDepth == c.depth
      ensures currentFunction == old(currentFunction)
      decreases s, 1
    {
      match s
      case Assignment(target, value) =>
        VisitExpr(target);
        VisitExpr(value);
        PostAssignment(target, value);
      case Conditional(_, _, _) =>
        VisitConditional(s);
      case WhileLoop(_, _) =>
        VisitWhile(s);
      case Return(v, scope) =>
        if v.Some? {
          VisitExpr(v.value);
        }
        PostReturn(v, scope);
      case Break =>
        PreBreak();
      case Continue =>
        PreContinue();
      case CallStmt(call) =>
        VisitExpr(call);
    }

    method VisitConditional(s: Stmt)
      requires s.Conditional?
      modifies this
      ensures var c := StmtCheck(s, old(loopDepth), currentFunction, exitRegistered);
        errors == old(errors) + c.errors && loopDepth == c.depth
      ensures currentFunction == old(currentFunction)
      decreases s, 0
    {
      VisitExpr(s.cond);
      VisitBlock(s.thenBlock);
      ghost var tc := BlockCheck(s.thenBlock, old(loopDepth), currentFunction, exitRegistered);
      ghost var e2 := errors;
      if s.elseBlock.Some? {
        VisitBlock(s.elseBlock.value);
      }
      ghost var ec := if s.elseBlock.Some? then BlockCheck(s.elseBlock.value, tc.depth, currentFunction, exitRegistered)
                      else Checked([], tc.depth);
      assert errors == e2 + ec.errors && loopDepth == ec.depth;
      PostConditional(s.cond);
      assert errors == old(errors) + (ExprErrors(s.cond) + tc.errors + ec.errors + ConditionErrors(s.cond));
    }

    /** A while loop: `check_whileloop`, the condition and body, and `exit_whileloop` when registered. */
    method VisitWhile(s: Stmt)
      requires s.WhileLoop?
      modifies this
      ensures var c := StmtCheck(s, old(loopDepth), currentFunction, exitRegistered);
        errors == old(errors) + c.errors && loopDepth == c.depth
      ensures currentFunction == old(currentFunction)
      decreases s, 0
    {
      PreWhile();
      VisitExpr(s.cond);
      VisitBlock(s.body);
      if exitRegistered {
        ExitWhile();
      }
    }

    method VisitBlock(b: Block)
      modifies this
      ensures var c := BlockCheck(b, old(loopDepth), currentFunction, exitRegistered);
        errors == old(errors) + c.errors && loopDepth == c.depth
      ensures currentFunction == old(currentFunction)
      decreases b
    {
      VisitDecls(b.vars);
      ghost var e1 := errors;
      VisitStmts(b);
      assert errors == e1 + StmtsCheck(b, |b.stmts|, old(loopDepth), currentFunction, exitRegistered).errors;
    }

    /** A block's statements in order. */
    method VisitStmts(b: Block)
      modifies this
      ensures var c := StmtsCheck(b, |b.stmts|, old(loopDepth), currentFunction, exitRegistered);
        errors == old(errors) + c.errors && loopDepth == c.depth
      ensures currentFunction == old(currentFunction)
      decreases b, 0
    {
      var i := 0;
      while i < |b.stmts|
        invariant 0 <= i <= |b.stmts| && currentFunction == old(currentFunction)
        invariant var c := StmtsCheck(b, i, old(loopDepth), currentFunction, exitRegistered);
          errors == old(errors) + c.errors && loopDepth == c.depth
      {
        ghost var e0 := errors;
        VisitStmt(b.stmts[i]);
        ghost var p := StmtsCheck(b, i, old(loopDepth), currentFunction, exitRegistered);
        ghost var c := StmtCheck(b.stmts[i], p.depth, currentFunction, exitRegistered);
        assert errors == old(errors) + (p.errors + c.errors);
        i := i + 1;
      }
    }

    /** A function: `previsit_funcdecl`, the body, `postvisit_funcdecl`. */
    method VisitFunc(f: FuncDecl)
      modifies this
      ensures var c := BlockCheck(f.body, old(loopDepth), f.name, exitRegistered);
        errors == old(errors) + c.errors && loopDepth == c.depth
      ensures currentFunction == ""
    {
      PreFuncDecl(f.name);
      VisitBlock(f.body);
      PostFuncDecl();
    }

    method VisitProgram(p: Program)
      requires loopDepth == 0
      modifies this
      ensures errors == old(errors) + ProgramErrors(p, globals, exitRegistered)
    {
      CheckMainExists();
      VisitDecls(p.vars);
      ghost var e1 := errors;
      VisitFuncs(p);
      assert errors == e1 + FuncsCheck(p, |p.funcs|, 0, exitRegistered).errors;
    }

    /** The program's functions in order; the loop depth carries over from one to the next. */
    method VisitFuncs(p: Program)
      requires loopDepth == 0
      modifies this
      ensures errors == old(errors) + FuncsCheck(p, |p.funcs|, 0, exitRegistered).errors
    {
      var i := 0;
      while i < |p.funcs|
        invariant 0 <= i <= |p.funcs|
        invariant var c := FuncsCheck(p, i, 0, exitRegistered);
          errors == old(errors) + c.errors && loopDepth == c.depth
      {
        VisitFunc(p.funcs[i]);
        ghost var q := FuncsCheck(p, i, 0, exitRegistered);
        ghost var c := BlockCheck(p.funcs[i].body, q.depth, p.funcs[i].name, exitRegistered);
        assert errors == old(errors) + (q.errors + c.errors);
        i := i + 1;
      }
    }
  }

  /**
   * `analyze`: a missing tree gives no error list; otherwise a fresh
   * visitor walks the program and its error list is returned.
   */
  method Analyze(tree: Option<Program>, globals: map<string, Symbol>) returns (errs: Option<seq<Error>>)
    ensures tree.None? ==> errs.None?
    ensures tree.Some? ==> errs == Some(ProgramErrors(tree.value, globals, false))
  {
    if tree.None? {
      return None;
    }
    var v := new AnalysisVisitor(globals, false);
    v.VisitProgram(tree.value);
    assert v.errors == [] + ProgramErrors(tree.value, globals, false);
    assert [] + ProgramErrors(tree.value, globals, false) == ProgramErrors(tree.value, globals, false);
    errs := Some(v.errors);
  }
}

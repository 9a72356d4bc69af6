/**
 * The annotated syntax tree the code generator and the static analysis walk:
 * Decaf types, resolved symbols, expressions, statements, blocks, functions
 * and the program.  Each variable reference, declaration and function call
 * carries the symbol `lookup_symbol` finds for its name from the node's own
 * scope (`None` when the lookup fails), and each return statement the
 * symbols visible at it, innermost declaration of each name first.
 */
module Ast {
  import opened Wrappers

  datatype DecafType = Unknown | IntType | BoolType | VoidType | StrType

  /** Where a variable lives: a global slot, or the current frame. */
  datatype Storage = StaticVar | StackParam | StackLocal

  datatype SymbolKind = ScalarSymbol | ArraySymbol | FunctionSymbol

  datatype Symbol = Symbol(
    name: string,
    typ: DecafType,
    kind: SymbolKind,
    length: int,
    storage: Storage,
    offset: int)

  datatype BinOp = OrOp | AndOp | EqOp | NeqOp | LtOp | LeOp | GeOp | GtOp | AddOp | SubOp | MulOp | DivOp | ModOp

  datatype UnOp = NegOp | NotOp

  datatype Expr =
    | Literal(typ: DecafType, integer: int, text: string)
    | Binary(op: BinOp, left: Expr, right: Expr)
    | Unary(uop: UnOp, child: Expr)
    | Location(name: string, sym: Option<Symbol>, index: Option<Expr>)
    | FuncCall(fname: string, callee: Option<Symbol>, args: seq<Expr>)

  datatype VarDecl = VarDecl(name: string, typ: DecafType, isArray: bool, arrayLength: int, sym: Option<Symbol>)

  datatype Stmt =
    | Assignment(target: Expr, rhs: Expr)
    | Conditional(cond: Expr, thenBlock: Block, elseBlock: Option<Block>)
    | WhileLoop(cond: Expr, body: Block)
    | Return(result: Option<Expr>, scope: map<string, Symbol>)
    | Break
    | Continue
    | CallStmt(call: Expr)

  datatype Block = Block(vars: seq<VarDecl>, stmts: seq<Stmt>)

  datatype FuncDecl = FuncDecl(name: string, body: Block)

  datatype Program = Program(vars: seq<VarDecl>, funcs: seq<FuncDecl>)

  /**
   * `node->literal.integer` as the code generator reads it.  On a node that
   * is not a literal the field aliases another member of the node union; the
   * model reads 0 there.
   */
  function LiteralInt(e: Expr): int {
    if e.Literal? then e.integer else 0
  }

  /** `node->literal.string`, read the same way. */
  function LiteralText(e: Expr): string {
    if e.Literal? then e.text else ""
  }

  /** The built-in print functions the code generator special-cases. */
  predicate IsPrint(name: string) {
    name == "print_int" || name == "print_bool" || name == "print_str"
  }

  /** The number of slots in each of the code generator's label tables. */
  const LABEL_SLOTS: int := 100

  /**
   * `s` can be generated when `w` while loops and `c` conditionals already
   * enclose it: no loop or conditional nesting runs past the last slot.
   */
  predicate Fits(s: Stmt, w: int, c: int) {
    match s
    case WhileLoop(_, b) => w + 1 < LABEL_SLOTS && BlockFits(b, w + 1, c)
    case Conditional(_, t, e) =>
      c + 1 < LABEL_SLOTS && BlockFits(t, w, c + 1) && (e.Some? ==> BlockFits(e.value, w, c + 1))
    case _ => true
  }

  predicate BlockFits(b: Block, w: int, c: int) {
    forall i :: 0 <= i < |b.stmts| ==> Fits(b.stmts[i], w, c)
  }

  /** Every function body fits the tables, which are empty at its start. */
  predicate ProgramFits(p: Program) {
    forall i :: 0 <= i < |p.funcs| ==> BlockFits(p.funcs[i].body, 0, 0)
  }

  /** A `break` or `continue` stands in `s` outside every while loop of `s`. */
  predicate Stray(s: Stmt) {
    match s
    case Break => true
    case Continue => true
    case Conditional(_, t, e) => BlockStray(t) || (e.Some? && BlockStray(e.value))
    case _ => false
  }

  predicate BlockStray(b: Block) {
    exists i :: 0 <= i < |b.stmts| && Stray(b.stmts[i])
  }

  predicate ProgramStray(p: Program) {
    exists i :: 0 <= i < |p.funcs| && BlockStray(p.funcs[i].body)
  }
}

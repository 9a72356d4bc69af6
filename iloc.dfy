/**
 * The ILOC intermediate representation shared by the code generator and the
 * register allocator: operands, three-slot instructions, and which operand
 * slots each opcode reads or writes.
 */
module Iloc {
  import opened Wrappers

  /** Bytes per machine word: one stack slot, one array element. */
  const WORD_SIZE: int := 8

  /** The `INVALID` marker of the allocator's tables. */
  const INVALID: int := -1

  /** `INT_MAX`, the "no further use" sentinel of the distance scan. */
  const INT_MAX: int := 0x7fff_ffff

  datatype Opcode =
    | LoadI | LoadAI | LoadAO | StoreAI | StoreAO
    | Add | Sub | Mult | Div | And | Or
    | CmpEq | CmpNe | CmpLt | CmpLe | CmpGe | CmpGt
    | AddI | MultI | Neg | Not | I2I
    | Jump | Cbr | Label | Call | Push | Pop | Return | Print

  datatype Operand =
    | VirtualReg(id: int)
    | PhysicalReg(id: int)
    | BaseReg                 // BP
    | StackReg                // SP
    | ReturnReg               // RET
    | IntConst(value: int)
    | StrConst(text: string)
    | AnonLabel(lid: int)
    | CallLabel(name: string)
    | Empty

  /** Every instruction carries exactly three operand slots. */
  type Operands = s: seq<Operand> | |s| == 3 witness [Empty, Empty, Empty]

  datatype Insn = Insn(form: Opcode, op: Operands)

  function Insn0(form: Opcode): Insn { Insn(form, [Empty, Empty, Empty]) }
  function Insn1(form: Opcode, a: Operand): Insn { Insn(form, [a, Empty, Empty]) }
  function Insn2(form: Opcode, a: Operand, b: Operand): Insn { Insn(form, [a, b, Empty]) }
  function Insn3(form: Opcode, a: Operand, b: Operand, c: Operand): Insn { Insn(form, [a, b, c]) }

  /**
   * How many operand slots an opcode reads: the read operands are always the
   * leading slots.  The source gets them from ILOCInsn_get_read_registers;
   * here they follow the operand layout the code generator emits for each
   * form (`storeAI r1 => r2, c` reads slots 0 and 1, `storeAO` all three).
   */
  function ReadCount(form: Opcode): (n: nat)
    ensures n <= 3
  {
    match form
    case LoadI => 0
    case LoadAI => 1
    case LoadAO | StoreAI => 2
    case StoreAO => 3
    case Add | Sub | Mult | Div | And | Or => 2
    case CmpEq | CmpNe | CmpLt | CmpLe | CmpGe | CmpGt => 2
    case AddI | MultI | Neg | Not | I2I => 1
    case Cbr | Push | Print => 1
    case Jump | Label | Call | Pop | Return => 0
  }

  /** The operand slot an opcode writes, if any (ILOCInsn_get_write_register). */
  function WriteSlot(form: Opcode): (r: Option<nat>)
    ensures r.Some? ==> ReadCount(form) <= r.value < 3
  {
    match form
    case LoadI | Neg | Not | I2I => Some(1)
    case LoadAI | LoadAO => Some(2)
    case Add | Sub | Mult | Div | And | Or => Some(2)
    case CmpEq | CmpNe | CmpLt | CmpLe | CmpGe | CmpGt => Some(2)
    case AddI | MultI => Some(2)
    case Pop => Some(0)
    case StoreAI | StoreAO | Jump | Cbr | Label | Call | Push | Print | Return => None
  }

  /** The operands in the read slots, in slot order. */
  function ReadOperands(insn: Insn): (r: seq<Operand>)
    ensures |r| == ReadCount(insn.form)
    ensures forall k :: 0 <= k < |r| ==> r[k] == insn.op[k]
  {
    insn.op[..ReadCount(insn.form)]
  }

  /** The operand in the write slot, or `Empty` for a form that writes nothing. */
  function WriteOperand(insn: Insn): Operand {
    match WriteSlot(insn.form)
    case Some(s) => insn.op[s]
    case None => Empty
  }

  predicate IsRead(insn: Insn, slot: nat) {
    slot < ReadCount(insn.form)
  }

  predicate IsWrite(insn: Insn, slot: nat) {
    WriteSlot(insn.form) == Some(slot)
  }

  /** Slot `s` of `insn` is read and holds virtual register `vr`. */
  predicate SlotReads(insn: Insn, s: nat, vr: int) {
    s < ReadCount(insn.form) && insn.op[s] == VirtualReg(vr)
  }

  /** `insn` reads virtual register `vr`. */
  predicate ReadsVirtual(insn: Insn, vr: int) {
    SlotReads(insn, 0, vr) || SlotReads(insn, 1, vr) || SlotReads(insn, 2, vr)
  }

  /** `insn` writes virtual register `vr`. */
  predicate WritesVirtual(insn: Insn, vr: int) {
    WriteOperand(insn) == VirtualReg(vr)
  }

  /** No operand slot of `insn` holds a virtual register. */
  predicate NoVirtual(insn: Insn) {
    !insn.op[0].VirtualReg? && !insn.op[1].VirtualReg? && !insn.op[2].VirtualReg?
  }

  /** A virtual register in slot `s` stands where the opcode reads or writes. */
  predicate SlotAccessed(insn: Insn, s: nat)
    requires s < 3
  {
    insn.op[s].VirtualReg? ==> IsRead(insn, s) || IsWrite(insn, s)
  }

  /** Virtual registers stand only in slots the opcode reads or writes. */
  predicate VirtualsAccessed(insn: Insn) {
    SlotAccessed(insn, 0) && SlotAccessed(insn, 1) && SlotAccessed(insn, 2)
  }

  /** `x` spliced into `code` so that it becomes element `at`. */
  function Insert<T>(code: seq<T>, at: nat, x: T): (r: seq<T>)
    requires at <= |code|
    ensures |r| == |code| + 1 && r[at] == x
    ensures forall j {:trigger r[j]} :: 0 <= j < at ==> r[j] == code[j]
    ensures forall j :: at < j < |r| ==> r[j] == code[j - 1]
  {
    seq(|code| + 1, j requires 0 <= j <= |code| => if j < at then code[j] else if j == at then x else code[j - 1])
  }
}

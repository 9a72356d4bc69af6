# A verified model of the Decaf compiler's analysis, code generator and register allocator

This project models three passes of a small compiler for Decaf, a C-like teaching language. The passes are modelled in Dafny, and the model's properties are proved.

- **Static analysis** (`p3-analysis/src/p3-analysis.c`). A visitor walks the abstract syntax tree and appends errors to a list. It reports:
  - a missing `main`;
  - void literals, void variables and void function calls;
  - zero-length arrays;
  - variables named by one of twelve reserved words;
  - undefined variables and functions;
  - type mismatches in assignments and returns;
  - non-boolean conditions;
  - `break` and `continue` outside a loop.
- **Code generation** (`p4-codegen/src/p4-codegen.c`). A visitor turns the tree into ILOC, a three-operand intermediate code that uses an unbounded supply of virtual registers and anonymous labels. Each node's code is built from its children's code and a fresh temporary register. Labels for the innermost while loop and if statement are kept in 100-slot tables.
- **Register allocation** (`p5-regalloc/src/p5-regalloc.c`). A single pass over the ILOC list maps virtual registers to a fixed number of physical registers:
  - a read register is ensured to be in a physical register, and the register is freed after its last read;
  - a written register is allocated;
  - when no register is free, the register whose next read is furthest away is spilled to a new stack slot;
  - a loop meant to spill every live register among the first `k` before a `call` never runs, because its test compares the operand array with the `CALL` opcode (see "## Findings"); the model covers both that behaviour and the intended one;
  - every spill grows the function's frame by one word, by rewriting the immediate operand of the frame-allocating `addI SP, -n => SP` instruction.

## Structure

| file | module | contents |
|---|---|---|
| `wrappers.dfy` | `Wrappers` | `Option` |
| `iloc.dfy` | `Iloc` | operands, instructions, which slots an opcode reads and writes, insertion into a list |
| `regalloc.dfy` | `RegAlloc` | specification functions (`Distance`, `Furthest`, `Replaced`, and `AfterSpill` … `AfterPass` on `AllocState`), class `Allocator` with the `name`/`offset` tables as arrays and the instruction list as a sequence, the top-level `AllocateRegisters` |
| `ast.dfy` | `Ast` | the syntax tree with its symbol annotations |
| `codefacts.dfy` | `CodeFacts` | the properties of generated code: every register is written before it is read, every jump target is a label defined in the same code or an enclosing one, and every register is written and every label defined at most once |
| `codegen.dfy` | `CodeGen` | the code each visitor hook emits, as functions of the children's code, with a lemma per hook |
| `generation.dfy` | `Generation` | the whole generator as functions over the tree, `GenerateOk` and `GenerateFresh` |
| `visitor.dfy` | `Visitor` | class `CodeGenData`: the hooks with their counters and label tables, and traversal methods proved equal to `Generation` |
| `analysis.dfy` | `Analysis` | the errors each hook reports, the errors of the whole walk, and class `AnalysisVisitor` |

How the model corresponds to the code:

- The allocator's and the code generator's methods update state in place, as the C code does:
  - the register tables are arrays;
  - the ILOC list is a sequence that insertions reassign;
  - the label tables are fixed-size arrays.

  Each method is proved against a specification function of its inputs and old state.
- For the allocator, those functions are `AfterSpill`, `AfterAllocate`, `AfterEnsure`, `AfterRead`, `AfterWrite`, `AfterStep` and `AfterPass`. They work on an `AllocState` value: the list, the frame allocator's position and both tables.
  - They also record which physical register each virtual register of an instruction was bound to.
  - So `AllocateRegisters` is proved to return exactly the list `AfterPass` computes, not just some list of the right shape.
  - `AddDemoAllocated` works that list out for a three-instruction body.
- The model follows the code in these details:
  - Spill stores and reloads are inserted directly **after** the current instruction, as the comments at `p5-regalloc.c:51-52` and `p5-regalloc.c:78-79` say and `insert_spill` and `insert_load` do. They are not placed before it.
  - `dist` counts only reads. It starts at the instruction after the current one.
  - The intended pre-call spill covers only the first `k` physical registers. Other searches run over the whole `name` table.
  - The frame size starts at the prologue's `-8 · locals`, not at zero.
  - `print` calls emit `loadI` plus `print` for integer and boolean arguments.
  - An array assignment generates the index code before the value code.
  - The analysis raises the loop depth on entering a while loop and never lowers it.

## Model

| member | source | states |
|---|---|---|
| `Iloc.Insert` | p5-regalloc/src/p5-regalloc.c:56-90 | splicing an instruction into the list keeps every other instruction, in order, and shifts those after it by one |
| `RegAlloc.Replaced` | p5-regalloc/src/p5-regalloc.c:31-39 | every slot holding virtual register `vr` now holds physical register `pr`; every other slot is unchanged |
| `RegAlloc.ReplacedOk` | p5-regalloc/src/p5-regalloc.c:31-39 | replacing with an in-range physical register keeps the instruction's registers in range |
| `RegAlloc.Allocator.ReplaceRegister` | p5-regalloc/src/p5-regalloc.c:31-39 | the loop over the three operand slots rewrites only the current instruction, to `Replaced` |
| `RegAlloc.FirstReadIsFirst` | p5-regalloc/src/p5-regalloc.c:170-185 | `FirstRead` is a read of `vr` when it lies inside the list, and no earlier instruction from the start point reads `vr` |
| `RegAlloc.FirstReadAt` | p5-regalloc/src/p5-regalloc.c:170-185 | conversely, the first reading position is the only value `FirstRead` can take |
| `RegAlloc.Allocator.Dist` | p5-regalloc/src/p5-regalloc.c:170-185 | the scan returns `Distance`: the number of instructions up to the next read of `vr`, or `INT_MAX` exactly when no later instruction reads it |
| `RegAlloc.Dists` | p5-regalloc/src/p5-regalloc.c:147-155 | entry `q` is the distance of the register held in physical register `q` |
| `RegAlloc.FurthestIsFurthest` | p5-regalloc/src/p5-regalloc.c:145-155 | the chosen index holds the greatest distance, and every earlier index holds a strictly smaller one, so ties go to the lowest register |
| `RegAlloc.Allocator.ChooseVictim` | p5-regalloc/src/p5-regalloc.c:145-155 | returns `Victim`: the register whose next read is furthest away, the lowest on a tie |
| `RegAlloc.Allocator.FindName` | p5-regalloc/src/p5-regalloc.c:138-143 | returns `FirstHolder` of the `name` table: the first physical register holding `v`, or the table size when none does |
| `RegAlloc.Allocator.InsertSpill` | p5-regalloc/src/p5-regalloc.c:56-71 | the frame-allocating instruction's immediate drops by one word; the returned offset is that new size; a store of `pr` to it is inserted after the current instruction |
| `RegAlloc.Allocator.InsertLoad` | p5-regalloc/src/p5-regalloc.c:81-90 | a load from `[BP+offset]` into `pr` is inserted after the current instruction, and nothing else changes |
| `RegAlloc.SpillKeepsFrame` | p5-regalloc/src/p5-regalloc.c:56-71 | a spill keeps the list well formed; the frame allocator, shifted by one when the store lands at or before it, has an immediate one word lower |
| `RegAlloc.ReloadKeepsFrame` | p5-regalloc/src/p5-regalloc.c:81-90 | a reload keeps the list well formed and the frame allocator's immediate unchanged, at its shifted position |
| `RegAlloc.Allocator.Spill` | p5-regalloc/src/p5-regalloc.c:163-167 | the state afterwards is exactly `AfterSpill`'s: the spilled virtual register's offset is the new frame size, `pr` is free, and the store follows the current instruction; no other table entry changes |
| `RegAlloc.Allocator.Allocate` | p5-regalloc/src/p5-regalloc.c:137-160 | the state and the returned register are exactly `AfterAllocate`'s: the lowest free register is taken without any spill; otherwise the eviction choice is spilled and reassigned to `vr` |
| `RegAlloc.Allocator.Evict` | p5-regalloc/src/p5-regalloc.c:145-159 | with no free register, the register taken is `Victim` from the next instruction; its value is spilled as `AfterSpill` says and it now holds `vr` |
| `RegAlloc.Allocator.Ensure` | p5-regalloc/src/p5-regalloc.c:240-252 | the state and the returned register are exactly `AfterEnsure`'s. A register that already holds `vr` is returned with list and tables unchanged. Otherwise the returned register now holds `vr`, and the new list is the old one with two insertions after the instruction: the eviction's spill store, when the chosen register was occupied, and then the reload from `offset[vr]`, when that offset is valid |
| `RegAlloc.Allocator.LoadMissing` | p5-regalloc/src/p5-regalloc.c:246-251 | the state is `AfterAllocate`'s followed, when `offset[vr]` is valid, by `AfterLoad` from that offset into the register `allocate` returned |
| `RegAlloc.Allocator.ResetMappings` | p5-regalloc/src/p5-regalloc.c:230-237 | the state is `AfterReset`'s: the first `k` names and every offset become `INVALID`, later names and the list unchanged |
| `RegAlloc.Allocator.SpillBeforeCall` | p5-regalloc/src/p5-regalloc.c:197-204 | the intended pre-call spill leaves exactly the state `AfterCallSpill` gives: the first `k` registers end free, later ones are unchanged, the spill count grows by the number that were occupied, and list, frame allocator and slots equal `CallSpills` of the old state |
| `RegAlloc.Allocator.SpillIfLive` | p5-regalloc/src/p5-regalloc.c:199-203 | an occupied register is spilled: the frame shrinks by one word, its virtual register's slot is the new frame size, no other slot changes, and the store goes in after the call; a free register changes nothing |
| `RegAlloc.Allocator.SpillNext` | p5-regalloc/src/p5-regalloc.c:199-203 | one pass of the pre-call loop keeps its invariant: the registers scanned are free, the state is `CallSpills` over them |
| `RegAlloc.SpillOne` | p5-regalloc/src/p5-regalloc.c:56-71 | one spill as a function of the state: the frame allocator's immediate drops by one word and the list gains one instruction |
| `RegAlloc.CallSpills` | p5-regalloc/src/p5-regalloc.c:197-204 | the intended pre-call spill as a function of the state: the list grows by the number of occupied registers among the first `k` |
| `RegAlloc.CallSpillsNext` | p5-regalloc/src/p5-regalloc.c:199-203 | one more register adds one `SpillOne` when it is occupied and nothing otherwise |
| `RegAlloc.CallSpillsFrame` | p5-regalloc/src/p5-regalloc.c:197-204 | after the pre-call spill, the frame allocator has moved past the stores when it followed the call, and its immediate is lower by one word per occupied register |
| `RegAlloc.CallSpillsLayout` | p5-regalloc/src/p5-regalloc.c:197-204 | with `m` occupied registers, the frame allocator grows by `m` words and `m` instructions appear right after the call, nothing else changing |
| `RegAlloc.CallSpillsStores` | p5-regalloc/src/p5-regalloc.c:197-204 | the stores right after the call are those of the occupied registers, the last register's first, each to the slot carved when it was spilled |
| `RegAlloc.CallSpillsSlots` | p5-regalloc/src/p5-regalloc.c:197-204 | each virtual register's slot is the one its last holder among the first `k` was stored to; an unheld one keeps its slot |
| `RegAlloc.CallDemoSpills` | p5-regalloc/src/p5-regalloc.c:197-204 | at a call, with register 0 holding virtual register 0, the intended spill gives the frame `-16`, the call, then the store of register 0 to `[BP-16]` |
| `RegAlloc.CallAsWritten` | p5-regalloc/src/p5-regalloc.c:197 | as written, the pass over that call keeps the list unchanged and register 0 still holding virtual register 0 |
| `RegAlloc.CallSpilled` | p5-regalloc/src/p5-regalloc.c:197-204 | with the intended test, the pass over that call emits the store after it and frees register 0 |
| `RegAlloc.Allocator.ReadOne` | p5-regalloc/src/p5-regalloc.c:209-216 | the state and the register are exactly `AfterRead`'s: `ensure`'s register, the instruction renamed to it, and the register freed exactly when `Distance` from the next instruction is `INT_MAX` |
| `RegAlloc.Allocator.AllocateReads` | p5-regalloc/src/p5-regalloc.c:206-218 | the state is exactly `AfterReadLoop`'s, so the instruction is the original renamed by the register each of its read virtual registers was bound to; no read slot still holds a virtual register |
| `RegAlloc.Allocator.AllocateWrite` | p5-regalloc/src/p5-regalloc.c:220-225 | the state is exactly `AfterWrite`'s. A virtual write gets the returned register `pr`: `name[pr]` is the written register, the instruction is `Replaced` to `pr`, and the binding is the written register to `pr`. Without a virtual write, `pr` is `INVALID` and nothing changes. Afterwards the written slot holds no virtual register |
| `RegAlloc.Allocator.ReadSlot` | p5-regalloc/src/p5-regalloc.c:209-216 | one pass of the read loop keeps its invariant: the state is `AfterReads` over the operands handled so far, and no handled virtual operand is left in the instruction |
| `RegAlloc.Allocator.RenameAll` | p5-regalloc/src/p5-regalloc.c:206-225 | the state is exactly `AfterRename`'s: the instruction renamed by the registers its reads and its write were bound to; afterwards it names no virtual register |
| `RegAlloc.Allocator.Step` | p5-regalloc/src/p5-regalloc.c:196-226 | the state is exactly `AfterStep`'s, and the current instruction names no virtual register afterwards; with the intended test, a call frees the first `k` registers and leaves the state `CallSpills` gives |
| `RegAlloc.Allocator.Run` | p5-regalloc/src/p5-regalloc.c:193-226 | the state is exactly `AfterPass` after `AfterReset`. No instruction holds a virtual register. The list traces back to the input: every input instruction once, in order, renamed by the bindings it received, with only spill stores and reloads added. The frame's immediate is the input's lowered by one word per spill store |
| `RegAlloc.AllocateRegisters` | p5-regalloc/src/p5-regalloc.c:187-227 | a missing list gives nothing. Otherwise the result is exactly the list `AfterPass` leaves after `AfterReset`. It has no virtual registers, and every physical register in it is below the size of the `name` table (`MAX_PHYSICAL_REGS`). It traces back to the input list, and its frame allocator's immediate is the input's lowered by one word per spill store in it |
| `RegAlloc.FirstHolder` | p5-regalloc/src/p5-regalloc.c:138-143 | the result is an index of `names` holding `v`, and no earlier index holds it, or it is the table size when no index holds `v` |
| `RegAlloc.Victim` | p5-regalloc/src/p5-regalloc.c:145-155 | the choice is an `EvictionChoice`: no register's next read is further away than the victim's, and every lower register's is strictly nearer |
| `RegAlloc.AfterSpill` | p5-regalloc/src/p5-regalloc.c:162-167 | `spill(pr)` as a function of the state: the table sizes and the work after the current instruction are kept, the instruction itself stays in place, and `pr` becomes free with no other register changing |
| `RegAlloc.AfterLoad` | p5-regalloc/src/p5-regalloc.c:81-90 | a reload after the current instruction keeps both tables and the work after the instruction |
| `RegAlloc.AfterAllocate` | p5-regalloc/src/p5-regalloc.c:137-160 | `allocate(vr)` as a function of the state: the returned register is in range and now holds `vr`, every other register unchanged; the work after the instruction is kept and the instruction stays in place |
| `RegAlloc.AfterEnsure` | p5-regalloc/src/p5-regalloc.c:240-252 | `ensure(vr)` as a function of the state: the returned register holds `vr` afterwards, and the work after the instruction is kept |
| `RegAlloc.AfterRead` | p5-regalloc/src/p5-regalloc.c:209-216 | the register is in range, the work after the instruction is kept, and the instruction (when it is not the frame allocator) is `Replaced` to that register |
| `RegAlloc.AfterUse` | p5-regalloc/src/p5-regalloc.c:212-215 | the instruction is `Replaced`, nothing else in the list changes, and the register is freed exactly when no later instruction reads `vr` |
| `RegAlloc.Allocator.UseRegister` | p5-regalloc/src/p5-regalloc.c:212-215 | `replace_register` and the `dist` test leave exactly `AfterUse`'s state |
| `RegAlloc.AfterReads` | p5-regalloc/src/p5-regalloc.c:207-217 | after the read loop over the first `m` operands, the instruction is the original renamed by `RenameWith` with the bindings made, and the work after it is kept |
| `RegAlloc.ReadsUnfold` | p5-regalloc/src/p5-regalloc.c:208-216 | the loop over `m + 1` operands is the loop over `m` followed by `AfterRead` of operand `m` when it is virtual |
| `RegAlloc.AfterReadLoop` | p5-regalloc/src/p5-regalloc.c:206-218 | the loop over all read operands renames the instruction by its bindings; the frame allocator is never the instruction changed |
| `RegAlloc.AfterWrite` | p5-regalloc/src/p5-regalloc.c:220-225 | the write renames the instruction by a binding of the written virtual register only |
| `RegAlloc.AfterRename` | p5-regalloc/src/p5-regalloc.c:206-225 | reads then write rename the instruction by the union of their bindings; an instruction without virtual registers changes nothing |
| `RegAlloc.AfterCallSpill` | p5-regalloc/src/p5-regalloc.c:197-204 | the intended pre-call spill keeps the table sizes, the work after the call and the call itself in place |
| `RegAlloc.AfterStep` | p5-regalloc/src/p5-regalloc.c:196-226 | one iteration renames the instruction by its bindings and keeps the work after it. An inactive instruction changes nothing. As written, so does an instruction without virtual registers, a call included |
| `RegAlloc.AfterReset` | p5-regalloc/src/p5-regalloc.c:230-237 | `reset_mappings` keeps the list, the table sizes and the allocator invariant |
| `RegAlloc.ResetStart` | p5-regalloc/src/p5-regalloc.c:230-237 | `reset_mappings` leaves the same state whatever the `offset` table held before |
| `RegAlloc.StepShrinks` | p5-regalloc/src/p5-regalloc.c:196-226 | a step keeps the allocator invariant and either removes an active instruction from the work still to do or keeps the list's length |
| `RegAlloc.PassUnfold` | p5-regalloc/src/p5-regalloc.c:196-226 | the pass from `i` is `AfterStep` at `i` followed by the pass from `i + 1`; at the end of the list it changes nothing |
| `RegAlloc.Allocator.Pass` | p5-regalloc/src/p5-regalloc.c:196-226 | the loop ends in exactly the state `AfterPass` gives from where it starts, with no virtual register left |
| `RegAlloc.Allocator.Advance` | p5-regalloc/src/p5-regalloc.c:196-226 | one iteration keeps the loop invariant and shrinks the work still to do |
| `RegAlloc.RenameWithEmpty` | p5-regalloc/src/p5-regalloc.c:31-39 | renaming by the empty binding changes nothing |
| `RegAlloc.ReplacedRenameWith` | p5-regalloc/src/p5-regalloc.c:31-39 | replacing `vr` by `pr` after renaming by a binding renames by that binding extended with `vr` to `pr`, unless `vr` is already bound |
| `RegAlloc.RenameWithTwice` | p5-regalloc/src/p5-regalloc.c:206-225 | renaming by a binding and then by a second one binding nothing the first binds renames by their union |
| `RegAlloc.WrittenUnbound` | p5-regalloc/src/p5-regalloc.c:220-225 | a virtual register still in the write slot after renaming is one the binding does not bind |
| `RegAlloc.ReplacedLeaves` | p5-regalloc/src/p5-regalloc.c:209-216 | renaming one more read operand leaves none of the handled virtual operands in the instruction |
| `RegAlloc.ReadsQuiet` | p5-regalloc/src/p5-regalloc.c:207-217 | a read loop over operands none of which is virtual changes nothing and binds nothing |
| `RegAlloc.CallSpillsOk` | p5-regalloc/src/p5-regalloc.c:197-204 | the pre-call spill keeps the list well formed and the work after the call |
| `RegAlloc.WriteOperandOk` | p5-regalloc/src/p5-regalloc.c:221-222 | a well-formed instruction writes only a virtual register the `offset` table covers |
| `RegAlloc.AddDemoFirst` | p5-regalloc/src/p5-regalloc.c:221-225 | the first `loadI` of a two-value body gets register 0, the first free one |
| `RegAlloc.AddDemoSecond` | p5-regalloc/src/p5-regalloc.c:221-225 | the second `loadI` gets register 1, register 0 still holding the first value |
| `RegAlloc.AddDemoThird` | p5-regalloc/src/p5-regalloc.c:206-225 | the add reads registers 0 and 1, frees both after this last use, and writes its sum to register 0 |
| `RegAlloc.AddDemoRest` | p5-regalloc/src/p5-regalloc.c:196-226 | the rest of the pass over that body ends with registers 0, 1 and 0 assigned |
| `RegAlloc.AddDemoStart` | p5-regalloc/src/p5-regalloc.c:193-226 | `reset_mappings` finds nothing to free in that body, and the frame allocator is left alone |
| `RegAlloc.AddDemoAllocated` | p5-regalloc/src/p5-regalloc.c:187-227 | the pass over `loadI 1 => %vr0; loadI 2 => %vr1; add %vr0, %vr1 => %vr2` with two registers gives registers 0, 1 and then 0 to the sum, with no spill |
| `RegAlloc.AddDemoRun` | p5-regalloc/src/p5-regalloc.c:187-227 | `AllocateRegisters` on that body returns the list with registers 0, 1, 0, so it cannot return all `r0` |
| `RegAlloc.UntouchedTrace` | p5-regalloc/src/p5-regalloc.c:187-195 | a list nothing has been spliced into lists every input instruction in order and no store |
| `RegAlloc.TracedStart` | p5-regalloc/src/p5-regalloc.c:187-195 | the input list traces to itself |
| `RegAlloc.OriginInsert` | p5-regalloc/src/p5-regalloc.c:56-90 | splicing a store or reload into the list adds no input instruction and one store exactly when it is a store |
| `RegAlloc.TracedInsert` | p5-regalloc/src/p5-regalloc.c:56-90 | inserting a spill store or reload after an instruction keeps the trace, and a store adds one to the store count |
| `RegAlloc.TracedSpill` | p5-regalloc/src/p5-regalloc.c:56-71 | a spill (the frame rewrite and the store) keeps the trace with one store more |
| `RegAlloc.SpillKeepsList` | p5-regalloc/src/p5-regalloc.c:56-71 | a spill keeps the list invariant: traced, well formed, the frame one word lower per store |
| `RegAlloc.ReloadKeepsList` | p5-regalloc/src/p5-regalloc.c:81-90 | a reload keeps the list invariant with the same store count |
| `RegAlloc.ReplaceKeepsList` | p5-regalloc/src/p5-regalloc.c:31-39 | renaming within the current instruction keeps the list invariant, the instruction's origin now binding `vr` to `pr` |
| `RegAlloc.ActiveFromInsert` | p5-regalloc/src/p5-regalloc.c:56-90 | inserting before the scan position leaves the instructions still to be allocated unchanged |
| `RegAlloc.SpliceOne` | p5-regalloc/src/p5-regalloc.c:56-71 | a spill only grows the frame allocator and inserts after the current instruction; the prefix and the remaining work are unchanged |
| `RegAlloc.FrameAllocatorInactive` | p5-regalloc/src/p5-regalloc.c:56-71 | the frame-allocating `addI SP` never names a virtual register |
| `Iloc.ReadOperands` | p5-regalloc/src/p5-regalloc.c:206-208 | the read registers of an instruction are its leading read slots, in order |
| `Iloc.WriteSlot` | p5-regalloc/src/p5-regalloc.c:220-221 | the written slot, if any, comes after every read slot |
| `CodeGen.VarOffset` | p4-codegen/src/p4-codegen.c:98-109 | an integer constant: 0 for a static variable, otherwise the symbol's frame offset |
| `CodeGen.BaseLoadOk` | p4-codegen/src/p4-codegen.c:72-89 | the base of a static variable is loaded into a fresh register, and a stack variable's base is `BP`; both are straight-line code defining the base |
| `CodeGen.BinOpcode` | p4-codegen/src/p4-codegen.c:246-316 | every binary operator except `%` maps to an opcode that reads two slots and writes the third |
| `CodeGen.BinaryOk` | p4-codegen/src/p4-codegen.c:246-316 | the left code, the right code, then one operation (for `%`, `div`, `mult`, `sub`) define the result register before any use |
| `CodeGen.ModTail` | p4-codegen/src/p4-codegen.c:296-309 | the three-instruction remainder sequence reads only registers it or the operand code defined |
| `CodeGen.UnaryOk` | p4-codegen/src/p4-codegen.c:324-342 | negation and logical not define the result from the operand's temporary |
| `CodeGen.LocationOk` | p4-codegen/src/p4-codegen.c:567-598 | a scalar load (`loadAI`) or an element load (`multI` by 8, then `loadAO`) defines its result after the base and the index |
| `CodeGen.ElementLoadOk` | p4-codegen/src/p4-codegen.c:583-591 | the element address computation and load read only registers defined before them |
| `CodeGen.AssignOk` | p4-codegen/src/p4-codegen.c:425-456 | an assignment is straight-line code in which every register is written before it is read |
| `CodeGen.StoreElementOk` | p4-codegen/src/p4-codegen.c:431-445 | an array store: index code, base, `multI`, value code, then `storeAO` |
| `CodeGen.StoreScalarOk` | p4-codegen/src/p4-codegen.c:446-455 | a scalar store: value code, base, then `storeAI` |
| `CodeGen.ReturnOk` | p4-codegen/src/p4-codegen.c:203-224 | a return moves its value to `RET` and jumps to the epilogue label, the only target it adds |
| `CodeGen.ReturnReloadOk` | p4-codegen/src/p4-codegen.c:210-217 | a value with no temporary is reloaded from `[BP-8]` before the move |
| `CodeGen.ReturnMoveOk` | p4-codegen/src/p4-codegen.c:218-223 | the `i2i` to `RET` and the jump read only defined registers and target only the epilogue |
| `CodeGen.WhileHeadOk` | p4-codegen/src/p4-codegen.c:366-383 | the loop head defines the top and body labels and branches only to body or end |
| `CodeGen.WhileOk` | p4-codegen/src/p4-codegen.c:366-383 | a while loop is closed when its body may jump to the loop's own top and end labels |
| `CodeGen.IfHeadOk` | p4-codegen/src/p4-codegen.c:479-502 | the conditional head branches to the body label it defines and to the end label |
| `CodeGen.ElseTailOk` | p4-codegen/src/p4-codegen.c:491-496 | the jump to the merge label, the end label and the else code add the merge and end labels |
| `CodeGen.IfThenOk` | p4-codegen/src/p4-codegen.c:479-502 | an if without else defines both of its labels and only reads defined registers |
| `CodeGen.IfElseOk` | p4-codegen/src/p4-codegen.c:479-502 | an if-else defines its three labels and jumps only to them or to the enclosing targets |
| `CodeGen.IfOk` | p4-codegen/src/p4-codegen.c:479-502 | either form of conditional keeps code closed over the targets its blocks may use |
| `CodeGen.PrologueOk` | p4-codegen/src/p4-codegen.c:163-180 | the prologue (label, push BP, move SP to BP, `addI SP, -8·locals`) reads no undefined register and has no jumps |
| `CodeGen.EpilogueOk` | p4-codegen/src/p4-codegen.c:163-180 | the epilogue defines the epilogue label and has no jumps |
| `CodeGen.FuncOk` | p4-codegen/src/p4-codegen.c:163-180 | a function's code is closed when its body's only extra target is its epilogue |
| `CodeGen.Pushes` | p4-codegen/src/p4-codegen.c:539-547 | the push sequence consumes registers only upward |
| `CodeGen.PushesReversed` | p4-codegen/src/p4-codegen.c:539-547 | with every argument in a register, the pushes are the arguments' temporaries from last to first |
| `CodeGen.PushesFresh` | p4-codegen/src/p4-codegen.c:539-547 | one fresh register is consumed per argument without a temporary |
| `CodeGen.PushLiteralOk` | p4-codegen/src/p4-codegen.c:541-546 | an argument without a temporary is pushed through a `loadI` of its literal value |
| `CodeGen.PushOneOk` | p4-codegen/src/p4-codegen.c:540-546 | each push reads only a defined register |
| `CodeGen.PushesOk` | p4-codegen/src/p4-codegen.c:539-547 | the whole push sequence reads only defined registers |
| `CodeGen.Lits` | p4-codegen/src/p4-codegen.c:539-545 | the literal value read for each argument; a non-literal reads as 0 |
| `CodeGen.ArgumentsOk` | p4-codegen/src/p4-codegen.c:529-547 | the argument code followed by the pushes is straight-line code that defines before it uses |
| `CodeGen.CallTailOk` | p4-codegen/src/p4-codegen.c:550-557 | `call`, `addI SP` over the arguments and `i2i RET` define the call's result register |
| `CodeGen.CallOk` | p4-codegen/src/p4-codegen.c:510-559 | a call expression is straight-line code defining its result register |
| `CodeGen.PrintOk` | p4-codegen/src/p4-codegen.c:515-526 | a print call is straight-line code with no result register |
| `CodeGen.BaseLoadFresh` | p4-codegen/src/p4-codegen.c:72-89 | a static variable's base load writes one new register, `n`, once; a stack variable's base writes none |
| `CodeGen.BinaryFresh` | p4-codegen/src/p4-codegen.c:246-316 | when both operands' code write distinct registers in consecutive ranges, the operation adds one new result register (three for `%`), each written once, and no label |
| `CodeGen.ModFresh` | p4-codegen/src/p4-codegen.c:296-309 | the remainder sequence writes its quotient, product and result registers once each, all above the operands' registers |
| `CodeGen.UnaryFresh` | p4-codegen/src/p4-codegen.c:324-342 | negation and logical not write one new result register after the operand's registers |
| `CodeGen.LocationFresh` | p4-codegen/src/p4-codegen.c:567-598 | a load writes its base, its address and its result each into a new register above the index's registers, each once |
| `CodeGen.ScalarLoadFresh` | p4-codegen/src/p4-codegen.c:592-595 | a scalar load puts the value in one new register above the base's |
| `CodeGen.ElementLoadFresh` | p4-codegen/src/p4-codegen.c:583-591 | the element address and the loaded element go to two new registers above the base's and the index's |
| `CodeGen.AssignFresh` | p4-codegen/src/p4-codegen.c:425-456 | an assignment writes each register once: the index's and the value's, then the base and the address, all new |
| `CodeGen.AssignArrayFresh` | p4-codegen/src/p4-codegen.c:431-445 | the array store's `multI` writes a register none of the index, base or value code writes |
| `CodeGen.ReturnFresh` | p4-codegen/src/p4-codegen.c:203-224 | a return writes the value's registers once, plus one new register when the value had no temporary, and defines no label |
| `CodeGen.WhileFresh` | p4-codegen/src/p4-codegen.c:350-383 | a while loop defines its three new labels once each, besides its body's labels, which come after them, and adds no register write |
| `CodeGen.IfHeadFresh` | p4-codegen/src/p4-codegen.c:479-488 | the conditional head adds the body label, defined once, and no register write |
| `CodeGen.IfThenFresh` | p4-codegen/src/p4-codegen.c:464-502 | an if without else defines its two new labels once each, besides its block's labels |
| `CodeGen.IfElseFresh` | p4-codegen/src/p4-codegen.c:464-502 | an if-else defines its body, end and merge labels once each; the merge label is taken after both blocks' labels |
| `CodeGen.PrologueFresh` | p4-codegen/src/p4-codegen.c:163-180 | the prologue writes no virtual register and defines the function's own label once |
| `CodeGen.EpilogueFresh` | p4-codegen/src/p4-codegen.c:163-180 | the epilogue writes no virtual register and defines the epilogue label once |
| `CodeGen.FuncFresh` | p4-codegen/src/p4-codegen.c:149-180 | a function defines its own label, its epilogue label and its body's labels once each, and writes its body's registers once |
| `CodeGen.PushesOnce` | p4-codegen/src/p4-codegen.c:539-547 | every `loadI` of the push sequence writes a new register, each once |
| `CodeGen.CallTailFresh` | p4-codegen/src/p4-codegen.c:550-557 | the call tail writes only its new result register |
| `CodeGen.CallFresh` | p4-codegen/src/p4-codegen.c:510-559 | a call's argument code, pushes and result write each register once, the result last |
| `CodeGen.PrintFresh` | p4-codegen/src/p4-codegen.c:515-526 | a print call copies no argument code: its `loadI` writes the argument's temporary, its only write |
| `Generation.IndexGen` | p4-codegen/src/p4-codegen.c:567-598 | an index expression has code exactly when the location has an index |
| `Generation.ExprGenOk` | p4-codegen/src/p4-codegen.c:232-342 | every expression's code writes its temporary and every register it reads before the read, and consumes registers only upward |
| `Generation.ArgsGen` | p4-codegen/src/p4-codegen.c:510-559 | one code block and one temporary per argument visited |
| `Generation.ArgsGenOk` | p4-codegen/src/p4-codegen.c:510-559 | every argument's code defines its temporary |
| `Generation.DeclsNext` | p4-codegen/src/p4-codegen.c:606-623 | declarations consume registers only upward |
| `Generation.ElemsSnoc` | p4-codegen/src/p4-codegen.c:350-358 | pushing a loop's labels adds exactly those labels to the reachable set |
| `Generation.EscapeOk` | p4-codegen/src/p4-codegen.c:392-417 | `break` and `continue` jump to the innermost loop's end or top, or to slot 0 outside any loop |
| `Generation.InnerReach` | p4-codegen/src/p4-codegen.c:350-383 | inside a loop, escapes reach only that loop's labels or enclosing ones |
| `Generation.StmtGenOk` | p4-codegen/src/p4-codegen.c:188-502 | every statement's code defines registers before use, and jumps only to its own labels, enclosing loops' labels, the epilogue, or slot 0 when it holds a stray `break`/`continue` |
| `Generation.ConditionalOk` | p4-codegen/src/p4-codegen.c:464-502 | the same for conditionals, which take two labels on entry and the merge label after their blocks |
| `Generation.WhileLoopOk` | p4-codegen/src/p4-codegen.c:350-383 | the same for while loops, which take three labels on entry |
| `Generation.BlockGenOk` | p4-codegen/src/p4-codegen.c:188-195 | a block's code is its statements' code, with the same guarantees |
| `Generation.StmtsGenOk` | p4-codegen/src/p4-codegen.c:188-195 | the same for any prefix of a block's statements |
| `Generation.FuncGenOk` | p4-codegen/src/p4-codegen.c:149-180 | a function's code jumps only to labels it defines, plus slot 0 when it holds a stray `break`/`continue`; it takes at least one label, the epilogue |
| `Generation.FuncsGenOk` | p4-codegen/src/p4-codegen.c:127-141 | the same for the concatenated functions of a program |
| `Generation.GenerateOk` | p4-codegen/src/p4-codegen.c:627-677 | the generated list writes every register before it is read; every jump target is a label it defines (or slot 0); with no stray `break`/`continue`, it is fully closed |
| `Generation.ExprGenFresh` | p4-codegen/src/p4-codegen.c:232-342 | every expression's code writes each register at most once, all of them new since `r`, defines no label, and its temporary is one of them |
| `Generation.ArgsGenFresh` | p4-codegen/src/p4-codegen.c:510-559 | the arguments' code, one after another, writes each register once, and each argument's temporary is one of them |
| `Generation.StmtGenFresh` | p4-codegen/src/p4-codegen.c:188-502 | every statement's code writes each register once and defines each label once, all of them new since `r` and `l` |
| `Generation.ConditionalFresh` | p4-codegen/src/p4-codegen.c:464-502 | the same for conditionals |
| `Generation.WhileLoopFresh` | p4-codegen/src/p4-codegen.c:350-383 | the same for while loops |
| `Generation.BlockGenFresh` | p4-codegen/src/p4-codegen.c:188-195 | the same for blocks |
| `Generation.StmtsGenFresh` | p4-codegen/src/p4-codegen.c:188-195 | the same for any prefix of a block's statements |
| `Generation.FuncGenFresh` | p4-codegen/src/p4-codegen.c:149-180 | a function's code writes each register once and defines each label once: its own name's label and anonymous labels new since `l` |
| `Generation.FuncsGenFresh` | p4-codegen/src/p4-codegen.c:127-141 | the functions' code writes each register once; its labels are function labels or new anonymous ones; when the function names differ, each label is defined once |
| `Generation.GenerateFresh` | p4-codegen/src/p4-codegen.c:627-677 | the generated list writes every virtual register at most once, all of them from `r` up to the final counter; its labels are the functions' labels and anonymous labels from `l` up to the final counter; when function names differ, every label is defined exactly once |
| `Visitor.Names.VirtualRegister` | p4-codegen/src/p4-codegen.c:232-238 | returns the next virtual register and advances only that counter |
| `Visitor.Names.AnonymousLabel` | p4-codegen/src/p4-codegen.c:350-358 | returns the next anonymous label and advances only that counter |
| `Visitor.PushPopWhile` | p4-codegen/src/p4-codegen.c:350-383 | leaving a while loop restores the count and label tables that entering it changed |
| `Visitor.PushWhileTables` | p4-codegen/src/p4-codegen.c:350-358 | entering a loop appends its top and end labels to the active part of the tables |
| `Visitor.CodeGenData.constructor` | p4-codegen/src/p4-codegen.c:38-44 | zero counters, no epilogue, empty label tables |
| `Visitor.CodeGenData.PreFuncDecl` | p4-codegen/src/p4-codegen.c:149-155 | the epilogue label is the next anonymous label |
| `Visitor.CodeGenData.GenFuncDecl` | p4-codegen/src/p4-codegen.c:163-180 | the function's code is the prologue, the body, then the epilogue |
| `Visitor.CodeGenData.PreWhile` | p4-codegen/src/p4-codegen.c:350-358 | three fresh labels go into the next slot of the loop tables |
| `Visitor.CodeGenData.PostWhile` | p4-codegen/src/p4-codegen.c:366-383 | emits `WhileCode` with the innermost slot's labels and pops the slot |
| `Visitor.CodeGenData.Break` | p4-codegen/src/p4-codegen.c:392-400 | a jump to the innermost loop's end label, or to slot 0 outside a loop |
| `Visitor.CodeGenData.Continue` | p4-codegen/src/p4-codegen.c:409-417 | a jump to the innermost loop's top label, or to slot 0 outside a loop |
| `Visitor.CodeGenData.PreConditional` | p4-codegen/src/p4-codegen.c:464-471 | two fresh labels go into the next slot of the if tables |
| `Visitor.CodeGenData.PostConditional` | p4-codegen/src/p4-codegen.c:479-502 | emits `IfCode` with the innermost slot's labels, taking a merge label only when there is an else block |
| `Visitor.CodeGenData.VarBase` | p4-codegen/src/p4-codegen.c:72-89 | emits `BaseLoad` and returns `BaseOf` |
| `Visitor.CodeGenData.GenLiteral` | p4-codegen/src/p4-codegen.c:232-238 | `loadI` of the value into a fresh register |
| `Visitor.CodeGenData.GenBinary` | p4-codegen/src/p4-codegen.c:246-316 | emits `BinaryCode` into fresh registers |
| `Visitor.CodeGenData.GenUnary` | p4-codegen/src/p4-codegen.c:324-342 | emits `UnaryCode` into a fresh register |
| `Visitor.CodeGenData.GenLocation` | p4-codegen/src/p4-codegen.c:567-598 | an assignment target emits nothing; any other location emits `LocationCode` |
| `Visitor.CodeGenData.GenAssign` | p4-codegen/src/p4-codegen.c:425-456 | emits `AssignCode` |
| `Visitor.CodeGenData.GenReturn` | p4-codegen/src/p4-codegen.c:203-224 | emits `ReturnCode` and takes a register only for the reload |
| `Visitor.CodeGenData.CopyArgs` | p4-codegen/src/p4-codegen.c:533-536 | the loop copies every argument's code, in order |
| `Visitor.CodeGenData.PushArgs` | p4-codegen/src/p4-codegen.c:539-547 | the reverse loop appends `Pushes` |
| `Visitor.CodeGenData.GenFuncCall` | p4-codegen/src/p4-codegen.c:510-559 | print calls emit `PrintCode` without the argument code; other calls emit the copied code, the pushes and `CallCode` |
| `Visitor.CodeGenData.GenVarDecl` | p4-codegen/src/p4-codegen.c:606-623 | an array declaration takes a register for its base and emits nothing that is kept |
| `Visitor.CodeGenData.VisitExpr` | p4-codegen/src/p4-codegen.c:232-342 | the traversal's code, temporary and register counter equal `ExprGen` |
| `Visitor.CodeGenData.VisitStmt` | p4-codegen/src/p4-codegen.c:188-502 | the traversal's code and counters equal `StmtGen`, and the label tables are restored |
| `Visitor.CodeGenData.VisitWhile` | p4-codegen/src/p4-codegen.c:350-383 | the loop's traversal equals `StmtGen` and restores the loop tables |
| `Visitor.CodeGenData.VisitConditional` | p4-codegen/src/p4-codegen.c:464-502 | the conditional's traversal equals `StmtGen` and restores the if tables |
| `Visitor.CodeGenData.VisitBlock` | p4-codegen/src/p4-codegen.c:188-195 | the block's traversal equals `BlockGen` |
| `Visitor.CodeGenData.VisitFunc` | p4-codegen/src/p4-codegen.c:149-180 | the function's traversal equals `FuncGen` |
| `Visitor.CodeGenData.VisitProgram` | p4-codegen/src/p4-codegen.c:127-141 | the program's traversal equals `ProgramGen` |
| `Visitor.GenerateCode` | p4-codegen/src/p4-codegen.c:627-677 | the visitor's result equals `Generate`, so `GenerateOk` applies to it |
| `Visitor.CopyOut` | p4-codegen/src/p4-codegen.c:673-675 | the program's code is returned unchanged |
| `Analysis.DistinctMatches` | p3-analysis/src/p3-analysis.c:194-199 | a table without repeats reports a name once if it holds it, and never otherwise |
| `Analysis.ReservedOnce` | p3-analysis/src/p3-analysis.c:181 | a reserved name gets exactly one error, and any other name gets none |
| `Analysis.DeclErrorsExact` | p3-analysis/src/p3-analysis.c:183-202 | a declaration reports void, zero length and reserved name each exactly when its condition holds, and nothing else |
| `Analysis.AnalysisVisitor.CheckReserved` | p3-analysis/src/p3-analysis.c:193-199 | the loop over the twelve words appends one error per match |
| `Analysis.AnalysisVisitor.PostVarDecl` | p3-analysis/src/p3-analysis.c:183-202 | appends `DeclErrors` |
| `Analysis.AnalysisVisitor.CheckMainExists` | p3-analysis/src/p3-analysis.c:245-251 | reports `main` missing exactly when it is not a global symbol |
| `Analysis.AnalysisVisitor.PreFuncDecl` | p3-analysis/src/p3-analysis.c:204-207 | records the current function's name |
| `Analysis.AnalysisVisitor.PostFuncDecl` | p3-analysis/src/p3-analysis.c:209-212 | clears the current function's name |
| `Analysis.AnalysisVisitor.PostLiteral` | p3-analysis/src/p3-analysis.c:168-178 | reports a void literal |
| `Analysis.AnalysisVisitor.PreLocation` | p3-analysis/src/p3-analysis.c:226-236 | reports an undefined variable |
| `Analysis.AnalysisVisitor.PreFuncCall` | p3-analysis/src/p3-analysis.c:305-312 | reports a function name that does not resolve from the call's scope |
| `Analysis.AnalysisVisitor.PostFuncCall` | p3-analysis/src/p3-analysis.c:314-323 | reports a call whose resolved symbol has type void |
| `Analysis.AnalysisVisitor.PostReturn` | p3-analysis/src/p3-analysis.c:152-166 | a value of known type is checked against the type the current function's name resolves to from the return statement's scope; an unresolved name is reported |
| `Analysis.AnalysisVisitor.PostAssignment` | p3-analysis/src/p3-analysis.c:215-224 | reports differing inferred types of target and value |
| `Analysis.AnalysisVisitor.PostConditional` | p3-analysis/src/p3-analysis.c:296-303 | reports a condition whose inferred type is not `bool` |
| `Analysis.AnalysisVisitor.PreWhile` | p3-analysis/src/p3-analysis.c:260-265 | raises the loop depth by one |
| `Analysis.AnalysisVisitor.ExitWhile` | p3-analysis/src/p3-analysis.c:273-278 | lowers the loop depth by one |
| `Analysis.AnalysisVisitor.PreBreak` | p3-analysis/src/p3-analysis.c:280-286 | reports `break` exactly at loop depth 0 |
| `Analysis.AnalysisVisitor.PreContinue` | p3-analysis/src/p3-analysis.c:288-294 | reports `continue` exactly at loop depth 0 |
| `Analysis.AnalysisVisitor.VisitExpr` | p3-analysis/src/p3-analysis.c:168-178 | the expression walk appends `ExprErrors` |
| `Analysis.AnalysisVisitor.VisitStmt` | p3-analysis/src/p3-analysis.c:215-303 | the statement walk appends the errors and leaves the loop depth of `StmtCheck` |
| `Analysis.AnalysisVisitor.VisitWhile` | p3-analysis/src/p3-analysis.c:260-278 | a loop's walk raises the depth and lowers it again only when the exit hook is registered |
| `Analysis.AnalysisVisitor.VisitProgram` | p3-analysis/src/p3-analysis.c:113-150 | the program walk appends `ProgramErrors` |
| `Analysis.Analyze` | p3-analysis/src/p3-analysis.c:113-150 | no tree gives no list; otherwise the list is `ProgramErrors` with the exit hook unregistered, as written |
| `Analysis.DepthOnlyGrows` | p3-analysis/src/p3-analysis.c:260-265 | as written, a statement's walk leaves the depth raised by the number of while loops it contains |
| `Analysis.DepthRestored` | p3-analysis/src/p3-analysis.c:260-278 | with the exit hook registered, every statement's walk restores the depth |
| `Analysis.OutsideLoopAppend` | p3-analysis/src/p3-analysis.c:280-294 | the number of outside-loop errors of a concatenation is the sum of the counts |
| `Analysis.ExprNoLoopErrors` | p3-analysis/src/p3-analysis.c:168-178 | expressions never report `break`/`continue` errors |
| `Analysis.DeclsNoLoopErrors` | p3-analysis/src/p3-analysis.c:183-202 | declarations never report `break`/`continue` errors |
| `Analysis.StraysExist` | p3-analysis/src/p3-analysis.c:280-294 | a statement has a `break`/`continue` outside every loop exactly when its stray count is positive |
| `Analysis.FixedReportsStrays` | p3-analysis/src/p3-analysis.c:260-294 | with the exit hook registered, starting outside any loop, the walk reports exactly one error per stray `break`/`continue`, and none inside a loop |
| `Analysis.BlockReportsStrays` | p3-analysis/src/p3-analysis.c:260-294 | the same for a block |
| `Analysis.AsWrittenMissesBreak` | p3-analysis/src/p3-analysis.c:260-278 | as written, a `break` after a completed loop is not reported; with the exit hook it is |

## Left out

- The lexer, the parser, the symbol-table builder, the ILOC and error-list libraries and the visitor's dispatch code are not part of this model. The syntax tree arrives with its symbol annotations already attached: `lookup_symbol` from a variable reference or a call is its resolved symbol, and from a return statement it is a lookup in the symbols visible there.
- Reading source text, printing ILOC, error-message text and source line numbers are not modelled. Errors are constructor values.
- Memory management is left out: `calloc`, `free`, the `read_regs` copies, and the attribute destructors.
- The opcode table behind `ILOCInsn_get_read_registers` and `ILOCInsn_get_write_register` is not part of this model. `Iloc.ReadCount` and `Iloc.WriteSlot` state it per opcode, following ILOC's operand conventions.
- `RegAlloc.AllocateRegisters`: the code passes a `NULL` `local_allocator` to `insert_spill`, which then dereferences it. The model takes the position of the frame-allocating `addI SP` instruction as an input, which is what that parameter evidently stands for.
- `RegAlloc.AllocateRegisters`: the `name` and `offset` tables are sized by parameters standing for `MAX_PHYSICAL_REGS` and `MAX_VIRTUAL_REGS`. The initial contents of `name` beyond the first `k` entries are an input, because `reset_mappings` leaves them unchanged.
- `RegAlloc.AllocateRegisters`: the model does not prove the rewritten program computes the values of the original. Liveness across backward jumps is not considered, as in the code. Spill stores and reloads are placed after the current instruction, as in the code, so a reload comes after the instruction that reads it.
- The empty operand, whose id is -1 in the code, is the `Empty` operand. Anonymous labels are numbered by a counter that starts at an input value, and so are virtual registers.
- Overflow of the code generator's 100-slot label tables is excluded by a precondition (`Ast.Fits`): the code writes out of bounds there. A loop or conditional nested 99 deep is out of scope.
- `Generation.GenerateFresh`: a function's label is its name, so two functions with the same name define the same label twice. The symbol-table pass, which is not part of this model, rejects duplicate names; the lemma states label uniqueness across functions under the condition that the names differ.
- The register counter starts at zero or above (`Generation.Generate`, `Visitor.GenerateCode`): the code reads register -1 as "no register".
- `Generation.GenerateOk`: the label tables start zero-filled, so a `break`/`continue` outside any loop jumps to the operand in slot 0, which is an input (`zero`). That target is allowed without a matching label.
- `CodeGen.Lits`: a call argument that is not a literal has its `literal.integer` union member read by the code. The model reads it as 0, because the union's other contents are not modelled.
- `Analysis.InferredType`: an expression without a `type` attribute reads as `UNKNOWN`, taken to be the value an absent attribute casts to.
- `Analysis.Analyze`: `analyze` returns without a value for a missing tree. The model returns no list.
- The argument-count check in `postvisit_funcCall` is empty in the code and is not modelled.

## Findings

| source | as written | input that shows it | evidently intended | confidence | as-written member | corrected member |
|---|---|---|---|---|---|---|
| p5-regalloc/src/p5-regalloc.c:197-204 | `if (i->op == CALL)` compares the operand array `op` with the opcode constant, so the test never holds and no register is spilled before a call | a function whose body calls `f` while physical register 0 holds a value: the list is left without a store after the call and register 0 still holds its value | the test is on the instruction's opcode, so every live register among the first `k` is spilled after the call instruction | not executed | `RegAlloc.CallAsWritten` | `RegAlloc.CallSpilled` |
| p3-analysis/src/p3-analysis.c:135-138,273-278 | `exit_whileloop` is defined but never registered as the while loop's postvisit hook, so the loop depth only grows | `while (true) { } break;` inside a function: the `break` follows a finished loop, at depth 1, and is not reported | the depth is lowered after each loop, so every `break`/`continue` outside all loops is reported exactly once | not executed | `Analysis.AsWrittenMissesBreak` | `Analysis.FixedReportsStrays` |

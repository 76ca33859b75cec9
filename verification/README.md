# Harbour expression compiler, spin lock and byte codecs: a verified model

This project models, in Dafny, three parts of the Harbour repository and proves properties of them.

**The expression compiler.** Expressions of the xBase language are compiled to pcode, the byte code of a
stack machine.

- `Bytes`, `Codecs`: fixed-width integers in byte buffers.
- `Runtime`: values, variables, arrays, references, work areas and the trace of calls and messages.
  Operators, called functions, message sends and alias look-up are function values in a `Sem`; the
  theorems hold for every choice of them that meets the laws they name. `Arithmetic` is the machine's own addition and subtraction.
- `Pcode`: instructions, their byte encoding, and a machine that runs bytes.
- `Asm`: the structures that patched jumps make, their meaning, and the proof that the bytes do it.
- `Expr`: expressions and their evaluator: value, effect, argument, place and assignment. `Forms` has its
  equations one by one.
- `Compile`: the code generator as a function. `Correct`: it is correct.
- `CodeBuffer`, `Emitter`, `Generator`: the code generator as it runs, with a growing buffer, pending
  jumps patched in place and an opcode overwritten after the fact, proved to emit what `Compile` says.
  `Operands`: every operand is in range, so that what the buffer holds runs as the evaluator says.
- `Effects`, `Encodings`: effect code against value code; the competing encodings of one operation.
- `Storage`, `Updates`, `Chosen`: what variables, elements, references, calls and messages do seen from
  outside; in what order `op=`, `++` and `--` read and write in each mode; and which encodings are chosen.
- `Likeness`, `Mirror`: worlds that differ only in the numbers of their arrays and in arrays nobody refers
  to; every construct preserves that relation, and, read with equal worlds, equality.
- `Garbage`: what effect code leaves out, up to such arrays. `BitFold`: the bit functions and their folding.
- `Reduce`, `NormalForm`, `ReduceLimits`: the tree rewriting pass, what it leaves, and exactly where it
  changes a program. One induction gives both readings: exactly the same outcome, or the same up to the
  literal arrays the pass saves.
- `Machine`: one machine that meets all laws the theorems assume.
- `ExprList`, `GetArgs`, `ArgSets`: lists rewritten while they are walked, the `_GET_` call, and argument
  lists joined on the machine's stack.

The evaluator takes the compiler's mode switches as a parameter, because strict mode and the extended
optimisations are observable: strict mode evaluates the object of `o:x += 1` twice, for example.

**The recursive spin lock** (`SpinLock`): a state machine over the single reads and writes of any number
of threads, sequentially consistent, with non-zero thread ids.

**Doubles as index keys** (`OrdDouble`): binary64 as in section 3.4 of IEEE 754-2008.

Findings where the code does not do what one might expect, each a lemma with its exact condition:

- `expr .AND. .F.` and `expr .OR. .T.` are replaced by the constant, dropping what `expr` does
  (`ReduceLimits.DroppedOperand`).
- `{ x }[ 1 ] := 5` is rewritten to `x := 5` (`ReduceLimits.LiteralTarget`), and a variable taken out of a
  literal array no longer sees what the elements before it did (`ReduceLimits.ChosenVariable`).
- `v := v op e` is rewritten to `v op= e` although `e` may assign `v` (`Encodings.RewriteExactly`).
- Where strings count as arrays, `o:m( 1 )[ 2 ] := 3` is compiled as `o:m[ 2 ] := 3`: the arguments are
  dropped (`Effects.MethodBase`, `Effects.ArgumentsDropped`).
- `o:x++` reads the field once as a statement and twice as a value, except without the extended
  optimisations outside strict mode (`Effects.FieldPostTrace`).
- The statement form of SETGET leaves a value on the stack when the variable is NIL
  (`Effects.SetGetStatement`).
- The lock's counter may be wrapped by exactly 2^32 nested acquires, not by one more: then there is a run
  with two threads inside (`SpinLock.TwoInside`, `SpinLock.ReleaseClears`).
- A NaN with a clear sign bit does not survive the key encoding (`OrdDouble.KeyRoundTrip`), and the
  big-endian pair only round-trips doubles whose sign bit is set, minus zero excepted
  (`OrdDouble.BigEndianRoundTrip`).

## Model

| member | source | states |
|---|---|---|
| Correct.CompilerCorrect | include/hbexprb.c:4822-5426 | PUSH_PCODE code, anywhere in any program and from any stack and world, runs to its end with exactly the evaluator's value on the untouched stack and the evaluator's world, and fails exactly when the evaluation fails |
| Correct.EffectCorrect | include/hbexprb.c:978-1017 | PUSH_POP code runs to its end with the stack as it was and exactly the evaluator's effect, or fails with it |
| Correct.AssignCorrect | include/hbexprb.c:957-977 | POP_PCODE code consumes the value on top and stores it as the assignment says |
| Correct.PushOk | include/hbexprb.c:1073-1102 | by induction over all expression forms: the value, and nothing below it, changes on the stack |
| Correct.EffOk | include/hbexprb.c:1107-1128 | the same for effect code: zero net stack effect |
| Correct.PopOk | include/hbexprb.c:1463-1539 | the same for stores, conditional left-hand sides included |
| Correct.RefOk | include/hbexprb.c:839-896 | code that pushes by reference leaves the place of the operand |
| Correct.ObjectRefOk | include/hbexprb.c:857-864 | the reference of a field or of a method call is that of its assign message and object, the arguments ignored |
| Correct.ArgsOk | include/hbexprb.c:1171-1178 | arguments are left on the stack in source order, values and references alike |
| Correct.TakePushed | src/vm/hvm.c:1714-1755 | a call that pops as many items as were pushed gets them in order |
| Correct.BinOk | include/hbexprb.c:3961-4009 | with the extended optimisations INC and DEC compute what adding or subtracting the literal one on either side would |
| Correct.RightOk | include/hbexprb.c:3260-3271 | the first value decides a short-circuit operator and is the result when the second operand is skipped |
| Correct.AliasedOk | include/hbexprb.c:2389-2408 | the value of `alias->( list )` is computed in the selected area and the saved one is selected again |
| Correct.FieldOpAssignOk | include/hbexprb.c:4738-4790 | `o:x op= e` without a reference: receiver and argument of the set message are right, its reply is the result, one item more on the stack; one evaluation of the object, two in strict mode |
| Correct.FieldPostOk | include/hbexprb.c:4742-4787 | `o:x++`: the value read is left on the stack, the stepped one is assigned to the same object |
| Correct.SwapTwo | include/hbexprb.c:4758-4763 | SWAP 2 puts the copy of the old value below the message and the object |
| Correct.PopFieldOk | include/hbexprb.c:2727-2742 | the two SWAP 1 bring the value above message and object, and the reply is dropped |
| Correct.OpAssignOk | include/hbexprb.c:4852-4969 | whichever encoding of `op=` is chosen, it computes the update of the left-hand side |
| Correct.PostOk | include/hbexprb.c:5225-5331 | whichever encoding of `l++` is chosen, the value before the step is the result |
| Correct.PreOk | include/hbexprb.c:5123-5221 | whichever encoding of `++l` is chosen, the value after the step is the result |
| Correct.SubscriptOk | include/hbexprb.c:1487-1538 | the array of a written element is pushed as a reference or a value, before its index |
| Correct.UnitLaw | include/hbexprb.c:4062-4084 | the operand that is dropped is the literal one, and the step has its sign |
| Asm.Runs | include/hbpcode.h:90-98 | the bytes of nested conditionals do what the structure says at every position: emitted code is position independent |
| Asm.ShortCodeFits | src/compiler/hbmain.c:2409-2420 | code of less than eight megabytes has no jump that is too long |
| Asm.JumpsLand | src/compiler/hbmain.c:2409-2425 | every relative jump in emitted code goes forward to the start of an instruction of that code or to its end |
| Asm.BranchMeansIfElse | include/hbexprb.c:994-1013 | overwriting JUMPFALSEFAR by JUMPTRUEFAR when the true branch left no bytes keeps the meaning |
| Pcode.DecodeEncode | include/hbpcode.h:63-250 | an encoded instruction is read back wherever it stands: opcodes are distinct and operands survive |
| Pcode.OpOfOpcode | include/hbpcode.h:63-250 | no two modelled instructions share an opcode |
| Pcode.RunCompose | src/vm/hvm.c:1329-1342 | running k and then n steps is running k + n steps |
| CodeBuffer.Buffer.PCode1 | src/compiler/hbpcode.c:601-615 | one byte is appended, nothing emitted before is lost when the buffer grows |
| CodeBuffer.Buffer.PCode2 | src/compiler/hbpcode.c:617-632 | two bytes are appended in order |
| CodeBuffer.Buffer.PCode3 | src/compiler/hbpcode.c:634-650 | three bytes are appended in order |
| CodeBuffer.Buffer.PCode4 | src/compiler/hbpcode.c:652-669 | four bytes are appended in order |
| CodeBuffer.Buffer.PCodeN | src/compiler/hbpcode.c:671-691 | any number of bytes is appended; the buffer grows by whole chunks |
| CodeBuffer.Buffer.GenJump | src/compiler/hbmain.c:2376-2407 | a jump with distance zero is appended; the result is the position of the distance, one past the opcode |
| CodeBuffer.Buffer.JumpThere | src/compiler/hbmain.c:2409-2420 | the three bytes of the distance are replaced and nothing else; a distance over 24 bits writes nothing and is fatal |
| CodeBuffer.Buffer.JumpHere | src/compiler/hbmain.c:2422-2425 | the pending jump goes to the end of what has been emitted |
| CodeBuffer.Buffer.Overwrite | include/hbexprb.c:1001-1004 | one emitted opcode is replaced |
| CodeBuffer.IfElseEmits | include/hbexprb.c:941-955 | two nested pending jumps, patched in the order the handlers patch them, make a conditional |
| CodeBuffer.InvertEmits | include/hbexprb.c:1001-1016 | the inverted jump, patched at the end, makes the one-armed conditional |
| CodeBuffer.OverEmits | include/hbexprb.c:3264-3270 | a pending jump patched after the code it skips makes a one-armed conditional |
| Emitter.Push | include/hbexprb.c:937-956 | the handlers' PUSH_PCODE appends exactly the compiled bytes; a jump that is too long is the only fatal error |
| Emitter.PushIif | include/hbexprb.c:937-956 | emission of iif with two jumps patched in place |
| Emitter.PushShortcut | include/hbexprb.c:3260-3271 | emission of AND and OR with a jump over the second operand |
| Emitter.PushLast | include/hbexprb.c:1084-1101 | the list loop: effects of all but the last expression, value of the last |
| Emitter.PushAll | include/hbexprb.c:1171-1178 | the argument loop |
| Emitter.PushCall | include/hbexprb.c:2112-2170 | calls with the short or long count |
| Emitter.PushMethod | include/hbexprb.c:2695-2716 | method calls with the short or long count |
| Emitter.PushAliased | include/hbexprb.c:2389-2408 | save, select, evaluate, swap and restore |
| Emitter.PushAssign | include/hbexprb.c:2917-2939 | assignment, with the object form for fields |
| Emitter.PushBin | include/hbexprb.c:3961-4009 | binary operators and the unit steps |
| Emitter.PushOpAssign | include/hbexprb.c:4822-4969 | all encodings of `op=` |
| Emitter.PushPre | include/hbexprb.c:5123-5221 | all encodings of `++l` and `--l` |
| Emitter.PushPost | include/hbexprb.c:5225-5331 | all encodings of `l++` and `l--` |
| Emitter.PushFieldPost | include/hbexprb.c:4738-4790 | the stack form for fields, strict and not |
| Emitter.GetForUpdate | include/hbexprb.c:4741-4775 | message, object and old value of a field update |
| Emitter.Target | include/hbexprb.c:4659-4703 | assign message and object |
| Emitter.Ref | include/hbexprb.c:839-896 | pushes by reference |
| Emitter.ObjectRef | include/hbexprb.c:857-864 | pushes a field, or a method call taken for one, by reference |
| Emitter.PushBase | include/hbexprb.c:1416-1458 | arrays pushed by reference when strings count as arrays |
| Emitter.Pop | include/hbexprb.c:1463-1539 | stores |
| Emitter.PopIif | include/hbexprb.c:957-977 | conditional left-hand sides |
| Emitter.Eff | include/hbexprb.c:978-1017 | the handlers' PUSH_POP appends exactly the compiled bytes |
| Emitter.EffIif | include/hbexprb.c:978-1017 | the branch that emitted nothing is detected by the buffer position and the jump inverted |
| Emitter.EffLogical | include/hbexprb.c:3283-3304 | short-circuit operators run for their effect |
| Emitter.EffAll | include/hbexprb.c:1107-1125 | the list loop for effects |
| Emitter.EffCall | include/hbexprb.c:2174-2212 | calls as procedures |
| Emitter.EffAliased | include/hbexprb.c:2414-2432 | aliased lists run for their effect |
| Emitter.EffOpAssign | include/hbexprb.c:4974-5119 | all statement encodings of `op=` |
| Emitter.EffStep | include/hbexprb.c:5336-5426 | all statement encodings of steps |
| Emitter.PushNumber | src/compiler/hbmain.c:3069-3093 | the shortest integer encoding |
| Emitter.PushVar | src/compiler/hbmain.c:2783-2839 | variables by scope, near locals in codeblocks |
| Emitter.PopVar | src/compiler/hbmain.c:2703-2769 | stores to variables by scope |
| Emitter.RefVar | src/compiler/hbmain.c:2841-2890 | references to variables by scope |
| Operands.BufferRuns | src/compiler/hbmain.c:2409-2420 | when no jump was reported too long, the bytes in the buffer push the value, whatever stands around them |
| Operands.BufferActs | src/compiler/hbmain.c:2409-2420 | the same for effect code |
| Operands.PushFits | include/hbexprb.c:4920-4942 | every operand fits its encoding: counts, symbols, positions, literals and increments |
| Operands.EffFits | include/hbexprb.c:5063-5096 | the same for effect code |
| Generator.GenPush | include/hbexpra.c:733-739 | reduces, then emits the value code |
| Generator.GenStatement | include/hbexpra.c:754-769 | for a lone `l = r` the reduced `l := r` is emitted for its effect, for every other statement the reduced statement itself |
| Generator.PushedCodeRuns | include/hbexpra.c:733-739 | end to end: after safe reductions that take no literal array apart, the emitted bytes leave exactly the value of the expression as it was written |
| Generator.PushedCodeRunsLike | include/hbexpra.c:733-739 | end to end with elements taken out of literal arrays: the same up to the saved arrays |
| Generator.StatementCodeRuns | include/hbexpra.c:754-769 | end to end for effects |
| Generator.EqualityAssigns | include/hbexpra.c:759-766 | the code of the statement `x = r` leaves the stack alone and ends in the world of `r` with the value of `r` in `x` and nothing else changed |
| Effects.EffectIsEval | include/hbexprb.c:4013-4027 | if the value can be computed, effect code gives the same variables, heap, area and trace, though it drops operators, element accesses and second reads |
| Effects.DroppingIsEffect | include/hbexprb.c:3457-3470 | effect code and value code followed by POP end in the same machine state |
| Effects.DroppedArray | include/hbexprb.c:633-644 | a dropped literal array is the exception: the heap stays exactly that array smaller |
| Effects.FieldPostTrace | include/hbexprb.c:5225-5253 | `o:msg++` for any object expression has the same trace as a statement if and only if the stack form outside strict mode is used |
| Effects.MethodBase | include/hbexprb.c:1429-1433 | an element of a method call is found for writing as it is written if and only if strings do not count as arrays, or there are no arguments and the message is the access message of its assign message |
| Effects.ArgumentsDropped | include/hbexprb.c:1510-1514 | with strings as arrays the code for storing into `o:m( args )[ i ]` is that for `o:m[ i ]` |
| Garbage.DroppedIsLike | include/hbexprb.c:633-644 | effect against value for any nesting of literal arrays: the same up to arrays that were never built |
| Garbage.DroppingLosesGarbage | include/hbexprb.c:1541-1551 | the same of effect code and of value code followed by POP |
| Garbage.AlwaysLoose | include/hbexprb.c:5244-5253 | outside strict mode without the extended optimisations these two hold of every expression |
| Garbage.LooseIsSteady | include/hbexprb.c:633-644 | without a literal array in it effect and value agree exactly |
| Mirror.MirrorsItself | include/hbexprb.c:1338-1355 | no expression can tell how arrays are numbered, nor whether there are more that nothing refers to |
| Effects.AreaRestored | include/hbexprb.c:2389-2432 | `alias->( list )` ends in the area it started in, with +1 or 0 items, for any body and nesting |
| Effects.AliasSelects | src/vm/hvm.c:5717-5780 | value and effect of `alias->( body )` are those of the body in the area the alias stands for, symbols, names, numbers, doubles and all other values; an unknown alias fails |
| Effects.FieldOfArea | src/vm/hvm.c:5737-5742 | `s->( FIELD->x )` is the field of the area with the alias `s` |
| Effects.FieldOfAreaPushed | include/hbexprb.c:2389-2408 | its code pushes that field and changes nothing |
| Effects.SwapRotates | include/hbpcode.h:231 | SWAP n turns the top item below the next n + 1 |
| Effects.SwapNeeds | src/vm/hvm.c:7200-7213 | with fewer than n + 2 items SWAP n fails |
| Effects.SetGetPushesOne | include/hbexprb.c:2595-2626 | the value form of SETGET is balanced |
| Effects.SetGetMeans | include/hbexprb.c:2595-2663 | if the variable is NIL both forms push the target, if not they assign the variable to it; the value form leaves what was assigned |
| Effects.SetGetStatement | include/hbexprb.c:2630-2663 | the statement form is balanced if and only if the variable does not equal NIL |
| Encodings.UpdatesAgree | include/hbexprb.c:4909-4968 | the generic, by-reference and integer-literal encodings of `x op= e` agree in value, stack and store when `e` keeps `x` |
| Encodings.StepsAgree | include/hbexprb.c:5176-5220 | all encodings of `++x`, `x++` and their statement forms do the same |
| Encodings.AmountDecodes | include/hbexprb.c:4920-4942 | the 16-bit operand decodes to the signed amount meant; -32768 subtracted would not |
| Encodings.RewriteKeepsMeaning | include/hbexprb.c:2868-2908 | `v := v op e` and `v op= e` agree for every `e` that does not assign `v`, calls and messages included where they spare it |
| Encodings.RewriteExactly | include/hbexprb.c:2868-2908 | for every operator and variable they agree if and only if the operator gives the same for the value of `v` before `e` and after it |
| Encodings.SumsExactly | include/hbexprb.c:2868-2908 | for sums and differences of 64-bit integers that is: if and only if `e` leaves `v` unchanged |
| Encodings.RewriteCounterexample | include/hbexprb.c:2868-2908 | `x := x + ( x := 5 )` is changed |
| Encodings.EvalKeeps | include/hbexprb.c:2868-2908 | an expression that neither assigns nor references a variable keeps it, in every mode; calls and messages only if they spare it |
| Encodings.ElementSteppedOnce | include/hbexprb.c:5272-5289 | `a[ i++ ]++` finds one element once, and reads and writes that one only |
| Encodings.ElementUpdatedOnce | include/hbexprb.c:4895-4907 | `a[ i ] op= e` finds the element before `e` and reads and writes it after |
| Updates.FieldUpdateOrder | include/hbexprb.c:4856-4876 | `o:x op= e`: outside strict mode with the extended optimisations the object, `e`, the access message, the assign message with the result; otherwise the access message before `e`, and in strict mode the object twice |
| Updates.FieldUpdateTrace | include/hbexprb.c:5008-5029 | for quiet messages the access message stands after a call in `e` if and only if the reference form is used |
| Updates.FieldPreOrder | include/hbexprb.c:5125-5143 | `++o:x`: which messages are sent to what, in every mode |
| Updates.FieldPostOrder | include/hbexprb.c:5227-5253 | `o:x++`: the value is the first one read; the field is read again through the reference, and all is done again in strict mode without it |
| Updates.VariableUpdateOrder | include/hbexprb.c:4909-4968 | `x op= e` reads `x` after `e` exactly for variables neither field nor undeclared outside strict mode |
| Updates.UpdateSeesAssignment | include/hbexprb.c:4909-4968 | `x += ( x := 5 )` with x = 1 gives 10, in strict mode 6 |
| Updates.ElementUpdateStrict | include/hbexprb.c:4961-4968 | in strict mode array and index are evaluated twice and the old value is read before `e` |
| Updates.ArrayReadWhen | include/hbexprb.c:1487-1538 | the array of a written element is read after its index where strings count as arrays, and before it otherwise |
| Updates.NestedArrayWhen | include/hbexprb.c:1487-1538 | the same when the array is itself an element or a field |
| Storage.WriteThenRead | src/vm/hvm.c:7130-7160 | what is assigned to a name is read back if and only if no field hides it, and no other name changes |
| Storage.ReferenceIsVariable | src/compiler/hbmain.c:2841-2892 | a reference to a variable reads and writes the cell that assignments to its name write |
| Storage.ElementsOf | src/vm/hvm.c:5104-5180 | an array has the elements 1 to its length, and an index with a fraction stands for its whole part |
| Storage.StoreElement | src/vm/hvm.c:5278-5372 | a stored element is read back, every other element is as it was |
| Storage.ArrayBuilt | src/vm/hvm.c:5375-5405 | a literal array is a new one with the values of its elements in order |
| Storage.CallIsMade | src/vm/hvm.c:5886-5972 | a call is made once, with what its arguments leave |
| Storage.MessageIsSent | src/vm/hvm.c:5974-6010 | to whom, with what and when messages are sent by fields, methods and assignments to fields |
| Storage.ConditionDecides | src/vm/hvm.c:7219-7237 | only a logical value decides, any other condition is an error |
| Chosen.ShortestNumber | src/compiler/hbmain.c:3069-3093 | of all instructions that push the number, the chosen one is shortest |
| Chosen.ShortestCount | include/hbexprb.c:2155-2173 | counts up to 255 take one byte |
| Chosen.NearLocals | src/compiler/hbmain.c:2797-2808 | locals take one byte exactly in a codeblock and within its range |
| Chosen.UnitsAreSteps | include/hbexprb.c:3961-4009 | with the extended optimisations one added or subtracted on either side is INC or DEC |
| Chosen.LiteralsAreAdded | include/hbexprb.c:4920-4948 | the instruction for literals is used exactly for 16-bit amounts that can be negated if they have to be |
| Chosen.LocalsAreStepped | include/hbexprb.c:5176-5196 | locals are stepped by one instruction, whether the value is wanted or not |
| Chosen.OthersByReference | include/hbexprb.c:5197-5206 | all other variables that can be referenced are stepped and updated through a reference |
| Arithmetic.MachineIsLawful | src/vm/hvm.c:2994-3050 | the machine's addition, subtraction and steps meet the laws behind INC, DEC and LOCALADDINT |
| Arithmetic.OverflowDetected | src/vm/hvm.c:3187-3213 | the overflow test catches exactly the sums and differences outside 64 bits, which become doubles |
| Arithmetic.NumbersAreExact | src/vm/hvm.c:3187-3220 | sums and differences of numbers are exact, and integers exactly if operands and result are |
| Arithmetic.DatesAndDays | src/vm/hvm.c:3247-3370 | days added to a date can be taken off again, and dates differ by days |
| Reduce.ReductionRefines | include/hbexprb.c:1037-1056 | bottom-up reduction preserves value, effect, argument and trace of whatever can be evaluated, under the side conditions of `Safe`; with elements taken out of literal arrays, up to those arrays |
| Reduce.ReductionExact | include/hbexprb.c:1037-1056 | where no literal array is taken apart, it preserves them exactly |
| Reduce.PickMirrors | include/hbexprb.c:1319-1355 | an element whose companions change nothing may stand for the access |
| Reduce.ChosenElement | include/hbexprb.c:1319-1355 | the chosen element has the value and effect of the access when the discarded elements have none; only the array itself is missing |
| Reduce.MakeCallOk | include/hbexprb.c:1820-1870 | a folded call of a bit function has the value of the call and no effect |
| Reduce.RefRefines | include/hbexprb.c:817-829 | `@` is distributed over the branches of an iif, nested ones included |
| Reduce.NotOk | include/hbexprb.c:3412-3434 | NOT of a constant and double NOT |
| Reduce.AndOk | src/common/expropt2.c:1736-1802 | constants in AND |
| Reduce.OrOk | src/common/expropt2.c:1804-1870 | constants in OR |
| Reduce.PickOk | src/common/expropt2.c:1872-1924 | a constant condition picks the branch |
| Reduce.StripOk | src/common/expropt2.c:1957-1976 | parentheses around a simple expression do not matter |
| Reduce.MakeAssignOk | include/hbexprb.c:2868-2908 | the assignment rewriting, for fields and undeclared names without a condition |
| Reduce.LeftRefines | include/hbexprb.c:2858-2866 | reduced left-hand sides denote the same places |
| NormalForm.ReducedIsNormal | include/hbexprb.c:1037-1056 | in a reduced tree no rule is left to apply: no deciding constant, double negation, indexed literal array, foldable call, `v := v op e` or needless parentheses |
| NormalForm.SettledStays | include/hbexprb.c:1037-1056 | a tree to which no rule applies is its own reduction and meets all side conditions of the pass |
| NormalForm.NegationsFire | include/hbexprb.c:3412-3434 | the tree that negation rules make |
| NormalForm.ParenthesesFire | src/common/expropt2.c:1957-1976 | parentheses go outside strict mode, except around operators |
| NormalForm.AndFires | src/common/expropt2.c:1736-1802 | the trees of AND with a constant on either side |
| NormalForm.OrFires | src/common/expropt2.c:1804-1870 | the trees of OR with a constant on either side |
| NormalForm.ChoicesFire | include/hbexprb.c:817-829 | the branch a constant picks, and the references put into the branches |
| NormalForm.AssignmentsFire | include/hbexprb.c:2868-2908 | `v := v op e` becomes `v op= e` outside strict mode and stays in it |
| NormalForm.UndeclaredArrayFires | include/hbexprb.c:1284-1305 | an undeclared array name becomes a memvar, in parentheses it does not |
| NormalForm.ElementFires | include/hbexprb.c:1338-1355 | an indexed literal array becomes the reduced element |
| ReduceLimits.DroppedOperand | src/common/expropt2.c:1777-1800 | dropping the first operand is right if and only if it leaves the world unchanged |
| ReduceLimits.UndeclaredArray | include/hbexprb.c:1284-1305 | reading an undeclared array as a memvar is right if and only if no field of another value hides it |
| ReduceLimits.ChosenVariable | include/hbexprb.c:1338-1355 | a variable taken out of a literal array keeps its value if and only if the elements before it leave it as it was |
| ReduceLimits.ElementNeedsTheOthers | include/hbexprb.c:1338-1355 | `{ x := 5, x }[ 2 ]` is changed |
| ReduceLimits.LiteralTarget | include/hbexprb.c:1338-1355 | when a variable is taken out of a literal array as a left-hand side, the variables are kept if and only if it already holds the value |
| ReduceLimits.LiteralTargetExample | include/hbexprb.c:1338-1355 | `{ x }[ 1 ] := 5` sets x |
| ReduceLimits.TargetInParentheses | include/hbexprb.c:2858-2866 | a target in parentheses is reduced to what it is without them |
| ExprList.ReduceList | include/hbexprb.c:5480-5497 | the list keeps length and order, the k-th element is the reduction of the k-th, no link is lost |
| ExprList.ReplaceNode | include/hbexprb.c:5489-5495 | a node replaced by another is linked between the same neighbours |
| ExprList.ContentsReduced | include/hbexprb.c:5480-5497 | pointwise reduction is the reduction of the list |
| BitFold.BitwiseBits | src/rtl/hbbit.c:69-124 | every bit of the result is the operation on the bits of the operands, two's complement and sign included |
| BitFold.BitOfQuotient | src/rtl/hbbit.c:69-124 | bit k is the parity of the number shifted right by k |
| BitFold.CombinedGives | src/rtl/hbbit.c:69-124 | combining the arguments from the left gives, bit by bit, the conjunction, disjunction or parity over all of them |
| BitFold.FoldBits | include/hbexprb.c:1834-1872 | the accumulating loop folds exactly when `Folded` says, and to its value |
| BitFold.FoldsExactly | include/hbexprb.c:1827-1872 | the fold happens if and only if there are two or more arguments and all are numbers |
| BitFold.FoldedBits | include/hbexprb.c:1834-1872 | every bit of the constant is the conjunction, disjunction or parity of that bit over all arguments |
| BitFold.CallGivesFold | include/hbexprb.c:1834-1872 | a number with those bits is that constant: bits determine 64-bit numbers |
| BitFold.FoldExamples | include/hbexprb.c:1834-1872 | `hb_bitAnd( 12, 10 )`, `hb_bitOr( 12, 10 )` and `hb_bitXor( 12, 10 )` are 8, 14 and 6 |
| BitFold.FoldIsCall | src/rtl/hbbit.c:69-124 | the literal evaluates to what the call evaluates to, as value, argument and effect |
| GetArgs.CollectIndexes | include/hbexpra.c:281-293 | the indexes are collected in source order |
| GetArgs.SpineKeepsElement | include/hbexpra.c:281-293 | indexing the base by them reaches the same element |
| GetArgs.CutText | include/hbexpra.c:340-363 | the text is cut at its first bracket after the first position |
| GetArgs.RewriteGet | include/hbexpra.c:265-363 | the sixth argument is the index array, arguments 2 to 5 are kept or NIL, those from 7 on are kept |
| ArgSets.ParamListCheck | src/common/expropt1.c:1356-1412 | the operand counts the sets the code leaves, or the arguments when all are plain |
| ArgSets.PushArgs | include/hbexprb.c:1218-1250 | the stack holds counted groups, and unwinding it from the top by its counts recovers all arguments in source order |
| ArgSets.ArgsJoin | src/vm/hvm.c:5563-5589 | read from the top by their counts, the groups are joined in place in order; nothing else moves |
| ArgSets.PushAndJoin | src/vm/hvm.c:5591-5625 | pushed and joined, all arguments arrive in source order above an untouched stack |
| SpinLock.RunKeeps | include/hbatomic.h:482-510 | the invariant of owner, count and thread id holds in every state of every interleaving |
| SpinLock.MutualExclusion | include/hbatomic.h:482-571 | at most one thread is between a successful acquire and the end of its outermost release |
| SpinLock.FieldsTell | include/hbatomic.h:491-510 | `thid == t` implies that t owns the lock, and between operations `count` is the owner's acquires minus releases |
| SpinLock.ClearedByOutermost | include/hbatomic.h:482-489 | the lock word is cleared only when nobody is inside, by the release that matches the outermost acquire |
| SpinLock.AnswerIsOwnership | include/hbatomic.h:491-510 | try returns 1 if and only if the caller owns the lock on return, and never refuses its owner |
| SpinLock.WaiterYields | include/hbatomic.h:545-571 | the countdown stays in 1..63 and a waiter yields after 63 failures |
| SpinLock.AcquireTakes | include/hbatomic.h:545-571 | in every run an acquire that was started has either not returned, or its thread holds the lock once more than before |
| SpinLock.FailedAttempt | include/hbatomic.h:563-568 | a failed attempt is followed by the next, the 63rd by a yield, the yield by 63 more; a failed try returns 0 |
| SpinLock.RoundOfWaiting | include/hbatomic.h:545-571 | while another thread keeps the lock an acquire makes 63 attempts, yields and begins again |
| SpinLock.YieldReached | include/hbatomic.h:563-568 | that state is reached from the initial one |
| SpinLock.OneTooMany | include/hbatomic.h:482-489 | beyond 2^32 nested acquires the next release frees a lock that is still held |
| SpinLock.ReleaseClears | include/hbatomic.h:482-489 | a release goes on to free the lock if and only if the depth is 1 modulo 2^32 |
| SpinLock.HoldingReached | include/hbatomic.h:491-510 | every nesting depth is reached from the initial state |
| SpinLock.ReleaseOfHolding | include/hbatomic.h:482-489 | at every depth that is reached, the release frees the lock if and only if the depth is 1 modulo 2^32 |
| SpinLock.TwoInside | include/hbatomic.h:482-510 | there is a run from the initial state with two threads inside once the bound on nesting is exceeded by one |
| OrdDouble.KeyOrder | include/hbdefs.h:1293-1313 | keys compare byte by byte as the numbers compare, subnormals, infinities and zeros included; equal keys exactly for equal numbers |
| OrdDouble.KeyRoundTrip | include/hbdefs.h:1272-1313 | decoding gives the double back up to the sign of zero, if and only if it is not a NaN with a clear sign |
| OrdDouble.ScaledMonotone | include/hbdefs.h:1293-1313 | representations without sign are ordered as the magnitudes |
| OrdDouble.Dbl2Ord | include/hbdefs.h:1293-1313 | the macro writes the key and normalises negative zero in the caller's variable |
| OrdDouble.Ord2Dbl | include/hbdefs.h:1272-1291 | the macro decodes the key |
| OrdDouble.BigEndianRoundTrip | include/hbdefs.h:1227-1267 | the big-endian pair round-trips exactly the doubles whose sign bit is set, NaNs included and minus zero excepted |
| Codecs.PutLE16 | include/hbdefs.h:1117-1120 | exactly the two bytes at the position change, to the little-endian ones |
| Codecs.PutLE24 | include/hbdefs.h:1334-1338 | the same for three bytes |
| Codecs.PutLE32 | include/hbdefs.h:1121-1126 | the same for four bytes |
| Codecs.PutLE64 | include/hbdefs.h:1127-1136 | the same for eight bytes |
| Codecs.PutBE16 | include/hbdefs.h:1168-1171 | the same, big-endian |
| Codecs.PutBE24 | include/hbdefs.h:1348-1352 | the same, big-endian |
| Codecs.PutBE32 | include/hbdefs.h:1172-1177 | the same, big-endian |
| Codecs.PutBE64 | include/hbdefs.h:1178-1187 | the same, big-endian |
| Codecs.Int24RoundTrip | include/hbdefs.h:1325-1352 | signed 24-bit put-then-get is the identity on the whole range, in both byte orders |
| Codecs.UnsignedCodec | include/hbdefs.h:1099-1187 | unsigned put-then-get is the identity for every width; big-endian put and little-endian get reverse the bytes |
| Bytes.SignedRoundTrip | include/hbdefs.h:1356-1366 | signed operands of every width are read back |

## Left out

- Macros, codeblocks, hashes, strings, dates and doubles as literals, aliased variables, WITH OBJECT, `...`
  outside argument lists, and the functions the compiler inlines or folds, other than hb_bitAnd, hb_bitOr and
  hb_bitXor of integers.
- Folding of arithmetic and comparison constants, and of alias strings, in the REDUCE pass; the check of
  static initializers, which only reports errors.
- Operator overloading by objects, error handlers that substitute a value, and item types other than those
  of `Runtime.Value`: a failing operation ends the run.
- Variables that hold references (parameters passed by reference) and detached locals; a local is a cell.
- The pcode optimiser, dead code elimination and short jumps, which run after the code generator.
- The temporary change of `ExprType`, `reference` and `SubType` in the tree: the handlers are called for the
  changed form instead. `ExprList` has the node links, with whole expressions as node contents.
- `_GET_` lists are sequences, so the relinking of argument nodes is not modelled there.
- Reduce.ReductionRefines: undeclared array names, whose exact condition is `ReduceLimits.UndeclaredArray`;
  parenthesised left-hand sides, which have no meaning of their own here but reduce to the bare ones
  (`ReduceLimits.TargetInParentheses`); and left-hand sides that a constant condition turns into another
  kind, for which the order of evaluation changes.
- Effects.MethodBase: the messages are taken to change nothing but the record of what was sent, and the
  index to be free of effects; otherwise the order of the two matters as well.
- Effects.FieldPostTrace: in strict mode without the extended optimisations the object expression is free of
  effects, because it is evaluated two or three times.
- Effects.DroppedArray: only literal arrays that stand alone; `Garbage.DroppedIsLike` has all of them.
- ArgSets.PushArgs: a run over values, not over emitted bytes; the counts are unbounded, the compiler's are
  16 bits wide.
- The big-endian double pair beyond its round trip, and the path for machines without binary64.
- Inline assembler and compiler variants of the atomics, weak memory, and the plain lock's loop.
- Rounding: doubles are reals in `Arithmetic`; lengths and decimals of numbers are not modelled.
- Warnings, error text, tracing, memory release, and the checks for left-hand sides and references, which
  are the predicates `IsValue`, `IsLvalue` and `IsPlace` here.

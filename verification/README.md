# Seron, verified

Seron is a small language with `char`, `int`, `long`, pointers, arrays, procedures, block scopes,
`if`, `while` and `for`. Its compiler turns text into x86_64 code in five passes. This project models
all five and proves that the code does what the program says.

- **Text to tokens** (`lexemes`, `munch`, `lexer`, `text`, `alphabet`): a class moves through the text
  as the lexer does. Its tokens tile the text, each is the longest that fits, and every way of writing
  a list of tokens with blanks and comments between them is read back as that list. `alphabet` says
  which characters make which token.
- **Tokens to trees** (`tokens`, `grammar`, `printing`, `roundtrip`, `tidying`, `soundness`,
  `parser`, `precedence`, `forms`): a class with one method per rule does what the grammar, a function
  on tokens, says. Printing a tree and parsing it gives it back; whatever is accepted is a tree of the
  right precedence, written with the tokens that were read. `precedence` and `forms` say with the
  operators and tokens themselves what binds tighter and what each construct looks like.
- **Desugaring** (`expand`, `nodes`, `trees`, `desugar`): a traversal rewrites linked nodes in place
  while it visits them. It ends, it leaves no `for` and no index behind, it computes the desugared
  program, and that program means what the program meant.
- **Tables and frames** (`hashtable`, `layout`, `symboltable`, `slots`, `room`, `bare`, `scopes`):
  tables are linked buckets; the pass hands out places in the frame, changes nothing else, and builds
  a tree of tables. No two objects of a frame overlap, the size of a frame and the places in it are
  those that counting gives, and the generator later finds the innermost declaration of every name.
- **Code** (`typing`, `emission`, `codegen`, `fragment`): a class writes instructions; what it writes
  is the code that each construct stands for, and it stops with an error exactly where a tree has no
  type or fails a check. What it accepts is the fragment proved right, apart from a few forms.
- **Machine and meaning** (`memory`, `words`, `machine`, `semantics`): 64-bit registers with partial
  writes, flags, byte memory and labels on one side; an evaluator with explicit memory, side effects
  in the emitted order, and fuel for loops and calls on the other.
- **Correctness** (`operators`, `relation`, `leaves`, `control`, `frames`, `simulation`, `labels`,
  `linking`, `fuel`, `correctness`, `arguments`, `pipeline`, `compiler`, `sample`, `sums`): the machine
  simulates the evaluator. If a call returns in the source, the machine comes back with its result and
  its memory; if it never returns, the machine never stops; and at every step it keeps to the free
  stack and the live objects. In a frame that the layout made, every argument, from a register or from
  the stack, is in its slot when the body begins. `pipeline` states this for programs as they are
  written, `compiler` from the text on, and `sample` follows one text to the number it leaves in the
  machine; `sums` follows a procedure with a loop through all its arguments, and finds when it ends.
- **Exact limits** (`limits`, `indexing`): where the code meets the intent of an operator, as
  conditions that are both sufficient and necessary, and what indexing an array literal reads.

An evaluation that leaves the rules of the language is Undefined: reading a byte never written,
writing outside live objects, running out of stack, falling off the end of a procedure that must
return a value. Everything that is proved about runs is about evaluations that are not Undefined.

The code and what it seems meant to do differ in places; the model follows the code.

- Comparisons set only the lowest byte of the result (`seronc/codegen.c:444-472`), so an `int`
  comparison is 0 or 1 only for left operands below 256. `Limits` has the exact conditions for
  comparisons and for `&&`, which is a bitwise operation (`seronc/codegen.c:489-494`).
- `idiv` divides rdx:rax, but nothing prepares rdx (`seronc/codegen.c:440-442`); `Limits.DivisionExact`
  and `Limits.DivisionRuns` have the exact condition.
- Computing a later argument overwrites the register of an earlier one
  (`seronc/codegen.c:255-268`), and with more than six arguments the last one is called
  (`seronc/codegen.c:260-273`); `Limits` has the exact conditions.
- The kind check of assignments compares the kind of an address with the kind of a value
  (`seronc/codegen.c:681`). As written it rejects the `int` assignments of the program in
  `seronc/test/test.sn:117-118`. The generator is modelled with the check as a parameter: `AsWritten`, or
  `Pointed`, which compares what the address points to. Correctness is proved for every program in
  which pointee and value agree; `Limits.WrittenGuard` says what the written check accepts, and
  `Limits.WrittenGuardWrong` where it is wrong.
- Assignment targets are not visited by the passes before code generation
  (`seronc/parser.c:304-308`). `Expand.NoSugarLeft` is exact about what that leaves behind; the
  layout theorems ask that targets hold no array literals.
- Identifiers that begin with a keyword are that keyword (`seronc/lexer.c:79-103`).
- Positions of tokens do not count comments (`seronc/lexer.c:280-284`).

## Model

| member | source | states |
|---|---|---|
| Words.CompareDecides | seronc/codegen.c:444-472 | For operands of 1, 4 and 8 bytes, the condition codes of `cmp` followed by `setcc` decide exactly the signed order each operator stands for. |
| Words.SignedProduct | seronc/codegen.c:436-438 | The low half of the signed one-operand product is the product of the words modulo their size. |
| Words.BitwiseMeaning | seronc/codegen.c:474-494 | The `and` and `or` of the machine model act bit by bit. |
| Memory.LoadStore | seronc/codegen.c:692-693 | Loading the bytes just stored gives the stored value cut to the operand size. |
| Memory.LoadLow | seronc/codegen.c:374-377 | The low bytes of an eight-byte load are the smaller object at the same address, which is all a dereference of a smaller type relies on. |
| Operators.OperatorCode | seronc/codegen.c:431-495 | With operands of one size in rax and rdi, the instructions of every operator but division leave the operator's value in the low bytes of rax; memory and all registers but rax and rdx are as before. |
| Operators.ScalingCode | seronc/codegen.c:407-425 | Next to a pointer the other operand is multiplied by the size of the pointee, otherwise both are left alone. |
| Operators.BinaryTailCode | seronc/codegen.c:399-499 | The code behind two operands of one size pops the right one, scales, applies the operator and leaves the value of the binary operation in rax; the scaled right operand stays in rdi, and besides these two and rdx every register and the memory are as before. |
| Leaves.LiteralPrinted | seronc/codegen.c:584-590 | A char or int literal survives the 32-bit conversion it is printed with; a long one does when it is below 2^31. |
| Leaves.UnaryTailSim | seronc/codegen.c:357-389 | Code for `!`, `-` and `*` behind the operand yields the operator's value, reading eight bytes for a dereference of which the low ones count. |
| Control.JumpResolves | seronc/codegen.c:605-648 | A jump inside a procedure goes to the one label of that name in the procedure. |
| Control.BranchRuns | seronc/codegen.c:611-613 | `cmp` with zero and a conditional jump branch on whether the low bytes of rax are zero. |
| Simulation.ExprSim | seronc/codegen.c:748-773 | Running an expression's code from a state that agrees with the source state ends behind the code with the value in the low bytes of rax, stack and frame pointers restored and memory changed exactly as the source says; out-of-fuel evaluations keep the machine running. At every step on the way, also of an evaluation that does not end, the stack pointer lies between the end of the stack and where it began, and no byte changes that is neither live nor below it. |
| Simulation.BinarySim | seronc/codegen.c:391-500 | The same for binary operators: right operand first, kept on the stack while the left one is evaluated, and left in rdi, scaled. |
| Simulation.AddrSim | seronc/codegen.c:339-355 | The code of an lvalue's address leaves that address in rax. |
| Simulation.AssignSim | seronc/codegen.c:675-696 | Assignment evaluates the target's address, then the value, and stores as many bytes as the value's kind has; the address is left in rdi. |
| Simulation.ArraySim | seronc/codegen.c:698-715 | An array literal evaluates and stores its elements in order and yields the address of the first one. |
| Simulation.ArgsSim | seronc/codegen.c:251-268 | Arguments go to their registers one after the other, and earlier ones survive later ones that use no operator, assignment or call. |
| Simulation.CallSim | seronc/codegen.c:246-275 | A call evaluates callee before arguments and ends behind the call with the result in rax. |
| Simulation.CallProcSim | seronc/codegen.c:277-319 | From the call instruction through prologue, parameter stores, body and epilogue back to the caller: result, rsp, rbp and every byte outside the free stack are as the source says, for any recursion depth. |
| Simulation.StmtSim | seronc/codegen.c:748-773 | Every statement ends behind its code, or at the procedure's return label with the value in rax if it returned; memory and stack as the source says. |
| Simulation.BlockSim | seronc/codegen.c:328-337 | The statements of a block run one after the other in the names its declarations add. |
| Simulation.IfSim | seronc/codegen.c:605-628 | Conditionals run the branch that the low bytes of the condition select. |
| Simulation.LoopSim | seronc/codegen.c:630-648 | From the condition label, a while loop makes as many rounds as the source loop; a source loop without end never stops the machine. |
| Simulation.ReturnSim | seronc/codegen.c:321-326 | `return` reaches the return label exactly when the source returns, with the value in rax. |
| Simulation.VarDeclSim | seronc/codegen.c:650-673 | A declaration stores its initial value in the variable's slot. |
| Frames.ParamsSim | seronc/codegen.c:293-311 | Any number of parameters: the prologue stores the first six arguments from rdi, rsi, rdx, rcx, r8 and r9 and argument k, for k of 6 and more counted from 0, from the word 8 * (k - 6) above the stack pointer of the call where the source binds them, and changes no other live byte. |
| Frames.FrameKept | seronc/codegen.c:315-317 | When the body is done, the return address and the caller's frame pointer are still above the frame, and seen from the caller only live objects changed. |
| Arguments.BindArrives | seronc/codegen.c:293-311 | Slots that lie one below the other all receive their arguments: afterwards reading any of them gives its own argument, and nothing outside them has changed. |
| Arguments.CallIsBody | seronc/codegen.c:288-311 | With room for the frame, a call of a procedure laid out by the symbol-table pass is its body run on a memory that holds every argument in its parameter's slot; nothing before the body can go wrong. |
| Arguments.ArgumentsArrive | seronc/codegen.c:246-311 | For any number of arguments, in registers and on the stack of the caller: whatever the body does later, the machine goes from the call instruction to the first instruction of the body with every argument in its parameter's slot, return address and frame pointer saved above the frame, the stack pointer at its end, and no byte outside the free stack changed. |
| Arguments.BodyReturns | seronc/codegen.c:246-319 | If the body ends well from the memory with the arguments in their slots, the machine comes back from the call with the result, rsp and rbp restored, and outside the free stack exactly the bytes the source wrote changed. |
| Relation.EndAbove | seronc/codegen.c:393-399 | A temporary pushed before an evaluation is still on top of the stack afterwards, and taking it off restores rsp. |
| Correctness.PushesMissLive | seronc/codegen.c:246-275 | Under the stack discipline a push, or a call's push of the return address, writes between the end of the stack and the stack pointer only, and no live byte changes. |
| Correctness.ExprDisciplined | seronc/codegen.c:391-399 | At every step of an expression's code, however deeply nested, and also if it never ends, the stack pointer is not above where it began and no push touches a live object, frame slots included. |
| Labels.StmtLabels | seronc/codegen.c:605-648 | A statement's code uses local labels with numbers from the counter up to the number of labels it needs, each at most once, and all its jumps go to labels of its own code or to the return label. |
| Linking.JumpsResolve | seronc/codegen.c:605-648 | In a whole program, every jump of a procedure has exactly one target, and it lies in the code of the same procedure. |
| Linking.ProgramNumbered | seronc/codegen.c:605-648 | In the whole emitted program all local labels but the return labels have numbers of one range, counted through all procedures, and no two places define the same label. |
| Linking.ProcWellLabeled | seronc/codegen.c:277-319 | A procedure's code has one procedure label, in front, distinct local labels, and no jump out. |
| Linking.EntryResolved | seronc/codegen.c:534-536 | The name of a procedure resolves to the one place where its code begins. |
| Linking.ProgramLinked | seronc/codegen.c:775-781 | In the emitted program followed by any other procedures, every procedure and every name is where the source semantics expects it. |
| Linking.LinkBounds | seronc/codegen.c:285-286 | Procedure addresses of a program that fits the address space are machine words. |
| Correctness.CallReturns | seronc/codegen.c:246-319 | If a source call returns, the machine comes back behind the call with the result in rax, rsp and rbp restored, and outside the free stack exactly the bytes the source wrote changed; on the way rsp is never above where it was and only the free stack and live objects change. |
| Correctness.CallDiverges | seronc/codegen.c:246-319 | If a source call runs out of every fuel, the machine never stops, and after any number of steps rsp is not above where it was and only the free stack and live objects have changed. |
| Correctness.StopsIffReturns | seronc/codegen.c:246-319 | With nothing behind the call, the machine stops if and only if the source call returns. |
| HashTables.ComputeHash | seronc/hashtable.c:21-29 | The loop over the key sums its characters weighted by position, reduced to the number of buckets. |
| HashTables.HashConcat | seronc/hashtable.c:21-29 | The sum of a longer key: the characters of its second part weigh as much more as the first part is long. |
| HashTables.HashSingle | seronc/hashtable.c:21-29 | A single character weighs nothing. |
| HashTables.Hashtable.constructor | seronc/hashtable.c:43-55 | A new table is empty and has the given parent. |
| HashTables.Hashtable.Insert | seronc/hashtable.c:57-82 | Walking a bucket and linking a new entry at its end adds the key to the table as a map, changes no other key, and leaves the table as it is, reporting so, when the key was there. |
| HashTables.Hashtable.Get | seronc/hashtable.c:84-103 | Walking a bucket finds the symbol the table as a map has for the key, or nothing. |
| HashTables.SoundMore | seronc/hashtable.c:57-82 | Appending an entry with a new key to its bucket keeps every key in its hash bucket once and the buckets in agreement with the map. |
| SymbolTables.Symboltable.constructor | seronc/symboltable.c:4-9 | A new pass has no tables and an empty frame. |
| SymbolTables.Symboltable.Lookup | seronc/symboltable.c:11-22 | The loop through the parent tables finds what the chain of maps says. |
| SymbolTables.Symboltable.Push | seronc/symboltable.c:25-33 | A new empty table hangs below the open one and becomes the open one; the other tables are unchanged. |
| SymbolTables.Symboltable.Pop | seronc/symboltable.c:35-37 | The parent of the open table becomes the open one again. |
| SymbolTables.Symboltable.Define | seronc/symboltable.c:80-98 | A symbol enters one table unless the name is there, and every other table keeps its contents. |
| SymbolTables.Symboltable.LayoutStmt | seronc/symboltable.c:80-98 | The pass over a statement leaves the state and the annotated tree that the layout assigns, with the same table open as before. |
| SymbolTables.Symboltable.LayoutBlock | seronc/symboltable.c:41-50 | The pass over a block opens a table and closes it again, whatever the block holds. |
| SymbolTables.Symboltable.LayoutExpr | seronc/symboltable.c:69-78 | The pass over an expression hands out the places of its array literals as the layout does. |
| SymbolTables.Symboltable.LayoutParams | seronc/symboltable.c:126-142 | Parameters get their slots and symbols one after the other. |
| SymbolTables.Symboltable.LayoutProc | seronc/symboltable.c:100-146 | A procedure is entered before its body, its frame starts empty, and its parameters come last, in the table of its body. |
| SymbolTables.Build | seronc/symboltable.c:160-174 | The whole pass yields the tree and the tables of the layout. |
| Slots.ExprStacked | seronc/symboltable.c:69-78 | The slots of an expression, its arrays addressed as the code generator addresses them, lie one below the other in the bytes handed out for it. |
| Slots.ArrayStacked | seronc/codegen.c:698-711 | Elements addressed with their raw size fit the room made with padded sizes. |
| Slots.ProcStacked | seronc/symboltable.c:117-146 | In every procedure, however nested, all variables, array elements and parameters are disjoint and inside the frame. |
| Slots.SlotsIndependent | seronc/codegen.c:288-311 | Writing one object of a frame never changes another one and never leaves the frame. |
| Room.Padding | seronc/types.c:19-23 | Padding goes up to the next multiple of 16 and always adds something. |
| Room.StmtsRoom | seronc/symboltable.c:68-98 | Each variable of a statement list lies in the next 16 bytes behind everything in front of it, and a list takes 16 bytes for every variable, every array element and every array literal in it. |
| Room.FrameSize | seronc/symboltable.c:117-146 | A frame has 16 bytes for each variable, each array element and each array literal of the body, and then the plain sizes of the parameters, one behind the other. |
| Bare.LayoutFills | seronc/symboltable.c:41-146 | The pass fills in places, tables and frame sizes and leaves everything else of the program as it was. |
| Scopes.FindIsEnvAt | seronc/symboltable.c:11-22 | Looking up a name from a table outwards finds what the merged environment of the chain says. |
| Scopes.StmtsBuild | seronc/symboltable.c:41-50 | The pass over statements adds exactly their declarations to the open table, touches no other old table, and leaves a proper tree of tables for the blocks inside. |
| Scopes.ScopesAgree | seronc/codegen.c:328-337 | At every block the table the generator follows gives the procedures, hidden by the parameters, hidden by the declarations of the enclosing blocks, each visible in the whole of its block. |
| Scopes.ProcBuilds | seronc/symboltable.c:100-146 | A procedure's body table holds its variables, and the parameters that no variable hides. |
| Codegen.Codegen.EmitIdent | seronc/codegen.c:502-538 | A name is looked up in the current table; unknown names are errors; otherwise the text grows by exactly the code of the name or its address. |
| Codegen.Codegen.Emit | seronc/codegen.c:748-773 | Emitting an expression fails exactly where it has no type, has sugar left or fails a kind check, returns its type, and appends exactly its code. |
| Codegen.Codegen.EmitAddr | seronc/codegen.c:719-746 | The same for addresses of lvalues; other nodes are errors. |
| Codegen.Codegen.EmitBinary | seronc/codegen.c:391-500 | Operand kinds must match unless one is a pointer; the text grows by right operand, push, left operand and the operator's code. |
| Codegen.Codegen.EmitUnary | seronc/codegen.c:357-389 | Unary operators append their operand's code and their own. |
| Codegen.Codegen.EmitCall | seronc/codegen.c:246-275 | Calls append callee, push, arguments and the call, and have the signature's return type. |
| Codegen.Codegen.EmitArgs | seronc/codegen.c:255-268 | The loop over the arguments appends evaluation and register move or push for each of them. |
| Codegen.Codegen.EmitAssign | seronc/codegen.c:675-696 | Assignment is an error exactly if the kind check in use rejects target and value; otherwise its code is appended. |
| Codegen.Codegen.EmitArray | seronc/codegen.c:698-715 | The loop over the elements appends their evaluations and stores from the far end of the array on. |
| Codegen.Codegen.EmitStmt | seronc/codegen.c:748-773 | Emitting a statement fails exactly where the tree is not accepted, appends exactly its code, counts its labels and comes back to the same scope. |
| Codegen.Codegen.EmitIf | seronc/codegen.c:605-628 | Conditionals take one label number before anything else is emitted. |
| Codegen.Codegen.EmitWhile | seronc/codegen.c:630-648 | So do loops, whose condition follows the body. |
| Codegen.Codegen.EmitBlock | seronc/codegen.c:328-337 | A block is emitted in its own table, and the previous one is current again afterwards, also after an error. |
| Codegen.Codegen.EmitParams | seronc/codegen.c:290-311 | The loop over the parameters appends stores from registers for the first six and copies from the caller's stack for the rest. |
| Codegen.Codegen.EmitProc | seronc/codegen.c:277-319 | A procedure appends prologue, parameter stores, body and epilogue. |
| Codegen.Compile | seronc/codegen.c:775-781 | Layout and generation of a whole program yield exactly the program's code, or an error exactly if some procedure is not accepted. |
| Codegen.CallAccepted | seronc/codegen.c:246-275 | A call is accepted if and only if the callee is an accepted procedure value and every argument is accepted and has a sized parameter. |
| Codegen.AssignAccepted | seronc/codegen.c:675-696 | An assignment is accepted if and only if target and value are, the kind check passes and the value has a size. |
| Codegen.SupportedProgram | seronc/codegen.c:748-773 | Programs of the proved fragment get through the generator when it compares what an assignment needs. |
| Codegen.AcceptedIsSupported | seronc/codegen.c:604-670 | A statement made of expressions of the fragment is in the fragment if and only if the generator accepts it: its checks of conditions and declarations are exactly the missing ones. |
| Fragment.FragmentExact | seronc/codegen.c:357-700 | An expression is in the proved fragment if and only if the generator accepts it and no part of it is a division, a string, a long literal of 2^31 or more, an operator on different sizes, `!` on anything but char, minus on a char, or a call whose arguments do not fit or disturb each other. |
| Expand.NoSugarLeft | seronc/expand.c:64-92 | Expansion leaves no sugar in an expression if and only if no assignment target has any. |
| Expand.NoSugarInStmt | seronc/expand.c:22-92 | The same for statements, for loops included. |
| Nodes.RewrittenWeight | seronc/expand.c:22-82 | The callbacks do not add weight to the node they rewrite, so the traversal ends although it visits what they leave. |
| Nodes.IndexPre | seronc/expand.c:64-82 | An index node becomes a dereference of a sum in place, on unshared nodes. |
| Nodes.ForPre | seronc/expand.c:22-57 | A for node becomes a block in place, its children move below new nodes, and the update is appended to the statement list of the body. |
| Nodes.Traverse | seronc/parser.c:268-412 | Visiting the children a node has after the callback, in place and without the targets of assignments, turns the linked nodes into the expanded tree. |
| Nodes.VisitKids | seronc/parser.c:268-412 | The loop visits every child the callback left behind, those it appended included. |
| Trees.StmtExpanded | seronc/expand.c:22-92 | The in-place traversal of a statement's nodes computes the desugared statement. |
| Trees.ExprExpanded | seronc/expand.c:64-92 | The in-place traversal of an expression's nodes computes the desugared expression. |
| Trees.ExpandAst | seronc/expand.c:84-92 | After the pass the nodes of a program form the desugared program. |
| Desugar.ExprMeans | seronc/expand.c:64-82 | A desugared expression means what the expression meant, side effects and termination included. |
| Desugar.StmtMeans | seronc/expand.c:22-57 | So does a desugared statement, provided no loop body declares in its own block a name that the update uses. |
| Desugar.RoundsMean | seronc/expand.c:22-57 | The while loop a for loop becomes makes the same rounds: normal, returning and endless. |
| Desugar.ProcMeans | seronc/expand.c:84-92 | A call in the desugared program means what it meant in the program. |
| Desugar.NamesShadowed | seronc/expand.c:52-55 | The declarations of a body change what the update refers to if and only if it uses one of their names. |
| Desugar.HiddenUpdate | seronc/expand.c:52-55 | A concrete loop whose body hides the loop variable ends after one round as written and never once expanded. |
| Limits.ComparisonExact | seronc/codegen.c:444-472 | A comparison is 0 or 1 as meant if and only if the left operand is below 256. |
| Limits.ComparisonAsCondition | seronc/codegen.c:444-472 | As a condition it holds if and only if it should or the left operand is at least 256. |
| Limits.LogicalOrExact | seronc/codegen.c:482-487 | Logical or is 0 or 1 as meant if and only if both operands are below 256; as a condition it is always right. |
| Limits.LogicalAndExact | seronc/codegen.c:489-494 | `&&` is 0 or 1 as meant if and only if an operand is zero or they share a bit and none above the lowest byte. |
| Limits.LogicalOnBits | seronc/codegen.c:482-494 | On operands that are 0 or 1 both logical operators are the logical ones. |
| Limits.DivisionExact | seronc/codegen.c:433-442 | The emitted code of a division, from the left operand in rax and the right one on the stack: for a divisor that is not zero and a quotient that fits, the quotient rounded toward zero is in the low bytes of rax if and only if the bytes above the left operand, which nothing prepares, extend its sign; memory and all registers but rax, rdi, rdx and rsp stay, and the stack word is taken off. |
| Limits.DivisionRuns | seronc/codegen.c:391-442 | A whole division with its operands: the machine gets to the operation with both of them, and the value behind it is the quotient if and only if the bytes above the left operand extend its sign at that moment. |
| Limits.OperandForms | seronc/codegen.c:357-495 | `!` has an instruction for single bytes only and minus for everything else; an operator other than multiplication and division has one if and only if its operands have the same size. |
| Limits.OperandKinds | seronc/codegen.c:408-426 | Two operands can be combined if and only if they are of one kind, or one is a pointer to something with a size and the other is no pointer; the result is a pointer if one of them is. |
| Limits.ArgumentCount | seronc/codegen.c:246-275 | A call whose parts are accepted is accepted if and only if it has at most as many arguments as there are parameters; it may have fewer. |
| Limits.PlainLiteral | seronc/codegen.c:557-590 | A plain literal is an int: it can initialise an int and nothing else, and below 2^31 it reads back from the variable as itself. |
| Limits.LongLiteralExact | seronc/codegen.c:584-590 | A long literal reaches the register if and only if it is below 2^31. |
| Limits.WrittenGuard | seronc/codegen.c:677-690 | The kind check as written accepts an assignment to a variable if and only if the value is a pointer. |
| Limits.WrittenGuardWrong | seronc/codegen.c:677-690 | Measured by the check of the stored kind, the check as written wrongly lets through exactly pointers for variables that are none, and wrongly rejects exactly values of the variable's own kind that are not pointers. |
| Limits.DeclarationsVisible | seronc/hashtable.c:70-71 | All declarations of a block can be seen if and only if no name is declared twice. |
| Limits.FirstDeclaration | seronc/hashtable.c:70-71 | Of two declarations of one name in a block the first one counts. |
| Limits.SecondArgumentClobbers | seronc/codegen.c:255-268 | Computing any operator as second argument leaves its right operand, scaled, in the first argument's register, so the first argument arrives if and only if it is equal to that. |
| Limits.SecondAssignmentClobbers | seronc/codegen.c:255-268 | Computing an assignment as second argument leaves the target's address there, so the first argument arrives if and only if it is equal to that. |
| Limits.FirstArgumentLost | seronc/codegen.c:255-268 | Of the arguments 1 and 2 + 3 the first one arrives as 3. |
| Limits.LastArgumentCalled | seronc/codegen.c:260-273 | With more than six arguments the call goes to the address that is the last argument, so it reaches its callee if and only if the two are equal. |
| Indexing.ElemsStored | seronc/codegen.c:698-711 | After an array literal all its elements are in memory, and what was before them has not changed. |
| Indexing.ArrayStored | seronc/codegen.c:698-715 | The pointer an array literal gives is where its elements are stored. |
| Indexing.IndexReads | seronc/expand.c:64-82 | Indexing a stored array reads the element, pointer and index in either order, before and after desugaring. |
| Indexing.LiteralIndexed | seronc/codegen.c:698-715 | An array literal indexed on the spot by any long expression gives the element of that number, before and after desugaring. |
| Indexing.NumberIndexed | seronc/codegen.c:414-416 | So does any long expression indexed by an array literal, if it leaves the elements alone, which are evaluated first. |
| Indexing.QuietUndisturbed | seronc/codegen.c:698-711 | Elements that write nothing cannot disturb the elements before them. |
| Indexing.StillWrites | seronc/codegen.c:698-711 | Evaluating an expression without assignments and calls, nested array literals included, writes to its own slots only. |
| Indexing.LaidUndisturbed | seronc/symboltable.c:69-78 | In a laid-out tree no such element of an array literal, however nested, disturbs the elements before it. |
| Parsing.Parser.TypeRule | seronc/parser.c:783-820 | Reads a type as the grammar says, or fails where it does. |
| Parsing.Parser.SignatureRule | seronc/parser.c:759-781 | Reads parameters and return type. |
| Parsing.Parser.ParamList | seronc/parser.c:714-753 | The loop over parameters or fields, with optional commas and the limit on parameters. |
| Parsing.Parser.Primary | seronc/parser.c:822-876 | Reads literals, names and groupings. |
| Parsing.Parser.CallRule | seronc/parser.c:878-897 | Reads a primary with at most one argument list. |
| Parsing.Parser.IndexRule | seronc/parser.c:899-920 | Reads a call with at most one index. |
| Parsing.Parser.UnaryRule | seronc/parser.c:922-939 | Reads at most one prefix operator. |
| Parsing.Parser.Binop | seronc/parser.c:944-1015 | The loop of all eight operator levels builds left-associative trees. |
| Parsing.Parser.AssignRule | seronc/parser.c:1017-1038 | Assignment associates to the right. |
| Parsing.Parser.ExprRule | seronc/parser.c:1040-1078 | An expression is an array literal or an assignment expression. |
| Parsing.Parser.ExprList | seronc/parser.c:678-696 | The loop over arguments or elements, with optional commas. |
| Parsing.Parser.StmtRule | seronc/parser.c:1263-1283 | Reads a statement, or nothing for an empty one. |
| Parsing.Parser.BlockRule | seronc/parser.c:1124-1160 | The loop over statements drops empty ones. |
| Parsing.Parser.ForRule | seronc/parser.c:1162-1194 | Reads a for loop with its two mandatory commas. |
| Parsing.Parser.IfRule | seronc/parser.c:1215-1239 | Reads a conditional with at most one `else` block. |
| Parsing.Parser.DeclRule | seronc/parser.c:1285-1343 | Reads a procedure, with or without body, or a table. |
| Parsing.Parser.Program | seronc/parser.c:1345-1360 | Reads declarations up to the end, or fails at the first error. |
| RoundTrip.Parses | seronc/parser.c:843-1078 | Every conforming expression, printed and parsed by its own or any looser rule, gives itself and leaves the following tokens. |
| Precedence.PrimariesRead | seronc/parser.c:843-876 | Numbers, names and strings are primary expressions: the innermost rule takes exactly their token, whatever follows. |
| Precedence.GroupingRead | seronc/parser.c:822-841 | An expression in brackets is a primary expression. |
| Precedence.TwoOperators | seronc/parser.c:944-1015 | For primary expressions x, y, z and any operators p and q: x p y q z is x p (y q z) exactly when q is in an earlier group than p of `* /`, `+ -`, `< <= > >=`, `== !=`, bitwise and, bitwise or, logical and, logical or; otherwise it is (x p y) q z. |
| Precedence.EveryOperator | seronc/parser.c:63-82 | Every token that stands for a binary operator is in one of these groups. |
| Precedence.PrefixFirst | seronc/parser.c:922-942 | A prefix operator binds tighter than any binary one. |
| Precedence.AssignLast | seronc/parser.c:1017-1038 | An assignment binds looser than any binary operator, and assignments associate to the right. |
| RoundTrip.ParamLimit | seronc/parser.c:714-735 | A signature of well-formed types is accepted if and only if it has at most 254 parameters. |
| Forms.IfForm | seronc/parser.c:1215-1239 | A conditional is written with `if`, its condition and a block, and takes an `else` block if one follows. |
| Forms.LoopForms | seronc/parser.c:1162-1213 | A while loop and a for loop, with a variable and its start, a condition and an update between commas, are read as such. |
| Forms.SimpleForms | seronc/parser.c:1081-1122 | Declarations with and without a value, returns with and without a value, expressions and empty statements, each up to its semicolon. |
| Forms.DeclForms | seronc/parser.c:1285-1330 | A procedure with a body, one with a semicolon instead, and a table are read as such. |
| Forms.TypeForms | seronc/parser.c:783-820 | The built-in types, a table by its name, a pointer and a procedure type are read as such. |
| Forms.ExprForms | seronc/parser.c:822-920 | A grouping, a call, an index and an array literal are read as such. |
| RoundTrip.StmtParses | seronc/parser.c:1263-1283 | The same for statements. |
| RoundTrip.TypeRoundTrip | seronc/parser.c:783-820 | The same for types. |
| RoundTrip.ProgramRoundTrip | seronc/parser.c:1345-1360 | Printing a conforming program and parsing it gives it back. |
| RoundTrip.PrintInjective | seronc/parser.c:1345-1360 | No two conforming programs are written with the same tokens. |
| Soundness.RuleSound | seronc/parser.c:843-1078 | Whatever an expression rule accepts, the tree has the precedence and associativity of the grammar and is written with the tokens read, up to commas between items of a list. |
| Soundness.StmtSound | seronc/parser.c:1263-1283 | The same for statements, up to empty ones; the two commas of a for header are among the tokens. |
| Soundness.ProgramSound | seronc/parser.c:651-669 | An accepted program conforms and is written like what was read, up to commas in lists and empty statements. |
| Soundness.NormalForm | seronc/parser.c:651-669 | The normal way of writing an accepted program is accepted as the same program. |
| Soundness.CommasMatter | seronc/parser.c:686-691 | Leaving out a comma is allowed and can turn two arguments into one. |
| Lexing.Lexer.Next | seronc/lexer.c:252-330 | One call skips blanks and comments, takes the token at the front of the rest or fails where there is none, and records a position that with the comments skipped so far adds up to the token's offset. |
| Lexing.Lexer.TokenizeNumber | seronc/lexer.c:153-202 | Digits, suffix, length limit and value of a number. |
| Lexing.Lexer.TokenizeIdent | seronc/lexer.c:204-227 | The longest run of identifier characters, a keyword if it begins with one. |
| Lexing.Lexer.TokenizeString | seronc/lexer.c:105-124 | Everything up to the next quote, an error if there is none. |
| Lexing.Lexer.TokenizeChar | seronc/lexer.c:126-151 | One ASCII character between single quotes. |
| Lexing.Lexer.Tokenize | seronc/lexer.c:267-323 | The token at the current character, by its first one or two characters. |
| Lexing.Collect | seronc/lexer.c:406-424 | The tokens of a text tile it: in order, each spelled by its characters, nothing longer spelling a token there, blanks and comments between, positions and lengths as recorded. |
| Lexing.TokenLocation | seronc/lexer.c:332-360 | Line, column and start of line of a position. |
| Lexing.GapIsBlank | seronc/lexer.c:271-284 | What is skipped is blanks and whole comments, as many as there are. |
| Munch.FirstSpells | seronc/lexer.c:267-323 | What the lexer takes is a spelling of the token it gives. |
| Munch.FirstIsLongest | seronc/lexer.c:105-245 | Of all beginnings of the text that spell a token it takes the longest. |
| Munch.SpelledIsFirst | seronc/lexer.c:105-245 | Every spelling of a token is found as that token when a blank or comment follows. |
| Alphabet.IdentifierExact | seronc/lexer.c:204-227 | The lexer takes x for an identifier if and only if the text begins with x, x is at most 64 characters long, consists of letters, digits and underscores, begins with no digit and with no keyword, and no further such character follows. |
| Alphabet.NamesLexed | seronc/lexer.c:71-103 | A name that begins with a keyword is that keyword, a name of more than 64 characters is an error, and any other name is that identifier, whatever other character follows. |
| Alphabet.SignsLexed | seronc/lexer.c:286-304 | Each sign is its token; the two-character signs come first. |
| Alphabet.NumbersLexed | seronc/lexer.c:153-202 | Digits with L, B, I or no suffix are one number of the kind that the suffix says, up to 64 characters and below 2^63. |
| Alphabet.QuotedLexed | seronc/lexer.c:105-151 | An ASCII character in single quotes is its number, what stands between double quotes is a string, and an open string is an error. |
| Alphabet.GapsLexed | seronc/lexer.c:271-284 | Tab, carriage return, blank and newline are skipped, and so is a comment from a hash sign to the end of its line; nothing else is. |
| Texts.WritableSpelled | seronc/lexer.c:79-103 | A token can be written if and only if its identifier begins with no keyword and is short enough, its number is below 2^63, its string has no quote. |
| Texts.TextRoundTrip | seronc/lexer.c:252-330 | However a conforming program is written out with blanks and comments around its tokens, lexing and parsing the text gives it back. |
| Texts.RenderRoundTrip | seronc/parser.c:651-669 | Rendering a program and reading it gives the program back. |
| Texts.ParseText | seronc/parser.c:651-669 | The parser on a text is the grammar on the tokens of the text. |
| Pipeline.PlacedExpands | seronc/expand.c:84-92 | Placing the objects of a program and desugaring it can be done in either order. |
| Pipeline.PlacedKeepsNames | seronc/expand.c:52-55 | Whether updates keep their names is seen in the program as written. |
| Pipeline.SourceReturns | seronc/codegen.c:775-781 | If a call returns by the rules of the program as written, for loops and indexing included, the machine running the compiled program comes back with that result and that memory, keeping the stack discipline on the way. |
| Pipeline.SourceDiverges | seronc/codegen.c:775-781 | If it never returns there, the machine never stops, and never leaves the free stack and the live objects. |
| Compiler.CompileText | seronc/codegen.c:775-781 | Whatever procedures a text spells, the compiler returns what desugaring, layout and generation make of exactly these procedures; for a text with a table or a procedure without a body it returns nothing. |
| Compiler.CodeMeans | seronc/parser.c:1345-1358 | Code comes only from a text written like a program of procedures with bodies, up to list commas and empty statements, and it is what the later passes make of these procedures. |
| Compiler.TextCompiles | seronc/codegen.c:775-781 | A text that spells procedures of the fragment gets through all passes, and what comes out is the program's part of the code the theorems are about. |
| Compiler.TextReturns | seronc/codegen.c:775-781 | From text to machine: the code the compiler makes of a text that spells some procedures comes back from every call that returns by the rules of these procedures, with that result and that memory. |
| Compiler.TextDiverges | seronc/codegen.c:775-781 | A call that never returns by the rules of the procedures the text spells never stops the machine. |
| Compiler.TextPlaced | seronc/symboltable.c:41-146 | Every procedure that these rules speak of is one the text spells, with places for its objects filled in. |
| Sample.SevenLeft | seronc/codegen.c:277-319 | For `proc main() int { return 1 + 2 * 3; }` the compiler returns code that leaves 7 in eax on every machine that calls it with 24 bytes of free stack, whatever is in registers and memory. |
| Sums.SumMeans | seronc/expand.c:22-55 | By the rules of the source `proc sum(n: int) int` with `for i: int = 0, i != n, i = i + 1 { s = s + i; }` returns the sum of the numbers below n for n below 256, and for any other n it never returns. |
| Sums.SumCompiled | seronc/codegen.c:277-319 | This procedure is in the proved fragment, linked in front of any other code that does not use its name. |
| Sums.SumRuns | seronc/codegen.c:630-648 | In the machine: called with n below 256 and 68 bytes of free stack, the compiled procedure comes back with n * (n - 1) / 2 and changes nothing outside the free stack; with any other n the machine never stops. |

## Left out

- Operators.OperatorCode: leaves out division, because the `idiv` that is emitted divides rdx:rax and nothing prepares rdx; `Limits.DivisionExact` says exactly when its result is right. Operands of different size have no instruction.
- Operators.BinaryTailCode: the same two exceptions.
- Leaves.UnaryTailSim: covers `!` on `char` and unary minus on `int` and larger, the operand forms that exist.
- Simulation.ExprSim: does not cover division, for the reason `Limits.DivisionExact` gives; `Limits.DivisionRuns` does, with its exact condition. `Fragment.FragmentExact` lists all that is not covered.
- Simulation.BinarySim: does not cover division either.
- Simulation.ArgsSim: covers at most six arguments, because with more the call goes to the address that is the last argument, as `Limits.LastArgumentCalled` shows; and arguments after the first must leave the registers alone, which `Limits.SecondArgumentClobbers` and `Limits.SecondAssignmentClobbers` show to be needed.
- Limits.ArgumentCount: more arguments than parameters are an error here; the compiler reads parameters that are not there.
- Limits.SecondArgumentClobbers: says when the first argument arrives for parameters no larger than the right operand; the bytes above that operand are whatever its evaluation left in rax.
- Frames.ParamsSim: relates the prologue to binding in the source; that binding succeeds and every slot then holds its argument is `Arguments.ArgumentsArrive`, for procedures that the layout made.
- Correctness.CallReturns: is about evaluations that are not Undefined, and about programs in the fragment of `Typing.SupportedProc`: operands of one operator have the same size, `!` is applied to `char` and unary minus to larger types, long literals are below 2^31, and assignments store a value of the pointee's kind.
- Pipeline.SourceReturns: has the same limits, and asks that no body redeclares a name its loop's update uses.
- Correctness.CallDiverges: asks for an evaluation that runs out of every fuel and is never Undefined, in the same fragment.
- Slots.ProcStacked: assumes that assignment targets hold no array literals, which the passes never give a place.
- Desugar.StmtMeans: is one way; its condition, that a body does not redeclare a name its update uses, is sufficient, and `Desugar.HiddenUpdate` shows a loop without it whose meaning changes.
- Indexing.ElemsStored: asks that no element's evaluation overwrites an earlier element; `Indexing.LaidUndisturbed` and `Indexing.QuietUndisturbed` say when that is so, for elements without assignments and calls.
- Indexing.ArrayStored: asks the same.
- Indexing.QuietUndisturbed: leaves nested array literals to `Indexing.LaidUndisturbed`.
- SymbolTables.Build: tables and procedures without a body are not entered.
- SymbolTables.Symboltable.LayoutStmt: annotates trees that are values; the pass itself writes the annotations into the nodes it visits. Nodes updated in place are modelled for desugaring only (`Nodes`).
- Codegen.Codegen.Emit: emits instructions instead of text; string literals are an error here, where the compiler writes them to the data section and yields a pointer. Formatting and the output file are not modelled.
- Codegen.Codegen.EmitProc: procedures without a body, which become `extern` lines, and the `global` line are left out.
- Codegen.Compile: table declarations and `extern` procedures are left out.
- Codegen.SupportedProgram: is about the check that looks at the stored kind; the check as written rejects every assignment of a value that is not a pointer, as `Limits.WrittenGuard` shows.
- Compiler.CompileText: desugars with the function `Expand.ExpandProcs`; the in-place pass over nodes that computes it is `Trees.ExpandAst`.
- Lexing.Lexer.Next: fails on what is undefined in C, namely a comment without a newline, a number of 2^63 or more, and a character literal cut off by the end of the text; strings are not cut at the size of the token buffer.
- Parsing.Parser.Program: reads a list of tokens that was scanned before, not one token ahead; error recovery is left out, because any error ends in a failure.
- HashTables.Hashtable.Insert: keys are not cut at 64 characters, and the sum of the hash function does not wrap around.
- String literals in code, tables and object types, and procedures without a body: parsed and printed, not compiled.
- Variables and array elements of type `void`, at which the compiler stops while it lays out the frame: here they get a place, and the generator stops where one is used.
- Alignment of the stack to 16 bytes at calls.
- The machine's flags of instructions other than comparisons and additions are not modelled; no emitted code reads them.
- Frame sizes of 2^31 bytes and more.
- Growth of buffers and node lists, arena allocation and running out of memory.
- Diagnostics, options, printing of tokens and trees, and running assembler and linker.
- Programs of the repository other than the compiler.

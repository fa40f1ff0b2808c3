# Verified models of driver algorithms

LDMud is a game driver: it compiles and interprets the programs of a multi-user world. This project models six of its
algorithmic components, each close to the form it has in the driver, and proves what each of them is for. Code that
works by changing things in place (a code buffer, linked lists, a heap, a ring of lines, arrays of six-bit characters)
is modelled by classes, arrays and loops with the same branches. Each is tied to a specification on values, about which
the main properties are proved.

* **Lambda closures** (`Bytecode`, `LambdaTree`, `LambdaCompile`, `LambdaAccept`, `LambdaSound`, `LambdaTheorems`,
  `LambdaLimits`, `LambdaSmall`, `WorkArea`, `LambdaWork`). A lambda is a tree which is compiled to stack code. `LambdaTree.Eval` says what a tree means,
  `Bytecode.Step` what the interpreter does, `LambdaCompile` what code a tree becomes for given accept flags. `WorkArea`
  is the compiler itself: it appends to a code buffer, leaves branches without offsets, patches them later, and makes
  long branches out of short ones by moving code; `LambdaWork` is lambda() around it. Theorem: a closure returns exactly
  what its body evaluates to, with the same efun calls, and returns if and only if evaluation ends - provided all
  branches landed and the counts in its header and the operands of its instructions are not cut off. `LambdaLimits` says
  exactly when that is so, and gives lambdas that go wrong when it is not. `LambdaAccept` says of a tree which closures are
  compiled at all, and what each error means.
* **Switches in closures** (`CaseSort`, `CaseRanges`, `CaseJoin`, `CaseCount`, `CaseSearch`, `CaseTable`, `CaseGain`, `SwitchCases`).
  Case labels are sorted by a mergesort with two lists of runs, adjacent labels are joined, lookup tables are written for
  dense stretches, and the interpreter searches what is stored. Theorem: whatever key is switched on, control goes to the
  label that covers it, or to the default; overlapping labels are an error, and the only other one is that the offsets do
  not fit into three bytes.
* **Commands** (`Sentences`, `Evolution`, `Commands`). The list of actions of a command giver is searched while the
  functions it calls may add actions, remove one or many of them, gain or lose the shadow sentence at the head, and run
  nested commands. A marker keeps the place, reusing the storage of the sentence behind it. Theorem: every action that
  matches and survives is tried once, in list order, up to the first that succeeds, no action that was added meanwhile is
  tried, and no marker stays behind, whatever the functions do and however they fail.
* **Arrays** (`LookupKey`, `ArrayOrder`, `ElementMatch`, `ArrayOperators`, `SortArray`, `SortLaws`, `Explode`). Ordering
  by a heap with holes, the search with overlapping steps, the operators `-`, `&`, `|`, `^`, a mergesort whose comparison
  function may answer anything, and `explode`/`implode`.
* **Callouts** (`CallList`, `DueCalls`). A list of calls in which each holds its delay in relation to the one before. A
  call is described by the time until it is due; the list operations change the due time of no other call. It is an
  invariant of the list that due times rise, so that only the head can have a negative delay, and that the counter of
  calls is the length of the list.
* **Bitstrings** (`SixBits`, `CopyBits`, `Bitstrings`). Six bits a character; copying on equal and on different bit
  positions, with masks and shifts. What happens to bits behind the copied range is proved exactly.
* **The line editor** (`EdBuffer`, `EdTabs`, `EdGlobal`). A doubly linked ring with a current line, edits by relinking,
  the exchange of tabs and blanks, and commands that are run for every marked line while they change the text.

`Wrappers` holds the option and result types. Integers are unbounded unless said otherwise. The opcode numbers are
generated when the driver is built; the model only needs them to be distinct.

## Where the code does not do what one expects

* `#'?` with two or more long exit branches: the distance is taken from the place where the branch was before earlier
  code moved (src/closure.c:2466-2483). `LambdaLimits.ClosureLandsIff` gives the exact condition for a whole closure,
  `LambdaLimits.WideBranchTarget` says where such a branch goes, and `LambdaLimits.TwoWideBranchesMiss` is a call that
  runs out of its code instead of returning.
* The header of a closure has a signed byte for the number of arguments and one byte for the number of variables
  (src/closure.c:5217, 5290); a negative number of arguments means that the last one takes all further ones as a vector
  (src/interpret.c:7296-7344). lambda() checks neither. `LambdaTheorems.SlotsReadyIff` and
  `LambdaLimits.ArgumentsPassedIff` say exactly when all variables and arguments are in their places;
  `LambdaLimits.ArgumentsGathered` and `LambdaLimits.ArgumentsAlias` are closures that return something else,
  `LambdaLimits.LocalsLost` is one without arguments that has no room for its variables.
* Operands of local variables have one byte, those of values two. `LambdaLimits.LocalsAliasIff` says exactly which locals
  are taken for each other, and when there are any; `LambdaLimits.ArgumentsAlias` is a call in which that happens. With
  65536 values that are no small numbers the last is taken for the first (`LambdaLimits.ValuesAlias`).
* A stretch of case labels becomes a lookup table only when the gain falls behind it, and the search stops at the last
  label (src/closure.c:6855-6990): a `#'switch` whose labels are dense up to the end gets none (`CaseGain.DenseEndStays`;
  `CaseGain.DenseBecomesTable` says exactly what one more label changes).
* A call scheduled while the head of the callout list is overdue is timed from the head's due time
  (`CallList.DelayKeptIff`, `CallList.DelayLost`).
* A callout put off for one second is due again in the same cycle exactly if the next one is overdue
  (`DueCalls.PutOffDueIff`; two calls for which that is so are in `DueCalls.PutOffTwice`). The cycle ends all the same
  (`DueCalls.DebtShrinks`), and then each call that was put off is due in exactly one second (`DueCalls.MakeDueCalls`).
* `copy_bits` on equal bit positions, with a range inside one character, overwrites the bits behind the range
  (src/bitstrings.c:663-679), although a mask against that is set up there. `CopyBits.BehindChanged` shows it,
  `Bitstrings.SplicedIff` says exactly when the efun's result is affected.
* `tab_line` drops blanks at the end of a line unless the line ends at a tab stop (`EdTabs.NothingMissingIff`; for
  example in `EdTabs.BlankLost`).
* `detab_line` accepts lines that fill its buffer, and then writes the end mark behind it; so does `tab_line` with such a
  line that it does not shorten (`EdTabs.Detab`, `EdTabs.Tab`; lines for which that happens are in
  `EdTabs.ExpandedFills` and `EdTabs.TabbedFills`).
* `implode` followed by `explode` gives the pieces back exactly under the condition of `Explode.ExplodeJoinedIff`.
* `last_bit` counts a wrong position if the last character has none of the six bits without being blank, which takes an
  illegal character. `Bitstrings.LastBit` and `Bitstrings.LastNumberIff` give the exact condition,
  `Bitstrings.IllegalMisleads` a string.

## Model

| member | source | states |
|---|---|---|
| LambdaTheorems.LambdaCorrect | src/closure.c:1694-4724 | For every tree, any number of actual arguments and every efun table: the closure returns a value with a given trace of efun calls if and only if the tree evaluates to that value with that trace, in both directions and for loops that need not end, when all branches landed and at most 127 arguments, 255 locals and 65536 values are declared; missing arguments are 0 and surplus ones are dropped |
| LambdaTheorems.RunBody | src/closure.c:5147-5312 | Running a compiled closure from the frame its header describes reaches the return instruction with the value of the body and the efun calls it makes, or runs at least as long as the evaluation |
| LambdaTheorems.SlotsReadyIff | src/interpret.c:7288-7382 | The frame set up from the two header bytes has a slot with the argument or 0 for every local, whatever the actual arguments are, if and only if there are at most 127 declared arguments and 255 locals |
| LambdaLimits.ArgumentsPassedIff | src/closure.c:5217 | The closures that return one of their arguments all do so if and only if there are at most 127 arguments |
| LambdaLimits.ArgumentsGathered | src/interpret.c:7296-7344 | With 128 to 255 arguments a closure that should return one of them returns 0 or a vector of several |
| LambdaLimits.ArgumentsAlias | src/closure.c:4600-4622 | With 257 to 383 arguments a closure that should return the one with index 256 + k returns the k-th |
| LambdaLimits.LocalsLost | src/closure.c:5290-5294 | A closure without arguments that assigns to 256 variables has no slot for any of them: the body has a value, the run returns nothing |
| LambdaLimits.LocalsAliasIff | src/closure.c:4600-4622 | Two locals have the same operand if and only if their indices differ by a multiple of 256, and there are two such locals if and only if there are more than 256 |
| LambdaLimits.ValueIndexIff | src/interpret.c:15206-15227 | The long index of a value is read back as it was if and only if it fits into 16 bits |
| LambdaLimits.ValuesAlias | src/closure.c:1645-1690 | A closure of 65536 values that should return the last returns the first |
| LambdaLimits.BranchesLandIff | src/closure.c:2390-2511 | The branches of a conditional all reach their destinations if and only if its parts are no longer than allowed, the second exit branch is short, and the offsets of the first pair fit into 16 bits |
| LambdaLimits.ClosureLandsIff | src/closure.c:2390-2511 | All branches of a compiled closure reach their destinations if and only if each conditional in it keeps to these limits |
| LambdaLimits.WideBranchTarget | src/closure.c:2466-2483 | The i-th widened exit branch lands i bytes behind its destination |
| LambdaLimits.TwoWideBranchesMiss | src/closure.c:2466-2483 | For a conditional with two pairs and a default of 257 bytes, called so that the second pair is taken: the body evaluates to the second argument, but the run leaves the code and returns nothing |
| LambdaSmall.SmallLambdaCorrect | src/closure.c:1694-4724 | For closures of at most 255 bytes correctness holds without the condition on branches |
| LambdaWork.MakeLambda | src/closure.c:5147-5312 | Binding the arguments, compiling the body into the buffer and completing the header gives exactly the specified closure, or the specified error |
| LambdaWork.BindArguments | src/closure.c:5182-5203 | The arguments are bound in their order, or one occurs twice |
| LambdaSound.Sim | src/closure.c:1694-4724 | Code for a tree, placed anywhere in a closure, simulates the evaluation: it leaves nothing on the stack if void was given, otherwise one value, inverted if negation was given, and keeps locals and world in step |
| LambdaSound.SimLand | src/closure.c:1752-1950 | `&&` and `||` with any number of arguments and either size of branch simulate short-circuit evaluation |
| LambdaSound.SimCond | src/closure.c:1955-2511 | `?` and `?!` with any number of pairs, with and without default, simulate the choice of the first pair whose condition selects |
| LambdaSound.SimWhile | src/closure.c:2976-3103 | The entry branch and the backward branch of a while loop simulate the loop for every number of rounds |
| LambdaCompile.Compile | src/closure.c:1694-4724 | Void is given only if void or zero was accepted, code without void is not empty, and the collected locals and values only grow |
| LambdaAccept.CompilesIff | src/closure.c:1694-4724 | A closure whose body takes at most 32767 bytes, counted from the tree, is compiled if and only if its arguments are different symbols and, in the order of compilation, every symbol that is used is an argument or has been bound before, every efun has its number of arguments, no block of assignments is empty and nothing is nested too deep |
| LambdaAccept.ErrorsReported | src/closure.c:5147-5312 | For closures of any size: an error names the first of these flaws in the order of compilation; a branch that is too far is reported only if the body may take more than 32767 bytes; a closure that is compiled has no flaw and takes no more bytes than counted |
| LambdaAccept.TellTree | src/closure.c:1694-4724 | The same of any tree at any depth, with any symbols known before; besides, void is given exactly where the tree and the accept flags say so |
| LambdaAccept.WalkIff | src/closure.c:4600-4622 | Going through what is met in a tree succeeds if and only if nothing of it is wrong, each symbol being judged by what stands before it, and otherwise stops at the first thing that is |
| LambdaAccept.DoLimit | src/closure.c:2943-2966 | A `do` loop whose parts are compiled is refused if and only if bodies and condition take 32768 bytes or more |
| LambdaAccept.WhileLimit | src/closure.c:3038-3067 | A `while` loop is refused if and only if that is so or the bodies alone take more than 32765 bytes |
| LambdaAccept.LandLimit | src/closure.c:1847-1950 | An argument of `&&` or `||` is refused if and only if the code behind it takes more than 32764 bytes, or 32765 where no result is wanted |
| LambdaAccept.LandEqLimit | src/closure.c:2809-2847 | `&&=` and `||=` are refused if and only if the expression takes more than 32764 bytes |
| LambdaAccept.PartLimit | src/closure.c:2077-2119 | A cond-part is refused if and only if it takes more than 32763 bytes |
| LambdaAccept.LayoutIff | src/closure.c:2390-2511 | A conditional is refused if and only if the branch behind its first cond-part has to go farther than 32766 bytes; otherwise it takes exactly the bytes computed without regard to limits |
| Bytecode.ShortRoundTrip | src/interpret.c:13415-13470 | A 16-bit offset is read back as it was stored exactly in the signed range |
| WorkArea.WorkArea.CompileValue | src/closure.c:1694-4724 | The compiler on its buffers does what the specification says: same code behind what was there, same tables, same flags, same error |
| WorkArea.WorkArea.PatchLand | src/closure.c:1847-1950 | Filling in the offsets of all `&&`/`||` branches, or widening them, yields the specified code for any number and size of arguments |
| WorkArea.WorkArea.WidenLand | src/closure.c:1847-1948 | Moving the code backwards over the buffer, every branch becomes a long one or DUP, long branch, POP with the right offset, or the error is reported |
| WorkArea.WorkArea.PatchCond | src/closure.c:2390-2511 | Exit and skip branches of all pairs get their offsets, in place or by widening |
| WorkArea.WorkArea.WidenCond | src/closure.c:2413-2508 | Widening the branches of a conditional gives exactly the code of the specification, including the distance taken from the old position |
| WorkArea.WorkArea.FinishWithDefault | src/closure.c:2232-2390 | The default of a conditional is joined to its pairs as the void flags of the parts require |
| WorkArea.WorkArea.FinishWithoutResult | src/closure.c:2140-2231 | Without default the branch behind the last part is dropped or becomes a POP |
| WorkArea.WorkArea.PatchSkip | src/closure.c:2077-2119 | The branch over a cond-part gets its offset, or becomes a long branch with the part moved up |
| WorkArea.WorkArea.PatchLandEq | src/closure.c:2809-2847 | The branch of `&&=`/`||=` gets its offset or is replaced by a long one |
| WorkArea.WorkArea.EmitLoopBranch | src/closure.c:2943-2966 | A backward branch gets a one-byte or a 16-bit offset, or the loop is refused |
| WorkArea.WorkArea.PatchEntry | src/closure.c:3038-3067 | The entry branch of a while loop is completed or widened, and the bodies moved |
| WorkArea.WorkArea.InsertValuePush | src/closure.c:1645-1690 | A value gets its slot and the instruction that pushes it, in the short or the long form |
| CaseSort.CaseState.NewCaseEntry | src/closure.c:6462-6516 | A new entry joins the two lists, which stay balanced within one |
| CaseSort.MergeRuns | src/closure.c:6629-6676 | Two sorted runs are merged into one output run by relinking; the rest of both lists is untouched |
| CaseSort.MergePass | src/closure.c:6616-6694 | One pass keeps all entries, halves the number of runs and doubles their length; neither list is used up before its turn |
| CaseSort.SortCases | src/closure.c:6616-6694 | From a balanced pair of lists the sort ends with one list: a key-sorted permutation of all entries |
| CaseRanges.ScanIff | src/closure.c:6724-6762 | The sorted entries are scanned without an error if and only if no two labels overlap, and then what is read off are the labels, in order |
| CaseRanges.ErrorReported | src/closure.c:6724-6762 | An error names the lines of two different labels: a duplicate case two that have a first or last key in common, a discontinued range one and another that starts in it |
| CaseRanges.JoiningKeepsMap | src/closure.c:6724-6810 | Joining labels keeps the address of every key |
| CaseRanges.JoiningMaximal | src/closure.c:6762-6800 | What is left cannot be joined further: adjacent items with one address are pairs of single cases |
| CaseJoin.JoinCases | src/closure.c:6724-6810 | Joining in place leaves a list that represents the joined labels, counts its entries, and reports the same error as the scan |
| CaseJoin.LabelsFound | src/closure.c:6724-6810 | In the joined labels a key is found with an address exactly if a label with that address covers it |
| CaseJoin.JoinLabels | src/closure.c:6607-6810 | Sorting and joining succeed if and only if no labels overlap, name two that do otherwise, join all that can be joined, and keep what every key says |
| CaseCount.EntriesLeft | src/closure.c:6724-6838 | The number of entries that are left is the number of keys at which, according to the labels, a stretch of keys with one address starts or ends |
| CaseSearch.Search | src/interpret.c:9108-9325 | The search with overlapping steps finds the last key that is not greater, for every table length |
| CaseSearch.Switch | src/interpret.c:8822-9412 | The interpreter's jump is the target that the slots define |
| CaseSearch.DecodeTarget | src/interpret.c:9231-9405 | Decoding the pair of tables at the found place gives the target: single case, range, lookup table or default |
| CaseSearch.StartPosition | src/closure.c:7038-7044 | The stored start of the search is the power of two that the search needs |
| CaseTable.WriteTable | src/closure.c:6880-6957 | For every key in the span the table holds the big-endian offset of the label that covers it, and the default for every gap |
| CaseTable.SlotsTarget | src/closure.c:6880-7103 | For singles, ranges and lookup tables together the target of a key is the address its label says |
| CaseGain.GainPays | src/closure.c:6855-6882 | The cutoff guarantees that a table takes no more room than the entries it replaces |
| CaseGain.MakeTable | src/closure.c:6880-6962 | Replacing a stretch of entries by a table keeps every target |
| CaseGain.FindTables | src/closure.c:6847-6990 | Going through the list writes tables for exactly the stretches that the plan of the gain search names, keeps every target, and leaves code and entries small enough for the offset size |
| CaseGain.TablesPay | src/closure.c:6873-6880 | Every stretch that becomes a table gains at least the cutoff |
| CaseGain.DenseEndStays | src/closure.c:6855-6990 | A dense stretch of single cases at the end gets no table, however many bytes it would save |
| CaseGain.DenseBecomesTable | src/closure.c:6873-6880 | With one more case behind it, it becomes a table if and only if its gain reaches the cutoff and the gain with that case is lower by more than the cutoff |
| CaseGain.EmitTables | src/closure.c:7077-7102 | The stored keys and offsets are those of the remaining list |
| SwitchCases.OffsetSize | src/closure.c:6818-6838 | The smallest offset size with which code and tables fit, or 0 exactly if none does |
| SwitchCases.StoreCaseLabels | src/closure.c:6539-7103 | From any proper labels: overlap is reported if and only if labels overlap; an overflow is reported if and only if none do and no offset of one to three bytes is enough for the code and the entries that are left of the labels; otherwise offsets have the smallest size that is enough, and the tables lead every key where the labels say |
| SwitchCases.RunSwitch | src/interpret.c:8822-9412 | Executing a switch on such tables goes to the label that covers the key, or to the default |
| Sentences.CommandGiver.AddAction | src/actions.c:1395-1420 | A new action goes to the front, but behind a shadow sentence |
| Sentences.CommandGiver.RemoveActionSent | src/actions.c:316-364 | Exactly the actions of one owner are removed |
| Sentences.CommandGiver.RemoveAction | src/actions.c:1885-1987 | The first action of the object with the verb is removed, or all its actions, only those added through it if it is a shadow; the number removed is returned |
| Sentences.CommandGiver.RemoveShadowActionSent | src/actions.c:367-416 | Exactly the actions added by one shadow are removed |
| Sentences.CommandGiver.RemoveEnvironmentSent | src/actions.c:420-476 | Exactly the actions of objects in the environment are removed; markers stay |
| Sentences.WithoutExactly | src/actions.c:316-416 | Removing all chosen actions leaves every other one as often as it was there, and none of the chosen |
| Sentences.WithoutNearExactly | src/actions.c:420-476 | The same of the actions of objects in the environment |
| Sentences.FirstGone | src/actions.c:1952-1979 | Removing one action leaves the list without the first that is chosen, or as it was |
| Sentences.CommandGiver.AssertShadowSent | src/simulate.c:3101-3121 | A shadow sentence comes to the head of the list unless there is one |
| Sentences.CommandGiver.CheckShadowSent | src/simulate.c:3070-3098 | A shadow sentence that is not needed any more goes, and nothing else |
| Sentences.CommandGiver.PlaceMarker | src/actions.c:1018-1051 | The marker goes in behind the sentence that is tried |
| Sentences.CommandGiver.TakeMarker | src/actions.c:1130-1140 | Copying the successor into the marker takes the marker out of the list: the list is the old one without it, though the other storage is freed |
| Sentences.CommandGiver.DropMarker | src/actions.c:1142-1160 | A marker at the end is unlinked by a walk from the head |
| Evolution.EvolvedTrans | src/actions.c:1061-1160 | What any number of calls make of a list - additions in front, removals, a shadow sentence that comes or goes, markers kept - composes |
| Commands.EvolvedReduced | src/actions.c:1952-1979 | Removing the first of any chosen actions, or all of them, leaves the markers and is one of the changes a search survives |
| Commands.AfterCall | src/actions.c:1130-1160 | After a call that changed the list in any of these ways, the marker separates what has been passed from what is still to come |
| Commands.Driver.TryAction | src/actions.c:1014-1160 | Trying one action leaves the search at the successor that was there before the call, or at what has become of it |
| Commands.Driver.ParseCommand | src/actions.c:842-1195 | One search tries each matching action that survives, once and in list order, none that was added meanwhile, up to the first that does not fail; the answer is that of the last one tried; each function finds the verb, the command and the argument meant for its action; no marker of its own is left unless an error cut it short |
| Commands.OutcomesDecide | src/actions.c:1162-1177 | Where the errors of nested commands are caught, the outcomes of the calls decide: all actions tried before the last fail, and the command is found, not found or broken off if and only if the last one succeeds, all of them fail, or one ends in an error |
| Commands.RaisedIff | src/actions.c:1162-1177 | In any case a command is broken off if and only if an action that has been tried ends in an error or has met one that was not caught |
| Commands.Driver.RunCall | src/actions.c:1061-1120 | What a called function does to the list happens in its order, each event in the state the one before has left, up to the first error that is not caught; without one the outcome is its own |
| Commands.CommandWords | src/actions.c:879-923 | Exactly the blanks at the end are stripped, and the verb is what stands before the first blank |
| Commands.CommandMadeUp | src/actions.c:1060-1115 | What the called function finds as verb and argument makes up the command: the verb of the action and what follows it directly, or the first word, a blank and the rest |
| Commands.Driver.ExecuteCommand | src/actions.c:1201-1276 | The caller's context is restored and the markers in the list are those that were there, on every way out, and the search is as above |
| Commands.EvolvedMarkers | src/actions.c:230-315 | Whatever nested commands did, the markers of the list are those it had, in their order |
| LookupKey.LookupKey | src/array.c:1092-1169 | An equal key is found if there is one, for every length; otherwise the result is the only place that keeps the vector ordered |
| LookupKey.InsertionKeepsOrder | src/array.c:1092-1169 | Inserting at the returned place keeps the order |
| LookupKey.FindFunction | src/closure.c:395-442 | The same search finds a function by name exactly if the program has it |
| ArrayOrder.GetArrayOrder | src/array.c:822-1047 | On every path the result is a permutation of the indices, from the highest element to the lowest |
| ArrayOrder.SelectionOrder | src/array.c:925-966 | For four to six elements repeated selection of the highest yields a descending permutation |
| ArrayOrder.AddToHeap | src/array.c:986-1003 | Moving parents down and filling the open place makes a heap of one more index |
| ArrayOrder.FillTop | src/array.c:1009-1039 | Refilling the top along the lower children keeps: holes have only holes below them, live elements are in order, and no index is lost or doubled |
| ArrayOrder.TopLive | src/array.c:1007-1039 | While indices are left the top of the heap with holes is not a hole |
| ArrayOrder.HeapOrder | src/array.c:972-1047 | The heap path yields a descending permutation |
| ArrayOrder.SanitizeArray | src/array.c:791-818 | In place, every untabled string becomes its tabled twin, every reference to a destructed object 0, and nothing else changes |
| ArrayOrder.OrderArray | src/array.c:1052-1088 | The old vector is made sane; the new one has its elements, is ordered, and has no untabled string and no reference to a destructed object: what `is_ordered` asks for |
| ArrayOrder.IsOrdered | src/array.c:1724-1760 | True exactly for vectors, empty or not, that are ordered and whose strings are all tabled |
| ElementMatch.MatchArrays | src/array.c:1174-1346 | On every special and generic path a flag is set exactly if an equal element occurs in the other vector, with duplicates |
| ElementMatch.PassHigher | src/array.c:1283-1334 | In the side-by-side walk a strictly higher element has no partner at all |
| ArrayOperators.SubtractArray | src/array.c:1350-1421 | The elements that do not occur in the other vector, in order, or a size error |
| ArrayOperators.IntersectArray | src/array.c:1425-1508 | The elements that do occur, in order, or a size error |
| ArrayOperators.JoinArray | src/array.c:1512-1609 | The first vector followed by the unmatched part of the second, or a size error |
| ArrayOperators.SymmetricDiffArray | src/array.c:1613-1712 | The unmatched parts of both vectors, one after the other, or a size error |
| ArrayOperators.PartPlaces | src/array.c:1376-1508 | A part holds exactly the elements at the wanted places, in rising order |
| ArrayOperators.PartsMakeUp | src/array.c:1376-1508 | Difference and intersection together are the vector, duplicates included |
| ArrayOperators.OperatorsOnSets | src/array.c:1350-1712 | As far as membership goes the four operators are those on sets |
| ArrayOperators.DifferenceTwice | src/array.c:1350-1508 | v - (v - w) is v & w, with order and duplicates |
| ArrayOperators.JoinAndSubtract | src/array.c:1350-1609 | Subtracting v from v and w joined leaves w - v, and subtracting one vector after another subtracts their join |
| SortArray.MergeRuns | src/array.c:2413-2450 | The in-place merge of two runs equals the merge of the sequences, for any answers, and stops at a vanished comparison function |
| SortArray.SortArray | src/array.c:2276-2463 | The passes with exchanged buffers compute the specified sort; on an error the vector is unchanged |
| SortLaws.AnyAnswers | src/array.c:2404-2459 | For any answers of the comparison function the result is a permutation, after at most n times the rounded-up logarithm of n calls |
| SortLaws.SortedAndStable | src/array.c:2404-2459 | For a total preorder the result is sorted, and the elements of every class of equals keep their order |
| SortLaws.PassesBound | src/array.c:2404-2456 | The number of passes is the logarithm, rounded up |
| Explode.ExplodeString | src/array.c:476-641 | Counting and extracting scans agree and yield the pieces, for every string and delimiter |
| Explode.ArrImplodeString | src/array.c:646-734 | The strings among the elements are joined with the delimiter, into a buffer whose size was computed before |
| Explode.ImplodeExploded | src/array.c:476-491 | Imploding what was exploded gives the string back, for all strings and delimiters |
| Explode.ExplodeJoinedIff | src/array.c:476-641 | Exploding what was imploded gives the pieces back if and only if there is one, and no delimiter stands in a piece or across the end of one |
| Explode.CleanChar | src/array.c:526-573 | For a delimiter of one character that means: no piece contains it |
| Explode.ExplodeCharsIff | src/array.c:505-525 | For an empty delimiter it means: every piece is one character |
| Explode.PiecesClean | src/array.c:576-641 | No piece contains the delimiter, nor does one stand across the end of a piece |
| CallList.CallQueue.InsertCall | src/call_out.c:93-124 | The new call goes behind all that are due no later; no other due time changes; its own is exactly the delay plus the amount by which the head is overdue |
| CallList.DelayKeptIff | src/call_out.c:116-119 | The new call is due after its delay if and only if the head is not overdue |
| CallList.DelayLost | src/call_out.c:116-119 | With a head three seconds overdue, a delay of five seconds becomes two |
| CallList.PlaceIff | src/call_out.c:104-115 | The place is the only one that keeps the order and is first in, first out among equal due times |
| CallList.CallQueue.CallOut | src/call_out.c:127-243 | A negative delay counts as 0, the limit is an error, a destructed object schedules nothing |
| CallList.CallQueue.NextCallOutCycle | src/call_out.c:247-275 | All due times decrease by the time that has passed |
| CallList.CallQueue.PopDue | src/call_out.c:320-335 | Taking the due head leaves all other due times, although only one delta is changed |
| CallList.CallQueue.FindCallOut | src/call_out.c:470-560 | The time left for the first call with the function, never negative, or -1; removing it changes no other due time |
| CallList.CallQueue.RemoveStaleCallOuts | src/call_out.c:622-643 | Exactly the calls of vanished objects go, and no due time changes |
| DueCalls.MakeDueCalls | src/call_out.c:279-451 | For every finite behaviour of the called functions the cycle ends with no call due; calls are made once, in the order of due times, none early; every call is made, removed, dropped or still pending; the functions do what they are said to do, one after the other; after an error nothing is called for the same user, and only calls of a user who had an error are put off; those not yet due are untouched, and each that was due and is still pending is due in exactly one second; without disturbance exactly the due calls of living objects are made |
| DueCalls.DebtShrinks | src/call_out.c:355-373 | Popping an overdue call, and even putting it off by a second, strictly lowers the sum over pending calls of max(0, 1 - due time) |
| DueCalls.PutOffDueIff | src/call_out.c:355-373 | A call that is put off for a second is due at once if and only if the next call is overdue, and otherwise in exactly one second |
| DueCalls.PutOffTwice | src/call_out.c:355-373 | Of two calls five and three seconds overdue the first, put off, is still two seconds overdue and comes behind the second |
| DueCalls.BarredIff | src/call_out.c:303-373 | A user is barred at any time in the cycle if and only if one of the functions called for it has failed or met the limit, or it was barred before |
| DueCalls.RunAct | src/call_out.c:127-643 | Scheduling inserts one new call, or none and is an error exactly if the list is full; removing takes out the first call with the function; removing stale calls takes out exactly those |
| DueCalls.RunActs | src/call_out.c:436-448 | The acts of a called function are done one after the other up to one that meets a full list; whatever they are, remaining calls keep their due times and nothing comes in before the time of the running call |
| SixBits.LengthMaskLost | src/bitstrings.c:663-679 | The length mask has no effect on the mask it is applied to |
| SixBits.StraddlingBits | src/bitstrings.c:750-785 | The masks and shifts of the block copy take six consecutive bits out of two characters |
| CopyBits.CopyRange | src/bitstrings.c:628-833 | On all aligned and unaligned paths every bit of the destination afterwards is the specified one |
| CopyBits.RangeCopied | src/bitstrings.c:628-833 | The bits of the range are those of the source, and no bit before the range changes |
| CopyBits.BehindKept | src/bitstrings.c:628-833 | Behind the range no bit changes under the stated condition on the positions |
| CopyBits.BehindChanged | src/bitstrings.c:663-833 | In all other cases there are strings for which a bit behind the range changes |
| Bitstrings.VCopyBits | src/bitstrings.c:837-1070 | For legal strings: exactly the specified error, or the splice of both strings plus exactly the bits that leak |
| Bitstrings.SplicedIff | src/bitstrings.c:960-1061 | The result is the plain splice if and only if no bit leaks |
| Bitstrings.LeakExample | src/bitstrings.c:663-679 | A concrete call that passes all checks of its arguments, and whose result has a bit from behind the range |
| Bitstrings.LastBit | src/bitstrings.c:61-97 | The result is the number of the last set bit, or -1, if and only if the last character that is not blank has one of the six bits, is the first one, or follows one whose last bit is set; so for all legal strings |
| Bitstrings.LastNumberIff | src/bitstrings.c:61-97 | The same of the number that is computed, for all strings |
| Bitstrings.IllegalMisleads | src/bitstrings.c:61-97 | A string for which bit 5 is reported, though only bit 0 is set |
| Bitstrings.NextBit | src/bitstrings.c:489-580 | The next wanted bit behind the start, or -1 if there is none; an error exactly if an illegal character comes first |
| EdBuffer.EdBuffer.GetPtr | src/ed.c:1304-1349 | Whichever of the four walks is taken, the result is the line with that number, counted round the ring |
| EdBuffer.EdBuffer.InsertLine | src/ed.c:1470-1487 | A new line is linked in behind the current one and becomes current |
| EdBuffer.EdBuffer.Ins | src/ed.c:1455-1491 | A string of several lines is inserted as its lines, in order; the cursor is on the last |
| EdBuffer.EdBuffer.Del | src/ed.c:594-621 | Exactly the range is taken out; the cursor is on the line before |
| EdBuffer.EdBuffer.Move | src/ed.c:1547-1580 | The block is moved behind the line, in either direction, or refused if the line is in the block; the cursor is on its last line |
| EdBuffer.EdBuffer.Transfer | src/ed.c:1583-1630 | A copy of the block goes behind the line, also behind a line of the block itself, and the original lines stay |
| EdBuffer.EdBuffer.Join | src/ed.c:1495-1545 | The range becomes one line with all the text, or, if that is too long or the range is none, nothing changes |
| EdBuffer.TextEdits | src/ed.c:594-621 | What edits of the ring mean for the text |
| EdBuffer.MoveBack | src/ed.c:1547-1580 | Moving a block back undoes the move |
| EdBuffer.DeleteInserted | src/ed.c:1455-1491 | Deleting the lines that were inserted gives the ring that was there |
| EdBuffer.MoveExchanges | src/ed.c:1547-1580 | A move exchanges two neighbouring blocks |
| EdTabs.Detab | src/ed.c:1897-1945 | Every tab becomes blanks up to the next tab stop, or the line is too long; all writes are inside the buffer if and only if the expanded line does not just fill it |
| EdTabs.Tab | src/ed.c:1955-2036 | The loop with column and blank counters computes the specified line; all writes are inside the buffer if and only if that line does not fill it |
| EdTabs.ExpandStops | src/ed.c:1897-1945 | Each tab is expanded to between one blank and a tab stop of them, up to the next tab stop, and each other character to itself |
| EdTabs.TabbedTight | src/ed.c:1955-2036 | In the tabbed line no two blanks reach up to a tab stop, and no blank stands before a tab unless it ends at a tab stop itself |
| EdTabs.ExpandedFills | src/ed.c:1897-1945 | One tab with tab stops as far apart as the buffer is long, and as many blanks with any tab stops, just fill the buffer |
| EdTabs.TabbedFills | src/ed.c:1955-2036 | A line of the greatest length without blanks and tabs is not shortened |
| EdTabs.TabbedLooksTheSame | src/ed.c:1955-2036 | Expanding the tabbed line gives the expanded line but for fewer than a tab stop of blanks at its end; the tabbed line is not longer |
| EdTabs.NothingMissingIff | src/ed.c:2028-2036 | Nothing is missing if and only if the line does not end in a blank or its expanded length is a multiple of the tab size |
| EdTabs.BlankLost | src/ed.c:2028-2036 | A line of two characters whose blank is lost |
| EdTabs.TabbedTwice | src/ed.c:1897-2036 | Both conversions are idempotent |
| EdTabs.TabConversion | src/ed.c:2045-2086 | Exactly the lines of the range are converted, all others stay, no line becomes longer than the limit, and all writes are inside the buffers if and only if no converted line of the range just fills one |
| EdGlobal.MarkLines | src/ed.c:510-572 | Exactly the lines of the range that match the pattern, or those that do not, are marked; a faulty pattern is an error exactly if it meets a line |
| EdGlobal.DoCommand | src/ed.c:2671-2940 | Deleting, changing, joining, moving and copying the lines named by any addresses, with their defaults and refusals, give the text with its marks, the current line and the outcome that are specified for the command, keep the ring and the cursor in step and never mark a line |
| EdGlobal.DeleteHere | src/ed.c:2702-2712 | Deleting without addresses leaves all other lines in their order, and the next one, if there is one, becomes current |
| EdGlobal.NamedLinesGone | src/ed.c:2671-2712 | Whatever the addresses are, deleting and changing take out exactly the lines named; changing then fails |
| EdGlobal.RefusedKeeps | src/ed.c:2671-2940 | A command that fails changes nothing, except when it was to change lines |
| EdGlobal.JoinHere | src/ed.c:1495-1545 | Joining without addresses puts the next line behind the current one; it fails if and only if there is none or the line gets too long, and then nothing changes |
| EdGlobal.JoinKeepsText | src/ed.c:1495-1545 | Joining any lines keeps the whole text, read on over line ends, whether it succeeds or not |
| EdGlobal.PlacedBehindTarget | src/ed.c:1547-1630 | Moved and copied lines stand directly behind the target line, the last of them being current, the others are as before, and a move keeps all lines with their marks |
| EdGlobal.GlobalTurn | src/ed.c:3119-3128 | One turn runs the command with the marked line current, giving the text, current line and outcome specified for that, and takes exactly the mark of its line away; other marks change only with their lines, and lines that are gone do not come back |
| EdGlobal.DoGlob | src/ed.c:3096-3131 | The loop ends, whatever the command does to the text; each line has at most one turn, only lines marked at the start have one, and on success every marked line has had its turn or is gone; the text is the one reached by running the command at the first marked line again and again, on failure that of the turn that failed |
| EdGlobal.GlobalDelete | src/ed.c:3096-3131 | Deleting every marked line succeeds and leaves exactly the lines without a mark, in their order |
| EdGlobal.GlobalReverses | src/ed.c:3096-3131 | Moving every marked line to the front succeeds and puts them there in reverse order, the others following in theirs |
| EdGlobal.GlobalJoinKeepsText | src/ed.c:3096-3131 | Joining lines for every marked one keeps the whole text, wherever it stops |

## Left out

- Bytecode: where the interpreter would read a slot behind the frame, a value that is not there, or code behind the end, the model stops without a result; the driver goes on with what it finds there. References passed as arguments are left out.
- LambdaCompile.Compile: of the tree forms it covers numbers and other values, locals, efuns of fixed arity with one-byte codes, `,`, `!`, `&&`, `||`, `&&=`, `||=`, assignment to locals, `?`, `?!`, `do` and `while`. Indexing and range lvalues, the other assignment operators, efuns with default arguments, simul efuns, lfuns, `foreach`, `catch`, `sscanf` and aggregates are left out: more cases of the same pattern.
- LambdaCompile.Compile: a reference to a local is never refused, and of the flags that are handed back only void and negation are modelled.
- LambdaWork.BindArguments: arguments that are no symbols, which are an error, are left out.
- Growing the value block, which moves the values in memory, the hash table of symbols and running out of memory are left out; a symbol is looked up in the list of symbols.
- Bytecode: short integers are stored high byte first; the driver uses the byte order of the host.
- SwitchCases.StoreCaseLabels: labels are numbers; string labels differ only in the key. The alignment of the tables (align_switch) and their raw layout are left out, offsets in the tables v and o are integers, and key spans are unbounded (the only span that would wrap is at the last entry, where no table follows).
- Sentences.CommandGiver.AddAction: permission checks, the translation of flags into kinds of actions, and verbs with a space in them are left out.
- Sentences.CommandGiver.RemoveActionSent: the driver reads the owner of a shadow sentence as well, and finds the object that shadows the command giver (src/sent.h:70-123), so it would remove the shadow sentence if that object were the owner. Its callers rule that out: an object that shadows another cannot be moved (src/object.c:5161), and is taken out of the chain of shadows before it is destructed (src/simulate.c:2598-2627). Here a shadow sentence has no owner. The search theorem lets it go at any time.
- Commands.Driver.ParseCommand: the hooks that may replace the verb or the command, special verbs, notify_fail, the error message and statistics are left out; the command giver is not destructed in the middle of a command. What called functions do is a finite tree of acts and nested commands.
- Two command givers are never searched in a nested way; each list is modelled for itself.
- LookupKey.LookupKey: values are ordered by a rank, which stands for svalue_cmp; values of equal rank are equal.
- ElementMatch.MatchArrays: the vectors are sane already, as `ArrayOrder.SanitizeArray` makes them; reference counts and sharing of results are left out everywhere.
- SortArray.SortArray: sorting a copy or the vector itself is up to the caller; the model sorts the vector it is given.
- Explode.ExplodeString: strings are sequences of characters; out of memory is left out.
- CallList.CallQueue.CallOut: errors in the function designation are left out, and delays are unbounded integers.
- DueCalls.MakeDueCalls: the choice of the command giver for a call, tracing and messages are left out; what all called functions schedule in one cycle is finite.
- Bitstrings.VCopyBits: the efuns that set, clear, count, and combine bits are left out, being simple loops; argument values at the limits of an integer, where an addition would wrap, are not modelled.
- EdBuffer.EdBuffer.Del: the range lies in the text, as the callers make sure; a range beyond the last line would spoil the line count.
- EdBuffer.EdBuffer.Join: the buffer limit is modelled; bookmarks, reading and writing of files, substitution by regular expressions, printing and indentation are left out of the editor.
- EdGlobal.DoCommand: the commands that delete, change, append, join, move and copy; the others change no line or go beyond this model. Addresses are functions of the current and the last line.

# Nexl: printer, evaluator, memory passes, modules

Nexl is a Lisp with a pretty-printer, a tree-walking evaluator, a reference-counting compiler back end and a module
system. This Dafny project models those parts and proves what they are for.

- **Printer.** `FlatPrinter` gives the meaning of printing as a token sequence. `WidthMeasure` is the measure that decides
  between layouts. `LayoutPrinter` holds the flat printer and the eleven layout engines as they run, appending to an
  `OutputBuffer.Buffer`; each is proved to emit the tokens of the flat printer. `LayoutTheorems` turns that into a statement
  about texts. `DelimiterScanners` and `Interpolation` are the two hand-written scanners that read printed text back;
  `ScannerLaws` says what each does to plain texts.
- **Reader.** `Reader` is the lexer and the reader as functions from text to trees. `AtomReading` proves which atoms are read
  back from their own text, and `ReadBack` which trees: whatever layout the printer chooses, its text reads as the tree.
- **Evaluator.** `Semantics` says what evaluation computes, as functions from the environment before to the outcome and the
  environment after. `Evaluator.Interpreter` is the evaluator as it runs: environments updated in place, accumulators,
  index-driven loops, one call-depth counter. Every method is proved to compute what its namesake in `Semantics` says, and
  to restore the depth. `Simulation` is the induction over the whole language, `Tame` and `TameRuns` are a
  second one over code whose `recur` stays in its own function, and `EvaluatorTheorems` is what follows. `Patterns`, `Scopes`
  and `SpecialForms` are the parts these share. `ForLaws`, `CallLaws`, `FormLaws` and `MatchLaws` say what the language
  means as laws between written programs: `for` clauses, calls of closures, the other forms, and pattern matching.
- **Memory passes.** `ReuseAnalysis` and `DropInsertion` over the administrative normal form of `AnfIr`. `ReuseSizes` says
  what a reuse token promises in terms of stored fields. `HeapSafety` runs their output on a heap machine where a called
  function may return anything its arguments reach.
- **Modules.** `Discovery` (the search for modules), `ModuleGraph` (the topological sort and `eval_modules`) and `ModuleEval`
  (imports, forms, exports, for any evaluator of forms); `ModuleLaws` says name by name what imports
  bind and modules export, and `ModuleRuns` puts the evaluator of `Semantics` in.
- **Runtime.** `Arithmetic`, `NestedUpdates` and `Values` for the standard library, `Evidence` for effect handlers.

Run `dafny verify dfyconfig.toml`.

Some properties hold only on part of the inputs; the condition is then part of the statement.

- Layout loses tokens outside *paired* forms: with aligned columns `cond` clauses and `match` arms in pairs (a dangling item
  is harmless while there is at most one complete pair); let-else vectors of complete groups without `mut`; no `deftype` that
  ends in a pipe symbol; and no comments on a let-else or aligned binding vector, on the pipe symbols of a let-else or of
  `deftype` variants, or on the maps of a `deftype` record. `LayoutTheorems.LossyForms` shows that the condition is exact.
- Printing is inverted by reading for *readable* trees (`ReadBack.Readable`), and not for the rest. `(? name)` prints as
  `name?`, which is one symbol (`ReadBack.QuestionMerges`), and `~` before `@` prints as the mark `~@`
  (`ReadBack.UnquoteMerges`). Among trees whose tokens can be told apart, those not read back are exactly the ones with the
  symbol `?` first in an item other than the first, with an `expr?` as the operand of a mark, or with a `#_` directly under
  `#_` or `?` (`ReadBack.RenderingReadsBack`). Among atoms, other than floats, they are numbers out of range, ratios not
  reduced, the characters `u`, carriage return, brackets and quote, names the lexer does not take for names, and strings with
  single braces that are no hole or with a hole that holds an escaped character (`AtomReading.AtomReadsBack`).
- Drop insertion is safe, for every behaviour of the called functions, exactly when no variable the tail mentions may hold a
  dropped cell (`HeapSafety.DropInsertionSafe`). Copying a heap variable breaks that (`HeapSafety.CopiedReturnUnsafe`), and
  so does a called function that returns its argument (`HeapSafety.ReturnedByCallUnsafe`).
- A let-else equals its nested `match` when the first value defines nothing, since `let` evaluates it one scope further in
  (`EvaluatorTheorems.LetElseDropsDefinition`). Inside a loop no value may let a `recur` out of a called function, since
  `match` passes the loop frame to its scrutinee and `let` does not (`EvaluatorTheorems.LetElseStopsRecur`).
- In a `let`, `mut` makes no difference (`FormLaws.LetBinds`). In the `:let` of a `for` the vector must be even before `mut`
  is skipped, so one `mut` is an error and two are not (`ForLaws.MutRefused`, `ForLaws.MutInPairs`).
- Module order does not matter when `set!` is confined to function bodies (`ModuleRuns.SetlessOrderIndependent`). It does
  matter for a module that assigns to a name of the base environment, which all modules share
  (`ModuleRuns.SetBangBreaksIndependence`).
- Nexl's own documentation says that `recur` jumps to the nearest loop or function boundary and stands in tail position
  only. The evaluator has no function boundary for `recur`, does not check its position, and passes the caller's loop frame
  into function bodies, so `recur` in a function called inside a loop continues the caller's loop
  (`EvaluatorTheorems.RecurCrossesCalls`). The model follows the code. The boundary does hold for *tame* functions and values,
  all of whose code keeps every `recur` in a loop of its own function body (`TameRuns.TameEnter`).

## Model

| member | source | states |
|---|---|---|
| `LayoutPrinter.WriteStr` | crates/nexl-ast/src/printer.rs:1561-1574 | the escaping loop yields the quoted literal in which exactly `"`, `\`, newline, tab and carriage return are escaped |
| `LayoutPrinter.WriteNode` | crates/nexl-ast/src/printer.rs:1084-1099 | appends exactly the flat token sequence of the node, comments included, and its text, to whatever the buffer held |
| `LayoutPrinter.WriteKind` | crates/nexl-ast/src/printer.rs:1101-1166 | appends exactly the flat token sequence of the node kind and its text |
| `LayoutPrinter.WriteSep` | crates/nexl-ast/src/printer.rs:1488-1495 | the items with one gap between neighbours and none at the ends |
| `WidthMeasure.AtomWidthExact` | crates/nexl-ast/src/printer.rs:1226-1294 | the width table of atoms is the number of bytes printed if and only if the atom is ASCII text, or a named, graphic or four-digit character |
| `WidthMeasure.FlatLenExact` | crates/nexl-ast/src/printer.rs:137-149 | the width of a node is `MAX` for exactly the trees with a blocking cause (or wider than a `usize`), and otherwise the number of bytes that flat printing emits |
| `WidthMeasure.FlatLenKindExact` | crates/nexl-ast/src/printer.rs:151-194 | the same for a node kind; the blocking causes are a leading comment, a newline string, a map of two or more pairs and a forced multi-line form, anywhere inside |
| `WidthMeasure.FlatLenSeqExact` | crates/nexl-ast/src/printer.rs:1297-1313 | the same for a sequence with its delimiters |
| `LayoutTheorems.UnblockedOneLine` | crates/nexl-ast/src/printer.rs:151-194 | in a tree without a blocking cause every token, trailing comments included, stays on its line |
| `LayoutTheorems.FlatLineFits` | crates/nexl-ast/src/printer.rs:199-219 | whenever `write_node_indented` takes its flat branch, the line after the leading comments, trailing comment included, has no line break and ends within the line width |
| `LayoutPrinter.CollectLetBindingGroups` | crates/nexl-ast/src/printer.rs:33-61 | the groups found, laid end to end, are the binding vector without `mut`, without an incomplete last group, without a pipe symbol that lacks its fallback, and without comments on the other pipe symbols |
| `LayoutPrinter.RegroupedAll` | crates/nexl-ast/src/printer.rs:33-61 | grouping keeps the vector unchanged if and only if it consists of complete groups without `mut` and without comments on pipe symbols |
| `LayoutPrinter.RegroupedThinned` | crates/nexl-ast/src/printer.rs:33-61 | grouping only leaves out nodes and comments of nodes: it neither invents nor reorders anything |
| `LayoutPrinter.KeptAll` | crates/nexl-ast/src/printer.rs:298-850 | for either setting of column alignment, a list engine prints all items and comments, and no gap too many, if and only if the form is paired for that setting |
| `LayoutPrinter.WriteNodeIndented` | crates/nexl-ast/src/printer.rs:199-237 | for every printable node, indent, column and configuration, the tokens appended are those of flat printing, comments included; only the white space between tokens and around comment lines is free |
| `LayoutPrinter.WriteKindIndented` | crates/nexl-ast/src/printer.rs:239-295 | the same for a node kind, dispatching to collection, map, list and string layouts |
| `LayoutPrinter.WriteListIndented` | crates/nexl-ast/src/printer.rs:298-331 | whichever of the eight list engines the head symbol selects, the tokens appended are those the form emits |
| `LayoutPrinter.WriteBodyForm` | crates/nexl-ast/src/printer.rs:335-371 | the body layout appends the tokens of the whole list |
| `LayoutPrinter.WriteLetForm` | crates/nexl-ast/src/printer.rs:374-413 | the `let` and `loop` layout appends the tokens of the list; a let-else vector is regrouped, and the comments of a let-else or aligned vector itself are dropped |
| `LayoutPrinter.WriteLetElseBindings` | crates/nexl-ast/src/printer.rs:419-458 | the let-else layout appends the tokens of the regrouped vector, whatever the alignment width |
| `LayoutPrinter.WriteBindingVectorAligned` | crates/nexl-ast/src/printer.rs:461-515 | the aligned binding vector appends the complete name/value pairs; a last name without a value is dropped |
| `LayoutPrinter.WriteIfForm` | crates/nexl-ast/src/printer.rs:518-540 | the `if` layout appends the tokens of the whole list |
| `LayoutPrinter.WriteClauses` | crates/nexl-ast/src/printer.rs:543-626 | the clause loop of `cond` and `match` appends the complete pairs, and a dangling item only when columns are not aligned |
| `LayoutPrinter.WriteMatchForm` | crates/nexl-ast/src/printer.rs:629-720 | the `match` layout appends scrutinee and arms, under the same rule for a dangling item |
| `LayoutPrinter.WriteModuleForm` | crates/nexl-ast/src/printer.rs:727-767 | the `module` layout appends the tokens of the whole list |
| `LayoutPrinter.WriteDeftypeForm` | crates/nexl-ast/src/printer.rs:785-850 | the `deftype` layout appends head, name and body; it drops the comments of pipe symbols before variants, or of record maps, and adds a gap exactly when the list ends in a dangling pipe symbol |
| `LayoutPrinter.WriteCallForm` | crates/nexl-ast/src/printer.rs:854-882 | the call layout appends the tokens of the whole list |
| `LayoutPrinter.WriteCollectionIndented` | crates/nexl-ast/src/printer.rs:885-947 | vectors and sets, hiccup layout included, append opening delimiter, items and closing delimiter |
| `LayoutPrinter.WriteMapIndented` | crates/nexl-ast/src/printer.rs:950-1022 | maps append every key and value in order, flat or one pair a line |
| `LayoutPrinter.WriteMapAlwaysAligned` | crates/nexl-ast/src/printer.rs:1029-1082 | the forced map layout appends the same tokens |
| `LayoutTheorems.RenderingsAgree` | crates/nexl-ast/src/printer.rs:199-1082 | two renderings of one token sequence with different white space squeeze to the same text: white space inside literals is never touched, white space between tokens never matters |
| `LayoutTheorems.Print` | crates/nexl-ast/src/printer.rs:114-118 | printing one node gives its flat text |
| `LayoutTheorems.PrintIndented` | crates/nexl-ast/src/printer.rs:199-1082 | from every indent and column, the indented text is a rendering of the flat tokens; without comments and newline strings it equals the flat text once white space between tokens is squeezed |
| `LayoutTheorems.PrintFile` | crates/nexl-ast/src/printer.rs:124-134 | a file is a rendering of its top-level forms in order, separated by gaps and closed by one |
| `LayoutTheorems.LossyForms` | crates/nexl-ast/src/printer.rs:298-850 | for either setting of column alignment, a list emits its flat tokens if and only if it is paired; every other `cond`, `match`, `let`, `loop` or `deftype` loses or gains tokens |
| `AtomReading.AtomReadsBack` | crates/nexl-reader/src/lexer.rs:216-428 | whatever the letters beyond ASCII, an atom other than a float is read back from its own text if and only if it is readable: numbers in their range and ratios reduced, strings that fold, characters other than `u`, a carriage return and brackets, and names that the lexer takes for names |
| `AtomReading.AtomLexes` | crates/nexl-reader/src/lexer.rs:374-428 | a readable atom is read back, suffix, escapes and namespace included, and the lexer stops at its end whatever may follow it there |
| `AtomReading.FloatReadsBack` | crates/nexl-reader/src/lexer.rs:506-551 | a float with a sign, digits, a point and digits is read back with its suffix when those digits are how its value is printed |
| `AtomReading.StringReads` | crates/nexl-reader/src/lexer.rs:652-760 | lexing the escaped text of a string gives the string back if and only if it folds: literal braces doubled, and no interpolation hole with a character that printing escapes |
| `AtomReading.CharReads` | crates/nexl-reader/src/lexer.rs:1134-1247 | lexing the text of a character gives it back if and only if it is neither `u`, nor a carriage return, nor structural |
| `ReadBack.RenderingReadsBack` | crates/nexl-reader/src/reader.rs:229-380 | any text that renders the flat tokens of a spellable tree, in whatever layout, is read back as that one tree if and only if the tree is well placed: no `?` where it would be taken for a mark, no `expr?` as operand of a mark, no nested `#_` |
| `ReadBack.FileReadsBack` | crates/nexl-reader/src/reader.rs:18-29 | a file of such trees is read back as the trees, in order |
| `ReadBack.FormatAndRead` | crates/nexl-ast/src/printer.rs:199-1082 | printing a readable tree from any indent and column, then reading, gives the tree back |
| `ReadBack.FormatFileAndRead` | crates/nexl-ast/src/printer.rs:124-134 | printing a file of readable trees, then reading, gives the trees back |
| `ReadBack.PrintReadsBack` | crates/nexl-ast/src/printer.rs:114-118 | the flat text of a spellable tree is read back as the tree if and only if it is well placed |
| `ReadBack.QuestionMerges` | crates/nexl-reader/src/reader.rs:544-577 | a list of `?` and a name prints as one symbol, so it is read back as that symbol |
| `ReadBack.UnquoteMerges` | crates/nexl-reader/src/lexer.rs:216-428 | an unquoted `@` form prints as the mark `~@`, so it is read back as a splice |
| `DelimiterScanners.NodeEnclosed` | crates/nexl-ast/src/printer.rs:1101-1166 | from any clean scanner state, the text of a printed node never closes a delimiter opened before it and leaves the state as it was |
| `DelimiterScanners.DelimitersBalanced` | crates/nexl-cli/src/main.rs:1506-1564 | the counters, flags and early exits compute the completeness answer of the scanning automaton on the whole text |
| `DelimiterScanners.ReplAgreesWithPrinter` | crates/nexl-cli/src/main.rs:1367-1370 | a printed comment-free node is complete, and no non-empty proper prefix of it is, if and only if it is a bracketed form (not `expr?`) or one character long |
| `Interpolation.FindInterpolationEnd` | crates/nexl-eval/src/eval.rs:187-227 | finds the first `}` outside strings with all three counters at zero, or none when there is none |
| `Interpolation.EndOfEnclosed` | crates/nexl-eval/src/eval.rs:187-227 | on a self-contained text followed by `}` the search stops exactly at its end |
| `Interpolation.ReadPiece` | crates/nexl-eval/src/eval.rs:137-182 | one round of the interpolation loop yields the next piece and position for every character, doubled brace, unterminated and unreadable interpolation |
| `Interpolation.InterpolationInvertsTemplate` | crates/nexl-eval/src/eval.rs:127-185 | cutting the text of a template gives back its literal characters and its expressions, in order |
| `Interpolation.NoBraces` | crates/nexl-eval/src/eval.rs:128-130 | without braces the loop would yield the string itself, as the fast path does |
| `EvaluatorTheorems.TemplateEvaluates` | crates/nexl-eval/src/eval.rs:127-185 | a string literal written as a template evaluates to its literals and the texts of its values, joined in order, with every effect and error of the expressions in order; fast path included |
| `ScannerLaws.CommentSkipped` | crates/nexl-cli/src/main.rs:1514-1539 | the completeness scan treats a comment like the line break that ends it |
| `ScannerLaws.StringSkipped` | crates/nexl-cli/src/main.rs:1522-1534 | what stands in a string literal, escapes included, does not matter to the scan |
| `ScannerLaws.BracketsCounted` | crates/nexl-cli/src/main.rs:1536-1563 | without strings and comments a text counts as complete if and only if the opening and closing brackets of each kind are equally many, or more of one kind close than open in some prefix |
| `ScannerLaws.UnclosedBraces` | crates/nexl-eval/src/eval.rs:138-148 | without a closing brace, single opening braces stand for themselves |
| `ScannerLaws.UnopenedBraces` | crates/nexl-eval/src/eval.rs:168-176 | without an opening brace, single closing braces stand for themselves |
| `ScannerLaws.UnreadableKept` | crates/nexl-eval/src/eval.rs:149-167 | braces around a text that does not read as one form are kept, with the text |
| `ScannerLaws.ReadableEmbeds` | crates/nexl-eval/src/eval.rs:127-185 | with the modelled reader, the printed text of every readable form can be embedded in a string literal |
| `Patterns.ParsePattern` | crates/nexl-ast/src/pattern.rs:51-80 | the recursive parser with its push loops computes the pattern a node denotes, or the first error in order |
| `Patterns.ParseListPattern` | crates/nexl-ast/src/pattern.rs:106-136 | the same for lists: alternatives under the pipe symbol, otherwise a constructor |
| `Patterns.ParsedExpressible` | crates/nexl-ast/src/pattern.rs:51-136 | every parsed pattern is expressible: no alias, at least two alternatives, and no variable that would read as a wildcard or a constructor |
| `Patterns.PatternRoundTrip` | crates/nexl-ast/src/pattern.rs:51-136 | parsing the written form of a pattern gives the pattern back if and only if it is expressible |
| `Patterns.MatchPattern` | crates/nexl-eval/src/eval.rs:562-650 | with the shared accumulator: success appends exactly the bindings of the match, failure keeps what was there, and a failed alternative leaks nothing into a later success |
| `Patterns.MatchAlternatives` | crates/nexl-eval/src/eval.rs:627-636 | the first alternative that fits decides, with its own bindings |
| `Patterns.MatchBindsNames` | crates/nexl-eval/src/eval.rs:562-650 | a successful match without alternatives binds the pattern's names in order, whatever the value |
| `MatchLaws.FitsIsBuilt` | crates/nexl-eval/src/eval.rs:562-650 | a pattern without wildcards, records and alternatives fits a value with given bindings if and only if the value is what the pattern builds from them and the bindings list its variables in order |
| `MatchLaws.LiteralFits` | crates/nexl-eval/src/eval.rs:653-675 | a literal pattern fits exactly the value it denotes, and binds nothing |
| `MatchLaws.WildcardFits` | crates/nexl-eval/src/eval.rs:564 | `_` fits everything and binds nothing |
| `MatchLaws.AliasFits` | crates/nexl-eval/src/eval.rs:638-648 | an alias pattern fits when the inner one does, and adds the whole value |
| `MatchLaws.RecordFits` | crates/nexl-eval/src/eval.rs:591-610 | a record pattern fits a map that has, under each keyword, a value that fits, with the bindings in field order |
| `MatchLaws.RecordFails` | crates/nexl-eval/src/eval.rs:591-610 | it fails for other values, for a missing key and for a field that does not fit |
| `MatchLaws.AlternativeFits` | crates/nexl-eval/src/eval.rs:627-636 | the first alternative that fits decides, and none when all fail |
| `Scopes.LookupFlatten` | crates/nexl-eval/src/lib.rs:86-94 | chained lookup is lookup in the flattened chain |
| `Scopes.AssignFlatten` | crates/nexl-eval/src/lib.rs:122-131 | `set` succeeds exactly on visible names and changes the visible value of that name only |
| `Scopes.SimilarAssign` | crates/nexl-eval/src/lib.rs:122-131 | `set` keeps two chains that cannot be told apart indistinguishable, frame by frame |
| `Scopes.SimilarDefineAll` | crates/nexl-eval/src/lib.rs:65-67 | so does defining names, when both have a frame of their own |
| `Scopes.FlattenDefineAll` | crates/nexl-eval/src/lib.rs:134-147 | a capture after definitions is the capture before them with the new names on top, nearest wins |
| `Evaluator.Env.DefineEach` | crates/nexl-eval/src/eval.rs:449-456 | the loop over matched bindings defines them all, later ones winning, in the innermost frame only |
| `FormLaws.DefinedSeen` | crates/nexl-eval/src/lib.rs:65-94 | a defined name is seen with its value and no other name changes |
| `FormLaws.AssignedNearest` | crates/nexl-eval/src/lib.rs:122-131 | assignment changes the name in the nearest frame that has it, and nothing else |
| `SpecialForms.ParseParams` | crates/nexl-eval/src/eval.rs:1187-1214 | the parameter loop, including the rest parameter and its errors in source order |
| `SpecialForms.ScanContracts` | crates/nexl-eval/src/eval.rs:1403-1441 | the contract loop: last `:requires` and `:ensures` win, `:examples` are skipped, and the body starts after the last clause |
| `SpecialForms.NextBinding` | crates/nexl-eval/src/eval.rs:413-441 | the index arithmetic of the `let` loop: `mut`, pattern, value, and the pipe symbol with its fallback, or a missing part |
| `Semantics.Eval` | crates/nexl-eval/src/eval.rs:58-80 | for every node, environment and fuel: `Recur` comes back only under a loop frame and then with one value per loop name; the environment keeps its height; without `set!` and interpolation outside function bodies its outer frames come back unchanged, and without `def` and `defn` too the whole environment does |
| `Semantics.EvalBody` | crates/nexl-eval/src/eval.rs:468-476 | the same for bodies, so the arity test of `eval_loop` on a `Recur` can never fail |
| `Semantics.EvalRecur` | crates/nexl-eval/src/eval.rs:1553-1577 | the same for `recur` itself |
| `Semantics.Rounds` | crates/nexl-eval/src/eval.rs:1533-1550 | a loop never lets a `Recur` out, whatever its body does |
| `Semantics.EvalApply` | crates/nexl-eval/src/eval.rs:1893-2059 | the same for calls, although the caller's loop frame reaches arguments and function bodies |
| `Semantics.Enter` | crates/nexl-eval/src/eval.rs:2014-2058 | a function body can produce a `Recur` only for the caller's loop, with that loop's arity; an early return becomes the value of the call |
| `Semantics.ApplyValue` | crates/nexl-eval/src/eval.rs:2061-2174 | a call on values never produces a `Recur` |
| `Semantics.ForRows` | crates/nexl-eval/src/eval.rs:1723-1828 | the rows of a comprehension: a failed `:while` yields no row of its own and never reaches past the nearest generator |
| `ForLaws.NoClauses` | crates/nexl-eval/src/eval.rs:1730-1741 | `(for [] body)` is the vector of the one value of the body |
| `ForLaws.WhenFirst` | crates/nexl-eval/src/eval.rs:1743-1757 | `(for [:when test clauses] body)` is `(for [clauses] body)` when the test is true and `[]` when it is false |
| `ForLaws.WhileFirst` | crates/nexl-eval/src/eval.rs:1758-1772 | the same for a leading `:while` that is not inside a generator |
| `ForLaws.LetFirst` | crates/nexl-eval/src/eval.rs:1773-1781 | `(for [:let [name value] clauses] body)` is `(for [clauses] body)` in a child environment with the name defined |
| `ForLaws.MutRefused` | crates/nexl-eval/src/eval.rs:1830-1842 | one `mut` in a `:let` vector makes it odd, which is an error |
| `ForLaws.MutInPairs` | crates/nexl-eval/src/eval.rs:1830-1842 | two of them change nothing |
| `ForLaws.GeneratorFirst` | crates/nexl-eval/src/eval.rs:1782-1825 | `(for [name source clauses] body)` joins, for the elements of the source in order, the rows of `(for [clauses] body)` with the name bound to the element |
| `ForLaws.GeneratorWhile` | crates/nexl-eval/src/eval.rs:1816-1824 | with `:while test` after the generator it joins them for the longest prefix of elements where the test is true |
| `ForLaws.WhenKeeps` | crates/nexl-eval/src/eval.rs:1743-1757 | `(for [name source :when test] body)` is the body's values at exactly the elements where the test is true, in order |
| `ForLaws.WhileTakes` | crates/nexl-eval/src/eval.rs:1758-1772 | `(for [name source :while test] body)` is the body's values at the longest prefix of elements where the test is true |
| `ForLaws.InnerWhile` | crates/nexl-eval/src/eval.rs:1758-1824 | with two generators, a failed `:while` ends the inner one only: the outer one goes on |
| `ForLaws.LetSeen` | crates/nexl-eval/src/eval.rs:1773-1781 | with `:let [bound value]` the body of every row sees the bound value |
| `CallLaws.FnMakes` | crates/nexl-eval/src/eval.rs:1176-1230 | `(fn [params & rest] body)` makes a closure over all visible bindings, with those parameters and that body |
| `CallLaws.FnApplies` | crates/nexl-eval/src/eval.rs:2061-2174 | applied to arguments it is the body's outcome in the visible bindings of its definition, with each parameter standing for its argument and the rest name for the vector of the others; an early return is its value |
| `CallLaws.FnRefuses` | crates/nexl-eval/src/eval.rs:2082-2090 | a call too deep is a stack overflow, and one with another number of arguments an arity error |
| `CallLaws.CaptureSeen` | crates/nexl-eval/src/eval.rs:2101-2103 | `((fn [] x))` is what `x` was where the function was made |
| `CallLaws.ParameterHides` | crates/nexl-eval/src/eval.rs:2119-2122 | `((fn [x] x) v)` is `v`, whatever `x` was |
| `CallLaws.DefnMakes` | crates/nexl-eval/src/eval.rs:1377-1497 | `(defn name [params] :requires [pre] :ensures [post] body)` defines a named closure with those contracts, parameters and body |
| `CallLaws.DocstringIgnored` | crates/nexl-eval/src/eval.rs:1392-1400 | a `defn` with a docstring is the `defn` without it |
| `CallLaws.ExamplesIgnored` | crates/nexl-eval/src/eval.rs:1429-1439 | `:examples` changes nothing |
| `CallLaws.LastClauseCounts` | crates/nexl-eval/src/eval.rs:1409-1441 | of two `:requires` clauses, or two `:ensures` clauses, the second counts |
| `CallLaws.PreconditionFails` | crates/nexl-eval/src/eval.rs:2131-2142 | when the first false precondition is reached, the call panics and the body is not evaluated; a named function sees itself and its arguments there |
| `CallLaws.ContractDecides` | crates/nexl-eval/src/eval.rs:2131-2174 | when the preconditions hold the outcome is that of the body; a value counts only when the postconditions hold where `result` is that value |
| `FormLaws.IfDecides` | crates/nexl-eval/src/eval.rs:498-523 | `(if test yes no)` is `yes` for true, `no` for false, and an error for any other value |
| `FormLaws.AndIsIf` | crates/nexl-eval/src/eval.rs:677-699 | `(and a rest)` is `(if a (and rest) false)`, and `(and a)` is `(if a true false)` |
| `FormLaws.OrIsIf` | crates/nexl-eval/src/eval.rs:701-722 | `(or a rest)` is `(if a true (or rest))`, and `(or a)` is `(if a true false)` |
| `FormLaws.CondIsIf` | crates/nexl-eval/src/eval.rs:724-758 | `(cond test result rest)` is `(if test result (cond rest))`, with `unit` at the end |
| `FormLaws.CondElse` | crates/nexl-eval/src/eval.rs:724-758 | `:else` takes its result, whatever comes after |
| `FormLaws.LetBinds` | crates/nexl-eval/src/eval.rs:396-477 | `(let [x e] body)`: the body sees the value of `e` as `x`, in a scope that is dropped; `mut` makes no difference |
| `FormLaws.LetRuns` | crates/nexl-eval/src/eval.rs:396-477 | with several names, every value is evaluated, and the body too, where the names before it are defined |
| `FormLaws.LetTakesApart` | crates/nexl-eval/src/eval.rs:442-466 | with a pattern the body sees its variables; a value that does not fit is an error |
| `FormLaws.MatchFirst` | crates/nexl-eval/src/eval.rs:525-560 | the first arm is taken when its pattern fits; otherwise the other arms decide, and without others no arm fits |
| `FormLaws.LoopRuns` | crates/nexl-eval/src/eval.rs:1499-1551 | a loop is its last round: each round runs the body where the loop names, and nothing else, stand for the values of the `recur` before, each name for its own |
| `FormLaws.RecurContinues` | crates/nexl-eval/src/eval.rs:1553-1577 | `recur` in a loop yields the values of its arguments in order |
| `FormLaws.RecurOutside` | crates/nexl-eval/src/eval.rs:1553-1577 | outside a loop, or with another number of arguments, it is an error |
| `FormLaws.DefDefines` | crates/nexl-eval/src/eval.rs:368-382 | `(def x e)` makes `x` the value of `e`, evaluated outside any loop |
| `FormLaws.SetAssigns` | crates/nexl-eval/src/eval.rs:2176-2191 | `(set! x e)` changes `x` in the nearest frame that has it, and is an error when none has |
| `FormLaws.QuestionUnwraps` | crates/nexl-eval/src/eval.rs:2277-2333 | `Ok` and `Some` give their content, `Err` and `None` leave the function, anything else is an error |
| `FormLaws.PanicTells` | crates/nexl-eval/src/eval.rs:2194-2216 | `(panic e)` fails with the text that `e` evaluates to |
| `FormLaws.NativeCall` | crates/nexl-eval/src/eval.rs:1904-1915 | a native function is given the values of the arguments, in order |
| `FormLaws.KeywordCall` | crates/nexl-eval/src/eval.rs:1866-1891 | a keyword applied to a map is the value under it, or the `None` of `Option` |
| `FormLaws.VectorHolds` | crates/nexl-eval/src/eval.rs:316-366 | vector and set literals hold the values of their items, in order |
| `FormLaws.MapHolds` | crates/nexl-eval/src/eval.rs:332-350 | a map literal holds, under every key, the value of the last entry for it |
| `FormLaws.LiteralMeans` | crates/nexl-eval/src/eval.rs:82-94 | a literal means the value it denotes, which is the one value its pattern fits |
| `FormLaws.NameMeans` | crates/nexl-eval/src/lib.rs:86-94 | a name means what the nearest frame that has it says, and is an error where none has |
| `FormLaws.QualifiedMeans` | crates/nexl-eval/src/eval.rs:98-115 | a qualified name means an export of the module behind the alias |
| `Simulation.SimEval` | crates/nexl-eval/src/eval.rs:65-80 | the induction over the whole evaluator: runs with more fuel, less depth, indistinguishable environments, or (where nothing can jump) another loop frame have the same outcome and indistinguishable environments |
| `Simulation.SimEnter` | crates/nexl-eval/src/eval.rs:2014-2058 | the same for a call, whose outcome does not depend on the caller's environment at all |
| `Simulation.SimRounds` | crates/nexl-eval/src/eval.rs:1533-1550 | the same for any number of loop rounds |
| `Simulation.SimForEach` | crates/nexl-eval/src/eval.rs:1816-1824 | the same for the generator loop of `for` |
| `EvaluatorTheorems.SameRun` | crates/nexl-eval/src/eval.rs:12-39 | a run that keeps within its fuel and depth has the same outcome and environment with more of either, so neither bound is part of a program's meaning |
| `EvaluatorTheorems.SnapshotIsScope` | crates/nexl-eval/src/lib.rs:134-147 | evaluating in the snapshot that a closure captures gives the same outcome and visible bindings as evaluating in the scope itself |
| `EvaluatorTheorems.MatchTakesFirst` | crates/nexl-eval/src/eval.rs:541-559 | `match` runs the first arm that fits; a bad pattern counts only when reached; without a fitting arm it is an error; the environment is not touched by arms that are passed |
| `EvaluatorTheorems.LetElseIsNestedMatch` | crates/nexl-eval/src/eval.rs:396-477 | a let-else with any number of bindings equals the nested `match` with its fallbacks, in outcome and environment, when the first value defines nothing and, inside a loop, no value can let a `recur` out of a call |
| `EvaluatorTheorems.LetElseDropsDefinition` | crates/nexl-eval/src/eval.rs:396-477 | `(let [_ (def y 1) &#124; 2] 3)` and its nested `match` give the same value, but only the `match` leaves `y` defined |
| `EvaluatorTheorems.LetElseStopsRecur` | crates/nexl-eval/src/eval.rs:396-477 | `(let [_ (f) &#124; 2] 3)` inside a loop, where `f` is `(fn [] (recur 1))`, is an error, while its nested `match` continues the loop |
| `EvaluatorTheorems.GeneratorIsComprehension` | crates/nexl-eval/src/eval.rs:1782-1826 | without definitions and assignments a generator joins the rows of its elements, each evaluated in the same environment, up to the first failed `:while` or the first error |
| `EvaluatorTheorems.ApplyIsApplyValue` | crates/nexl-eval/src/eval.rs:1893-2174 | applying a form to arguments that evaluate to values is `apply_value` on those values: outside a loop always, inside one when the body has no call and no `recur`, or the function and its arguments are tame |
| `EvaluatorTheorems.TidyApplyIsApplyValue` | crates/nexl-eval/src/eval.rs:1893-2174 | the same for every tidy application in a tame environment, in or out of a loop |
| `EvaluatorTheorems.RecurCrossesCalls` | crates/nexl-eval/src/eval.rs:2028-2036 | `recur` in a function called inside a loop comes back as a `Recur` for the caller's loop, while outside a loop and on values it is an error |
| `EvaluatorTheorems.DeeperArgs` | crates/nexl-eval/src/eval.rs:1947-2012 | arguments are evaluated under the depth guard, which changes nothing unless a bound runs out |
| `TameRuns.TameEval` | crates/nexl-eval/src/eval.rs:65-80 | the induction over the whole evaluator: tidy code in a tame environment gives tame results and a tame environment, and evaluates as it would outside any loop |
| `TameRuns.TameEnter` | crates/nexl-eval/src/eval.rs:2014-2058 | a call of a tame function on tame values has the outcome it has outside any loop, and never comes back as a `Recur`: the function boundary holds |
| `TameRuns.TameLoop` | crates/nexl-eval/src/eval.rs:1499-1551 | a loop does not see the frame of the loop around it |
| `TameRuns.TameApply` | crates/nexl-eval/src/eval.rs:1893-2059 | a call whose parts are tidy outside loops does not see the caller's loop, whatever its head evaluates to |
| `Evaluator.Interpreter.EnterCall` | crates/nexl-eval/src/eval.rs:25-32 | the guard refuses at 10000 and otherwise adds one, so the depth never exceeds the bound |
| `Evaluator.Interpreter.LeaveCall` | crates/nexl-eval/src/eval.rs:35-39 | dropping the guard takes the one back, saturating at zero |
| `Evaluator.Interpreter.Run` | crates/nexl-eval/src/eval.rs:58-63 | `eval`: the outcome and environment of the semantics, never a `Recur`, with the depth as on entry |
| `Evaluator.Interpreter.Eval` | crates/nexl-eval/src/eval.rs:65-80 | the imperative evaluator computes the semantics on every node, updates the environment in place as it says, and restores the depth on every exit: value, recur, error, early return |
| `Evaluator.Interpreter.EvalStringAtom` | crates/nexl-eval/src/eval.rs:127-185 | the string loop with its output accumulator |
| `Evaluator.Interpreter.EvalList` | crates/nexl-eval/src/eval.rs:229-314 | the dispatch on the head symbol |
| `Evaluator.Interpreter.EvalItems` | crates/nexl-eval/src/eval.rs:316-330 | the value-collecting loop of vectors, sets, calls and `recur` |
| `Evaluator.Interpreter.EvalMap` | crates/nexl-eval/src/eval.rs:332-350 | the entry loop: later entries for a key replace earlier ones in place |
| `Evaluator.Interpreter.EvalBody` | crates/nexl-eval/src/eval.rs:468-476 | the body loop |
| `Evaluator.Interpreter.EvalDef` | crates/nexl-eval/src/eval.rs:368-381 | `def` defines in the innermost frame after its value is evaluated outside any loop |
| `Evaluator.Interpreter.EvalSetBang` | crates/nexl-eval/src/eval.rs:2176-2191 | `set!` assigns in the nearest frame or fails without a change |
| `Evaluator.Interpreter.EvalLet` | crates/nexl-eval/src/eval.rs:396-477 | `let` and let-else in a child environment that is dropped on every exit |
| `Evaluator.Interpreter.EvalLetBindings` | crates/nexl-eval/src/eval.rs:412-465 | the index-driven binding loop with its accumulator of matched pairs |
| `Evaluator.Interpreter.EvalArms` | crates/nexl-eval/src/eval.rs:541-559 | the arm loop of `match` |
| `Evaluator.Interpreter.EvalCond` | crates/nexl-eval/src/eval.rs:724-758 | the clause loop of `cond` |
| `Evaluator.Interpreter.EvalJunction` | crates/nexl-eval/src/eval.rs:677-721 | the short-circuit loops of `and` and `or` |
| `Evaluator.Interpreter.EvalDefn` | crates/nexl-eval/src/eval.rs:1377-1497 | `defn`: docstring, contracts, body and definition, in source order of its errors |
| `Evaluator.Interpreter.EvalLoop` | crates/nexl-eval/src/eval.rs:1499-1551 | `loop` in a child environment that is dropped on every exit |
| `Evaluator.Interpreter.EvalRounds` | crates/nexl-eval/src/eval.rs:1530-1550 | the rebinding loop |
| `Evaluator.Interpreter.EvalRecur` | crates/nexl-eval/src/eval.rs:1553-1577 | `recur` outside a loop, with a wrong count, and with values |
| `Evaluator.Interpreter.EvalForBindings` | crates/nexl-eval/src/eval.rs:1723-1828 | the shared output vector grows by exactly the rows of the comprehension, and the control value says whether a `:while` failed |
| `Evaluator.Interpreter.EvalForElements` | crates/nexl-eval/src/eval.rs:1816-1825 | the generator loop: stops at a failed `:while` and goes on with the enclosing generator |
| `Evaluator.Interpreter.EvalForLetBindings` | crates/nexl-eval/src/eval.rs:1830-1862 | the `:let` loop |
| `Evaluator.Interpreter.EvalApply` | crates/nexl-eval/src/eval.rs:1893-2059 | calls of native functions, keywords and closures, with the depth restored on every exit |
| `Evaluator.Interpreter.ApplyClosure` | crates/nexl-eval/src/eval.rs:1950-2012 | arguments are evaluated one by one into a fresh call environment, which then holds exactly the call frame |
| `Evaluator.Interpreter.ApplyValue` | crates/nexl-eval/src/eval.rs:2061-2174 | the second implementation of calls, on values, agrees with the same semantics |
| `Evaluator.Interpreter.EnterBody` | crates/nexl-eval/src/eval.rs:2014-2058 | preconditions, body, early return and postconditions |
| `ReuseAnalysis.AnalyzeBlockForReuse` | crates/nexl-memory/src/lib.rs:245-279 | the scan with its list of available tokens records exactly the pairing of the greedy specification |
| `ReuseAnalysis.FirstOfSize` | crates/nexl-memory/src/lib.rs:268-275 | the position found is the first token of that size |
| `ReuseAnalysis.ReuseIsLinear` | crates/nexl-memory/src/lib.rs:245-279 | every recorded reuse takes a strictly earlier drop of the same slot count, and no drop serves two allocations |
| `ReuseAnalysis.ReuseIsOptimal` | crates/nexl-memory/src/lib.rs:245-279 | no assignment of earlier same-size drops to later allocations reuses more slots than the greedy one |
| `ReuseAnalysis.GreedyAhead` | crates/nexl-memory/src/lib.rs:245-279 | at every step and for every size, no pairing is ahead of the greedy one |
| `ReuseAnalysis.RecordedAll` | crates/nexl-memory/src/lib.rs:245-279 | in a single-assignment block the map holds a token for every served allocation and nothing else new |
| `ReuseAnalysis.ReusePassRun` | crates/nexl-memory/src/lib.rs:217-223 | the pass folds the analysis over all functions |
| `DropInsertion.AnnotateBlock` | crates/nexl-memory/src/lib.rs:144-173 | all binds in order, then one drop for every heap variable that is not returned |
| `DropInsertion.DupDropPassRun` | crates/nexl-memory/src/lib.rs:118-133 | the pass annotates every function and keeps everything else |
| `DropInsertion.EraseInverts` | crates/nexl-memory/src/lib.rs:144-173 | erasing the inserted operations gives back the original block |
| `HeapSafety.DropsFreeAllButReturned` | crates/nexl-memory/src/lib.rs:144-173 | on a heap machine, whatever called functions return, the annotated single-assignment block never faults, frees every cell exactly once except the returned one, and leaves that one live |
| `HeapSafety.OnlyReturnedLive` | crates/nexl-memory/src/lib.rs:144-173 | at the end exactly the returned allocation is live, or none |
| `HeapSafety.DropInsertionSafe` | crates/nexl-memory/src/lib.rs:144-173 | for single-assignment blocks: the annotated block, tail included, is heap-safe for every behaviour of the functions it calls, if and only if no variable its tail mentions may hold a cell other than the returned one, where a call may pass on everything it is given |
| `HeapSafety.UnsharedReturnSafe` | crates/nexl-memory/src/lib.rs:144-173 | blocks that return, and never copy, store, project out of or pass to a call a heap variable, are heap-safe whatever called functions do |
| `HeapSafety.CopiedReturnUnsafe` | crates/nexl-memory/src/lib.rs:144-173 | returning a copy of a heap variable is not safe: a block for which the pass drops the returned cell |
| `HeapSafety.ReturnedByCallUnsafe` | crates/nexl-memory/src/lib.rs:144-173 | a block that returns the result of a call, given its only heap variable, is not heap-safe when the called function returns its parameter: the pass drops the returned cell |
| `HeapSafety.MayHoldSound` | crates/nexl-memory/src/lib.rs:144-173 | whatever called functions do, every variable holds a value the static account of the binds allows |
| `HeapSafety.MayHoldReached` | crates/nexl-memory/src/lib.rs:144-173 | the static account is not too wide: functions that pass on everything they are given make every variable hold exactly what it says |
| `DropInsertion.PassComposition` | crates/nexl-memory/src/lib.rs:217-279 | for every module, the reuse pass on the output of drop insertion finds nothing, since all drops follow all binds |
| `ReuseSizes.TokensFit` | crates/nexl-memory/src/lib.rs:237-279 | in a single-assignment block every recorded token names a variable dropped before, whose allocation stored as many fields or captures as the new owner stores, and counts that number plus one |
| `ReuseSizes.UnservedHasNone` | crates/nexl-memory/src/lib.rs:256-279 | an allocation goes without a token only when every earlier drop of a cell that stored as much has been taken before it |
| `ReuseSizes.EarliestTaken` | crates/nexl-memory/src/lib.rs:256-279 | a token is the earliest that fits: a still earlier drop of a cell that stored as much has been taken before |
| `Discovery.DiscoverAndLoadModules` | crates/nexl-cli/src/main.rs:643-694 | over a finite universe the search ends; on success it lists exactly the modules reachable from the entry, once each and closed under imports; it fails if and only if some reachable path cannot be loaded |
| `ModuleGraph.TopoSort` | crates/nexl-modules/src/lib.rs:51-99 | on success every module once, dependencies first; it fails if and only if no such order exists, and then names a set of modules that wait for each other or for a module outside the graph |
| `ModuleGraph.StuckUnsortable` | crates/nexl-modules/src/lib.rs:89-96 | a set of modules that wait for each other rules out every order |
| `ModuleGraph.CountDependencies` | crates/nexl-modules/src/lib.rs:52-63 | the counts start at the number of imports, and the reversed lists hold each module once per import |
| `ModuleGraph.Release` | crates/nexl-modules/src/lib.rs:76-86 | placing a module counts down its users and makes ready exactly those with nothing left to wait for |
| `ModuleGraph.EvalModules` | crates/nexl-eval/src/modules.rs:57-113 | a cycle error if and only if there is no topological order; otherwise the result of evaluation in such an order, never an unknown module; and it agrees with every topological order when no form changes the shared base environment |
| `ModuleEval.ApplyImport` | crates/nexl-eval/src/modules.rs:165-221 | the five kinds of import, with their missing-name errors, bind exactly the exports they select |
| `ModuleEval.EvalModuleForms` | crates/nexl-eval/src/modules.rs:120-142 | the loop over forms, each given the scope and the shared base as the one before left them, and the names it reports as defined |
| `ModuleEval.BuildExports` | crates/nexl-eval/src/modules.rs:144-163 | the declared exports or, without a declaration, all defined names; the first missing one is an error |
| `ModuleEval.EvalModule` | crates/nexl-eval/src/modules.rs:85-97 | imports, forms and exports of one module, and the base environment it leaves |
| `ModuleEval.EvalInOrder` | crates/nexl-eval/src/modules.rs:84-106 | modules one after the other, each on the base environment the one before left, up to the first error |
| `ModuleEval.ModuleDecided` | crates/nexl-eval/src/modules.rs:85-97 | the result of a module depends only on the exports of the modules it imports and on the base environment it finds |
| `ModuleEval.Fixpoint` | crates/nexl-eval/src/modules.rs:84-106 | when no form changes the base environment, the runtimes of a successful order satisfy the module equation at every module at once |
| `ModuleEval.OrderIndependent` | crates/nexl-eval/src/modules.rs:84-106 | for a set closed under imports, no topological order meets an unknown module, and, when no form changes the base environment, either all of them fail or all give the same environments and exports |
| `ModuleRuns.SetlessKeepsBase` | crates/nexl-eval/src/modules.rs:81-142 | with the real evaluator on a child of the base environment: forms that confine `set!` to function bodies never change the base |
| `ModuleRuns.SetlessOrderIndependent` | crates/nexl-eval/src/modules.rs:57-113 | so for such modules every topological order gives the same environments and exports, or every order fails |
| `ModuleRuns.SetBangBreaksIndependence` | crates/nexl-eval/src/modules.rs:81-106 | two modules without imports, one `(set! name 5)` for a base name and one `(def x name)`: both orders are topological and export different values |
| `ModuleLaws.ImportAll` | crates/nexl-eval/src/modules.rs:174-178 | `(import m)` binds every export and nothing else |
| `ModuleLaws.ImportAlias` | crates/nexl-eval/src/modules.rs:171-173 | `:as` binds no name; the alias stands for the exports |
| `ModuleLaws.ImportRefer` | crates/nexl-eval/src/modules.rs:179-190 | `:refer` binds exactly the listed names; the first one that is not exported is an error |
| `ModuleLaws.ImportRename` | crates/nexl-eval/src/modules.rs:207-218 | `:rename` binds exactly the new names, the last renaming to a name winning; the first old name that is not exported is an error |
| `ModuleLaws.ImportExclude` | crates/nexl-eval/src/modules.rs:191-206 | `:exclude` binds every export but the listed ones; the first listed one that is not exported is an error |
| `ModuleLaws.ExportsNamed` | crates/nexl-eval/src/modules.rs:144-163 | a module exports exactly the given names, its own bindings before those of the base environment |
| `ModuleLaws.ExportsMissing` | crates/nexl-eval/src/modules.rs:144-163 | the first name that is bound nowhere is an error |
| `ModuleLaws.TopLevelNames` | crates/nexl-eval/src/modules.rs:120-142 | `def` and `defn` forms define their name; no other head does |
| `ModuleLaws.ImportsRun` | crates/nexl-eval/src/modules.rs:85-97 | imports are made in order, each on what the ones before bound, from an empty scope |
| `ModuleLaws.FormsRun` | crates/nexl-eval/src/modules.rs:120-142 | forms are evaluated in order, each where the one before left off, and the names reported are exactly those they define |
| `ModuleLaws.FormsStop` | crates/nexl-eval/src/modules.rs:120-142 | the first form that fails decides |
| `ModuleLaws.ModuleIs` | crates/nexl-eval/src/modules.rs:85-97 | a module's exports are its declared names or, when it declares none, the names its forms define, with their values after the last form |
| `Arithmetic.WrapUnique` | crates/nexl-eval/src/stdlib.rs:304-397 | the wrapped result is the unique 64-bit integer congruent to the mathematical one |
| `Arithmetic.WrapStep` | crates/nexl-eval/src/stdlib.rs:304-397 | wrapping at every step is wrapping once at the end, for sum, difference and product |
| `Arithmetic.Add` | crates/nexl-eval/src/stdlib.rs:304-331 | variadic `+`: the wrapped sum of integers, the left fold of floats, or the first argument of the wrong type |
| `Arithmetic.Sub` | crates/nexl-eval/src/stdlib.rs:334-367 | variadic `-`: negation of one argument, wrapped difference of several, and its errors |
| `Arithmetic.Mul` | crates/nexl-eval/src/stdlib.rs:370-397 | variadic `*`: the wrapped product of integers, the left fold of floats, or the first argument of the wrong type |
| `Arithmetic.PermutationInvariant` | crates/nexl-eval/src/stdlib.rs:304-397 | sums and products do not depend on the order of the arguments |
| `Arithmetic.TermsBefore` | crates/nexl-eval/src/stdlib.rs:1589-1611 | the ceiling count is the number of terms before the end, for steps of either sign |
| `Arithmetic.RangeByStep` | crates/nexl-eval/src/stdlib.rs:1563-1615 | `start + k * step` for exactly the ceiling count of terms; an error if and only if that count passes the limit or the step is zero, and an overflow if and only if the counter leaves 64 bits before that |
| `Arithmetic.Range` | crates/nexl-eval/src/stdlib.rs:1563-1615 | the same for one, two and three arguments, and an error for anything else |
| `Arithmetic.RangeFormsAgree` | crates/nexl-eval/src/stdlib.rs:1563-1615 | the three forms agree, with the saturating length test of the shorter ones equal to the count |
| `Values.MapGetPut` | crates/nexl-runtime/src/value.rs:157-176 | map lookup after insertion, for the same and for other keys |
| `Values.MapPutPut` | crates/nexl-runtime/src/value.rs:172-176 | inserting twice under a key keeps the position and the second value |
| `NestedUpdates.GetPut` | crates/nexl-eval/src/stdlib.rs:637-659 | a key that can be put can be read back, and no other key changes |
| `NestedUpdates.GetInFn` | crates/nexl-eval/src/stdlib.rs:700-717 | the loop of `get-in` walks the path key by key |
| `NestedUpdates.GetInAssocIn` | crates/nexl-eval/src/stdlib.rs:720-742 | when `assoc-in` succeeds, `get-in` on the same path returns the value, for any nesting and length |
| `NestedUpdates.AssocInTwice` | crates/nexl-eval/src/stdlib.rs:720-742 | a second `assoc-in` on a path wins |
| `NestedUpdates.GetInElsewhere` | crates/nexl-eval/src/stdlib.rs:720-742 | paths that diverge from the updated one read as before |
| `NestedUpdates.UpdateInIsAssocIn` | crates/nexl-eval/src/stdlib.rs:766-796 | `update-in` fails unless the path is present and the function succeeds; then it is `assoc-in` of the new value |
| `Arithmetic.SumOfBoth` | crates/nexl-eval/src/stdlib.rs:304-331 | the sum of two lists of arguments in a row is the sum of their sums |
| `Arithmetic.ProductOfBoth` | crates/nexl-eval/src/stdlib.rs:370-397 | the product likewise |
| `Arithmetic.FloatsFromLeft` | crates/nexl-eval/src/stdlib.rs:304-397 | floats are folded from the left |
| `NestedUpdates.GetVector` | crates/nexl-eval/src/stdlib.rs:637-659 | `get` on a vector is the element at an index within it, counted from zero, and `None` outside |
| `NestedUpdates.GetMap` | crates/nexl-eval/src/stdlib.rs:637-659 | `get` on a map is the value of the first entry for the key, and `None` without one |
| `NestedUpdates.AssocInBuilds` | crates/nexl-eval/src/stdlib.rs:720-743 | where the path leaves a map, `assoc-in` adds one entry at its end, with maps of one entry along the rest of the path |
| `Evidence.Resume.Call` | crates/nexl-effects/src/lib.rs:46-62 | the first call runs the continuation, every later call panics |
| `Evidence.HandlerRecord.InsertOp` | crates/nexl-effects/src/lib.rs:99-102 | adds or replaces one simple operation and nothing else |
| `Evidence.HandlerRecord.InsertContinuationOp` | crates/nexl-effects/src/lib.rs:105-108 | adds or replaces one continuation operation and nothing else |
| `Evidence.ExtendAllIsFromRecords` | crates/nexl-effects/src/lib.rs:189-199 | any sequence of extensions has the form that `from_records` chooses for the same list |
| `Evidence.LookupRefinesStack` | crates/nexl-effects/src/lib.rs:140-183 | lookup answers from the innermost record for the effect alone, masking outer records even when it lacks the operation |
| `Evidence.ExtendMasks` | crates/nexl-effects/src/lib.rs:189-199 | the stack law for every evidence vector: the new record answers for its effect, the old vector for all others |

## Left out

- Comments when texts are compared: a trailing comment can swallow the rest of its line, so two renderings of the same tokens
  need not read the same. The token theorems cover comments, `SameProgram` and `ReadBack` do not.
- The round trip of strings with newlines: it needs the reader's dedent. `LayoutTheorems.PrintIndented` compares texts for
  one-line strings; its token statement covers all strings.
- The macro expander.
- Comments, raw and triple-quoted strings, regular expressions, `#tag` forms with text, numbers in other bases and error
  messages of the reader: `Reader` reads such texts as `None`.
- Letters beyond ASCII and the value of a float: `Reader.Host` has them as parameters.
- The evaluator still takes its reader as a parameter; `ScannerLaws.ReadableEmbeds` puts the modelled one in.
- ReadBack.RenderingReadsBack: exact for spellable trees. For others, such as those with an `expr?` after a name, `(? name)`
  and `~@` are shown as instances.
- AtomReading.FloatReadsBack: one direction, since how a float's value is printed is a parameter.
- Floats: they carry their digits, and float arithmetic is a parameter. Ratios are kept, not computed with.
- Uppercase letters beyond ASCII in pattern names.
- Evaluator forms `each`, `times`, `assert!`, `assert-unreachable!`, `try`, `deftype`, `defhandler`, `handle`, `call-log`,
  `submodule`, `load`, and `defn` with a qualified name: they evaluate to the error `Unmodelled`.
- Native functions that call back into the evaluator, and native functions with a state: a native function is a function of
  its arguments. So `atom`, `deref`, `reset!` and `swap!` are not modelled, and no evaluator theorem covers programs that use
  them; in particular `EvaluatorTheorems.GeneratorIsComprehension` does not speak of atoms that change between elements.
- Module aliases are fixed during a run, and a closure has no live module frame, so top-level siblings defined later are not
  visible to it.
- An environment is a stack of frames: a child is a pushed frame. The source's parent links are never shared between live
  children, because closures capture a snapshot.
- The texts of error messages: an error carries its cause and the offending value. Prefixes such as `let:` are not modelled.
- Doctests and `:examples` are parsed past, not registered.
- Map keys are equal when the values are: the source's hashing of keys and the order-free equality of maps are not modelled.
- On the heap machine a drop frees one allocation, as `RcOp::Drop` is documented, and does not release the cells stored in
  it. A called function keeps no cell beyond the call except through its result.
- `AnfIr` lowering and optimisation, and the native and WASM back ends.
- Path resolution and reading of files in discovery: one partial function `load`. The smallest ready module that the sort
  picks is any ready module.
- ModuleRuns.SetlessOrderIndependent: its condition also rules out interpolated strings outside function bodies, whose
  expressions it does not look into.
- ReuseAnalysis.ReusePassRun: folds over functions in order; `RecordedAll` covers single-assignment blocks only, since a
  variable bound twice overwrites its own entry.
- Overflow of the loop counter `i += step` of a three-argument range is the outcome `Overflow`, as in builds with overflow
  checks; builds without them wrap around.
- LayoutPrinter.WriteNodeIndented: says nothing about how much white space is written, only where.
- EvaluatorTheorems.ApplyIsApplyValue: speaks of outcomes; `eval_apply` also keeps the caller's environment as its arguments
  leave it.

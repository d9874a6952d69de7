# Sysl: models and proofs

Sysl is a language for describing systems. This project models the parts of its tool chain
that compute something intricate, and proves what they are for. Each part has a specification
(functions over values), the objects and loops of the original as classes and methods proved
against it, and the results as lemmas about the specification.

- **Transform evaluator** (`Values`, `OperatorLaws`, `Evaluator`, `EvaluatorMachine`, `Lexical`,
  `ScopingProofs`, `ScopeFrame`, `EvaluatorTheorems`, `MapOrder`, `ViewCalls`, `TransformPrograms`). One mutable scope is threaded through
  all expressions; `where`, `flatten` and transforms bind, delete and restore names in it by
  hand. It refines an ordinary lexical semantics, and what it can leave changed is bounded for
  all expressions. A panic, an unknown expression and running out of fuel are outcomes.
- **Multi-line if** (`IfChain`). The nodes the parse-tree listener mutates become the nested
  if/else that takes the first matching block.
- **SQL scripts** (`TableDepth`, `SqlScript`, `TableChange`, `RetainedTable`, `Migration`,
  `MigrationProofs`, `MigrationTheorem`, `CreateTheorem`, `CreateText`, `LineOrder`,
  `TableOrder`, `DeltaCondition`, `DeclaredSchema`, `ScriptView`, `ScriptGenerator`,
  `ScriptExamples`).
  Tables are layered by foreign keys; a script is a list of statements with a meaning over
  schemas: what PostgreSQL asks of names, keys, foreign keys and types. The CREATE script
  deploys a model exactly when no lines are shared, every table has a constraint to close its
  definition and foreign keys point at keys; the delta script migrates the old version to the
  new one exactly on the changes described by `CanMigrate`.
- **Sequence diagrams** (`CallTree`, `SequenceDiagram`, `SequenceBalance`, `SequenceRuns`,
  `SequenceBlocks`, `SequenceTheorems`, `SequenceMessages`, `SequenceCalls`, `SequenceCollections`,
  `SequenceVisitor`, `LineWriter`, `SequenceText`). Visits of cyclic call graphs end; activations balance although one-shot
  closures may end them early; blocks nest; the arrows are the calls and returns of the module,
  in their directions; the writer indents lines however they are cut into
  chunks. The writer is modelled twice, by lines and by bytes; `SequenceText` joins the two.
- **Integration diagrams** (`IntegrationCalls`, `IntegrationBuilder`, `IntegrationTheorem`).
  Three phases over the call graph give the graph induced on the apps they end with.
- **Front end** (`IndentLexer`, `ImportLoop`). INDENT and DEDENT tokens; the import queue.
- **Templates** (`FormatParser`, `FormatTemplates`, `FormatMachine`, `FormatExamples`). Parsing a printed template
  gives its meaning.
- **Codecs and checks** (`NameEscaping`, `PlantUml`, `GrammarConformance`, `GrammarMeaning`,
  `GrammarMessages`, `GrammarValidator`, `GrammarExamples`). Percent-escaping as in sections 2.1 and 3.3 of RFC
  3986, the six-bit text encoding, and the comparison of types with a grammar, whose verdict
  may depend on the order of the attributes.

Go's map iteration order is an arbitrary choice wherever the original ranges over a map: a
choice in the loop, or an oracle that lists the keys (`App.order` in the evaluator,
`Setup.order` in `GrammarConformance`).

Where the code does something else than one would expect, the model follows the code:

- Looking up `__$` adds it to the scope (`AskingForTheResultAddsIt`); a let stays bound after
  its transform (`LetsLeak`), and can show the order in which Go yields the keys of a map
  (`MapOrderShows`).
- The delta script is wrong when a column becomes or stops being autoincrement and when the
  whole primary key is removed (`OneColumnDelta`), it does not say how to convert a text to a
  number (`TypeChangeDelta`), and it drops columns and keys that a table changed later, which
  may be decided by its name, still references (`DroppedTargetDelta`);
  `GenerateDatabaseScriptModify` says exactly when it is right.
- A table with columns but neither a key nor a foreign key gets a comma too many and cannot be
  created (`TextReads`, `NoKeyIsNotDeployed`).
- Of two names declared on one line one is listed twice and the other is lost
  (`SharedLineLosesAName`); such tables are not deployed (`TwoTablesAreNotDeployed`).
- In a collection of endpoints only the first one, and direct repetitions of it, are expanded
  (`EntryIsDrawn`, `TwoEndpointsDrawn`); an alt without choices writes a lone end
  (`BlocksCloseIff`).
- Dependencies are told apart by a text in which names with colons can collide
  (`DiagramIsInduced`, `KeysCanClash`).
- Whether a type conforms to a grammar with combinations of attributes may depend on the order
  in which Go yields the attributes (`OrderDecides`), and the second alternative of a choice
  is never accepted if it is such a combination (`SecondAlternativeIsReported`).
- An empty chunk at the beginning of a line writes an indent (`BoundariesShowIff`), and byte 1
  in the text of a template turns into a percent sign (`TextFormatsIff`).

Check everything with `dafny verify dfyconfig.toml`.

## Model

| member | source | states |
|---|---|---|
| `EvaluatorTheorems.PlainExpressionsAreLexical` | pkg/eval/binexprEval.go:118-155 | without transforms and calls, the shared-scope evaluator gives the value of lexical scoping (`where` is filter, `flatten` is map over the joined items, a scope variable can be reused at any depth), and leaves the scope as it was, apart from the implied result `__$` if the expression looks that name up |
| `EvaluatorTheorems.EvaluatePlain` | pkg/eval/exprEval.go:395-442 | the same of the evaluator object and the scope object it updates; the expression stack comes back |
| `EvaluatorTheorems.AskingForTheResultAddsIt` | pkg/eval/exprEval.go:247-261 | the one way such an expression changes the scope |
| `EvaluatorTheorems.WellScopedExpressionsAreLexical` | pkg/eval/exprEval.go:395-442 | with transforms and recursive view calls too, the value is the lexical one if nothing written in the shared scope is read where lexical scoping would not see it |
| `EvaluatorTheorems.MapOrderIsUnobservable` | pkg/eval/exprOp.go:399-413 | the order in which the runtime yields map keys cannot be seen in a value |
| `MapOrder.MapOrderShows` | pkg/eval/exprOp.go:399-413 | without that condition the order of the keys can decide the value: two runtimes that differ only in it give different maps |
| `EvaluatorTheorems.LetsLeak` | pkg/eval/exprEval.go:17-47 | without that condition the two differ: a let is still bound after its transform |
| `ScopingProofs.EvRefines` | pkg/eval/exprEval.go:395-442 | evaluation refines lexical scoping, and changes no key outside those the expression writes |
| `ScopingProofs.WhereMapAgrees` | pkg/eval/exprOp.go:399-413 | `where` on a map keeps the entries whose flag is true, for every listing of the keys |
| `ScopingProofs.WhereListCase` | pkg/eval/exprOp.go:374-397 | `where` on a list or set is the filter by the flags of its body |
| `ScopingProofs.FlattenCase` | pkg/eval/exprOp.go:80-186 | `flatten` gives the body value of every inner item of every outer item, in order |
| `ScopingProofs.TransformRefines` | pkg/eval/exprEval.go:113-187 | a transform maps its statements over the argument |
| `ScopingProofs.CallRefines` | pkg/eval/exprEval.go:189-231 | a view call is the value of its body in a scope of its own, that of ViewCalls.CallHasTheValueOfItsBody |
| `Evaluator.ParamsBind` | pkg/eval/exprEval.go:198-203 | the names bound are the parameters, and each holds the argument at its own position unless a later parameter has the same name |
| `Evaluator.OneScope` | pkg/eval/exprEval.go:198-203 | which is so of one scope only |
| `ViewCalls.CallBindsByPosition` | pkg/eval/exprEval.go:189-207 | a call of a view evaluates the body in any scope that binds the parameters by position, that is the one |
| `ViewCalls.CallHasTheValueOfItsBody` | pkg/eval/exprEval.go:189-207 | and has its lexical value there |
| `ViewCalls.ArgumentsInOrder` | pkg/eval/exprEval.go:200-203 | arguments are evaluated one after the other, each in the scope the ones before it leave |
| `ViewCalls.LibraryIsCalled` | pkg/eval/exprEval.go:226-230 | a function that is no view is called with the values of its arguments in order |
| `ViewCalls.DifferenceSubtracts` | pkg/eval/exprEval.go:189-207 | a view of a and b with the body a - b gives a - b: 2 for 5 and 3 |
| `TransformPrograms.SetViewGivesASet` | pkg/eval/exprEval.go:204-206 | a body without a type of its own takes the return type of the view: a set then, every member once |
| `TransformPrograms.IfTakesOneBranch` | pkg/eval/exprEval.go:296-302 | the first branch is taken on true, the second on every other value |
| `TransformPrograms.NamesAreLookedUp` | pkg/eval/exprEval.go:247-261 | what a name gives, bound or not |
| `TransformPrograms.WhereKeepsThoseAbove` | pkg/eval/exprOp.go:374-384 | a filter of numbers by a comparison keeps those above the bound, in order |
| `TransformPrograms.FlattenConcats` | pkg/eval/exprOp.go:95-110 | flattening a list of lists is concatenation |
| `TransformPrograms.TransformsEachItem` | pkg/eval/exprEval.go:49-105 | a transform of a collection gives one result for each item in order, or every result once if it returns a set |
| `TransformPrograms.TransformsEachEntry` | pkg/eval/exprEval.go:142-160 | a transform of a map gives one for each entry, in key order |
| `TransformPrograms.TemplateGivesItsText` | pkg/eval/exprEval.go:17-47 | the text of a template is its result |
| `TransformPrograms.LetsAreSeen` | pkg/eval/exprEval.go:17-47 | a let is seen by the statements behind it |
| `ScopingProofs.IfElseRefines` | pkg/eval/exprEval.go:296-302 | only the branch taken is evaluated |
| `ScopeFrame.EvKeeps` | pkg/eval/exprEval.go:395-442 | for every expression: no scope entry changes but lets, transform scope variables other than `.`, and the implied result |
| `ScopeFrame.CallKeeps` | pkg/eval/exprEval.go:189-231 | callee bindings never reach the caller |
| `ScopeFrame.BinaryKeeps` | pkg/eval/binexprEval.go:140-155 | the scope variable of `where` and `flatten` is restored to its value or its absence |
| `ScopeFrame.ApplyKeeps` | pkg/eval/exprEval.go:68-105 | the scope variable of a transform is gone afterwards; so is the implied result |
| `ScopeFrame.StmtsKeep` | pkg/eval/exprEval.go:17-47 | statements bind their lets and remove the implied result |
| `EvaluatorMachine.ExprEval.EvalExpr` | pkg/eval/exprEval.go:395-442 | the outcome, the scope and the iteration count of the specification; the expression stack returns to its entry contents |
| `EvaluatorMachine.ExprEval.EvalValue` | pkg/eval/exprEval.go:108-111 | an error return is dropped and the value is nil |
| `EvaluatorMachine.ExprEval.EvalName` | pkg/eval/exprEval.go:247-261 | a name in scope, else the implied result as empty text, else nil |
| `EvaluatorMachine.ExprEval.EvalCall` | pkg/eval/exprEval.go:189-231 | a call of a view runs its body in a scope that binds each parameter to the value of the argument at its own position and holds nothing else; the caller's scope is left as the arguments left it |
| `EvaluatorMachine.ExprEval.BindArguments` | pkg/eval/exprEval.go:198-203 | the arguments are evaluated in the caller's scope in order, and bound to the parameters by position |
| `EvaluatorMachine.ExprEval.EvalOverScope` | pkg/eval/binexprEval.go:140-155 | the scope variable is saved, rebound per item, deleted and put back |
| `EvaluatorMachine.ExprEval.EvalWhere` | pkg/eval/exprOp.go:374-397 | filter loop over the items |
| `EvaluatorMachine.ExprEval.EvalWhereMap` | pkg/eval/exprOp.go:399-413 | filter loop over the keys in the order they come |
| `EvaluatorMachine.ExprEval.EvalFlatten` | pkg/eval/exprOp.go:80-186 | loops over outer and inner items |
| `EvaluatorMachine.ExprEval.EvalTransform` | pkg/eval/exprEval.go:113-187 | `.` is restored to its value on every path out |
| `EvaluatorMachine.ExprEval.Apply` | pkg/eval/exprEval.go:124-186 | argument kinds: collections, maps as key-ordered pairs, anything else |
| `EvaluatorMachine.ExprEval.EvalEach` | pkg/eval/exprEval.go:68-86 | one run of the statements per item |
| `EvaluatorMachine.ExprEval.EvalStmts` | pkg/eval/exprEval.go:17-47 | let, assignment and injection statements in order |
| `Values.SortedPairsAre` | pkg/eval/exprEval.go:142-160 | a map is iterated as one {key, value} pair for each entry, in ascending order of the keys |
| `Ordering.ListingIsDistinct` | pkg/eval/exprOp.go:399-413 | an iteration order is a listing of the keys, each once |
| `OperatorLaws.DivisionTruncates` | pkg/eval/exprOp.go:40-46 | quotient and remainder belong together; the remainder has the sign of the dividend |
| `OperatorLaws.OnlyOneQuotientWraps` | pkg/eval/exprOp.go:40-42 | the one quotient of 64-bit integers that does not fit |
| `OperatorLaws.UnionIsUnion` | pkg/eval/exprOp.go:207-317 | the union of sets of numbers or texts has exactly their members, each once |
| `OperatorLaws.UnionCommutes` | pkg/eval/exprOp.go:207-317 | and does not depend on the order of operands or items |
| `OperatorLaws.UnionOfMaps` | pkg/eval/exprOp.go:207-317 | the union of sets of maps has none but their members and none twice, one for every JSON text; it has all of them exactly if different maps have different texts |
| `OperatorLaws.MapUnionCommutes` | pkg/eval/exprOp.go:207-317 | and then the order of the operands does not show |
| `OperatorLaws.SumsAreModular` | pkg/eval/exprOp.go:12-14 | sums, differences and negation are those of the integers modulo 2^64 |
| `OperatorLaws.ProductsAreModular` | pkg/eval/exprOp.go:36-38 | so are products |
| `OperatorLaws.QuotientsAreModular` | pkg/eval/exprOp.go:40-46 | and quotients and remainders, which only a zero has none of |
| `OperatorLaws.NumbersAreExact` | pkg/eval/exprOp.go:12-14 | where the result fits it is exact |
| `OperatorLaws.InIsMembership` | pkg/eval/exprOp.go:234-252 | `in` asks for the text among the items or the keys; the empty text is also found at an item that is no text |
| `OperatorLaws.OperandsTaken` | pkg/eval/binexprEval.go:52-90 | arithmetic and comparisons take numbers only; everything else is a panic |
| `OperatorLaws.OtherOperandsTaken` | pkg/eval/binexprEval.go:52-90 | what addition, conjunction and membership take |
| `OperatorLaws.ComparisonsAreOrder` | pkg/eval/exprOp.go:16-30 | the comparisons of numbers are those of the integers |
| `OperatorLaws.EqualityIsSameness` | pkg/eval/exprOp.go:52-78 | values that can be compared are equal if they are the same |
| `OperatorLaws.WhereAndFlattenTake` | pkg/eval/binexprEval.go:52-112 | what the first item of a collection has to be for `where` and `flatten` to take the collection |
| `OperatorLaws.AttributesAreEntries` | pkg/eval/exprEval.go:263-294 | an attribute is the entry of that name or null, and on a pair that map iteration made its key, its value, or an attribute of its value |
| `Ordering.StrLeIsLexicographic` | pkg/eval/exprEval.go:142-160 | the order of keys: a prefix first, otherwise by the first character that differs |
| `IfChain.AddStmt` | pkg/parse/listener_impl.go:2055-2063 | every node still without a true branch gets the statement; nothing else changes |
| `IfChain.AddIfElseControl` | pkg/parse/listener_impl.go:2073-2083 | a node for one more test at the end of the chain |
| `IfChain.ExitControlItem` | pkg/parse/listener_impl.go:2650-2677 | the first control completes the open condition, later ones extend the chain |
| `IfChain.ExitFinalElse` | pkg/parse/listener_impl.go:2680-2687 | the else expression goes behind the last node |
| `IfChain.WalkControls` | pkg/parse/listener_impl.go:2650-2677 | the controls of one block, in order |
| `IfChain.WalkBlock` | pkg/parse/listener_impl.go:2643-2647 | a block fills exactly the nodes of its own controls |
| `IfChain.WalkIf` | pkg/parse/listener_impl.go:2643-2710 | the finished node structure is the nested if/else the text means, and the evaluator takes in it the branch that a search through the blocks, test by test, comes to |
| `IfChain.BlocksNest` | pkg/parse/listener_impl.go:2055-2083 | chain entries of all blocks in order are that nested expression |
| `IfChain.NestedEvaluates` | pkg/eval/exprEval.go:296-302 | in the shared scope, whatever the tests leave in it: the expression of the block the search finds is evaluated in the state the tests made left, the else expression if it finds none |
| `IfChain.BuiltIfEvaluates` | pkg/eval/exprEval.go:296-302 | the nodes built evaluate to the expression of the first block with a control that is true, in the state the tests up to it leave, and to the else expression when no control is |
| `IfChain.FirstHitIsFound` | pkg/parse/listener_impl.go:2650-2677 | the search finds the first control of the text that is true |
| `IfChain.NoneIsMissed` | pkg/parse/listener_impl.go:2680-2687 | and goes on to the else expression when there is none |
| `IfChain.TrueIsEqual` | pkg/parse/listener_impl.go:2650-2677 | with a subject, a control is true when it has the subject's value |
| `IfChain.FirstHitOfControls` | pkg/parse/listener_impl.go:2650-2677 | in lexical scoping, one block: its expression if a control matches, what follows otherwise |
| `IfChain.FirstMatchingBlock` | pkg/parse/listener_impl.go:2643-2710 | in lexical scoping: the value of the first block with a matching control, and of the else expression when there is none |
| `IfChain.TrueIsBool` | pkg/parse/listener_impl.go:2650-2677 | without a subject, a control is what the function bool makes of its value |
| `IfChain.FirstBlockThatLists` | pkg/parse/listener_impl.go:2643-2710 | on a number, with numbers for controls: the expression of the first block that lists it, else the else expression |
| `TableDepth.CreateTableDepthMap` | pkg/database/db_utils.go:14-25 | on every acyclic, resolvable graph it ends with each table once, in the bucket of its depth, whatever the iteration orders: a table is one layer behind the last one its foreign keys refer to |
| `TableDepth.DepthMaps.ProcessTableDepth` | pkg/database/db_utils.go:27-55 | every pass completes a table, so the recursion ends with none left |
| `TableDepth.DepthMaps.FindTableDepth` | pkg/database/db_utils.go:57-89 | ready exactly when all referenced columns are completed; one more than the deepest |
| `TableDepth.DepthMaps.TryTable` | pkg/database/db_utils.go:35-49 | a table is completed exactly when its references are |
| `TableDepth.DepthIsUnique` | pkg/database/db_utils.go:57-89 | the depth equations have one solution |
| `TableDepth.OneDepthMap` | pkg/database/db_utils.go:57-89 | so the buckets are a function of the model |
| `TableDepth.DepthIsLongestPath` | pkg/database/db_utils.go:57-89 | the depth is the length of the longest chain of references |
| `TableDepth.BucketsAreLayers` | pkg/database/db_utils.go:14-55 | said of the columns: every table is in one layer, once, refers to tables of layers before its own only, and to one of the layer just before unless it is in the first |
| `TableDepth.RankedMeans` | pkg/database/db_utils.go:57-89 | what resolvable and acyclic means of the columns |
| `TableDepth.DepthMaps.Pass` | pkg/database/db_utils.go:35-49 | a pass completes every table that was ready, and none of a set whose tables wait for each other or for a missing column |
| `TableDepth.DepthMaps.Passes` | pkg/database/db_utils.go:27-55 | such a set is incomplete after any number of passes |
| `TableDepth.StuckIsNotReady` | pkg/database/db_utils.go:57-89 | because none of its tables is ready before another one is completed |
| `TableDepth.RankedIffNothingStuck` | pkg/database/db_utils.go:27-55 | no such tables exactly when the graph is resolvable and acyclic |
| `LineOrder.OrderByLine` | pkg/database/databasescriptview.go:76-89 | names by source line, through a map from line to name |
| `LineOrder.ByLineAscends` | pkg/database/databasescriptview.go:76-89 | in ascending order of their lines |
| `LineOrder.ListedOnceIff` | pkg/database/databasescriptview.go:76-89 | a name is listed once exactly when its line is its own; otherwise as often as names are on the line if it is the last of them, and never if not |
| `LineOrder.AllListedIff` | pkg/database/databasescriptview.go:76-89 | each name is listed once exactly when no line is shared |
| `LineOrder.SharedLineLosesAName` | pkg/database/databasescriptview.go:76-89 | two names on one line: one is listed twice, the other is lost |
| `ScriptView.ScriptView.ColumnsByLine` | pkg/database/postgres.go:18-32 | the same for the columns of a table |
| `ScriptView.ScriptView.WriteCreateColumn` | pkg/database/postgres.go:124-168 | definition, key column, foreign key and recorded type of a new column: varchar of its length or of 50, integer, date, bigserial recorded as bigint, or the type recorded for the column it refers to |
| `ScriptView.ScriptView.WriteCreateTable` | pkg/database/postgres.go:12-45 | one CREATE statement and its text, and the types recorded for later references; the text can be read as that statement exactly if there are no columns or a constraint follows them |
| `ScriptView.ScriptView.AddConstraints` | pkg/database/postgres.go:239-254 | the primary key and the foreign keys behind the columns |
| `CreateText.TextReads` | pkg/database/postgres.go:32-45 | reading the text gives back columns, key and foreign keys in order, exactly unless there are columns and no constraint: then the comma behind the last column is one too many |
| `CreateText.ItemsAre` | pkg/database/postgres.go:32-45 | and nothing else |
| `DeclaredSchema.CreatedInOrder` | pkg/database/postgres.go:18-45 | columns stand in the order they are taken, key columns and foreign keys in the order of their columns |
| `SqlScript.OneTypeOf` | pkg/database/postgres.go:270-281 | the SQL type for each kind of primitive: varchar (n) for a string of length n, varchar (50) for one without, integer, date, varchar (50) for the rest |
| `DeclaredSchema.OneDatabase` | pkg/database/postgres.go:124-168 | the database a model declares, said of its columns: there is one, and it is the one called deployed elsewhere |
| `DeclaredSchema.CreateDeclares` | pkg/database/databasescriptview.go:60-98 | run on nothing, the CREATE script leaves a database as the model declares it: each column with its own type, foreign keys with the type of the column they refer to |
| `DeclaredSchema.DeltaDeclares` | pkg/database/databasescriptview.go:134-192 | the delta script takes a database as the old version declares it to one as the new version does exactly if every table migrates |
| `ScriptView.ScriptView.WriteModifyColumn` | pkg/database/postgres.go:170-237 | the statements for a retained column, the key flags, and the recorded type; every type it sets is that of the new primitive or the one recorded for the column referred to |
| `ScriptView.ScriptView.CollectDrops` | pkg/database/postgres.go:62-74 | the drops of old columns, and whether one was in the key |
| `ScriptView.ScriptView.WriteModifyTable` | pkg/database/postgres.go:47-123 | all statements for a retained table, in the order they must be in |
| `ScriptView.FlagsAreKeyChanges` | pkg/database/postgres.go:59-122 | the flags set along the way mean that the key sets differ and that the old one was not empty |
| `TableChange.CreateTableRuns` | pkg/database/postgres.go:12-45 | the CREATE statement makes the table as the model has it, exactly if the table has a key, a foreign key or no columns, and its foreign keys point at keys of a type that fits |
| `TableChange.CreateTableFails` | pkg/database/postgres.go:12-45 | it is rejected when columns share a line |
| `TableChange.ModifyColumnRuns` | pkg/database/postgres.go:170-237 | the statements of one retained column apply exactly if the type can be converted, foreign keys at the column fit the new type and a new foreign key points at a key; and what they leave |
| `TableChange.AddedColumnRuns` | pkg/database/postgres.go:80-96 | the statements of an added column apply exactly if its foreign key can be made, and what they leave |
| `TableChange.ModifyColumnsRun` | pkg/database/postgres.go:77-108 | those of all columns apply exactly if those of each do, and what they leave |
| `RetainedTable.DropColumnsRun` | pkg/database/postgres.go:115-116 | drops apply exactly when no other table still references a dropped column |
| `RetainedTable.KeyColumnsCover` | pkg/database/postgres.go:117-122 | the key columns written are the new key |
| `RetainedTable.ModifyTableRuns` | pkg/database/postgres.go:47-123 | the statements of a retained table apply exactly when those of every column do, no foreign key elsewhere points at a column that is dropped or loses the key, and a changed key is not empty; then they give the changed table |
| `RetainedTable.KeyAndDropsRun` | pkg/database/postgres.go:109-122 | the key goes, then the columns, then the new key comes: when that applies and what it leaves |
| `MigrationProofs.StepRuns` | pkg/database/databasescriptview.go:178-190 | one table of the delta script, retained or added: when its statements apply and what they leave |
| `MigrationProofs.DeltaRuns` | pkg/database/databasescriptview.go:170-192 | the whole script runs exactly when every step does |
| `MigrationProofs.RetainedColumnIff` | pkg/database/postgres.go:170-237 | a retained column ends as the new version has it exactly on the listed changes |
| `MigrationProofs.CreatedColumnIff` | pkg/database/postgres.go:124-168 | a new column ends with the type of its root exactly when that was recorded right |
| `MigrationProofs.RecordIsRootType` | pkg/database/postgres.go:124-168 | the recorded type is the type at the end of the reference chain, exactly unless the root changed its autoincrement |
| `MigrationTheorem.DeltaMigratesIff` | pkg/database/databasescriptview.go:134-192 | run on the deployed old version, the script gets through and yields the new one exactly when every table migrates: its columns are ones the script handles, new foreign keys point at keys, types convert, a key does not become empty, columns that are dropped, lose the key or change to a type that does not fit have no foreign key at them any more, and an added table has lines of its own and a constraint; old-only tables stay as they were |
| `MigrationTheorem.StepIff` | pkg/database/databasescriptview.go:178-190 | the statements of a table apply in the database made so far exactly when the two versions say so |
| `MigrationTheorem.RefsFitIff` | pkg/database/postgres.go:192-213 | a column can get a type exactly if its old one fits it or all old foreign keys at it belong to tables changed before |
| `MigrationTheorem.ReferencedIff` | pkg/database/postgres.go:115-116 | a column is still referenced exactly if an old foreign key at it belongs to a table not changed yet |
| `CreateTheorem.CreateDeploysIff` | pkg/database/databasescriptview.go:60-98 | the CREATE script deploys the whole model on nothing, exactly when no columns of a table share a line, every table with columns has a key or a foreign key, and foreign keys point at keys |
| `MigrationProofs.DeltaRecords` | pkg/database/postgres.go:124-168 | the types recorded by a delta script, whether it can be run or not |
| `CreateTheorem.CreateRecordsRootTypes` | pkg/database/postgres.go:124-168 | no lookup of a recorded type misses; every column is recorded with the type of its root, bigint for an autoincrement one |
| `CreateTheorem.DeployingCreatesEachOnce` | pkg/database/databasescriptview.go:60-98 | a script that deploys the whole model creates each table once |
| `ScriptExamples.OneColumnDelta` | pkg/database/postgres.go:170-237 | concrete versions: the delta script is right exactly when autoincrement does not change and a key is not taken away |
| `ScriptExamples.TypeChangeDelta` | pkg/database/postgres.go:209-213 | concrete versions: the key of a table changes its type, and the delta script is right exactly when the new type is a text or the type stays |
| `ScriptExamples.TwentyCharacters` | pkg/database/postgres.go:209-213 | a text of 20 characters becomes neither a number nor a date; a number becomes such a text |
| `ScriptExamples.DroppedTargetDelta` | pkg/database/databasescriptview.go:138-168 | concrete versions: a key column goes together with the foreign key at it, and the delta script is right exactly when the referencing table comes first by name |
| `ScriptExamples.TwoTablesAreNotDeployed` | pkg/database/databasescriptview.go:69-96 | two tables declared on one line: the CREATE script does not deploy them |
| `ScriptExamples.NoKeyIsNotDeployed` | pkg/database/postgres.go:39-44 | one table with one column that is neither a key nor a foreign key: no line is shared and the CREATE script does not deploy it |
| `ScriptExamples.NoKeyText` | pkg/database/postgres.go:39-44 | its text, which ends in a comma and a newline |
| `TableOrder.EntitiesByDepthAndLine` | pkg/database/databasescriptview.go:69-96 | entities by depth, and by line within a depth; each once exactly when its line is its own there |
| `TableOrder.RelationsListedIff` | pkg/database/databasescriptview.go:69-96 | the relations among them are each there once exactly when none shares its line with another type of its depth |
| `TableOrder.TablesByDepthAndName` | pkg/database/databasescriptview.go:138-168 | tables by depth, and by name within a depth, each once |
| `TableOrder.OneTableOrder` | pkg/database/databasescriptview.go:138-168 | there is one such order |
| `TableOrder.BeforeIsEarlier` | pkg/database/databasescriptview.go:138-168 | the tables before one are those of smaller depth, or of its depth and with a smaller name |
| `TableOrder.DepthOrderIsOrdered` | pkg/database/databasescriptview.go:69-96 | in depth order every referenced table comes first |
| `ScriptGenerator.GenerateDatabaseScriptCreate` | pkg/database/databasescriptview.go:60-98 | the generator writes the CREATE script, and running it deploys the model exactly when no relation shares its line with another type of its depth, no two columns of a table share one, every table with columns has a key or a foreign key, and foreign keys point at keys |
| `ScriptGenerator.CreateIsRight` | pkg/database/databasescriptview.go:60-98 | the same of any script that creates relations by depth and line |
| `ScriptGenerator.GenerateDatabaseScriptModify` | pkg/database/databasescriptview.go:128-192 | the generator writes the delta script, tables by depth and name, and it yields the new version exactly when the two versions satisfy `CanMigrate`, which does not depend on what was written |
| `DeltaCondition.CanMigrateIff` | pkg/database/databasescriptview.go:134-192 | that condition is the one of the migration theorem for the order the generator takes |
| `DeltaCondition.ReleasesFreeIff` | pkg/database/databasescriptview.go:138-168 | no foreign key stands in the way of a table exactly when every old one at a column it drops, takes the key from or gives a type that does not fit belongs to a table that is changed earlier, by depth or by name |
| `SequenceTheorems.DiagramsAreSafe` | pkg/cmdutils/visitor.go:271-336 | every diagram: no prefix deactivates more than it activates, as many at the end, nothing left active, the indent back at 0, every alias declared once, blocks closed; and it gets through when every call has a target |
| `SequenceCalls.DrawCollection` | pkg/cmdutils/visitor.go:271-336 | the same of the visitor object and its writer; and every arrow it has written is a call or a return of the module, every visible call that is come to is an arrow from its caller to its target |
| `SequenceCalls.ArrowsAreCalls` | pkg/cmdutils/visitor.go:338-436 | every message of every diagram goes from an application to one of which an endpoint of the first calls a visible endpoint, every reply goes the other way with what that endpoint returns, every step is an action of its application |
| `SequenceCalls.CallsAreDrawn` | pkg/cmdutils/visitor.go:470-497 | every visible call that is come to, on a route of calls none of whose endpoints is cut short, is drawn |
| `SequenceCalls.CallDrawsMessage` | pkg/cmdutils/visitor.go:364-375 | a call first adds the arrow from its caller to its target, one indent deeper, sender before target if their aliases are new |
| `SequenceCalls.ReturnDrawsReply` | pkg/cmdutils/visitor.go:544-548 | a return adds the arrow back to the caller, with what is returned |
| `SequenceCalls.ActionDrawsStep` | pkg/cmdutils/visitor.go:499-505 | an action adds its text, three dots nothing |
| `SequenceCalls.BlockIsFramed` | pkg/cmdutils/visitor.go:550-584 | a block starts with its header and ends with an end, at the indent of the statement |
| `SequenceCalls.ExpandedIsActivated` | pkg/cmdutils/visitor.go:415-433 | an expanded endpoint starts with the activation of its application, unless that is a human or a cron job |
| `SequenceCalls.VisitedIsAnswered` | pkg/cmdutils/visitor.go:391-413 | an endpoint that is being visited replies at once instead, and one of its activations ends |
| `SequenceCalls.RouteIsDrawn` | pkg/cmdutils/visitor.go:338-497 | what is drawn along a route of calls |
| `SequenceMessages.PayloadIsWritten` | pkg/cmdutils/utils.go:190-221 | what an endpoint returns is a return that is written in it, or nothing |
| `SequenceCalls.PayloadIsFirstReturn` | pkg/cmdutils/utils.go:190-221 | the first of them, at any depth, if none is empty |
| `SequenceMessages.EndpointTold` | pkg/cmdutils/visitor.go:338-436 | a visit adds only lines the module has |
| `SequenceTheorems.BlocksCloseIff` | pkg/cmdutils/visitor.go:530-584 | every block is closed by one end at the indent of its header exactly when no alt is without choices |
| `SequenceTheorems.ShowsIff` | pkg/cmdutils/visitor.go:124-136 | all endpoints can be shown exactly when every call has a target |
| `SequenceTheorems.EndsEarlyIff` | pkg/cmdutils/visitor.go:377-383 | an activation is ended early, by one of its calls, exactly when its statements end, through blocks and the last choice of an alt, in a call of another app that returns nothing |
| `SequenceCollections.EntryIsCutIff` | pkg/cmdutils/visitor.go:276-311 | an entry is itself marked while it is visited exactly when it was marked from the start or an entry before it was another endpoint, because the marks are never taken back |
| `SequenceCollections.EntryIsDrawn` | pkg/cmdutils/visitor.go:276-311 | what the i-th entry adds to the diagram: a note and nothing of its statements as soon as another endpoint came before it, its expansion otherwise |
| `SequenceCollections.MarkedIsNoted` | pkg/cmdutils/visitor.go:385-413 | all lines of a marked entry: header, message, and a note, between an activation and a reply if it returns something |
| `SequenceCollections.UnmarkedIsExpanded` | pkg/cmdutils/visitor.go:415-433 | an unmarked one is expanded |
| `SequenceCollections.SecondIsNoted` | pkg/cmdutils/visitor.go:276-311 | of two different endpoints the second is only noted, on every module |
| `SequenceCollections.TwoEndpointsDrawn` | pkg/cmdutils/visitor.go:276-311 | two endpoints that do the same, line by line: only the first one is shown doing it |
| `SequenceTheorems.CollectionReturns` | pkg/cmdutils/visitor.go:271-336 | what each endpoint of a collection keeps |
| `SequenceTheorems.CollectionSucceeds` | pkg/cmdutils/visitor.go:271-336 | with resolvable calls a collection gets through exactly when all its endpoints exist |
| `SequenceRuns.EndpointReturns` | pkg/cmdutils/visitor.go:338-436 | a visit keeps the balance, keeps active counts below the closures still to be called, and brings the indent back, on any call graph |
| `SequenceRuns.ExpandReturns` | pkg/cmdutils/visitor.go:415-433 | an expanded endpoint under an activation of its own |
| `SequenceRuns.CutKeeps` | pkg/cmdutils/visitor.go:385-413 | an endpoint that is noted instead, with its additional deactivation |
| `SequenceRuns.StmtReturns` | pkg/cmdutils/visitor.go:438-548 | every kind of statement |
| `SequenceBalance.FireKeeps` | pkg/cmdutils/writer.go:112-125 | a one-shot closure takes back what it allowed |
| `SequenceBalance.PutDeactivateKeeps` | pkg/cmdutils/writer.go:127-138 | deactivating what is not active changes nothing |
| `SequenceBalance.IntroducedKeeps` | pkg/cmdutils/visitor.go:250-269 | participants get different aliases, numbered as they come |
| `SequenceBlocks.EndpointSucceeds` | pkg/cmdutils/visitor.go:338-436 | resolvable calls get through, along cycles too |
| `SequenceBlocks.UnresolvedPanics` | pkg/cmdutils/visitor.go:124-136 | a call without a target is always met |
| `SequenceBlocks.StmtNests` | pkg/cmdutils/visitor.go:507-584 | lines of a block are deeper than its header and end |
| `SequenceVisitor.Writer.Activate` | pkg/cmdutils/writer.go:106-110 | counts and writes an activation |
| `SequenceVisitor.Writer.Deactivate` | pkg/cmdutils/writer.go:127-138 | counts and writes a deactivation if there is one to end |
| `SequenceVisitor.Writer.Unindent` | pkg/cmdutils/writer.go:99-104 | the panic of going too far |
| `SequenceVisitor.Activation.Call` | pkg/cmdutils/writer.go:119-124 | deactivates the first time only |
| `SequenceVisitor.Visitor.UniqueVarForAppName` | pkg/cmdutils/visitor.go:250-269 | the alias of an application |
| `SequenceVisitor.Visitor.VisitEndpoint` | pkg/cmdutils/visitor.go:338-436 | writes what the specification says and leaves the map of visits as it was |
| `SequenceVisitor.Visitor.ExpandEndpoint` | pkg/cmdutils/visitor.go:415-433 | enters, visits, closes and leaves an endpoint |
| `SequenceVisitor.Visitor.VisitStmts` | pkg/cmdutils/visitor.go:438-468 | the statements in order; only the last one may end the caller early |
| `SequenceVisitor.Visitor.VisitCall` | pkg/cmdutils/visitor.go:470-497 | a call one indent deeper |
| `SequenceVisitor.Visitor.VisitAlt` | pkg/cmdutils/visitor.go:530-542 | choices and one end |
| `SequenceVisitor.Visitor.VisitBlock` | pkg/cmdutils/visitor.go:550-570 | a header and its statements |
| `SequenceVisitor.Visitor.VisitEndpointCollection` | pkg/cmdutils/visitor.go:271-318 | the endpoints of a collection in turn |
| `SequenceVisitor.Visitor.VisitNext` | pkg/cmdutils/visitor.go:276-311 | the i-th of them is visited under the marks of the entries before it and those it adds itself |
| `LineWriter.Writer.Write` | pkg/cmdutils/writer.go:37-72 | what a chunk adds and the length it returns; an empty chunk at the beginning of a line writes the indent alone |
| `LineWriter.Writer.WriteByte` | pkg/cmdutils/writer.go:78-89 | one byte; a blank line is indented here |
| `LineWriter.Writer.WriteAll` | pkg/cmdutils/writer.go:37-72 | any sequence of chunks |
| `LineWriter.BoundariesShowIff` | pkg/cmdutils/writer.go:37-72 | chunk boundaries are unobservable for non-empty chunks, and in general exactly when no indent strays |
| `LineWriter.ChunksStray` | pkg/cmdutils/writer.go:37-72 | how many indents too many there are otherwise |
| `LineWriter.SplitJoins` | pkg/cmdutils/writer.go:51-51 | splitting at newlines loses nothing |
| `SequenceText.Render` | pkg/cmdutils/writer.go:37-72 | the lines of a diagram through the bytes of the writer: each behind its indent, one after the other |
| `SequenceText.DrawText` | pkg/cmdutils/visitor.go:271-336 | visitor and writer together: the text is that of the lines the specification draws, whose arrows are those of the module's calls |
| `SequenceText.TextHasLines` | pkg/cmdutils/writer.go:37-72 | split at its newlines the text has one line for every line of the diagram, behind as many spaces as its indent |
| `SequenceText.TextDeterminesLines` | pkg/cmdutils/writer.go:37-72 | so it determines the indent and the text of each |
| `IntegrationTheorem.MakeBuilderFromStmt` | pkg/integrationdiagram/ints_builder.go:33-105 | the result of all three phases is the diagram described without them; if names have no colons and no call goes to a collector, the dependencies are the visible calls between its apps, each once |
| `IntegrationTheorem.DiagramIsInduced` | pkg/integrationdiagram/ints_builder.go:92-104 | without calls to collectors all dependencies are calls induced on the final apps, and all such calls are there exactly when their texts tell them apart |
| `IntegrationTheorem.DrawsEachCallOnce` | pkg/integrationdiagram/ints_builder.go:92-104 | if names have no colons and no call goes to a collector: every visible call between the apps itself, once, and nothing else |
| `IntegrationTheorem.ShownAreAllowed` | pkg/integrationdiagram/ints_builder.go:121-162 | no app is shown that is excluded, and a human one only as a caller or a seed |
| `IntegrationCalls.KeysTellApart` | pkg/integrationdiagram/deps.go:19-21 | texts of dependencies are equal exactly if the dependencies are, if the names in front of the colons have none themselves |
| `CallTree.CallsAreThoseWritten` | pkg/integrationdiagram/ints_builder.go:183-208 | the calls collected are those that are written, at any depth |
| `CallTree.CallsInOrder` | pkg/integrationdiagram/ints_builder.go:183-208 | in the order they are written |
| `IntegrationTheorem.PhasesMakeDiagram` | pkg/integrationdiagram/ints_builder.go:65-104 | the first two phases add nothing outside that graph |
| `IntegrationTheorem.WalkedApps` | pkg/integrationdiagram/ints_builder.go:65-73 | the apps after the first phase are the seeds and what walks from them reach |
| `IntegrationTheorem.WalkedIsDrawn` | pkg/integrationdiagram/ints_builder.go:148-162 | every dependency of the walk lies within the final graph |
| `IntegrationTheorem.CollectorsCovered` | pkg/integrationdiagram/ints_builder.go:139-146 | what the walk finds at collectors is there too |
| `IntegrationTheorem.KeysCanClash` | pkg/integrationdiagram/ints_builder.go:164-179 | an endpoint `b:c` that calls `d`.`e` and an endpoint `b` that calls `c:d`.`e`: the texts do not tell the calls apart and one of them is missing |
| `IntegrationTheorem.BuildClash` | pkg/integrationdiagram/ints_builder.go:33-105 | which is what the builder makes of that module |
| `IntegrationCalls.HandleAllGrows` | pkg/integrationdiagram/ints_builder.go:164-179 | dependencies are listed once each, by key, and nothing is lost |
| `IntegrationCalls.WalkIsSound` | pkg/integrationdiagram/ints_builder.go:139-162 | only what a walk reaches is found |
| `IntegrationCalls.WalkIsComplete` | pkg/integrationdiagram/ints_builder.go:139-162 | and all of it, at any depth |
| `IntegrationBuilder.CallersAre` | pkg/integrationdiagram/ints_builder.go:121-137 | what the search for callers adds |
| `IntegrationBuilder.AmongAre` | pkg/integrationdiagram/ints_builder.go:107-119 | what connecting the apps adds |
| `IntegrationBuilder.IntsBuilder.ProcessCalls` | pkg/integrationdiagram/ints_builder.go:183-208 | all calls of a statement list in order, at any depth, go to the handler |
| `IntegrationBuilder.IntsBuilder.HandleCall` | pkg/integrationdiagram/ints_builder.go:107-162 | the three handlers |
| `IntegrationBuilder.IntsBuilder.WalkPassthrough` | pkg/integrationdiagram/ints_builder.go:139-146 | the walk goes on through passthrough apps |
| `IntegrationBuilder.IntsBuilder.AddCall` | pkg/integrationdiagram/ints_builder.go:164-179 | a call is added unless its key is there; between names without colons, unless it is there itself |
| `IntegrationBuilder.IntsBuilder.FindCallers` | pkg/integrationdiagram/ints_builder.go:75-90 | second phase |
| `IntegrationBuilder.IntsBuilder.Connect` | pkg/integrationdiagram/ints_builder.go:92-102 | third phase |
| `IndentLexer.StreamIsSound` | pkg/grammar/lexer_impl.go:139-197 | erasing the added tokens gives the raw stream, the stack is strictly increasing and positive, its height is INDENTs minus DEDENTs, no prefix closes more than it opened, and at the end of the file everything is closed |
| `IndentLexer.StreamFollows` | pkg/grammar/lexer_impl.go:139-197 | every token of every stream: one that starts a line moves the stack to the spaces counted when it is produced, the end of the file to none, with DEDENTs for the deeper indents and an INDENT for a new one in front of it; any other leaves the stack alone, and the count is reset by a comment and by white space within a line |
| `IndentLexer.FirstLine` | pkg/grammar/lexer_impl.go:175-189 | the first line behind a line end, with n spaces, is indented if n is not 0 |
| `IndentLexer.AdjustedLevel` | pkg/grammar/lexer_impl.go:181-189 | the stack keeps the indents below the new one, which goes on top |
| `IndentLexer.AdjustedTokens` | pkg/grammar/lexer_impl.go:181-189 | as many DEDENTs as indents are closed, then at most one INDENT |
| `IndentLexer.Lexer.GetNextToken` | pkg/grammar/lexer_impl.go:139-197 | one token; output and queue together are the output for what was read, and a new raw token does what StreamFollows says |
| `IndentLexer.Lexer.AdjustLevel` | pkg/grammar/lexer_impl.go:181-189 | the loop ends with the top of the stack at the spaces of the line |
| `IndentLexer.Lexer.QueueRead` | pkg/grammar/lexer_impl.go:152-192 | which raw tokens are passed on without adjustment, which count the others adjust to, and when it is reset |
| `IndentLexer.Lexer.ValidIsSound` | pkg/grammar/lexer_impl.go:139-197 | at every moment of a run |
| `IndentLexer.Stack.Push` | pkg/grammar/lexer_impl.go:107-109 | push |
| `IndentLexer.Stack.Pop` | pkg/grammar/lexer_impl.go:111-116 | pop |
| `ImportLoop.Parse` | pkg/parse/parse.go:111-194 | ends on every import graph, parses no file twice, on success parsed exactly the closure of the root, the root first, and succeeds exactly when all of it is acceptable; on failure the file named is one that is not |
| `ImportLoop.ParseAll` | pkg/parse/parse.go:123-190 | the loop |
| `ImportLoop.ExtensionIsPut` | pkg/parse/parse.go:112-114 | the name of the root has the extension, which is put behind one that has not |
| `ImportLoop.Listener.NextSource` | pkg/parse/parse.go:179-189 | files are taken off the queue until one is new |
| `ImportLoop.ClosureIsLeast` | pkg/parse/parse.go:123-190 | the closure is the least set with the root that is closed under imports |
| `ImportLoop.Finished` | pkg/parse/parse.go:161-193 | nothing waiting means everything parsed |
| `FormatTemplates.TemplatesFormat` | pkg/cmdutils/fmtparser.go:99-108 | parsing the printed form of a template, nested to any depth, consumes all of it and gives its meaning |
| `FormatTemplates.TemplateExpands` | pkg/cmdutils/fmtparser.go:116-193 | in any context, and stopping right behind it |
| `FormatTemplates.ItemExpands` | pkg/cmdutils/fmtparser.go:123-187 | references and conditionals |
| `FormatTemplates.ComparisonReads` | pkg/cmdutils/fmtparser.go:132-148 | comparisons with a quoted value |
| `FormatTemplates.TextFormatsIff` | pkg/cmdutils/fmtparser.go:246-253 | plain text comes back exactly when it has no byte 1, which stands for a percent sign inside the parser |
| `FormatExamples.VariableFormats` | pkg/cmdutils/fmtparser.go:123-187 | a reference gives what the attribute of that name says, or nothing, between the texts around it |
| `FormatExamples.ComparisonFormats` | pkg/cmdutils/fmtparser.go:132-187 | a reference with two texts: which of them is taken for equal and for different values, and for no value |
| `FormatExamples.SearchReads` | pkg/cmdutils/fmtparser.go:150-158 | a search holds if the value has a match of the pattern between the slashes |
| `FormatExamples.NewlinesAreShown` | pkg/cmdutils/fmtparser.go:99-108 | newlines become a backslash and an n, and nothing else is changed |
| `FormatMachine.Parser.Parse` | pkg/cmdutils/fmtparser.go:99-108 | the text of the specification, and the parser cleared for the next run |
| `FormatMachine.Parser.Expansions` | pkg/cmdutils/fmtparser.go:116-193 | position, result and stack after a run |
| `FormatMachine.Parser.ReadReference` | pkg/cmdutils/fmtparser.go:123-187 | a reference behind its opening |
| `FormatMachine.Parser.ReadComparison` | pkg/cmdutils/fmtparser.go:132-148 | the comparison after a variable |
| `FormatMachine.Parser.Consume` | pkg/cmdutils/fmtparser.go:207-221 | the three kinds of match; the position never moves back |
| `FormatMachine.Parser.Pop` | pkg/cmdutils/fmtparser.go:224-237 | the stack of matched texts |
| `FormatMachine.Parser.Clear` | pkg/cmdutils/fmtparser.go:239-244 | all fields as at the beginning |
| `FormatMachine.FormatTemplate` | pkg/cmdutils/fmtparser.go:99-108 | one parser, run any number of times |
| `NameEscaping.NamesRoundTrip` | pkg/parse/utils.go:153-159 | escaping and reading back gives the name without outer white space, for every byte string |
| `NameEscaping.GetSyslSafeName` | pkg/importer/utils.go:84-107 | the escaped text does not depend on the order of either replacement map |
| `NameEscaping.KeptBytes` | pkg/importer/utils.go:84-100 | a name keeps letters, digits and - _ ~ $ @ / { } = ? & and nothing else |
| `NameEscaping.SafeNamesAreSafe` | pkg/importer/utils.go:84-107 | the escaped name has only such bytes and percent signs in it |
| `NameEscaping.KeptNames` | pkg/importer/utils.go:84-107 | and is the name itself exactly when that has only such bytes |
| `NameEscaping.ReplacedByHex` | pkg/importer/utils.go:101-103 | replacing a byte by its code escapes that byte and no other |
| `NameEscaping.HexReplaced` | pkg/importer/utils.go:104-106 | replacing a code by its byte unescapes that byte and no other |
| `NameEscaping.EncodedDecodes` | pkg/parse/utils.go:153-159 | whatever is escaped, the original comes back if every percent sign is |
| `NameEscaping.RawNamesReadBackIff` | pkg/parse/utils.go:153-159 | a name that was not escaped reads back exactly when it has no percent sign |
| `PlantUml.Encode` | pkg/diagrams/diagutil.go:80-94 | triple by triple, the last one filled up with zeros |
| `PlantUml.EncodingReturns` | pkg/diagrams/diagutil.go:80-118 | four characters per three bytes begun; decoding gives the data and the zeros |
| `PlantUml.EncodingIsInjective` | pkg/diagrams/diagutil.go:80-118 | data of one length have different texts |
| `PlantUml.TripleReturns` | pkg/diagrams/diagutil.go:96-109 | three bytes through four six-bit characters |
| `PlantUml.SixBitsReturn` | pkg/diagrams/diagutil.go:111-118 | a six-bit number through its digit |
| `PlantUml.DigitsOfTheAlphabet` | pkg/diagrams/diagutil.go:111-118 | the digits are 0-9, A-Z, a-z, - and _, in this order |
| `PlantUml.TripleIsOneNumber` | pkg/diagrams/diagutil.go:96-109 | three bytes and their four digits are the same number, to the bases 256 and 64 |
| `GrammarConformance.SilentIffConforms` | pkg/validate/validate.go:193-267 | nothing is reported in any order of the attributes exactly when the type conforms: nothing required is missing, every union is decided without a failure, if by a combination then the whole type is one of it, and otherwise everything is accounted for |
| `GrammarMeaning.FittingIsSilent` | pkg/validate/validate.go:193-232 | without unions, in every order: nothing is reported exactly when the type has no attribute the grammar type has not and all that it requires, and so has every nested tuple whose name is a grammar type |
| `GrammarMeaning.DecidesIsFirst` | pkg/validate/validate.go:234-267 | the first option that is an attribute, or a combination if there are several attributes, decides a union; whether it is failed |
| `GrammarMeaning.PlainUnionFailsIff` | pkg/validate/validate.go:234-267 | a union of single attributes is failed exactly when it has options and the type has none of them |
| `GrammarConformance.ConformingIsSilent` | pkg/validate/validate.go:193-267 | one that conforms gets no message, whatever the order, and also on part of the names |
| `GrammarConformance.UnconformingIsReported` | pkg/validate/validate.go:193-267 | one that does not gets a message in the orders that take an unmet combination first |
| `GrammarConformance.AnyOrderReports` | pkg/validate/validate.go:193-232 | and without combinations in every order: the order is of no consequence then |
| `GrammarConformance.FailureIsReported` | pkg/validate/validate.go:214-225 | a missing attribute, or a union for which an option was looked for in vain, is reported in every order |
| `GrammarConformance.CompareAdds` | pkg/validate/validate.go:193-267 | messages are only added |
| `GrammarMessages.ExactMessages` | pkg/validate/validate.go:193-232 | without combinations, in every order: exactly one message for each missing required attribute, each union without a match and each attribute that is not accounted for, at that level and in every nested tuple that names a grammar type |
| `GrammarMessages.NestedInAnyOrder` | pkg/validate/validate.go:203-212 | the sum over nested tuples does not depend on the order of the attributes |
| `GrammarValidator.Validator.CompareTuple` | pkg/validate/validate.go:193-232 | the messages and the names left over that the specification gives, for the orders the runtime takes; other views keep theirs |
| `GrammarValidator.Validator.CompareUnion` | pkg/validate/validate.go:234-267 | the loop over the options of a union |
| `GrammarValidator.Validator.CompareSpecAttr` | pkg/validate/validate.go:214-225 | one attribute of the grammar type |
| `GrammarValidator.Validator.CompareNestedTuple` | pkg/validate/validate.go:203-212 | a nested tuple has names of its own |
| `GrammarValidator.Validator.ReportExcessAttrs` | pkg/validate/validate.go:227-231 | the names that are left |
| `GrammarValidator.ValidateView` | pkg/validate/validate.go:163-191 | a view whose type conforms gets no message, and one whose type does not gets one if the grammar has no combinations; without unions, it gets none exactly when the type fits |
| `GrammarExamples.OrderDecides` | pkg/validate/validate.go:214-225 | a concrete type and grammar: nothing is reported in one order of two attributes, something in the other |
| `GrammarExamples.SilentIfFirst` | pkg/validate/validate.go:214-225 | on every grammar of that kind: silent if the attribute comes before the choice |
| `GrammarExamples.ReportedIfSecond` | pkg/validate/validate.go:214-225 | and reported if it comes behind |
| `GrammarExamples.SecondAlternativeIsReported` | pkg/validate/validate.go:234-267 | a type of the second alternative of a choice is reported in every order |
| `GrammarExamples.SecondAlternativeIsRefused` | pkg/validate/validate.go:234-267 | the same on a concrete grammar |

## Left out

- EvaluatorTheorems.WellScopedExpressionsAreLexical: one direction; an expression that is not well scoped may still have its lexical value by chance, which depends on the values met and cannot be read off the expression.
- EvaluatorTheorems.MapOrderIsUnobservable: for well-scoped expressions, for the same reason.
- EvaluatorMachine.ExprEval.EvalCall: recursion of views is bounded by fuel, so nothing is said about evaluations that do not end; the reflective Go functions and the JSON and text forms of values are parameters.
- MigrationTheorem.DeltaMigratesIff: of the tables, not of their rows: values too long for a new type, missing or repeated values of a new key, or values without a target of a new foreign key are not modelled; constraint and sequence names never clash, names are ones SQL accepts and have no dots, and names that differ in case only, which a database folds, are different.
- CreateTheorem.CreateDeploysIff: names are ones SQL accepts, and tables or columns whose names differ in case only are taken to be different.
- ScriptGenerator.GenerateDatabaseScriptModify: types that are not relations are excluded, the original dereferences nil on them; cyclic or dangling foreign keys are excluded, the original recurses for ever (`TableDepth.DepthMaps.Passes`).
- OperatorLaws.UnionIsUnion: for sets of numbers or of texts; sets of maps are in `OperatorLaws.UnionOfMaps`, and other sets make the original panic.
- SequenceVisitor.Visitor.VisitEndpoint: labels, note sides, group boxes and the counters of visits to cut endpoints are not in the lines modelled.
- SequenceVisitor.Visitor.VisitEndpointCollection: the title and the declarations of participants in the head are not modelled.
- SequenceText.TextHasLines: for texts that are one line each, not empty and not beginning with a space; `SequenceText.Render` is for all texts.
- IntegrationTheorem.MakeBuilderFromStmt: every call that the walk from the seeds comes to is of an existing app, and that walk ends; the original dereferences nil or overflows the stack otherwise.
- FormatTemplates.TemplatesFormat: for templates printed with `%`, `|` and `)` of their text escaped everywhere; the regular-expression search in a template is a parameter and not part of the printed forms.
- IndentLexer.Lexer.GetNextToken: the generated lexer is an arbitrary stream of raw tokens, each with an arbitrary effect on the spaces counted and on the newline flag.
- GrammarValidator.Validator.CompareTuple: grammars in which a combination offers itself again are excluded, the original may recurse for ever on them.
- GrammarValidator.Validator.CompareUnion: the attribute names that its message lists are not modelled.
- NameEscaping.NamesRoundTrip: which characters are white space is a parameter.
- In the evaluator, slices shared between values after a concatenation, logging and the debugger are not modelled.
- Headers of diagrams (declarations of participants sorted by category), titles and the exact PlantUML texts are not modelled, nor the SQL texts but for how a CREATE statement is put together.
- File systems, the command line, the language server, Swagger, OpenAPI and XSD import and export, and rendering are not modelled.
- The other tree walks of the parser (`applyAttributes`, `checkCalls`) would only add easy members.

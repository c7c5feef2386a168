# PDepend core in Dafny

This project models four parts of PDepend's code model and metrics engine:

- **Coupling analyzer** (`PHP_Depend_Metrics_Coupling_Analyzer`). It is a run-once visitor. It fills a temporary dependency map from type uuids to `ce` (types this type uses) and `ca` (artifacts using this type) sets. It excludes sub- and supertype relations from coupling. It counts the fanout of functions, each distinct type once, and counts the distinct call signatures of every routine. It then turns the map into per-node `{ca, cbo, ce}` records and the project totals `{calls, fanout}`.
  - `coupling_model.dfy` (module `CouplingModel`) states every step as a function on values and proves the properties.
  - `coupling_analyzer.dfy` (module `CouplingAnalyzer`) holds the class `Analyzer`. Its fields are updated in place by methods, and each method is proved equal to its function.
- **CodeRank property strategy** (`PHP_Depend_Metrics_CodeRank_PropertyStrategy`) in `code_rank.dfy`. It builds a node table, keyed by uuid, with `in` and `out` id lists, a name and a kind. A typed property adds class-level edges and, when the packages differ, package-level edges. The lists are called `incoming` and `outgoing` because `in` is a Dafny keyword. The table keeps an invariant: every id on a list has a record, and every edge is recorded at both ends equally often.
- **Artifact base** (`AbstractASTArtifact`) in `artifact.dfy`. It covers name, lazy uuid, compilation unit and doc comment. Fold lemmas show two things:
  - the uuid is stable over any sequence of `getUuid` calls;
  - the first named compilation unit wins over any sequence of `setSourceFile` calls.
- **ASTClass state contract**, as its self-contained unit tests fix it, in `ast_class.dfy`. It covers set-once modifiers, token-derived start and end lines, `addMethod` and the parent link, the package and package name, and the defaults of a new class. `trait_composition.dfy` models the trait-composition rules the fixture-based tests pin down.
- `common.dfy` holds the shared vocabulary: `Id`, `Option`, `Elems` and `NoDup`.

Conventions of the model:

- **Object identity.** PHP's `===`/`!==` on artifacts, and `in_array(..., true)`, are modelled as equality of uuids.
- **Foreign calls become inputs.** `isSubtypeOf` is the relation parameter `sub`, where `sub(a, b)` means `a.isSubtypeOf(b)`. A routine arrives as its return class, exception classes, dependencies and invocations. An invocation arrives as its image plus, for each enclosing member-primary-prefix, either the image of its first child or the mark that the first child is the invocation itself.
- **Listeners.** The `fire*` notifications are observational, and the model leaves them out.
- **Start and end lines are positional.** The token tests of ASTClassTest.php (lines 1326-1378) fix the first token's start line (23, not 17) and the last token's end line (32, not 42); `StartLine` and `EndLine` follow them.

## Model

| member | source | states |
|---|---|---|
| CouplingModel.InitEntryKeepsExisting | src/main/php/PHP/Depend/Metrics/Coupling/Analyzer.php:420-430 | initDependencyMap adds an empty entry only for an absent id, never overwrites an existing entry, is idempotent, and keeps both map invariants |
| CouplingModel.CoupleOutcomes | src/main/php/PHP/Depend/Metrics/Coupling/Analyzer.php:382-410 | calculateCoupling has three outcomes: a null coupled type only initialises the declaring entry; a sub- or supertype in either direction adds no edge; otherwise coupled ∈ ce[declaring] and declaring ∈ ca[coupled], and no other entry changes |
| CouplingModel.CoupleEntries | src/main/php/PHP/Depend/Metrics/Coupling/Analyzer.php:397-409 | between unrelated types, calculateCoupling creates missing entries for both types, adds coupled to ce[declaring] and declaring to ca[coupled], and changes nothing else |
| CouplingModel.EdgeAddedMirrored | src/main/php/PHP/Depend/Metrics/Coupling/Analyzer.php:399-409 | adding an edge at both ends keeps every ce edge mirrored by a ca edge |
| CouplingModel.EdgeAddedHierarchyFree | src/main/php/PHP/Depend/Metrics/Coupling/Analyzer.php:397-409 | an edge added only after the sub/supertype test never joins related types |
| CouplingModel.CoupleEvolves | src/main/php/PHP/Depend/Metrics/Coupling/Analyzer.php:382-410 | calculateCoupling drops no entry and no edge, keeps every ce edge mirrored by a ca edge, and never records an edge between related types |
| CouplingModel.CoupleAllEvolves | src/main/php/PHP/Depend/Metrics/Coupling/Analyzer.php:343-350 | the loops of visitMethod over exception classes and dependencies keep the same guarantees |
| CouplingModel.AppendNewProps | src/main/php/PHP/Depend/Metrics/Coupling/Analyzer.php:271-282 | the `in_array` loops keep the list built so far as a prefix, add exactly the new types, and never add one twice |
| CouplingModel.DistinctTypesProps | src/main/php/PHP/Depend/Metrics/Coupling/Analyzer.php:266-284 | the fanouts list of a function holds each type of return ∪ exceptions ∪ dependencies exactly once, so its length is the number of distinct types |
| CouplingAnalyzer.Analyzer.AppendNewTypes | src/main/php/PHP/Depend/Metrics/Coupling/Analyzer.php:271-282 | the `in_array` loop appends exactly the types not yet listed, and fanout grows by the number appended |
| CouplingAnalyzer.Analyzer.RegisterAfferent | src/main/php/PHP/Depend/Metrics/Coupling/Analyzer.php:284-292 | the afferent loop: the map becomes the `AddAfferent` result, the function in the ca set of every listed type |
| CouplingModel.AddAfferentOneShape | src/main/php/PHP/Depend/Metrics/Coupling/Analyzer.php:284-292 | one step of the afferent loop: the type gets an entry with the function in its ca set; no ce set changes and no other entry changes |
| CouplingModel.AddAfferentShape | src/main/php/PHP/Depend/Metrics/Coupling/Analyzer.php:284-292 | the afferent loop: every referenced type has an entry with the function in its ca set; no ce set changes; no dependent is dropped; untouched entries stay as they were |
| CouplingModel.AddAfferentEvolves | src/main/php/PHP/Depend/Metrics/Coupling/Analyzer.php:284-292 | the afferent loop drops no entry or edge and keeps the mirrored and hierarchy-free invariants |
| CouplingModel.SignaturesBound | src/main/php/PHP/Depend/Metrics/Coupling/Analyzer.php:438-460 | a routine contributes at most as many calls as it has invocations |
| CouplingModel.RepeatedCallCountsOnce | src/main/php/PHP/Depend/Metrics/Coupling/Analyzer.php:454-459 | a call whose signature image is already present, whether the same invocation or a different one with the same image, adds nothing to the set of signatures or to the count |
| CouplingModel.NewSignatureCountsOne | src/main/php/PHP/Depend/Metrics/Coupling/Analyzer.php:454-459 | a call with a new signature image adds exactly one |
| CouplingModel.MethodEvolves | src/main/php/PHP/Depend/Metrics/Coupling/Analyzer.php:333-354 | visitMethod gives the declaring type an entry and keeps the map invariants |
| CouplingModel.TypeEvolves | src/main/php/PHP/Depend/Metrics/Coupling/Analyzer.php:307-325 | visitClass and visitInterface give the type an entry even when it couples to nothing, and keep the invariants |
| CouplingModel.TraverseEvolves | src/main/php/PHP/Depend/Metrics/Coupling/Analyzer.php:203-214 | the traversal of all namespaces keeps the invariants and leaves an entry for every visited class and interface |
| CouplingModel.TraversalMap | src/main/php/PHP/Depend/Metrics/Coupling/Analyzer.php:203-214 | after the traversal from the reset state, every ce edge has its ca mirror, no edge joins a type to a sub- or supertype, and every visited type has an entry |
| CouplingModel.AnalysisCoversVisitedTypes | src/main/php/PHP/Depend/Metrics/Coupling/Analyzer.php:238-254 | after a full run every visited class or interface has a metrics record, even without coupling, and its cbo equals its ce |
| CouplingModel.NoSelfCoupling | src/main/php/PHP/Depend/Metrics/Coupling/Analyzer.php:391-395 | since isSubtypeOf is reflexive, no type is ever in its own ce set |
| CouplingModel.SumCeRemove | src/main/php/PHP/Depend/Metrics/Coupling/Analyzer.php:240-251 | the fanout added by post-processing does not depend on the iteration order of the map |
| CouplingModel.ReceiverImagesSnoc | src/main/php/PHP/Depend/Metrics/Coupling/Analyzer.php:447-453 | the receiver prefix of one more parent extends the image by that parent's image and "." (nothing for a prefix headed by the invocation) |
| CouplingAnalyzer.SignatureImage | src/main/php/PHP/Depend/Metrics/Coupling/Analyzer.php:447-454 | the loop builds the call-signature image: each receiver image followed by ".", skipping prefixes headed by the invocation itself, then the name and "()" |
| CouplingAnalyzer.Analyzer.constructor | src/main/php/PHP/Depend/Metrics/Coupling/Analyzer.php:103-135 | a new analyzer is uninitialized, with zero counters and empty maps |
| CouplingAnalyzer.Analyzer.GetProjectMetrics | src/main/php/PHP/Depend/Metrics/Coupling/Analyzer.php:149-155 | the project totals are the calls and fanout counters |
| CouplingAnalyzer.Analyzer.GetNodeMetrics | src/main/php/PHP/Depend/Metrics/Coupling/Analyzer.php:173-179 | the stored record for a known uuid, the empty result exactly for an unknown one |
| CouplingAnalyzer.Analyzer.Analyze | src/main/php/PHP/Depend/Metrics/Coupling/Analyzer.php:187-193 | the first call runs the whole analysis, leaving the totals and records of `Analysis` and an empty map, and clears `uninitialized`; any later call changes no field |
| CouplingAnalyzer.Analyzer.DoAnalyze | src/main/php/PHP/Depend/Metrics/Coupling/Analyzer.php:203-214 | reset, the traversal of every namespace, and post-processing leave exactly the outcome of `Analysis` |
| CouplingAnalyzer.Analyzer.Reset | src/main/php/PHP/Depend/Metrics/Coupling/Analyzer.php:223-229 | counters zero, both maps empty |
| CouplingAnalyzer.Analyzer.PostProcessTemporaryCouplingMap | src/main/php/PHP/Depend/Metrics/Coupling/Analyzer.php:238-254 | every map entry gets the record ca = \|ca\|, cbo = ce = \|ce\|; the sum of all \|ce\| is added to fanout; the map is emptied |
| CouplingAnalyzer.Analyzer.VisitNamespace | src/main/php/PHP/Depend/Metrics/Coupling/Analyzer.php:207-209 | visiting a namespace walks its types, then its functions |
| CouplingAnalyzer.Analyzer.VisitTypes | src/main/php/PHP/Depend/Metrics/Coupling/Analyzer.php:307-325 | each class goes to visitClass and each interface to visitInterface, in order |
| CouplingAnalyzer.Analyzer.VisitFunctions | src/main/php/PHP/Depend/Metrics/Coupling/Analyzer.php:262-297 | each function goes through visitFunction, in order |
| CouplingAnalyzer.Analyzer.VisitFunction | src/main/php/PHP/Depend/Metrics/Coupling/Analyzer.php:262-297 | fanout grows by the number of distinct referenced types; the function lands in the ca set of each; calls grow by the number of distinct signatures |
| CouplingAnalyzer.Analyzer.VisitClass | src/main/php/PHP/Depend/Metrics/Coupling/Analyzer.php:307-311 | the class entry is initialised, then its methods and properties are visited |
| CouplingAnalyzer.Analyzer.VisitInterface | src/main/php/PHP/Depend/Metrics/Coupling/Analyzer.php:321-325 | the interface entry is initialised, then its methods and properties are visited |
| CouplingAnalyzer.Analyzer.VisitTypeMembers | src/main/php/PHP/Depend/Metrics/Coupling/Analyzer.php:309-310 | the inherited walk of a type: its methods, then its properties |
| CouplingAnalyzer.Analyzer.VisitMethod | src/main/php/PHP/Depend/Metrics/Coupling/Analyzer.php:333-354 | return class, then each exception class, then each dependency is coupled to the declaring type; then the calls are counted |
| CouplingAnalyzer.Analyzer.VisitProperty | src/main/php/PHP/Depend/Metrics/Coupling/Analyzer.php:362-372 | the property's class type is coupled to its declaring class |
| CouplingAnalyzer.Analyzer.CalculateCoupling | src/main/php/PHP/Depend/Metrics/Coupling/Analyzer.php:382-410 | the map becomes the three-outcome `Couple` result |
| CouplingAnalyzer.Analyzer.InitDependencyMap | src/main/php/PHP/Depend/Metrics/Coupling/Analyzer.php:420-430 | an empty entry only when the uuid has none |
| CouplingAnalyzer.Analyzer.CountCalls | src/main/php/PHP/Depend/Metrics/Coupling/Analyzer.php:438-460 | calls grow by the number of distinct signature images |
| CodeRankPropertyStrategy.WithNode | src/main/php/PHP/Depend/Metrics/CodeRank/PropertyStrategy.php:117-127 | initNode creates a record with empty lists, name and kind only for an absent uuid; existing records are never reset |
| CodeRankPropertyStrategy.WithEdge | src/main/php/PHP/Depend/Metrics/CodeRank/PropertyStrategy.php:93-97 | one edge appends exactly one id to each of two lists: the source onto the target's `in`, the target onto the source's `out`; every other record stays |
| CodeRankPropertyStrategy.WithProperty | src/main/php/PHP/Depend/Metrics/CodeRank/PropertyStrategy.php:82-85 | a property without a class type leaves the table unchanged |
| CodeRankPropertyStrategy.AppendedConsistent | src/main/php/PHP/Depend/Metrics/CodeRank/PropertyStrategy.php:96-97 | the two appends of an edge keep every listed id recorded and the two ends balanced |
| CodeRankPropertyStrategy.WithEdgeConsistent | src/main/php/PHP/Depend/Metrics/CodeRank/PropertyStrategy.php:92-106 | initialising both ends and appending keeps the table consistent |
| CodeRankPropertyStrategy.WithPropertyConsistent | src/main/php/PHP/Depend/Metrics/CodeRank/PropertyStrategy.php:78-109 | visitProperty keeps the table consistent: y is on x's `in` list exactly as often as x is on y's `out` list, and every listed id has a record |
| CodeRankPropertyStrategy.SelfTypedPropertyAddsNoEdge | src/main/php/PHP/Depend/Metrics/CodeRank/PropertyStrategy.php:92 | a property typed with its own declaring class changes nothing |
| CodeRankPropertyStrategy.ClassLevelEdge | src/main/php/PHP/Depend/Metrics/CodeRank/PropertyStrategy.php:92-98 | for a different class in the same package, the declaring class gets the dependency on its `in` list, the dependency gets the declaring class on its `out` list, and nothing else changes |
| CodeRankPropertyStrategy.PackageLevelEdge | src/main/php/PHP/Depend/Metrics/CodeRank/PropertyStrategy.php:92-106 | a property typed with another class of another package appends both the class edge and the package edge, in the same direction, once at each end; the four records exist afterwards and every other record is kept |
| CodeRankPropertyStrategy.RepeatedDeclarationAppendsTwice | src/main/php/PHP/Depend/Metrics/CodeRank/PropertyStrategy.php:96-97 | edges are appended, not set: the same declaration of a property typed with another class of the same package, visited twice, puts the id twice on each list |
| CodeRankPropertyStrategy.PropertyStrategy.constructor | src/main/php/PHP/Depend/Metrics/CodeRank/PropertyStrategy.php:60 | the table starts empty |
| CodeRankPropertyStrategy.PropertyStrategy.GetCollectedNodes | src/main/php/PHP/Depend/Metrics/CodeRank/PropertyStrategy.php:67-70 | returns the collected table |
| CodeRankPropertyStrategy.PropertyStrategy.VisitProperty | src/main/php/PHP/Depend/Metrics/CodeRank/PropertyStrategy.php:78-109 | the table becomes `WithProperty` of the old one and stays consistent if it was |
| CodeRankPropertyStrategy.PropertyStrategy.AddEdge | src/main/php/PHP/Depend/Metrics/CodeRank/PropertyStrategy.php:93-97 | both ends are initialised, then the two appends of one edge |
| CodeRankPropertyStrategy.PropertyStrategy.InitNode | src/main/php/PHP/Depend/Metrics/CodeRank/PropertyStrategy.php:117-127 | a record is inserted only when the uuid has none |
| ArtifactBase.LazyUuid | src/main/php/PDepend/Source/AST/AbstractASTArtifact.php:142-148 | getUuid returns the stored uuid when there is one, otherwise the fresh value, and the returned value is stored |
| ArtifactBase.UuidStable | src/main/php/PDepend/Source/AST/AbstractASTArtifact.php:142-148 | over any sequence of getUuid calls, every call returns what the first returned |
| ArtifactBase.AdoptUnit | src/main/php/PDepend/Source/AST/AbstractASTArtifact.php:179-184 | setSourceFile takes the new unit exactly when there is none or the current one has no name |
| ArtifactBase.FirstNamedUnitWins | src/main/php/PDepend/Source/AST/AbstractASTArtifact.php:179-184 | starting without a named unit, a sequence of setSourceFile calls keeps the first named unit offered, or the last one if none is named |
| ArtifactBase.NamedUnitKept | src/main/php/PDepend/Source/AST/AbstractASTArtifact.php:181 | once a named unit is set, no later call replaces it |
| ArtifactBase.Artifact.constructor | src/main/php/PDepend/Source/AST/AbstractASTArtifact.php:109-112 | the name is stored; uuid, unit and doc comment are null |
| ArtifactBase.Artifact.GetName | src/main/php/PDepend/Source/AST/AbstractASTArtifact.php:119-122 | returns the latest name |
| ArtifactBase.Artifact.SetName | src/main/php/PDepend/Source/AST/AbstractASTArtifact.php:132-135 | replaces the name and nothing else |
| ArtifactBase.Artifact.GetUuid | src/main/php/PDepend/Source/AST/AbstractASTArtifact.php:142-148 | result and stored uuid follow `LazyUuid`: a value is assigned only when none is stored |
| ArtifactBase.Artifact.SetUuid | src/main/php/PDepend/Source/AST/AbstractASTArtifact.php:158-161 | replaces the uuid and nothing else |
| ArtifactBase.Artifact.GetSourceFile | src/main/php/PDepend/Source/AST/AbstractASTArtifact.php:168-171 | returns the current unit |
| ArtifactBase.Artifact.SetSourceFile | src/main/php/PDepend/Source/AST/AbstractASTArtifact.php:179-184 | the unit follows `AdoptUnit`, and nothing else changes |
| ArtifactBase.Artifact.GetDocComment | src/main/php/PDepend/Source/AST/AbstractASTArtifact.php:191-194 | returns the doc comment, null by default |
| ArtifactBase.Artifact.SetDocComment | src/main/php/PDepend/Source/AST/AbstractASTArtifact.php:203-206 | replaces the doc comment and nothing else |
| AstClassModel.ModifierCheck | src/test/php/PHP/Depend/Source/AST/ASTClassTest.php:938-945 | a flag set is stored only on a class without modifiers and only if valid; overwriting is refused first; invalid flags give the invalid-argument error |
| AstClassModel.ModifiersSetOnce | src/test/php/PHP/Depend/Source/AST/ASTClassTest.php:1222-1227 | after a non-empty set was stored, any further setModifiers fails, even with the same value |
| AstClassModel.AbstractFinalRefused | src/test/php/PHP/Depend/Source/AST/ASTClassTest.php:938-945 | a new class refuses, with the invalid-argument error, any flag set holding the plain abstract flag, such as abstract together with final |
| AstClassModel.SingleClassFlagsStored | src/test/php/PHP/Depend/Source/AST/ASTClassTest.php:899-929 | a new class accepts final alone and explicit-abstract alone |
| AstClassModel.StartLine | src/test/php/PHP/Depend/Source/AST/ASTClassTest.php:1315-1343 | 0 without tokens, otherwise the first token's start line |
| AstClassModel.EndLine | src/test/php/PHP/Depend/Source/AST/ASTClassTest.php:1350-1378 | 0 without tokens, otherwise the last token's end line |
| AstClassModel.LinesComeFromFirstAndLastToken | src/test/php/PHP/Depend/Source/AST/ASTClassTest.php:1326-1378 | the lines are positional, not extremes: with tokens (23, 42) then (17, 32), start is 23 and end is 32 |
| AstClassModel.AstClass.constructor | src/test/php/PHP/Depend/Source/AST/ASTClassTest.php:877-916 | a new class has its name, no modifiers (so neither abstract nor final), no tokens, no methods, no package, no parent or interface references, and is not user defined |
| AstClassModel.AstClass.GetModifiers | src/test/php/PHP/Depend/Source/AST/ASTClassTest.php:1234-1251 | returns the stored flags: empty by default, the injected value after setModifiers |
| AstClassModel.AstClass.SetModifiers | src/test/php/PHP/Depend/Source/AST/ASTClassTest.php:923-945 | the outcome is `ModifierCheck`; only a stored outcome changes the flags; a class's flags stay valid |
| AstClassModel.AstClass.IsAbstract | src/test/php/PHP/Depend/Source/AST/ASTClassTest.php:888-905 | true exactly when the explicit-abstract flag is set |
| AstClassModel.AstClass.IsFinal | src/test/php/PHP/Depend/Source/AST/ASTClassTest.php:912-929 | true exactly when the final flag is set |
| AstClassModel.AstClass.SetTokens | src/test/php/PHP/Depend/Source/AST/ASTClassTest.php:1335-1340 | the token list is replaced |
| AstClassModel.AstClass.GetStartLine | src/test/php/PHP/Depend/Source/AST/ASTClassTest.php:1315-1343 | returns `StartLine` of the token list |
| AstClassModel.AstClass.GetEndLine | src/test/php/PHP/Depend/Source/AST/ASTClassTest.php:1350-1378 | returns `EndLine` of the token list |
| AstClassModel.AstClass.AddMethod | src/test/php/PHP/Depend/Source/AST/ASTClassTest.php:968-990 | the method count grows by one, the method is appended, its parent becomes the class, and it is returned |
| AstClassModel.AstClass.GetPackage | src/test/php/PHP/Depend/Source/AST/ASTClassTest.php:997-1017 | returns the package, null by default |
| AstClassModel.AstClass.GetPackageName | src/test/php/PHP/Depend/Source/AST/ASTClassTest.php:1040-1048 | returns the package name |
| AstClassModel.AstClass.SetPackage | src/test/php/PHP/Depend/Source/AST/ASTClassTest.php:1010-1017 | the package is the one given, and the package name is its name |
| AstClassModel.AstClass.UnsetPackage | src/test/php/PHP/Depend/Source/AST/ASTClassTest.php:1024-1048 | afterwards both the package and the package name are null |
| AstClassModel.AstClass.IsUserDefined | src/test/php/PHP/Depend/Source/AST/ASTClassTest.php:1520-1524 | returns the user-defined flag, false by default |
| AstClassModel.AstClass.SetUserDefined | src/test/php/PHP/Depend/Source/AST/ASTClassTest.php:1531-1537 | the class is user defined afterwards |
| AstClassModel.AstNamespace.constructor | src/test/php/PHP/Depend/Source/AST/ASTClassTest.php:1012 | a namespace keeps its name |
| AstClassModel.AstMethod.constructor | src/test/php/PHP/Depend/Source/AST/ASTClassTest.php:972 | a new method has its name and no parent |
| TraitComposition.OwnMethodsWin | src/test/php/PHP/Depend/Source/AST/ASTClassTest.php:206-212 | a method declared on the class wins for its name; every other entry is an adapted surviving trait method |
| TraitComposition.MergeEntries | src/test/php/PHP/Depend/Source/AST/ASTClassTest.php:335-356 | every merged entry sits under its own name and survived the precedence exclusions |
| TraitComposition.TraitCollisionFails | src/test/php/PHP/Depend/Source/AST/ASTClassTest.php:366-370 | two surviving methods of different traits under one name make getAllMethods fail with the collision error |
| TraitComposition.CollisionRaised | src/test/php/PHP/Depend/Source/AST/ASTClassTest.php:366-370 | the merge fails as soon as two surviving methods of different traits share a name |
| TraitComposition.VisibilityChangeKeepsOtherFlags | src/test/php/PHP/Depend/Source/AST/ASTClassTest.php:301-327 | a visibility change sets exactly the requested visibility and keeps the abstract, static and all other non-visibility flags |

## Left out

- Listener notifications (`fireStart*`/`fireEnd*`) are observational and not modelled.
- The tree walk the analyzers inherit from `AbstractTreeVisitor` is not part of this model. The model assumes the default order: the types of a namespace, each with its methods and then its properties, then the namespace's functions.
- Traits are out of scope for the coupling analyzer: the model's types are classes and interfaces only. The analyzer overrides only `visitClass` and `visitInterface`, so a trait reached by the inherited walk gets its entry only through `calculateCoupling`, which initialises the declaring type's entry first (Analyzer.php:386) when one of the trait's methods or properties is visited. A trait with no methods and no properties therefore gets no entry and no metrics record, while a memberless class or interface does. That path is not modelled.
- `isSubtypeOf`, `getReturnClass`, `getExceptionClasses`, `getDependencies`, `findChildrenOfType`, `getParentsOfType` and `getPackage` are foreign calls. Their results are inputs of the model: the `sub` relation, the fields of `Routine`, `Invocation`, `PropertyDecl` and `ClassRef`.
- The `M_CA`/`M_CBO`/`M_CE`/`M_CALLS`/`M_FANOUT` array keys are record fields. The empty array that `getNodeMetrics` returns for an unknown node is `None`.
- PHP array iteration order in `postProcessTemporaryCouplingMap` is an arbitrary choice of the next key. `CouplingModel.SumCeRemove` shows that the result does not depend on it.
- Object identity is uuid equality. Two distinct PHP objects that share a uuid are the same artifact here.
- Exceptions thrown by collaborators during a traversal are not modelled. Neither is the state an aborted analyzer is left in.
- CodeRank power iteration is not part of this model: it is not among the modelled files and works on floating point. `get_class($node)` is a `kind` string on `NodeRef`. A class reference always carries a package. Two classes that both have no package compare equal as packages (PropertyStrategy.php:100), so only the class edge is added; the model expresses that case with equal package references. The case where exactly one of the two classes has no package is not modelled: `initNode` would then be called with null.
- `md5(microtime())` is the `candidate` parameter of `GetUuid`. The model does not compute a hash or read a clock.
- `ArtifactBase.Artifact.SetUuid` and `ArtifactBase.Artifact.SetDocComment` take a string, as documented. Passing PHP null to them is not modelled. The `startLine`/`endLine` fields of the artifact base have no accessor in that file and are not modelled there.
- ASTClass.php, ASTMethod.php, ASTNamespace.php and State.php are not part of this model. Only what the self-contained tests assert is modelled, with these consequences:
  - Modifiers are a set of flags rather than a bitmask with State's bit values.
  - `AstClassModel.ModifierCheck` accepts exactly the subsets of the class flags (implicit-abstract, explicit-abstract, final) and refuses any set holding another flag. The tests fix only these cases: {final} and {explicit-abstract} are stored, {abstract, final} is refused. The subset rule is the model's choice for every other set.
  - Overwriting is refused whenever the stored set is non-empty.
- The token cache (`setCache`, the cache driver calls in the token tests) is not modelled. Tokens are a field.
- ASTClass tests that rely on parsed fixtures are not modelled: interfaces, parent classes beyond the empty default (a new class has no parent class reference), constants, properties, dependencies.
- `getChildren` and `getFirstChildOfType` are not modelled: the child nodes of a class, and the generic AST node behaviour they come from, are not part of the modelled class state. Neither are serialization (`__sleep`/`__wakeup`, `isCached`) and `accept`.
- Trait composition covers only the trait part of `getAllMethods`:
  - Method names are compared exactly as given; PHP's case-insensitive comparison of method names is not modelled.
  - Methods inherited from parent classes are not merged.
  - An alias is given as an extra candidate under its alias name.
  - The order of the table's keys is not modelled.
- The parser-shape tests (ASTMemberPrimaryPrefixTest.php), the facade tests over directories (DependTest.php), configuration loading (FactoryTest.php) and the progress printer (ResultPrinter.php) are I/O or parser plumbing outside the core.

# BlueDB core, modelled in Dafny

BlueDB is a PHP object-relational mapper. You declare entity classes with
constants (`<Field>Field`, `<Field>FieldType`, `<Field>Column`,
`<Field>PropertyType`, `<Field>Class`, `<Field>Identifier`). BlueDB then
builds SQL from them and turns the rows it gets back into connected entity
objects. This project models the metadata-driven core of BlueDB and proves
what that core promises:

- **`Joiner`** (`joiner.dfy`, module `Joiner`). The process-wide table of join
  aliases. Each join 5-tuple (joining class, join type, base place, base
  column, join column) gets its own `J<n>` alias from a counter that only
  goes up. A repeated tuple gets its stored alias back. `createJoin` and
  `createJoinArray` build the nested join arrays.
- **`Expression`** (`expression.dfy`, module `Expressions`; `any.dfy`, module
  `AnyCombinator`). The criteria builders `above`, `after`, `afterNow`,
  `between`, `contains`, `startsWith`, `endsWith`, `equal` and `any`. Each one
  checks its field and yields a WHERE term, the joins it needs, and its bound
  values with their type tags. Every built expression keeps the *marker
  invariant* `Bound`: the term has one `?` per bound value, and there is one
  type tag per value.
- **`FieldEntity`** (`field_list.dfy`, module `FieldLists`;
  `field_entity.dfy`, module `FieldEntities`; `loading.dfy`, module `Loading`).
  It covers:
  - the memoized `getFieldList`, and the "pointing back" scan that
    `prepareForDeletion` memoizes;
  - the SELECT of `prepareSelectQuery`;
  - the INSERT/UPDATE of `performQuery`, with its calls to the database
    recorded in an event log;
  - the transaction flags of `saveList`, `updateList` and `deleteList`;
  - the order of steps in `createInstance`, `loadManyToOneFields` and
    `loadOneToManyLists`.
- **`PropertySanitizer`** (`sanitizer.dfy`, module `Sanitizer`). It dispatches
  on the property type, and has the colour check, the comma-to-dot rewrite for
  floats, the cut of dates to ten characters, and the empty email case.
- **`BlueDBProperties`** (`properties.dfy`, module `Configuration`). It checks
  the mandatory configuration keys, holds the defaults and the optional
  overrides, and covers the process-wide `init`/`instance` pair.

Some shared pieces are defined once:

- `metadata.dfy` (modules `Wrappers` and `Metadata`) holds the shared pieces.
  It has the `Result`/`Option` wrappers; an exception becomes `Err`.
- It also has the explicit metadata registry that stands in for PHP
  reflection: per class, the table, the ID column, the ordered constant list,
  the field descriptors and the parent link of a sub-entity.
- It also has the values entity objects hold, and PHP's loose `== null`
  (`LooseNull`).
- `strings.dfy` (module `Strings`) has the decimal rendering, the join with a
  separator and the `?` lists.

State that the PHP code changes in place is a Dafny class:

| Dafny class | PHP state | what its methods reassign |
|---|---|---|
| `Joiner.JoinNames` | `$_joinNames` and `$_joinNameCounter` | the alias map and the counter |
| `FieldLists.StaticTables` | `$fieldLists` and `$pointingBack` | one memo table each |
| `Loading.Session` | the session cache | its entity map |
| `Configuration.Properties` | the fields of one BlueDBProperties object | those fields |
| `Configuration.Instance` | the static `$instance` | the stored object |

The other operations are functions, or methods with loops where the PHP code
loops.

Each such method is proved against a specification function. For example,
`PrepareSelectQuery` equals `SelectQueryOf`, and `PerformQuery` equals
`PerformQueryOf`. The properties are proved as lemmas about those functions.

## Model

| member | source | states |
|---|---|---|
| Joiner.JoinNames.constructor | src/DataAccess/Joiner.php:21-26 | the alias table starts empty and the counter at 0 |
| Joiner.JoinNames.GetJoinName | src/DataAccess/Joiner.php:36-75 | an already stored 5-tuple returns its alias and changes neither the table nor the counter. A new tuple raises the counter by exactly one and returns "J" followed by the new counter value. That name is recorded for the tuple, no stored tuple had it, and every other entry is kept. Afterwards the table maps the tuple to the returned name |
| Joiner.AllocatedDetermined | src/DataAccess/Joiner.php:66-74 | the table and counter after a getJoinName call are fixed by those before and the tuple (`AllocNames`, `AllocCounter`), and the returned alias is the one stored |
| Joiner.AllocatedKeeps | src/DataAccess/Joiner.php:66-74 | an allocation never changes the alias of a tuple that was already stored |
| Joiner.JoinNameInjective | src/DataAccess/Joiner.php:70-71 | different counter values give different `J<n>` names |
| Joiner.NamesDistinct | src/DataAccess/Joiner.php:66-72 | two different stored 5-tuples never share an alias |
| Joiner.CreateJoinArray | src/DataAccess/Joiner.php:106-118 | the join array holds exactly one path, joinType → basePlace → baseColumn → joinColumn, which maps to the join name |
| Joiner.CreateJoin | src/DataAccess/Joiner.php:88-94 | the join is that single path put under the joining class, and nothing else |
| Joiner.CreateJoinArrayAsWritten | src/DataAccess/Criteria/Expression.php:443 | the four-argument call: from PHP 7.1 on it throws; before that its one path is shifted one level, keyed by the alias, and holds null |
| Joiner.CreateJoinAsWritten | src/DataAccess/Criteria/Expression.php:138 | the five-argument call: from PHP 7.1 on it throws; before that its one path is shifted one level, keyed by the alias, and holds null |
| Joiner.ShiftedJoinLosesAlias | src/DataAccess/Joiner.php:88-118 | the shifted join shares no path with the documented INNER join and holds no alias, while the corrected join holds the alias under the INNER path |
| Joiner.ShiftedJoinExample | src/DataAccess/Criteria/Expression.php:138 | the parent join of Student to User, as written and corrected |
| Joiner.UnderClass | src/DataAccess/Joiner.php:91 | a join array placed under a class key holds exactly that array's paths, prefixed by the class |
| Joiner.PutClass | src/DataAccess/Criteria/Expression.php:443-444 | assigning `$joins[$class]` replaces what that class held and keeps every other class |
| Expressions.NewExpression | src/DataAccess/Criteria/Expression.php:63-80 | the private constructor keeps the class, the joins and the term. Empty values or empty types make both lists empty. ValueCount is the number of values |
| Expressions.NewExpressionBound | src/DataAccess/Criteria/Expression.php:63-80 | the constructor keeps the marker invariant whenever its term, values and types agree on the count |
| Expressions.MarksConcat | src/DataAccess/Criteria/Expression.php:141-144 | the `?` markers of a concatenated term are the markers of its parts added together |
| Expressions.LooseParentOr | src/DataAccess/Criteria/Expression.php:256-257 | the loose `==null` of contains, startsWith and endsWith agrees with the strict default on every argument except an empty parent class name, which it replaces by the criteria class |
| Expressions.LooseAndStrictParent | src/DataAccess/Criteria/Expression.php:256-257 | against the strict `===null` of the other builders (line 106): the two defaults differ exactly on an empty parent class name, which the loose one replaces and the strict one keeps |
| Expressions.ScopeOf | src/DataAccess/Criteria/Expression.php:128-139 | for the same class the term is over the criteria table with no join. Otherwise it is over the alias, joined by the single parent join ID-to-ID under that alias |
| Expressions.ScopeAliases | src/DataAccess/Criteria/Expression.php:128-139 | every alias a scope introduces is the name its terms are written against |
| Expressions.FieldMetaOf | src/DataAccess/Criteria/Expression.php:109-110 | the field descriptor is found exactly when the `<parent>::<field>FieldType` constant exists; an undefined constant is an error |
| Expressions.OrderedField | src/DataAccess/Criteria/Expression.php:110-124 | the field is accepted exactly when it is a PROPERTY of type INT, FLOAT, DATETIME, DATE or TIME |
| Expressions.AboveWith | src/DataAccess/Criteria/Expression.php:141-156 | a prepared term ends in ` > ?` and binds the converted value with its type tag. An inline term quotes the value and binds nothing. The expression belongs to the criteria class |
| Expressions.BuildAbove | src/DataAccess/Criteria/Expression.php:104-157 | abovePrivate, corrected: an error exactly when OrderedField rejects the field. Otherwise the comparison is over the field's column in the resolved scope |
| Expressions.BuildAboveAsWritten | src/DataAccess/Criteria/Expression.php:141 | abovePrivate as written: the same, except that the field's name follows the alias |
| Expressions.AboveWithBound | src/DataAccess/Criteria/Expression.php:141-156 | an above expression over plain names keeps the marker invariant, in both the prepared and the inline form |
| Expressions.BuildAboveBound | src/DataAccess/Criteria/Expression.php:104-157 | every above, after and afterNow expression keeps the marker invariant |
| Expressions.AboveNamesField | src/DataAccess/Criteria/Expression.php:141 | whenever a field's column differs from its name, the as-written prepared expression differs from the corrected one |
| Expressions.BetweenMarks | src/DataAccess/Criteria/Expression.php:235 | ` BETWEEN ? AND ?` holds exactly two markers |
| Expressions.BetweenWith | src/DataAccess/Criteria/Expression.php:235-242 | the term ends in ` BETWEEN ? AND ?`. The values are [min, max], converted, with two identical type tags |
| Expressions.BuildBetween | src/DataAccess/Criteria/Expression.php:197-243 | between, corrected: the same field checks as above, then the range over the field's column |
| Expressions.BuildBetweenAsWritten | src/DataAccess/Criteria/Expression.php:235 | between as written: the field's name follows the alias |
| Expressions.BetweenWithBound | src/DataAccess/Criteria/Expression.php:235-242 | a between expression has its two markers for its two values |
| Expressions.BuildBetweenBound | src/DataAccess/Criteria/Expression.php:197-243 | every between expression keeps the marker invariant |
| Expressions.BetweenNamesField | src/DataAccess/Criteria/Expression.php:235 | as written, between names the field wherever its column differs |
| Expressions.Pattern | src/DataAccess/Criteria/Expression.php:295-296 | the LIKE pattern is the value with one `%` added at each end the kind leaves open: two for contains, one after for startsWith, one before for endsWith |
| Expressions.BuildLike | src/DataAccess/Criteria/Expression.php:254-301 | the expression is built exactly when all of these hold: the value is a string, the field is a PROPERTY, and its type is TEXT or EMAIL. Then the term is `<scope>.<column> LIKE ?` with the single pattern bound, and the expression belongs to the parent class |
| Expressions.BuildLikeBound | src/DataAccess/Criteria/Expression.php:295-301 | every LIKE expression keeps the marker invariant |
| Expressions.BuildEqualNull | src/DataAccess/Criteria/Expression.php:378-396 | a null value gives `<scope>.<column> IS NULL` for every kind of field with a column constant, and binds nothing |
| Expressions.BuildEqualNullBound | src/DataAccess/Criteria/Expression.php:393-396 | the IS NULL expression has no markers and no values |
| Expressions.BuildEqualProperty | src/DataAccess/Criteria/Expression.php:401-424 | a non-null value on a PROPERTY gives `<scope>.<column>=?` with the converted value and its tag |
| Expressions.BuildEqualPropertyBound | src/DataAccess/Criteria/Expression.php:416-424 | that expression keeps the marker invariant |
| Expressions.ScanIdOnly | src/DataAccess/Criteria/Expression.php:457-467 | the scan answers true exactly when every field of the list other than the ID is null on the object |
| Expressions.BuildIdOnly | src/DataAccess/Criteria/Expression.php:468-477 | the ID-only case, corrected: `<basePlace>.<column>=?` with the object's ID as INT. It keeps the mandatory join, whose alias the term uses |
| Expressions.BuildIdOnlyAsWritten | src/DataAccess/Criteria/Expression.php:468-477 | the ID-only case as written: the expression is built with `$join`, which is still null |
| Expressions.BuildIdOnlyBound | src/DataAccess/Criteria/Expression.php:468-477 | the ID-only expression keeps the marker invariant |
| Expressions.FieldEqualitiesMembers | src/DataAccess/Criteria/Expression.php:490-513 | an expression is among the field tests exactly when some field of the referenced class's list is a non-null PROPERTY that yields it. There are never more tests than fields |
| Expressions.FieldEqualitiesBound | src/DataAccess/Criteria/Expression.php:490-513 | every field test is over the referenced class, carries the merged joins and keeps the marker invariant |
| Expressions.CollectFieldEqualities | src/DataAccess/Criteria/Expression.php:490-513 | the foreach collects exactly those tests, in field order |
| Expressions.SubIdEquality | src/DataAccess/Criteria/Expression.php:515-526 | a referenced sub-entity with an ID adds `<alias>.<its ID column>=?`, binding the ID with the literal tag `i` |
| Expressions.SubIdEqualityBound | src/DataAccess/Criteria/Expression.php:515-526 | that expression keeps the marker invariant |
| Expressions.MandatoryJoins | src/DataAccess/Criteria/Expression.php:432-445 | the mandatory join exists exactly when the classes differ, and it is the parent scope's join |
| Expressions.IdOnlyDropsJoin | src/DataAccess/Criteria/Expression.php:429-477 | when the classes differ, the as-written ID-only expression has no join at all, although its term uses the mandatory alias. The corrected one carries exactly that join |
| Expressions.IdOnlyAsWrittenExample | src/DataAccess/Criteria/Expression.php:477 | a concrete Student/User registry where the as-written expression names alias J1 but joins nothing |
| Expressions.Expressions | src/DataAccess/Criteria/Expression.php:528 | a MANY_TO_ONE equality returns an array holding the tests in order |
| Expressions.ResolveScope | src/DataAccess/Criteria/Expression.php:128-139 | the table is unchanged for the same class. For a parent class, exactly one getJoinName call is made for the parent join, and the scope is the one of that alias |
| Expressions.AbovePrivate | src/DataAccess/Criteria/Expression.php:104-157 | the result is BuildAbove with the alias from the table. A rejected field leaves the alias table as it was |
| Expressions.Above | src/DataAccess/Criteria/Expression.php:91-94 | above is abovePrivate with a bound value |
| Expressions.After | src/DataAccess/Criteria/Expression.php:182-185 | after is abovePrivate with the date-time bound |
| Expressions.AfterNow | src/DataAccess/Criteria/Expression.php:167-171 | afterNow is abovePrivate with "now" written inline and nothing bound |
| Expressions.Between | src/DataAccess/Criteria/Expression.php:197-243 | the result is BuildBetween with the alias from the table; the alias table changes as for above |
| Expressions.Like | src/DataAccess/Criteria/Expression.php:254-360 | contains, startsWith and endsWith give BuildLike under the loose parent default. All checks come before any alias is taken |
| Expressions.Equal | src/DataAccess/Criteria/Expression.php:372-531 | a null value gives the IS NULL test, and a PROPERTY gives the `=?` test. A kind other than PROPERTY or MANY_TO_ONE is an error that leaves the alias table untouched. MANY_TO_ONE fails only for a value that is not an object (or a sub-entity of an unregistered class), and otherwise succeeds with the result and the alias-table changes of EqualManyToOneStep |
| Expressions.JoinTarget | src/DataAccess/Criteria/Expression.php:480-526 | join 2/2 takes one alias for the referenced table. The result is one test per non-null property, plus the sub-entity ID test |
| Expressions.EqualManyToOneStep | src/DataAccess/Criteria/Expression.php:427-528 | a value that is not an object is an error; any other object succeeds, except a sub-entity with an ID whose class is not registered. A success is the single ID test for a non-sub-entity with only its ID set, and otherwise the tests over the join of the referenced table. The alias table gains join 1/2 whenever the classes differ, join 2/2 exactly when the tests over the referenced table are built, and nothing else (`Expressions.EqualManyToOneNames`) |
| AnyCombinator.SinglesConcat | src/DataAccess/Criteria/Expression.php:607-613 | the expressions standing directly in an array split over concatenation |
| AnyCombinator.ChildrenConcat | src/DataAccess/Criteria/Expression.php:609 | so do the inner arrays, which `mergeTwo` concatenates |
| AnyCombinator.SizeConcat | src/DataAccess/Criteria/Expression.php:604-616 | the node count adds up over concatenation |
| AnyCombinator.LeavesConcat | src/DataAccess/Criteria/Expression.php:604-616 | the depth-first contents split over concatenation |
| AnyCombinator.ChildrenSize | src/DataAccess/Criteria/Expression.php:604-616 | one pass of the flattening loop removes one node per item, so the `while` loop ends |
| AnyCombinator.LeavesSplit | src/DataAccess/Criteria/Expression.php:607-613 | a level contributes its own expressions, and its inner arrays contribute their contents |
| AnyCombinator.FlattenLeaves | src/DataAccess/Criteria/Expression.php:604-616 | flattening keeps every expression of the nested array as often as it occurs; only the order changes |
| AnyCombinator.FlattenFlat | src/DataAccess/Criteria/Expression.php:604-616 | an array without inner arrays flattens to its own expressions, in order |
| AnyCombinator.FlatSingles | src/DataAccess/Criteria/Expression.php:607-613 | in such an array every item stands directly at the top level |
| AnyCombinator.FlatChildren | src/DataAccess/Criteria/Expression.php:608-609 | such an array has no inner arrays |
| AnyCombinator.FlattenLevel | src/DataAccess/Criteria/Expression.php:605-615 | one pass gives this level's expressions and the concatenated inner arrays |
| AnyCombinator.FlattenItems | src/DataAccess/Criteria/Expression.php:603-616 | the `while` loop computes the flattening: shallower members come before deeper ones |
| AnyCombinator.MergeInto | src/DataAccess/Criteria/Expression.php:630-660 | the merge holds the union of the 5-tuples, and an alias already merged is never replaced |
| AnyCombinator.MergeJoinsFirstWins | src/DataAccess/Criteria/Expression.php:630-660 | a tuple is merged exactly when some member joins it, under the alias of the first member that does |
| AnyCombinator.MergeStep | src/DataAccess/Criteria/Expression.php:630-660 | the nested isset loops compute MergeInto |
| AnyCombinator.OrTermsSnoc | src/DataAccess/Criteria/Expression.php:665-670 | one more member adds ` OR ` and its parenthesised term, or only the term when it is the first |
| AnyCombinator.AppendReversed | src/DataAccess/Criteria/Expression.php:672-676 | the backward loop, as written, appends a member's values and types last first |
| AnyCombinator.AppendInOrder | src/DataAccess/Criteria/Expression.php:672-676 | the corrected loop appends a member's values and types in their own order |
| AnyCombinator.FlattenBound | src/DataAccess/Criteria/Expression.php:604-616 | flattening keeps the marker invariant of every member |
| AnyCombinator.AnySnoc | src/DataAccess/Criteria/Expression.php:626-677 | the merged joins and values of one more member extend those of the others |
| AnyCombinator.Combine | src/DataAccess/Criteria/Expression.php:618-681 | the foreach over the flattened members computes AnyOfInOrder: the first member's class, the merged joins, `((t1) OR (t2) …)`, and the values in marker order |
| AnyCombinator.Any | src/DataAccess/Criteria/Expression.php:600-682 | `any` is AnyOfInOrder of the flattened array |
| AnyCombinator.InOrderLengths | src/DataAccess/Criteria/Expression.php:672-676 | the in-order values and types both number the sum of the members' counts |
| AnyCombinator.RevLengths | src/DataAccess/Criteria/Expression.php:672-676 | so do the reversed ones |
| AnyCombinator.ParenMarks | src/DataAccess/Criteria/Expression.php:670 | parentheses add no marker |
| AnyCombinator.OrMarks | src/DataAccess/Criteria/Expression.php:666 | ` OR ` adds no marker |
| AnyCombinator.OrTermsMarks | src/DataAccess/Criteria/Expression.php:665-670 | the OR of the terms holds as many markers as the members bind values |
| AnyCombinator.AnyBound | src/DataAccess/Criteria/Expression.php:618-681 | `any` keeps the marker invariant, both as written and corrected. Its count is the sum of the members' counts |
| AnyCombinator.AnyJoins | src/DataAccess/Criteria/Expression.php:630-660 | `any` joins exactly the members' 5-tuples, each under the alias of the first member that joins it |
| AnyCombinator.AnyOfInOrderKeepsMembers | src/DataAccess/Criteria/Expression.php:672-676 | with the corrected order, one more member appends its own values and types after the others. The OR of one expression binds exactly that expression's values |
| AnyCombinator.AnyReversesBetween | src/DataAccess/Criteria/Expression.php:672-676 | as written, `any` of one between expression binds [max, min], where the term reads min first. The corrected order binds [min, max] |
| FieldLists.LookupConst | src/Entity/FieldEntity.php:56-58 | `array_key_exists` finds a constant exactly when one has the name, and yields its value |
| FieldLists.FieldListFromMembers | src/Entity/FieldEntity.php:51-65 | a name is in the field list exactly when some constant ending in "Field" has it as its value and is not hidden by a truthy `<value>IsHidden` |
| FieldLists.FieldListFromLength | src/Entity/FieldEntity.php:51-65 | the list never has more entries than the class has constants |
| FieldLists.StaticTables.constructor | src/Entity/FieldEntity.php:31 | both memo tables start empty |
| FieldLists.StaticTables.GetFieldList | src/Entity/FieldEntity.php:36-71 | the result is the field list of the class's constants, in declaration order. The table gains that entry and nothing else, and a memoized class leaves the table unchanged |
| FieldLists.ManyToOneFieldsMembers | src/Entity/FieldEntity.php:870-879 | (F, D) is collected exactly when F is in the list and is a MANY_TO_ONE field pointing to D |
| FieldLists.ManyToOneFieldsTargets | src/Entity/FieldEntity.php:876-887 | every collected target class is registered, so its field list can be read |
| FieldLists.BackRefsMembers | src/Entity/FieldEntity.php:888-901 | an entry is made for G exactly when G is a MANY_TO_ONE field of D pointing to C |
| FieldLists.PointingBackOfMembers | src/Entity/FieldEntity.php:883-903 | the entries are exactly the back references of the collected fields |
| FieldLists.PointingBackExactly | src/Entity/FieldEntity.php:863-906 | the scan records (F, D, G) exactly when F is a MANY_TO_ONE field of C pointing to D, and G is a MANY_TO_ONE field of D pointing back to C |
| FieldLists.ScanManyToOne | src/Entity/FieldEntity.php:870-879 | the first loop collects the many-to-one fields in order |
| FieldLists.ScanBackRefs | src/Entity/FieldEntity.php:888-901 | the inner loop collects the fields pointing back |
| FieldLists.StaticTables.CollectPointingBack | src/Entity/FieldEntity.php:881-903 | the result is the pointing-back entries of the collected many-to-one fields, and the field-list table gains exactly their target classes |
| FieldLists.TargetClassesMembers | src/Entity/FieldEntity.php:881-903 | a class is a target exactly when some collected many-to-one field points to it |
| FieldLists.StaticTables.GetPointingBack | src/Entity/FieldEntity.php:863-906 | the result is the pointing-back entries of the class. The table gains that entry, and a memoized class leaves both tables unchanged. Otherwise the field-list table gains exactly the class and the target classes of its many-to-one fields (`FieldLists.TargetClasses`) |
| FieldEntities.EffectiveFields | src/Entity/FieldEntity.php:367-371 | an empty or missing field list means the class's own field list |
| FieldEntities.SelectPlanPrefixErr | src/Entity/FieldEntity.php:383-437 | once a field throws, the loop ends with that exception |
| FieldEntities.SelectPlanErrIff | src/Entity/FieldEntity.php:383-437 | the loop throws exactly when some field that is not ignored and not left to the parent has no FieldType, is MANY_TO_MANY, or is of an unknown kind |
| FieldEntities.SelectPlanColumns | src/Entity/FieldEntity.php:396-422 | the select entries `<table>.<column> AS <field>` are exactly those of the non-ignored PROPERTY and MANY_TO_ONE fields |
| FieldEntities.SelectPlanManyToOne | src/Entity/FieldEntity.php:407-422 | manyToOneFieldsToLoad holds exactly the non-ignored MANY_TO_ONE fields, with their classes |
| FieldEntities.SelectPlanOneToMany | src/Entity/FieldEntity.php:423-431 | oneToManyListsToLoad holds exactly the non-ignored ONE_TO_MANY fields, and only when inclOneToMany holds |
| FieldEntities.SelectPlanParentFields | src/Entity/FieldEntity.php:364-393 | fieldsOfParent holds exactly the non-ignored fields without an own FieldType, when fields go to the parent |
| FieldEntities.SelectPlanEmptyParts | src/Entity/FieldEntity.php:373-376 | there are no list entries without inclOneToMany, and no parent fields when nothing goes to the parent |
| FieldEntities.SelectQueryErrIff | src/Entity/FieldEntity.php:358-437 | prepareSelectQuery throws exactly on a criteria of another class, or on a rejected field of the effective list |
| FieldEntities.AppendColumn | src/Entity/FieldEntity.php:379-421 | the `$isFirst` logic yields the comma-separated list, which starts with the parent ID column for a sub-entity |
| FieldEntities.SelectPlanSnoc | src/Entity/FieldEntity.php:383-437 | one more field is one more loop step |
| FieldEntities.SelectIteration | src/Entity/FieldEntity.php:384-436 | one loop iteration agrees with the step on the collected lists, and keeps the query text equal to the select list so far |
| FieldEntities.SelectLoop | src/Entity/FieldEntity.php:370-437 | the loop builds `SELECT` plus the list, or ends with the first exception |
| FieldEntities.AppendCriteria | src/Entity/FieldEntity.php:441-447 | the criteria's joins and ` WHERE ` restrictions are appended, each only when not empty |
| FieldEntities.BuildSelectQuery | src/Entity/FieldEntity.php:373-449 | the query is the select list, ` FROM <table>` and the criteria tail, together with the three collected lists |
| FieldEntities.PrepareSelectQuery | src/Entity/FieldEntity.php:358-450 | the result is SelectQueryOf. The field-list table changes at most by the class's own entry |
| FieldEntities.CheckError | src/Entity/FieldEntity.php:645-660 | the call goes on exactly when it is an INSERT with a loosely null ID or an UPDATE with a set ID, and the object's class is the called class |
| FieldEntities.StatementOf | src/Entity/FieldEntity.php:777-806 | an INSERT always has a statement, whose tags and values are those bound. An UPDATE has one exactly when it bound a value. The ID condition adds one tag and one value together |
| FieldEntities.BindCounts | src/Entity/FieldEntity.php:707-775 | the loop keeps one column, one tag and one value in step |
| FieldEntities.BindPrefixErr | src/Entity/FieldEntity.php:707-775 | once a field throws, the loop ends with that exception |
| FieldEntities.BindSnoc | src/Entity/FieldEntity.php:707-775 | one more field is one more loop step |
| FieldEntities.BindErrIff | src/Entity/FieldEntity.php:707-775 | the loop throws exactly on a field with no FieldType (unless left to the parent), a field of unknown kind, or a MANY_TO_ONE value that is neither null nor an object with a set ID |
| FieldEntities.BindMembers | src/Entity/FieldEntity.php:707-775 | the bound columns are exactly the PROPERTY and MANY_TO_ONE fields, minus the loosely null ones on INSERT. The parent fields are exactly those without an own FieldType, when used |
| FieldEntities.AppendAssignment | src/Entity/FieldEntity.php:724-733 | a column is appended with the `$isFirst` comma logic, and `=?` follows in an UPDATE |
| FieldEntities.BindIteration | src/Entity/FieldEntity.php:708-774 | one iteration agrees with the loop step and keeps the statement text equal to the columns so far |
| FieldEntities.BindLoop | src/Entity/FieldEntity.php:696-775 | the statement head, then the loop. A sub-entity's INSERT starts with its ID column, bound with `i` to the saved parent's ID |
| FieldEntities.PlaceholderList | src/Entity/FieldEntity.php:786-796 | the `?` list has one marker per bound value, comma-separated |
| FieldEntities.BuildStatement | src/Entity/FieldEntity.php:779-805 | the text built is StatementOf's: ` VALUES (?,…)` for an INSERT, ` WHERE <table>.<ID>=?` with the ID bound for an UPDATE |
| FieldEntities.FinishQuery | src/Entity/FieldEntity.php:779-840 | the statement, a rollback and the exception when it fails, the generated ID, the parent update and the commit, as Finish says |
| FieldEntities.RunAfterChecks | src/Entity/FieldEntity.php:662-840 | the begin, a sub-entity's parent save, then RunAfterBinding, as AfterChecks says |
| FieldEntities.RunAfterBinding | src/Entity/FieldEntity.php:696-840 | the field loop and what follows it, as AfterBinding says |
| FieldEntities.PerformQuery | src/Entity/FieldEntity.php:643-840 | the outcome and every call made, in order, are those of PerformQueryOf |
| FieldEntities.ParentSaveFailureStops | src/Entity/FieldEntity.php:665-671 | when the nested save of the parent throws, the insert fails with that exception after the begin and the save, with no child statement, rollback or commit |
| FieldEntities.ParentUpdateFailurePropagates | src/Entity/FieldEntity.php:831-839 | when the nested update of the parent throws, the update fails with that exception; the parent update is the last call, with no commit or rollback after it |
| FieldEntities.HeadBindingCounts | src/Entity/FieldEntity.php:698-705 | the starting binding has as many tags as values |
| FieldEntities.FinishTagsMatch | src/Entity/FieldEntity.php:777-810 | a balanced binding yields only statements with one tag per value |
| FieldEntities.AfterBindingTagsMatch | src/Entity/FieldEntity.php:707-810 | so does whatever follows the field loop |
| FieldEntities.AfterChecksTagsMatch | src/Entity/FieldEntity.php:662-810 | so does everything after the argument checks |
| FieldEntities.PerformQueryTagsMatch | src/Entity/FieldEntity.php:643-810 | every prepared statement performQuery sends has exactly one type tag per bound value |
| FieldEntities.FinishTransaction | src/Entity/FieldEntity.php:805-840 | what follows the binding keeps the log so far, and adds no begin. A commit comes last, only when asked and on success; a rollback comes last, only on failure |
| FieldEntities.DisciplineAfterOpening | src/Entity/FieldEntity.php:808-840 | a log opened with the begin keeps the discipline that Finish gives |
| FieldEntities.AfterBindingTransaction | src/Entity/FieldEntity.php:707-840 | whatever the field loop gave, the rest keeps the transaction discipline |
| FieldEntities.OpeningLog | src/Entity/FieldEntity.php:662-671 | before the loop, the log holds the begin when asked, then at most the parent save |
| FieldEntities.AfterChecksTransaction | src/Entity/FieldEntity.php:662-840 | after the argument checks, the transaction discipline holds |
| FieldEntities.PerformQueryTransaction | src/Entity/FieldEntity.php:643-840 | a rejected call sends nothing. Otherwise: the transaction is begun first exactly when asked; it is committed last exactly when asked and the call succeeds; a rollback only ever ends a failed call |
| FieldEntities.PerformQueryResult | src/Entity/FieldEntity.php:827-828 | a successful INSERT of an entity that is not a sub-entity takes the generated ID. Every other success leaves the entity as it was |
| FieldEntities.FinishSendsStatementIff | src/Entity/FieldEntity.php:779-819 | a statement is sent exactly when StatementOf gives one |
| FieldEntities.UpdateSendsStatementIff | src/Entity/FieldEntity.php:777-780 | an UPDATE that bound its fields sends a statement exactly when it bound at least one value |
| FieldEntities.FirstFailure | src/Entity/FieldEntity.php:186-187 | the index of the first item whose inner call throws; every item before it went through |
| FieldEntities.ListCallDiscipline | src/Entity/FieldEntity.php:179-191 | a list call completes exactly when every item goes through. The begin comes first exactly when asked, and the commit comes last exactly when asked and the call completed. Every inner call receives (false, false), and a completed call made one inner call per item, in order |
| FieldEntities.ListCallPieces | src/Entity/FieldEntity.php:183-190 | the begin, inner and commit parts of the log have those properties one by one |
| FieldEntities.ListCall | src/Entity/FieldEntity.php:179-191 | the loop agrees with ListCallOf |
| FieldEntities.SaveList | src/Entity/FieldEntity.php:179-191 | saveList is a list call of `save`, so ListCallDiscipline describes its transaction and its inner calls |
| FieldEntities.UpdateList | src/Entity/FieldEntity.php:203-215 | updateList is a list call of `update` that passes on the field list and updateParents; ListCallDiscipline applies |
| FieldEntities.DeleteList | src/Entity/FieldEntity.php:252-264 | deleteList is a list call of `delete`; ListCallDiscipline applies |
| Loading.DigitPrefix | src/Entity/FieldEntity.php:512 | intval reads the longest prefix of digits |
| Loading.DecimalValueOfNatToString | src/Entity/FieldEntity.php:512 | the digits of a number read back as that number |
| Loading.IntvalOfIntToString | src/Entity/FieldEntity.php:512 | intval of an ID in its string form is that ID |
| Loading.Session.constructor | src/Entity/FieldEntity.php:543-573 | a new session, the cache that lookUp and lookUpByOneToMany consult, holds no entity and no list |
| Loading.ManyToOneEvents | src/Entity/FieldEntity.php:532-553 | the loop keeps the entity's class, kind and ID. It loads exactly the non-null keys the session misses, in order |
| Loading.ManyToOneFieldValues | src/Entity/FieldEntity.php:539-550 | field by field: a null key stays as it is, a session hit takes the cached entity, and any other key is loaded |
| Loading.ManyToOneOthers | src/Entity/FieldEntity.php:532-553 | a field outside the list keeps its value |
| Loading.ManyToOneKeepsNullKey | src/Entity/FieldEntity.php:537-540 | a loosely null foreign key is left as it is |
| Loading.ManyToOneLoadsOnlyMisses | src/Entity/FieldEntity.php:543-548 | every load is of a non-null key that the session does not hold |
| Loading.LoadManyToOneFields | src/Entity/FieldEntity.php:532-553 | the foreach computes ManyToOneOf on the session's entities |
| Loading.OneToManyShape | src/Entity/FieldEntity.php:560-586 | the list loop only loads lists, and keeps the entity's class and ID |
| Loading.BackLinkedLinks | src/Entity/FieldEntity.php:580-581 | every loaded child gets the parent in its identifier field and is otherwise as loaded |
| Loading.OneToManyCached | src/Entity/FieldEntity.php:573-576 | a list the session holds is taken as it is |
| Loading.OneToManyLinked | src/Entity/FieldEntity.php:577-583 | any other list is the loaded list, with every child pointing back to the entity |
| Loading.OneToManyLoadsIff | src/Entity/FieldEntity.php:573-583 | a list is loaded exactly when the session does not hold it |
| Loading.OneToManyOthers | src/Entity/FieldEntity.php:560-586 | a field that no list names keeps its value |
| Loading.LinkBack | src/Entity/FieldEntity.php:580-581 | the inner foreach links every child back |
| Loading.LoadOneToManyLists | src/Entity/FieldEntity.php:560-586 | the foreach computes OneToManyOf for the entity's own ID |
| Loading.ConcatPhases | src/Entity/FieldEntity.php:515-522 | phases laid end to end are in order |
| Loading.PhasesAreHomogeneous | src/Entity/FieldEntity.php:515-522 | each phase of createInstance makes only its own kind of call |
| Loading.SessionOnlyForFullLoads | src/Entity/FieldEntity.php:486-489 | with addToSession decided by shouldAddToSession, the entity is put into the session, as the first call, exactly when there is no field list, no ignore list and one-to-many lists are included; otherwise the session map is unchanged |
| Loading.CreateInstanceOrder | src/Entity/FieldEntity.php:504-525 | the session entry comes first, and only when asked, under the ID (a sub-entity's is the intval of its parent field). Then every many-to-one load, then the parent (loaded exactly for a sub-entity), then every list load |
| Loading.SelfReferenceNotLoaded | src/Entity/FieldEntity.php:514-518 | because the session entry comes first, a many-to-one field pointing to the entity itself is never loaded again |
| Loading.CreateInstance | src/Entity/FieldEntity.php:504-525 | the method on a session computes CreateInstanceOf, and no cached list changes |
| Sanitizer.BoolFilter | src/Entity/PropertySanitizer.php:120-131 | the BOOL filter accepts exactly the integers 0 and 1 |
| Sanitizer.CommasToDots | src/Entity/PropertySanitizer.php:99 | every comma becomes a dot, nothing else changes, and the length is kept |
| Sanitizer.CommasToDotsIdempotent | src/Entity/PropertySanitizer.php:99 | the replacement is idempotent, and leaves a string without commas alone |
| Sanitizer.FirstTen | src/Entity/PropertySanitizer.php:141 | the result is the first ten characters, or all of a shorter string |
| Sanitizer.SanitizeColor | src/Entity/PropertySanitizer.php:184-217 | a colour is accepted exactly when it has six characters, all hex digits in either case. It comes back upper-case |
| Sanitizer.SanitizeColorIdempotent | src/Entity/PropertySanitizer.php:190-216 | a sanitized colour sanitizes to itself |
| Sanitizer.SanitizeEmail | src/Entity/PropertySanitizer.php:167-178 | the empty string comes back as it is. Anything else must pass the email filter after normalisation |
| Sanitizer.Sanitize | src/Entity/PropertySanitizer.php:43-78 | these cases: <br>• a non-string goes to `PropertyCreator::create` unchanged <br>• TEXT comes back as it is <br>• FLOAT succeeds exactly when the float filter accepts the string after the comma rewrite, and creates the filtered value <br>• BOOL succeeds exactly when the integer filter gives 0 or 1, and creates it <br>• DATE creates from exactly the first ten characters (all of a shorter string) <br>• COLOR succeeds exactly when SanitizeColor does, and returns its upper-case string <br>• INT and ENUM succeed exactly when the integer filter accepts, and create the filtered integer <br>• TIME and DATETIME create from the string itself <br>• an empty EMAIL comes back as it is, and any other EMAIL succeeds exactly when the email filter accepts it after normalisation, and returns the filtered address <br>• an unknown type is an error |
| Sanitizer.SanitizeColorPropertyIdempotent | src/Entity/PropertySanitizer.php:184-217 | a sanitized COLOR value sanitizes to itself |
| Sanitizer.FloatReadsCommaAsDot | src/Entity/PropertySanitizer.php:97-105 | FLOAT treats a comma exactly like a dot |
| Configuration.BoolVal | src/Configuration/BlueDBProperties.php:145-153 | boolval is false exactly for the loosely null values and the string "0", and true for everything else |
| Configuration.FirstMissing | src/Configuration/BlueDBProperties.php:120-125 | no error exactly when every key is present. Otherwise the error names a missing key, and every key before it is present |
| Configuration.CheckMandatory | src/Configuration/BlueDBProperties.php:120-125 | the loop gives the error for the first missing mandatory key |
| Configuration.SettingsOf | src/Configuration/BlueDBProperties.php:118-154 | an error exactly when a mandatory key is missing. Otherwise host, db, user and pass are copied as given, and every optional key overrides its default |
| Configuration.OptionalSettings | src/Configuration/BlueDBProperties.php:132-153 | an absent optional key leaves its default: `""`, `Y-m-d`, `H:i:s`, `Y-m-d H:i:s`, and true for all three flags. A present one overrides it, and the flags go through boolval |
| Configuration.MinimalConfig | src/Configuration/BlueDBProperties.php:118-154 | a configuration with only the four mandatory keys yields the defaults around them |
| Configuration.Properties.constructor | src/Configuration/BlueDBProperties.php:70-113 | the object starts at its property initialisers |
| Configuration.Properties.AssignConnection | src/Configuration/BlueDBProperties.php:127-130 | the four connection settings are copied verbatim, and nothing else changes |
| Configuration.Properties.AssignFormats | src/Configuration/BlueDBProperties.php:132-143 | the namespace and the three formats are each overridden when their key is present |
| Configuration.Properties.AssignFlags | src/Configuration/BlueDBProperties.php:145-153 | the three flags are each overridden by boolval when their key is present |
| Configuration.Properties.Configure | src/Configuration/BlueDBProperties.php:118-154 | the constructor body fails exactly as SettingsOf does, before anything is assigned. Otherwise it leaves exactly SettingsOf's settings |
| Configuration.Instance.constructor | src/Configuration/BlueDBProperties.php:46 | there is no instance before init |
| Configuration.Instance.Init | src/Configuration/BlueDBProperties.php:62-65 | a successful init stores a new object built from the configuration. A failing one keeps the old instance |
| Configuration.Instance.Get | src/Configuration/BlueDBProperties.php:51-57 | before a successful init it is an error; afterwards it returns the stored object |
| Strings.NatToStringInjective | src/DataAccess/Joiner.php:71 | different counter values render differently |
| Strings.JoinWithSnoc | src/Entity/FieldEntity.php:398-405 | appending a part extends the comma-joined text by one separator and the part |
| Strings.Placeholders | src/Entity/FieldEntity.php:788-794 | n markers separated by commas: `?` at even positions and `,` between them |

## Left out

- **Out of scope: the database.** `MySQL` (connections, prepare/bind, fetches, retries) is not part of this model. performQuery records its calls as `DbEvent`s. What the database and the nested parent calls answer is one parameter of `PerformQueryOf`, an `Answers` value. It holds the exception the nested parent save throws (if any), the saved parent's ID, whether the statement succeeds, the generated ID, and the exception the nested parent update throws (if any). The nested save and update are themselves performQuery runs; the model takes their outcomes as given rather than unfolding them.
- **Out of scope: classes not in the model.**
  - `Session`, `Criteria`, `PropertyTypeEnum`, `PropertyCreator`, `StringUtility`, `ArrayUtility` and `StrongEntity`/`SubEntity` are not part of this model.
  - `convertToString` and `getPreparedStmtType` are the arrow fields of `Codec`.
  - `filter_var` and the Slavic-character replacement are the arrow fields of `Filters`.
  - A PropertyCreator call is returned as the call to make.
  - `mergeTwo` is taken to be concatenation.
  - Of a criteria, only its base class and its prepared joins and restrictions are inputs. Its `prepare()` and its bound parameters are left out.
- **Out of scope: reflection.** `constant()`, `get_called_class`, `is_subclass_of` and `property_exists` become the explicit registry. A listed field with no `<Field>Type` constant is not an error everywhere. The many-to-one scan (`FieldLists.ManyToOneFields`, `FieldLists.BackRefs`) skips it, which matches PHP 7, where `constant()` warns and returns null; PHP 8 throws instead, and that is not modelled. `Expressions.FieldEquality` excludes such a field through `WellFormed`. Where the expression builders and performQuery look a type up, the missing constant is an `Err`.
- **Join order.** The joins of an expression are a map keyed by the 5-tuple. The order of keys in PHP arrays, and so the order in which the criteria renders its joins, is not modelled.
- **`createJoin` and `createJoinArray` argument lists.** Expression calls them with one argument fewer than they declare; the missing one is the join type. The rest of the model builds the shape the comments document, with INNER as the join type. What the calls do as written is `Joiner.CreateJoinAsWritten` and `Joiner.CreateJoinArrayAsWritten` (see Findings).
- **Error messages.** The exception texts keep their fixed wording. Interpolated parts (the field type, the class names, the offending value) are left out, except the undefined constant's name and the sanitizer's value.
- **afterNow's clock.** The current date-time is a parameter.
- **Field kinds inside equal.** equal's notice (`trigger_error`) for a non-PROPERTY field of the referenced object is not modelled; that field just gives no test.
- **`isNotIn`.** It is not among the source's builders and is not modelled.
- **Loading.**
  - Entities are values, so PHP's object identity and aliasing are not captured. A child linked back holds a snapshot of its parent, not the same instance.
  - The nested loads (`loadByID`, `loadByIDInternal`, `loadListByCriteriaInternal`) are the abstract `Loaders`. Whatever they would add to the session is not modelled.
  - `setFieldValues` is not part of this model; createInstance starts from the filled entity.
  - `Loading.Intval`: it reads strings, integers and booleans. An opaque value, a float and an exponent in a string give 0. This is weaker than PHP for floats and exponent strings, and for digit strings beyond the 64-bit range, which PHP's intval saturates at PHP_INT_MAX (PHP_INT_MIN below); the model reads them unbounded, which does not matter for database IDs.
  - `Loading.Session.constructor`: the session key is the class and the ID value compared exactly. PHP's lookup compares IDs loosely.
- **prepareForDeletion.** Only its pointing-back scan and memo are modelled (`FieldLists.StaticTables.GetPointingBack`). The transaction start, the reload of the referencing objects, and the `update` that sets a both-ways reference to null are left out: they run on the database and on classes that are not part of this model.
- **The loaders of FieldEntity** (`loadByID`, `loadList`, `exists` and the other public loaders) are abstract or call into the database, and are not modelled.
- **Sanitizer.Sanitize: strlen counts bytes.** The colour length and the ten-character cut count characters (`seq<char>`), not bytes. So the model keeps more of a multi-byte date string than PHP does.
- **Configuration.BoolVal:** an opaque value is taken as true, and a float is not modelled.
- **Expressions.EqualManyToOneStep:** a referenced sub-entity with an ID whose class is not in the registry is an error (`UndefinedSubEntityClass`). In PHP an object's class always exists, so this error cannot occur there; it stands for the registry not knowing the class.
- **FieldEntities.PerformQuery: the `$isSubEntity` argument.** The callers that pass it (StrongEntity and SubEntity) are not part of this model. The model identifies the flag with the class having a parent link (`meta.parent.Some?`).
- **Configuration.Properties.Configure:** it is called on a fresh object, so the overrides are written as "the key's value if present, else the current one". This matches the PHP `if`s from the property initialisers.
- **FieldEntities.PerformQuery: nested parent calls.** The nested `save` of a sub-entity's parent and the nested `update` of its parent are not unfolded; their exceptions are inputs (`Answers.parentSave`, `Answers.parentUpdate`). A failing nested save stops the insert before any child statement, and a failing nested update stops the update before the commit. Neither sends a rollback or a commit, as in PHP, where the exception leaves the transaction open. A class without a parent is an error there, where PHP would call an undefined method.
- **AnyCombinator.Combine and AnyCombinator.Any** build the corrected value order. The order as written is `AnyCombinator.AnyOf`, with its loop `AnyCombinator.AppendReversed` (see Findings). The merged term `((t1) OR (t2) …)` carries the markers of each member in order, and prepared values bind to markers by position. The code reverses the values of each member, so it binds them to the wrong markers.

## Findings

| source | as written | input that shows it | evidently intended | confidence | as-written member | corrected member |
|---|---|---|---|---|---|---|
| src/DataAccess/Criteria/Expression.php:141 and :235 | above, after, afterNow and between write `$field` after the alias | any ordered PROPERTY whose `<Field>Column` differs from its field name, e.g. field `Born` with column `born_at`: the term reads `T.Born > ?` | the column, as every other builder writes (`$column`) | not executed | Expressions.BuildAboveAsWritten, Expressions.BuildBetweenAsWritten (exhibited by Expressions.AboveNamesField, Expressions.BetweenNamesField) | Expressions.BuildAbove, Expressions.BuildBetween (Expressions.BuildAboveBound, Expressions.BuildBetweenBound; used by Expressions.AbovePrivate and Expressions.Between) |
| src/DataAccess/Criteria/Expression.php:477 | the ID-only case of equal on a MANY_TO_ONE field builds the expression with `$join`, which is null there, instead of `$joins` | equal(Student, "Address", an Address object with only its ID set, parent class User): the term is `J1.Address=?`, but the expression joins nothing, so alias J1 is undefined | the expression carries the mandatory parent join its term is written against | not executed | Expressions.BuildIdOnlyAsWritten (exhibited by Expressions.IdOnlyDropsJoin, Expressions.IdOnlyAsWrittenExample) | Expressions.BuildIdOnly (Expressions.BuildIdOnlyBound; used by Expressions.EqualManyToOneStep) |
| src/DataAccess/Criteria/Expression.php:672-676 | any appends each member's values and types from the last to the first | any([between(C, f, 1, 9)]): the term is `((T.f BETWEEN ? AND ?))` but the values are [9, 1] | values in marker order, member by member: the merged term carries each member's markers in order (`AnyCombinator.AnyBound`), and values bind by position, so the reversed loop binds max to the min marker of between | not executed | AnyCombinator.AnyOf with AnyCombinator.AppendReversed (exhibited by AnyCombinator.AnyReversesBetween) | AnyCombinator.AnyOfInOrder (AnyCombinator.AnyOfInOrderKeepsMembers, AnyCombinator.AnyBound; built by AnyCombinator.Combine and AnyCombinator.Any) |
| src/DataAccess/Criteria/Expression.php:138 | every parent-scoped builder calls `Joiner::createJoin` with five arguments and equal calls `Joiner::createJoinArray` with four (line 443), one fewer than each declares: the join type is missing | above(C, f, v, parent class P) with P ≠ C and alias J1: from PHP 7.1 on the call throws ArgumentCountError; before that it builds P → table of C → ID column of C → ID column of P → J1 holding null, so no INNER join carries alias J1 | the documented shape P → INNER → table of C → ID column of C → ID column of P = J1 | not executed | Joiner.CreateJoinAsWritten, Joiner.CreateJoinArrayAsWritten (exhibited by Joiner.ShiftedJoinLosesAlias, Joiner.ShiftedJoinExample) | Joiner.CreateJoin, Joiner.CreateJoinArray with the join type INNER (used by every builder of Expressions) |

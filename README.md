# SqlTableParser in Dafny

This project models the table extractor of SqlTableToEntity. The extractor takes one parsed
`CREATE TABLE` statement and builds a `Table` in three passes:

1. **Extraction** walks the table definition's children. Every column or computed-column
   definition becomes a `TableColumn`, and primary-key names are merged into
   `PrimaryKeyColumns`.
2. **Resolution** (`UpdateInterColumnInformation`) does two things. It flags the columns the
   key list names. It then walks the columns in order and gives each column with a non-blank
   reference the type of the first column whose name matches that reference, read as it
   stands at that moment. A reference that matches no column becomes the type itself.
   Columns without a reference keep their type. A reference to a column that is itself
   resolved later in the list reads that column's type before it is resolved.
3. **Validation** rejects a table that has a blank column name or a blank column type.

The `Table` and `TableColumn` models add the derived queries the generators use: identity and
key flags, the constraint-type tests, the `IsIdColumn` rule, and the diagnostic strings.

How the model is laid out:

- The SQL parser's syntax tree is replaced by one closed datatype, `SqlDom.Node`. It has one
  constructor per node class the extractor switches on, plus `Unknown` for every other class.
- `Table` and `TableColumn` are datatypes.
- Each walker of the source is a method with a `while` loop. Each is proved equal to a
  specification function that folds one step per child: `ProcessColumn` against
  `ColumnSteps`, `ProcessComputedColumn` against `ComputedSteps`, `ProcessTableDefinition`
  against `TableSteps`, `GetPrimaryKeyColumns` against `IndexedColumnNames`, and
  `UpdateInterColumnInformation` against `Resolve`.
- The properties the source promises are proved as lemmas about those functions.
- A C# `null` string is `None` of `Text.NString`.
- Case-insensitive comparison (`StringComparison.OrdinalIgnoreCase`) is `Text.EqualsIgnoreCase`.
- Exceptions are values of `Tables.Fault`:
  - the validator's two errors, `MissingNames` and `MissingTypes`;
  - `NullReference`, for the null dereferences the modelled code can reach: logging a
    missing node (`LogUnknownObject(null)`) and scanning a key list that holds a null entry
    before the match (`IsPrimaryKey`). Two more are not modelled as faults; see "Left out".
- `OrderBy(item => item)` is a stable insertion sort over an abstract total preorder `order`,
  because the source sorts with a culture-sensitive comparer. `Distinct()` keeps the first
  occurrence under exact equality.

`ParserScenarios` takes four concrete statements through all three passes:

- an identity key declared at table level;
- an `ISNULL` computed column;
- a `CONVERT` computed column;
- a shorthand `PRIMARY KEY` that comes before the column's name.

## Model

| member | source | states |
|---|---|---|
| Extensions.GetTypeName | SqlTableParser/Extensions.cs:8-11 | the type name is returned unchanged exactly when the parser's namespace does not occur in it, and never grows; which occurrences are removed is pinned down by `Text.RemoveAllLeftmost` |
| Text.RemoveAllUnchanged | SqlTableParser/Extensions.cs:10 | `Replace(pattern, "")` changes a string exactly when the pattern occurs in it, and then shortens it |
| Text.RemoveAllLeftmost | SqlTableParser/Extensions.cs:10 | `Replace(pattern, "")` scans left to right: the text before the first occurrence is kept, that occurrence is dropped, and the scan resumes right after it |
| Extensions.GetDataType | SqlTableParser/Extensions.cs:13-23 | a literal THEN expression gives the literal's type name; any other expression gives "VARCHAR" |
| Extensions.GetObjectName | SqlTableParser/Extensions.cs:25-28 | an object identifier's value is its object name; its schema plays no part |
| Extensions.GetTypeValue | SqlTableParser/Extensions.cs:30-33 | a data-type specification's value is the object name of its type |
| Extensions.GetTypeValueDropsSchema | SqlTableParser/Extensions.cs:25-33 | two specifications naming the same type give the same value, whatever schema qualifies the type and whatever its arguments |
| Text.PadRight | SqlTableParser/Models/TableColumn.cs:128 | `{value,-20}` keeps the value as a prefix, pads it with spaces on the right, and has length max(width, length) |
| TableColumns.DiagnosticStringShowsFlags | SqlTableParser/Models/TableColumn.cs:118-130 | reading the five slots of a column's diagnostic line back gives exactly IsPrimaryKey, IsIdentity, Computed, IsNull and IsNotNull; when type and name fit in 20 characters the slots start at offset 41 |
| TableColumns.DecodeSlotRoundTrip | SqlTableParser/Models/TableColumn.cs:128 | one slot of the diagnostic line (a blank, then the word or nothing) decodes back to its flag and the rest of the line |
| TableColumns.ConstraintTestsExclusive | SqlTableParser/Models/TableColumn.cs:77-112 | no two of the eight constraint-type tests hold together, IsNull and IsNotNull never both hold, and some test holds exactly when the type is one of the eight tested kinds |
| TableColumns.DerivedFlags | SqlTableParser/Models/TableColumn.cs:41-46 | IsPrimaryKey holds iff the explicit flag is set or the constraint type is PrimaryKey, IsIdentity likewise with Identity, and a new column is neither |
| TableColumns.TableColumn.DiagnosticString | SqlTableParser/Models/TableColumn.cs:118-130 | the line starts with the type, padded with spaces to 20 characters, then one blank, then the name padded the same way, then the five flag slots; each field is exactly 20 wide when its value fits |
| Queries.Any | SqlTableParser/Models/Table.cs:44 | `Any` holds exactly when some element satisfies the predicate |
| Queries.Where | SqlTableParser/TableParser.cs:88 | `Where` keeps exactly the elements that satisfy the predicate, and never more elements than the input has |
| Queries.WhereAppend | SqlTableParser/TableParser.cs:88 | filtering a concatenation filters each part in turn, so the kept elements stay in their original order |
| Queries.WhereMultiplicity | SqlTableParser/TableParser.cs:88 | each element that satisfies the predicate is kept as often as it occurs in the input; the others are dropped |
| Text.IsNullOrWhiteSpace | SqlTableParser/TableParser.cs:88 | a string is blank iff it is null or every character is white space; the empty string is blank |
| Validator.FilteredNames | SqlTableParser/TableParser.cs:88-97 | the names the validator lists are there iff some column fails the check, and are exactly the names of the failing columns |
| Tables.IdentityQueriesAgree | SqlTableParser/Models/Table.cs:39-44 | HasIdentityColumn equals ContainsIdentity(), and MultiplePrimaryKeys holds iff there is more than one key entry |
| Tables.Table.MultiplePrimaryKeys | SqlTableParser/Models/Table.cs:39 | false exactly when the key list is empty or holds a single entry |
| Tables.Table.HasIdentityColumn | SqlTableParser/Models/Table.cs:44 | holds exactly when some column is an identity column |
| Tables.Table.IsPrimaryKey | SqlTableParser/Models/Table.cs:96-99 | with no null entry: true exactly when some key entry equals the name ignoring case; it throws exactly when a null entry is reached before a match |
| Tables.KeysContain | SqlTableParser/Models/Table.cs:98 | the `Any` scan over the key list: the same two directions, entry by entry |
| Text.EqualsIgnoreCase | SqlTableParser/Models/Table.cs:98 | two possibly-null strings are equal ignoring case iff both are null, or both are present with the same length and the same upper-cased character at every position |
| Text.EqualsIgnoreCaseEquivalence | SqlTableParser/Models/Table.cs:98 | comparison ignoring case is reflexive, symmetric and transitive, and strings of different lengths never compare equal |
| Tables.DiagnosticStringListsKeys | SqlTableParser/Models/Table.cs:105-112 | the diagnostic line starts with `[schema].[name] Columns: <count> `, and splitting the rest on commas gives back the key names |
| Tables.Table.DiagnosticString | SqlTableParser/Models/Table.cs:105-112 | the line is `[schema].[name] Columns: `, then decimal digits whose value is the column count, then a blank, then the key names joined by commas |
| Text.JoinShape | SqlTableParser/Models/Table.cs:109 | joining no values gives the empty string; otherwise the result starts with the first value, followed by the separator when more values follow, and a single value is joined as itself |
| Text.SplitJoin | SqlTableParser/Models/Table.cs:109 | splitting `string.Join(",", names)` on the comma gives back the names when none of them holds a comma |
| Text.NatToString | SqlTableParser/Models/Table.cs:110 | the column count is printed as decimal digits, without a leading zero, whose value read back is the count |
| Tables.Table.ContainsDataType | SqlTableParser/Models/Table.cs:119-122 | holds exactly when some column's type equals the given type ignoring case, both null counting as equal |
| Tables.Table.ContainsNotNull | SqlTableParser/Models/Table.cs:128-131 | holds exactly when some column is NOT NULL |
| Tables.Table.ContainsPrimaryKey | SqlTableParser/Models/Table.cs:137-140 | holds exactly when some column is a primary key |
| Tables.Table.IsIdColumn | SqlTableParser/Models/Table.cs:147-160 | for the first column matching the name: its identity flag when there are several keys and an identity column; whether the name equals the first key entry when there are several keys and no identity column; its key flag otherwise |
| Tables.Table.ContainsIdentity | SqlTableParser/Models/Table.cs:166-169 | holds exactly when some column is an identity column |
| Tables.FindName | SqlTableParser/TableParser.cs:105 | `FirstOrDefault` by name: the index found matches ignoring case and no earlier entry does; no index means no entry matches |
| Tables.FindColumn | SqlTableParser/TableParser.cs:116 | the same for a column list, looking only at the columns' names |
| Tables.Names | SqlTableParser/TableParser.cs:91 | `Select(item => item.Name)`: one name per column, in order |
| Ordering.Insert | SqlTableParser/TableParser.cs:151 | inserting one name adds exactly that name to the list's multiset |
| Ordering.OrderBy | SqlTableParser/TableParser.cs:151 | the sorted list is a permutation of its input |
| Ordering.Distinct | SqlTableParser/TableParser.cs:151 | `Distinct()` keeps exactly the input's values, each once |
| Ordering.Merge | SqlTableParser/TableParser.cs:150-151 | after `AddRange` plus `OrderBy().Distinct()`, the list holds exactly the old and the added names, without duplicates |
| Ordering.InsertSorted | SqlTableParser/TableParser.cs:151 | inserting into a sorted list keeps it sorted |
| Ordering.OrderBySorted | SqlTableParser/TableParser.cs:151 | `OrderBy` sorts its input under any total preorder |
| Ordering.DistinctSorted | SqlTableParser/TableParser.cs:151 | `Distinct` keeps a sorted list sorted |
| Ordering.MergeSortedDistinct | SqlTableParser/TableParser.cs:218-219 | after every merge the key list is sorted and has no exactly-equal duplicates |
| Ordering.MergeIntoEmpty | SqlTableParser/TableParser.cs:224-225 | merging one name into an empty list gives just that name |
| Ordering.MergeNothingIdempotent | SqlTableParser/TableParser.cs:151 | a sorted, duplicate-free list comes out of a merge of nothing unchanged |
| Ordering.OrderBySortedIdentity | SqlTableParser/TableParser.cs:151 | sorting an already sorted list leaves it as it is |
| Ordering.InsertAtEnd | SqlTableParser/TableParser.cs:151 | a name that sorts after every entry is appended |
| Ordering.DistinctNoDuplicatesIdentity | SqlTableParser/TableParser.cs:151 | `Distinct` leaves a duplicate-free list as it is |
| Ordering.InsertKeepsTies | SqlTableParser/TableParser.cs:151 | inserting a name into a sorted list places it after every name the order cannot tell apart from it |
| Ordering.OrderByStable | SqlTableParser/TableParser.cs:151 | `OrderBy` is stable: the names the order cannot tell apart come out in the order they went in |
| Extractor.FirstOrDefault | SqlTableParser/TableParser.cs:293 | `Children.FirstOrDefault()`: null exactly for an empty child list, the first child otherwise |
| Extractor.GetColumnName | SqlTableParser/TableParser.cs:324-338 | a column reference gives its name, a data-type specification gives its type name, any other node gives null; a missing node throws a null dereference while it is logged |
| Extractor.ProcessFunctionCallStatement | SqlTableParser/TableParser.cs:288-309 | whatever the function, the result is the first argument's name. Only the default branch turns a blank name into null. A call without arguments throws |
| Extractor.ProcessCaseStatement | SqlTableParser/TableParser.cs:311-322 | the first WHEN clause's literal type, or "VARCHAR" when there is no clause or its THEN is not a literal |
| Extractor.IndexedColumnNames | SqlTableParser/TableParser.cs:164-186 | the names of exactly the indexed-column children; identifiers, index options and anything else add none |
| Extractor.GetPrimaryKeyColumns | SqlTableParser/TableParser.cs:164-186 | the loop returns exactly the indexed-column names, in order |
| Extractor.InlineIndexedNames | SqlTableParser/TableParser.cs:218 | one name per indexed column of an inline key, in order |
| Extractor.ProcessColumn | SqlTableParser/TableParser.cs:188-243 | the loop builds the column and the key list that the fold `ColumnSteps` gives |
| Extractor.ProcessComputedColumn | SqlTableParser/TableParser.cs:245-286 | the loop builds the computed column, or stops with the fault, that the fold `ComputedSteps` gives |
| Extractor.ProcessTableDefinition | SqlTableParser/TableParser.cs:129-162 | the loop builds the table, or stops with the fault, that the fold `TableSteps` gives |
| ExtractorProperties.InlinePrimaryKeyStep | SqlTableParser/TableParser.cs:215-227 | an inline key with indexed columns merges exactly those names and leaves the column alone. An inline key with no children flags the column and merges the name the column has at that moment. Any other inline key changes nothing |
| ExtractorProperties.ColumnStepFields | SqlTableParser/TableParser.cs:197-240 | one child's effect on a column: its name, type, extra type information, constraint type, identity and key flags; the computed flag, text and reference are untouched |
| ExtractorProperties.ColumnStepsConstraintType | SqlTableParser/TableParser.cs:229-231 | the constraint type is the kind of the last generic constraint child, or unchanged when there is none |
| ExtractorProperties.ColumnStepsName | SqlTableParser/TableParser.cs:201-203 | the column's name is the value of the last identifier child, or unchanged when there is none |
| ExtractorProperties.ColumnStepsDataType | SqlTableParser/TableParser.cs:205-209 | the column's type is the unqualified type name of the last data-type specification child, and its extra type information is that child's two arguments; with no such child all three are unchanged |
| ExtractorProperties.ColumnStepsColumnIgnoresKeys | SqlTableParser/TableParser.cs:188-243 | the column a definition builds is the same whatever key list it is merged into |
| ExtractorProperties.ColumnStepsFlags | SqlTableParser/TableParser.cs:211-226 | the identity flag is set iff an identity child occurs; the key flag is set iff a shorthand key occurs; computed flag, text and reference are unchanged |
| ExtractorProperties.ColumnStepsKeys | SqlTableParser/TableParser.cs:215-226 | the key list after a column holds exactly the old keys and the names each inline key adds, a shorthand adding the name the column had when it was visited |
| ExtractorProperties.ColumnStepsKeepKeysNormal | SqlTableParser/TableParser.cs:218-225 | a column's inline keys keep the key list sorted and duplicate-free |
| ExtractorProperties.ComputedStepFields | SqlTableParser/TableParser.cs:255-283 | one child fails iff it is a call without arguments; otherwise the computed flag, text, key, identity, constraint and extra type fields are untouched, only an identifier sets the name, only a reference or call sets the reference, and only a CASE or unnamed kind sets the type |
| ExtractorProperties.ComputedStepsOutcome | SqlTableParser/TableParser.cs:245-286 | a computed column fails to build iff some child is a call without arguments; when it builds, its name is the last identifier's and its flags and text are those it started with |
| ExtractorProperties.ComputedStepsReference | SqlTableParser/TableParser.cs:267-272 | a built computed column refers to what the last column reference or function-call child names, and keeps its reference when there is none |
| ExtractorProperties.ComputedStepsDataType | SqlTableParser/TableParser.cs:263-281 | a built computed column's type is set by the last CASE child (its CASE type) or the last child of a kind the loop does not name ("VARCHAR"); with no such child it is unchanged, and its extra type information is never touched |
| ExtractorProperties.ColumnDefinitions | SqlTableParser/TableParser.cs:135-147 | the children that yield a column are column and computed-column definitions only |
| ExtractorProperties.ColumnDefinitionsAppend | SqlTableParser/TableParser.cs:133-147 | the definitions of a run of children are those of its first part followed by those of the rest, so every definition child is kept, in order |
| ExtractorProperties.TableStepShape | SqlTableParser/TableParser.cs:131-161 | one child fails iff it is a computed column that fails to build. A column definition appends exactly one column: the one that definition builds on its own, with its text and computed flag. Any other child appends none. Schema, name and text are kept |
| ExtractorProperties.TableKeyStep | SqlTableParser/TableParser.cs:149-151 | a table-level key adds exactly its indexed columns' names and no column; a column definition adds exactly the names its inline keys give |
| ExtractorProperties.TableStepsFailure | SqlTableParser/TableParser.cs:135-140 | extraction fails iff some computed column holds a call without arguments |
| ExtractorProperties.TableStepsColumns | SqlTableParser/TableParser.cs:129-162 | extraction keeps the existing columns and appends one per column definition, in source order; the k-th appended column is exactly the column the k-th definition builds, with that definition's text and computed flag |
| ExtractorProperties.TableStepsKeepKeysNormal | SqlTableParser/TableParser.cs:149-151 | whatever the children, the key list stays sorted and duplicate-free |
| Resolver.MarkKeysFlags | SqlTableParser/TableParser.cs:103-110 | pass 1 sets the key flag on exactly the columns that are the first case-insensitive match of some key name, and changes nothing else |
| Resolver.ResolveColumnEffect | SqlTableParser/TableParser.cs:114-125 | one column of pass 2: a non-blank reference takes the first matching column's type, or is itself the type when nothing matches; a blank reference and the other columns are untouched |
| Resolver.ResolveFromTypes | SqlTableParser/TableParser.cs:112-126 | the rest of pass 2 changes only types, each column's type read from the list as it stands when that column is visited |
| Resolver.UpdateInterColumnInformation | SqlTableParser/TableParser.cs:101-127 | the two loops give the table that the function `Resolve` specifies |
| Resolver.ResolveSpec | SqlTableParser/TableParser.cs:101-127 | resolution writes only the key flags and the types: column count, order, names, text and key list are unchanged |
| Resolver.SameNamesSameLookups | SqlTableParser/TableParser.cs:116 | lookups by name depend only on the columns' names, so the flags pass 1 sets do not change what pass 2 finds |
| Resolver.ResolveKeepsNames | SqlTableParser/TableParser.cs:112-126 | the resolved table has the same names and the same lookups as before |
| Resolver.ResolvedMatchesReferenced | SqlTableParser/TableParser.cs:116-119 | a column whose reference matches an earlier column, or a column without a reference, ends with that column's type |
| Resolver.UnmatchedReferenceIsType | SqlTableParser/TableParser.cs:121-124 | a reference that matches no column becomes the column's type verbatim |
| Resolver.ResolveIdempotentWithoutChains | SqlTableParser/TableParser.cs:101-127 | when no reference leads to another referencing column, resolving twice gives the same table as resolving once |
| Resolver.ResolveChainCounterexample | SqlTableParser/TableParser.cs:112-126 | with A referring to B and B referring to a typed C, one run leaves A without a type and a second run gives it C's type, so resolution is not idempotent |
| Validator.ValidateTable | SqlTableParser/TableParser.cs:86-99 | fails with missing names iff some name is blank; otherwise fails with missing types iff some type is blank; passes iff all names and types are set. Each error carries the table's diagnostic line and lists exactly the offending columns' names, one per offending column |
| Validator.MissingNameReportsTable | SqlTableParser/TableParser.cs:89-92 | a table with an unnamed column is rejected, and the error's table line starts with `[schema].[name]` |
| TableParser.ProcessCreateTable | SqlTableParser/TableParser.cs:66-84 | extraction, resolution and validation in that order; the first fault ends the statement |
| TableParser.CreateTableSucceeds | SqlTableParser/TableParser.cs:66-84 | a statement that gets through keeps its schema, name and text. It has one column per column definition, in order, with that definition's text and computed flag. Every column is named and typed, and the key list is sorted and duplicate-free |
| TableParser.CreateTableFails | SqlTableParser/TableParser.cs:77-81 | a statement throws a null dereference iff a computed column holds a call without arguments; after extraction it fails iff a resolved column is unnamed or untyped |
| TableParser.ComputedFailureIsNullReference | SqlTableParser/TableParser.cs:137 | the only fault extraction raises is the null dereference |
| TableParser.ComputedStepsFault | SqlTableParser/TableParser.cs:268 | building a computed column can fail only with the null dereference |
| TableParser.TableStepsAppend | SqlTableParser/TableParser.cs:131 | extracting two runs of children is extracting the first, then the second from where the first ended |
| TableParser.IgnoredChild | SqlTableParser/TableParser.cs:154-159 | a constraint or unknown child of the table definition can be removed without changing the statement's result |
| ParserScenarios.OrdersStatementResult | SqlTableParser/TableParser.cs:66-84 | `Status CHAR(1) NOT NULL, Id INT IDENTITY, PRIMARY KEY (Id)` gives two columns and the key list [Id]. Id is an identity key and is found as "ID". Status is NOT NULL with type CHAR |
| ParserScenarios.PeopleStatementResult | SqlTableParser/TableParser.cs:119 | `FullName AS ISNULL(FirstName, '')` refers to FirstName and takes its type VARCHAR |
| ParserScenarios.EventsStatementResult | SqlTableParser/TableParser.cs:123 | `Day AS CONVERT([date], Stamp)` refers to no column, so the reference `date` becomes its type |
| ParserScenarios.KeysStatementResult | SqlTableParser/TableParser.cs:221-225 | a shorthand key visited before the column's name flags the column but merges a null name, after which `IsPrimaryKey("Id")` throws |

## Left out

- Reading the SQL file and running the SQL parser (`ParseSqlForTable` and `GetCreateTableStatements`) are file I/O plus a foreign library. The model starts from a parsed statement, `SqlDom.CreateTableStatement`.
- Setting `SourceFilePath` and the path-derived properties of `Table` (`SourceFolder`, `OutputFileName` and the rest) are thin wrappers over `System.IO.Path`.
- `DebugLog`, the console output of `LogUnknownObject`, `DiagnosticMode` and the debugger break are logging, modelled as doing nothing. The one effect kept is the null dereference `LogUnknownObject(null)` raises.
- The culture-sensitive comparer behind `OrderBy` is an abstract total preorder. The sorting lemmas hold for any such order.
- Case-insensitive comparison upper-cases ASCII letters only. Other letters compare exactly.
- The `N0` format of the column count prints plain decimal digits, without group separators.
- The exception message texts of the validator are kept only as structure: the names and the table's diagnostic line.
- The nodes' `Sql` text is a field of each definition. The parser's source positions are not modelled.
- The parsed tree is immutable, and each column object is fresh and owned by one list. The walkers therefore update local values rather than shared objects, and no aliasing is lost.
- Only simple WHEN clauses are modelled. A first WHEN clause of another kind, which would also give "VARCHAR", is not.
- The null dereference at SqlTableParser/TableParser.cs:190 is not modelled. The `DebugLog` argument there reads `definition.DataType` before the loop, even when diagnostics are off, so a column definition with no data type throws a null reference. The model has no such property: a column definition without a data-type specification child builds an untyped column, which validation then rejects with `MissingTypes`.
- Tables.Table.IsIdColumn: requires that some column matches the name, because the source dereferences the lookup's result and throws a null dereference when nothing matches.
- One might expect resolution to be idempotent and key deduplication to ignore case. The code does neither. A single run of pass 2 reads referenced columns in list order, so running it again can change a type (`Resolver.ResolveChainCounterexample`). `Distinct()` compares keys exactly, so `Id` and `ID` both stay. The model follows the code.
- The validator stops at the first failing check. A table with both an unnamed and an untyped column reports only the missing names.

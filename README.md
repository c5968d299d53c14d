# db-jesus / db-messiah core, modelled in Dafny

db-jesus (later db-messiah) maps Kotlin data classes to relational rows. This
project models its core:

- **Schema registry and validator.**
  - The old `dbjesus` mapper: serializer resolution, table lookup, column building, object-property gathering and row decoding.
  - The `TableInfo` table descriptor: path and identity, back-reference wiring, the column lists of inserts and updates, and rendering.
  - The registry consistency rules exercised by the mapper tests.
  - The twelve checks of the declarative-schema validator `TestUserConfiguration`, and its duplicate finder `ext_notUnique`.
- **SQL generation.** The `createTable` override of the custom SQLite serializer demo.
- **Statement execution.**
  - The `Driver`: parameter binding, 1000-row batches, update, insert with generated-key fallback, multi-result `execute`, `query` and `call`.
  - The older `DbMessiahEngine`.
  - SQLite's forced-id `insert`.
  - The result-count check of `CallQueries.call`.

The shared data model is in module `Model`:

- classes are names with their declared properties and constructor parameters;
- properties are `(owner, name, className, nullable)`;
- type serializers carry opaque encoder and decoder ids;
- failures name the exception the source raises.

JDBC is modelled in module `Jdbc` by two small classes:

- `Statement` holds scripted replies (the update count, the batch counts per batch, the rows of a query, the generated-key rows, the result sequence of `execute`), as `Returns` or `Raises` outcomes.
- `ResultSet` holds rows, a cursor and a `closed` flag.

Each executing operation is a method over these classes. It is proved equal to a function of the scripts, and the function's properties are stated as lemmas.

One module per source file:

| module | file |
|---|---|
| `ListExt` | `extend/List.kt` |
| `DbJesus` | `dbjesus/Mapper.kt` |
| `TableInfos` | `data/TableInfo.kt`, with the consistency rules of `Test_MapperTests.kt` |
| `UserConfiguration` | `tests/TestUserConfiguration.kt` |
| `CustomSerializer` | `009_custom_database_serializers.kt` |
| `Driver` | `Driver.kt` |
| `Engine` | `impl/DbMessiahEngine.kt` |
| `SqliteService` | `impl/sqlite/SqliteService.kt` |
| `CallQueries` | `domain/queries/CallQueries.kt` |

## Model

| member | source | states |
|---|---|---|
| ListExt.EachCountCounts | src/main/kotlin/com/urosjarc/dbmessiah/extend/List.kt:3 | the `groupingBy`/`eachCount` pass has exactly the list's elements as keys, each mapped to its number of occurrences |
| ListExt.NotUniqueMeaning | src/main/kotlin/com/urosjarc/dbmessiah/extend/List.kt:3 | a key is in `ext_notUnique` iff its element occurs more than once; its value is that count (so at least 2); every key is an element of the list |
| ListExt.NotUniqueEmptyIffDistinct | src/main/kotlin/com/urosjarc/dbmessiah/tests/TestUserConfiguration.kt:23-24 | the duplicate map is empty exactly when the list's elements are pairwise distinct |
| DbJesus.GetTable | src/main/kotlin/com/urosjarc/dbjesus/Mapper.kt:73-74 | the first registered table of the class, or none exactly when no table has that class |
| DbJesus.GetTableNotNull | src/main/kotlin/com/urosjarc/dbjesus/Mapper.kt:69-71 | the same table as `getTable`, and a SerializerException exactly when `getTable` finds none |
| DbJesus.GetSerializerFor | src/main/kotlin/com/urosjarc/dbjesus/Mapper.kt:94-100 | the first serializer of the property class in the table-local list followed by the global list (every one before it handles another class); a SerializerException exactly when neither list holds one |
| DbJesus.LocalSerializerOverridesGlobal | src/main/kotlin/com/urosjarc/dbjesus/Mapper.kt:94-100 | a table-local match wins over any global one; without a local match, and for an unregistered table class, the answer is the global lookup's |
| DbJesus.GetSerializer | src/main/kotlin/com/urosjarc/dbjesus/Mapper.kt:102-103 | consults only the global list: the first global serializer of the class, or a SerializerException exactly when there is none |
| DbJesus.TestProps | src/main/kotlin/com/urosjarc/dbjesus/Mapper.kt:34-39 | the inner loop of `test` passes iff every listed property resolves a serializer for the table, and otherwise raises SerializerNotFound |
| DbJesus.TestTables | src/main/kotlin/com/urosjarc/dbjesus/Mapper.kt:31-41 | `test` passes iff every property of every given table resolves a serializer |
| DbJesus.NewMapper | src/main/kotlin/com/urosjarc/dbjesus/Mapper.kt:27-41 | construction succeeds, with the given tables and serializers, exactly when every property of every registered table resolves; otherwise it raises a SerializerException |
| DbJesus.ColumnsOf | src/main/kotlin/com/urosjarc/dbjesus/Mapper.kt:45-57 | fails iff some field resolves no serializer; otherwise one column per field in field order, with the field's name and nullability, the table, the slot's foreign table, and the resolved serializer's jdbcType and dbType |
| DbJesus.GetColumns | src/main/kotlin/com/urosjarc/dbjesus/Mapper.kt:43-58 | raises TableNotRegistered for an unregistered class, otherwise the columns of the table's fields |
| DbJesus.ForeignTableOnlyForRegisteredTargets | src/main/kotlin/com/urosjarc/dbjesus/Mapper.kt:46 | a column has a foreign table iff its field is in the table's foreign-key map and the target class is registered; it is then that registered table |
| DbJesus.ConstructedMapperBuildsColumns | src/main/kotlin/com/urosjarc/dbjesus/Mapper.kt:27-58 | on a mapper whose construction succeeded, `getColumns` succeeds for every registered table |
| DbJesus.GetObjProperties | src/main/kotlin/com/urosjarc/dbjesus/Mapper.kt:108-138 | the loop computes what `ObjPropertiesOf` defines for the object's fields in order (the lemmas below give its meaning) |
| DbJesus.ObjPropertiesFailure | src/main/kotlin/com/urosjarc/dbjesus/Mapper.kt:117-120 | gathering fails, with a SerializerException, exactly when some field resolves no serializer |
| DbJesus.ObjPropertiesList | src/main/kotlin/com/urosjarc/dbjesus/Mapper.kt:117-133 | the list wraps, in field order, exactly the fields not named like the table's primary key; each wrapper has the field's name, value and resolved serializer |
| DbJesus.ObjPropertiesListSkipsKey | src/main/kotlin/com/urosjarc/dbjesus/Mapper.kt:130-133 | no wrapper in the list is named like the primary key |
| DbJesus.NonKeyFieldsCounts | src/main/kotlin/com/urosjarc/dbjesus/Mapper.kt:130-133 | every field not named like the key occurs in the list exactly as often as among the fields, and the key field never |
| DbJesus.ObjPropertiesNoKey | src/main/kotlin/com/urosjarc/dbjesus/Mapper.kt:109-114 | when the object's class is no table (or its table has no key), `primaryKey` stays null |
| DbJesus.DecodeColumn | src/main/kotlin/com/urosjarc/dbjesus/Mapper.kt:77-87 | the decoder of the first global serializer matching both the column's JDBC type code and the parameter's class, run on the column: what it throws propagates unwrapped; a SerializerException exactly when no serializer matches |
| DbJesus.FindColumn | src/main/kotlin/com/urosjarc/dbjesus/Mapper.kt:146 | the 1-based index of the first column whose label equals the one searched for up to case, and none exactly when no column's label does |
| DbJesus.FindColumnIgnoresCase | src/main/kotlin/com/urosjarc/dbjesus/Mapper.kt:146 | labels that differ only in case find the same column, and a label present verbatim is always found |
| DbJesus.CapitalLabelFound | src/main/kotlin/com/urosjarc/dbjesus/Mapper.kt:146 | a column reported as `NAME` is found for the parameter `name` |
| DbJesus.DecodeArg | src/main/kotlin/com/urosjarc/dbjesus/Mapper.kt:145-151 | an unknown column, a missing serializer and a throwing decoder all come out as a MapperException; a success reads the first column of the parameter's name, with a global serializer of the parameter's class and the column's type whose decoder does not throw |
| DbJesus.Decode | src/main/kotlin/com/urosjarc/dbjesus/Mapper.kt:140-159 | the first failing parameter's MapperException, else the constructed object or a MapperException when the constructor refuses the arguments; every failure is a MapperException |
| DbJesus.ArgsFailure | src/main/kotlin/com/urosjarc/dbjesus/Mapper.kt:144-152 | collecting the arguments succeeds exactly when every parameter decodes, and fails only with a MapperException |
| DbJesus.ArgsCoverParams | src/main/kotlin/com/urosjarc/dbjesus/Mapper.kt:144-152 | the argument map has exactly the constructor's parameters as keys, each with its own decoded value |
| TableInfos.PathOf | src/main/kotlin/com/urosjarc/dbmessiah/data/TableInfo.kt:36 | the path is the schema, a dot, then the name |
| TableInfos.PathDeterminesSchemaAndName | src/main/kotlin/com/urosjarc/dbmessiah/data/TableInfo.kt:31-36 | for dot-free schema names, equal paths mean equal schema and equal name |
| TableInfos.TableInfo.constructor | src/main/kotlin/com/urosjarc/dbmessiah/data/TableInfo.kt:41-45 | every column of the new table, primary, foreign and other, points back at it, so a column shared with an earlier table is re-pointed |
| TableInfos.TableInfo.GetColumn | src/main/kotlin/com/urosjarc/dbmessiah/data/TableInfo.kt:53-54 | the first column in primary, foreign, other order that stores the property, and null exactly when no column does |
| TableInfos.TableInfo.InsertColumns | src/main/kotlin/com/urosjarc/dbmessiah/data/TableInfo.kt:64-70 | foreign ++ other when the primary value is generated (autoInc or autoUUID), otherwise primary :: foreign ++ other |
| TableInfos.TableInfo.UpdateColumns | src/main/kotlin/com/urosjarc/dbmessiah/data/TableInfo.kt:81 | every column except the leading primary one |
| TableInfos.PrimaryKeyPlacement | src/main/kotlin/com/urosjarc/dbmessiah/data/TableInfo.kt:64-81 | with the primary column not repeated among the foreign and other columns, it is in the insert list iff its value is not generated, never past the front, and never in the update list |
| TableInfos.EqualsIsPathEquality | src/main/kotlin/com/urosjarc/dbmessiah/data/TableInfo.kt:84-92 | `equals` holds iff the other table has the same path; it is then symmetric and agrees with `hashCode`; same schema and class make two infos equal |
| TableInfos.QuotedNames | src/test/kotlin/com/urosjarc/dbmessiah/data/Test_TableInfo.kt:76 | one quoted name per column, in column order |
| TableInfos.Assignments | src/test/kotlin/com/urosjarc/dbmessiah/data/Test_TableInfo.kt:85-87 | one `name = ?` rendering per column, in column order |
| TableInfos.Questions | src/test/kotlin/com/urosjarc/dbmessiah/data/Test_TableInfo.kt:81 | exactly `n` placeholders, each `?` |
| TableInfos.QueryValues | src/test/kotlin/com/urosjarc/dbmessiah/data/Test_TableInfo.kt:99-112 | one query value per column, in column order, with the column's name, the object's property value, and the column's jdbcType and encoder |
| TableInfos.OnePlaceholderPerColumn | src/test/kotlin/com/urosjarc/dbmessiah/data/Test_TableInfo.kt:79-87 | the values list and the update assignment list carry exactly one `?` per column, when no name and no quote contains one |
| TableInfos.PathsDistinctIffNoTableTwice | src/test/kotlin/com/urosjarc/dbmessiah/tests/Test_MapperTests.kt:147-174 | the registry's paths are pairwise distinct exactly when no two of its positions hold equal tables, which is what the duplicate-table rule compares |
| TableInfos.TestMapper | src/test/kotlin/com/urosjarc/dbmessiah/tests/Test_MapperTests.kt:137-474 | the consistency check passes exactly when all of these hold: a non-empty registry, no table registered twice, distinct column properties per table, class-declared columns, set and registered foreign targets, back-references to the holder, and owned, back-referenced procedure arguments; every failure is a MapperException |
| TableInfos.DuplicateTablesRejected | src/test/kotlin/com/urosjarc/dbmessiah/tests/Test_MapperTests.kt:147-174 | two registered infos with the same schema and class make the check fail on the duplicate-table rule |
| TableInfos.RepointedColumnRejected | src/test/kotlin/com/urosjarc/dbmessiah/tests/Test_MapperTests.kt:203-231 | a column whose back-reference is a table with another path fails the check |
| TableInfos.ConsistentPrimaryKeyPlacement | src/main/kotlin/com/urosjarc/dbmessiah/data/TableInfo.kt:64-81 | in a registry that passes the check, every table's primary key sits in the insert list iff not generated, and never in the update list |
| UserConfiguration.Check1 | src/main/kotlin/com/urosjarc/dbmessiah/tests/TestUserConfiguration.kt:15-17 | passes iff a first schema exists and has a first table; otherwise fails as check 1 |
| UserConfiguration.Unique | src/main/kotlin/com/urosjarc/dbmessiah/tests/TestUserConfiguration.kt:23-24 | a uniqueness check passes iff the items are pairwise distinct |
| UserConfiguration.Check2 | src/main/kotlin/com/urosjarc/dbmessiah/tests/TestUserConfiguration.kt:22-25 | passes iff no schema is registered twice |
| UserConfiguration.Check3 | src/main/kotlin/com/urosjarc/dbmessiah/tests/TestUserConfiguration.kt:27-32 | passes iff no schema registers a table twice |
| UserConfiguration.QuotingKeepsDistinctness | src/main/kotlin/com/urosjarc/dbmessiah/tests/TestUserConfiguration.kt:37 | quoting names as `'name'` keeps them distinct exactly when they were |
| UserConfiguration.Check4 | src/main/kotlin/com/urosjarc/dbmessiah/tests/TestUserConfiguration.kt:34-41 | passes iff no table names a property twice among its foreign keys, compared by name |
| UserConfiguration.Check5 | src/main/kotlin/com/urosjarc/dbmessiah/tests/TestUserConfiguration.kt:43-50 | passes iff no table names a property twice among its constraints, compared by name |
| UserConfiguration.Check6 | src/main/kotlin/com/urosjarc/dbmessiah/tests/TestUserConfiguration.kt:55-60 | passes iff no schema registers a serializer twice |
| UserConfiguration.Check7 | src/main/kotlin/com/urosjarc/dbmessiah/tests/TestUserConfiguration.kt:62-69 | passes iff no table registers a serializer twice |
| UserConfiguration.AllPairsMembers | src/main/kotlin/com/urosjarc/dbmessiah/tests/TestUserConfiguration.kt:75-81 | the `schemas_tables` pairs are exactly the tables of the schemas, each paired with its own schema |
| UserConfiguration.SchemasTables | src/main/kotlin/com/urosjarc/dbmessiah/tests/TestUserConfiguration.kt:75-81 | the nested loop builds every (schema, table) pair, in order |
| UserConfiguration.Check8 | src/main/kotlin/com/urosjarc/dbmessiah/tests/TestUserConfiguration.kt:74-98 | passes iff every foreign key finds a table of its target class, and the first found has a primary key of the key's class |
| UserConfiguration.Rule8Meaning | src/main/kotlin/com/urosjarc/dbmessiah/tests/TestUserConfiguration.kt:84-94 | after a passing check 8, every foreign-key target is a table in some schema whose primary key has the foreign key's class |
| UserConfiguration.TableConstraintCheck | src/main/kotlin/com/urosjarc/dbmessiah/tests/TestUserConfiguration.kt:103-125 | one table's constraints pass iff UNIQUE is never put on its primary key and AUTO_INC never on one of its foreign keys |
| UserConfiguration.Check9 | src/main/kotlin/com/urosjarc/dbmessiah/tests/TestUserConfiguration.kt:100-129 | passes iff the constraints of every table are legal in that sense |
| UserConfiguration.Check10 | src/main/kotlin/com/urosjarc/dbmessiah/tests/TestUserConfiguration.kt:135-147 | passes iff every primary key carrying AUTO_INC has class Int |
| UserConfiguration.Check11 | src/main/kotlin/com/urosjarc/dbmessiah/tests/TestUserConfiguration.kt:149-157 | passes iff no property of any input class is nullable |
| UserConfiguration.OptionalParams | src/main/kotlin/com/urosjarc/dbmessiah/tests/TestUserConfiguration.kt:162 | the optional constructor parameters, in order |
| UserConfiguration.Check12 | src/main/kotlin/com/urosjarc/dbmessiah/tests/TestUserConfiguration.kt:159-166 | passes iff no output class's constructor has an optional parameter |
| UserConfiguration.RunCheck | src/main/kotlin/com/urosjarc/dbmessiah/tests/TestUserConfiguration.kt:15-166 | check `n` passes iff its rule holds, and fails as check `n` |
| UserConfiguration.Validate | src/main/kotlin/com/urosjarc/dbmessiah/tests/TestUserConfiguration.kt:11-168 | the twelve checks run in the order 1 to 12 of their names, which the model assumes: success iff every rule holds, otherwise the failure of the first broken rule in that order |
| CustomSerializer.CreateTable | src/demo/kotlin/009_custom_database_serializers.kt:48-92 | `CREATE TABLE IF NOT EXISTS <name> (<clauses joined by ", ">);` over the clause list; a foreign column with no target set makes it fail |
| CustomSerializer.ForeignColumnClauses | src/demo/kotlin/009_custom_database_serializers.kt:67-76 | the foreign loop yields the column clauses and the FOREIGN KEY clauses, one each per foreign column, in order; it fails exactly when some target is unset |
| CustomSerializer.AppendColumnClauses | src/demo/kotlin/009_custom_database_serializers.kt:81-86 | the other columns' clauses, appended in order |
| CustomSerializer.ClauseLayout | src/demo/kotlin/009_custom_database_serializers.kt:55-91 | 1 + 2·foreign + other clauses: the primary clause, then each foreign column, then each other column, then each FOREIGN KEY clause, in their orders |
| CustomSerializer.PrimaryClauseAutoIncrement | src/demo/kotlin/009_custom_database_serializers.kt:61-62 | the primary clause starts with name and type, and ends with ` AUTOINCREMENT` exactly when autoInc is set |
| CustomSerializer.ColumnClauseModifiers | src/demo/kotlin/009_custom_database_serializers.kt:68-72 | a column clause starts with name and type, then ` NOT NULL` when not null, then ` UNIQUE` when unique, in that order |
| CustomSerializer.ForeignKeyClauseCascades | src/demo/kotlin/009_custom_database_serializers.kt:70-75 | ` ON UPDATE CASCADE` comes before ` ON DELETE CASCADE`, and the clause ends with the latter exactly when deletes cascade |
| CustomSerializer.StatementShape | src/demo/kotlin/009_custom_database_serializers.kt:88-91 | the statement starts with `CREATE TABLE IF NOT EXISTS `, then the table's name, and ends with `);` |
| Jdbc.Bind | src/main/kotlin/com/urosjarc/dbmessiah/Driver.kt:32-37 | value `k` (0-based) is bound at position `k+1`; a null value by `setNull` with its jdbcType and no encoder, any other value through its encoder |
| Jdbc.DecodeRowsMeaning | src/main/kotlin/com/urosjarc/dbmessiah/Driver.kt:266-272 | decoding the rows succeeds iff every row decodes, then gives one element per row in row order; otherwise it gives the first failing row's throwable |
| Jdbc.SetIndicesFromOrdered | src/main/kotlin/com/urosjarc/dbmessiah/impl/DbMessiahEngine.kt:120-127 | the ordinals of the result sets are strictly increasing and include every result set |
| Jdbc.AllSetsFromMeaning | src/main/kotlin/com/urosjarc/dbmessiah/impl/DbMessiahEngine.kt:121-128 | reading every result set succeeds iff each set decodes at its own ordinal, and the decoded entries are those sets' in result order |
| Jdbc.ReadId | src/main/kotlin/com/urosjarc/dbmessiah/Driver.kt:173-186 | an id is found iff the key rows exist, are non-empty and their first row decodes at column 1; the only fatal outcome is a non-SQL throwable |
| Jdbc.GetInt | src/main/kotlin/com/urosjarc/dbmessiah/impl/sqlite/SqliteService.kt:22 | `getInt(i)` reads the integer at 1-based column `i` (0 for SQL NULL), and raises an SQLException for a bad index or a non-integer |
| Driver.PrepareQuery | src/main/kotlin/com/urosjarc/dbmessiah/Driver.kt:29-40 | binds every value at its position on top of the parameters already set, and changes nothing else |
| Driver.CloseAll | src/main/kotlin/com/urosjarc/dbmessiah/Driver.kt:48-59 | the statement and, when given, the result set are closed; nothing else changes |
| Driver.GroupsSplitRows | src/main/kotlin/com/urosjarc/dbmessiah/Driver.kt:77-91 | n rows make ceil(n/1000) groups: none iff no rows, each of 1 to 1000 rows, all but the last full, and row `p` in group `p / 1000` at offset `p % 1000` |
| Driver.SnapshotsOfUniformRows | src/main/kotlin/com/urosjarc/dbmessiah/Driver.kt:79-80 | with rows of equal width, the parameter set recorded for each row is exactly that row's binding |
| Driver.SnapshotsBindRows | src/main/kotlin/com/urosjarc/dbmessiah/Driver.kt:79-80 | each recorded parameter set binds every value of its own row at its position |
| Driver.FirstThrow | src/main/kotlin/com/urosjarc/dbmessiah/Driver.kt:82-89 | the first batch whose execution raises, or none exactly when all are accepted |
| Driver.Batch | src/main/kotlin/com/urosjarc/dbmessiah/Driver.kt:69-103 | the statement is closed. If every batch is accepted, the batches sent are exactly the 1000-row groups in order (none empty) and the result is the sum of all counts (0 for no rows). Otherwise the result is a DriverException wrapping the first refusal, after the groups up to it |
| Driver.Update | src/main/kotlin/com/urosjarc/dbmessiah/Driver.kt:112-132 | the driver's count, or a DriverException wrapping the throwable; the statement is closed on both paths |
| Driver.Query | src/main/kotlin/com/urosjarc/dbmessiah/Driver.kt:256-283 | the decoded rows (or a DriverException), with the statement and every result set closed on every path |
| Driver.QueryOneElementPerRow | src/main/kotlin/com/urosjarc/dbmessiah/Driver.kt:266-282 | `query` succeeds iff the query runs and each row decodes; it then returns exactly one decoded element per row, in row order; each failure is a DriverException |
| Driver.InsertAsWritten | src/main/kotlin/com/urosjarc/dbmessiah/Driver.kt:145-205 | `insert` as written: its outcome is `InsertOutcomeAsWritten`, and the statement is left open exactly after a successful insert without fallback SQL |
| Driver.FetchId | src/main/kotlin/com/urosjarc/dbmessiah/Driver.kt:172-201 | the generated key's id when read, a DriverException for a non-SQL throwable, and otherwise the fallback query's answer; the statement is closed |
| Driver.ForceId | src/main/kotlin/com/urosjarc/dbmessiah/Driver.kt:188-201 | runs the fallback query once and decodes its first row: IssueException when it has none, DriverException when it throws; the statement is closed |
| Driver.Insert | src/main/kotlin/com/urosjarc/dbmessiah/Driver.kt:145-205 | the corrected insert: null on zero updates; the generated key when present; else the fallback; always with the statement closed |
| Driver.InsertFallbackOnlyDiffers | src/main/kotlin/com/urosjarc/dbmessiah/Driver.kt:170-204 | with fallback SQL the written and corrected outcomes agree; without it, the written code raises IssueException after every non-zero insert |
| Driver.InsertWithoutFallbackIgnoresKeys | src/main/kotlin/com/urosjarc/dbmessiah/Driver.kt:170-204 | one inserted row whose generated key is 7: as written IssueException, corrected the id 7 |
| Driver.ExecuteAsWritten | src/main/kotlin/com/urosjarc/dbmessiah/Driver.kt:216-245 | `execute` (and `call`) as written: one decoded entry per result set of the leading run, the ordinal counting sets and update counts alike; the statement is closed exactly on failure; every result set read is closed |
| Driver.Execute | src/main/kotlin/com/urosjarc/dbmessiah/Driver.kt:216-245 | the corrected `execute`: every result set decoded with its ordinal in driver order, and the statement and every result set closed |
| Driver.RunFromAllSets | src/main/kotlin/com/urosjarc/dbmessiah/Driver.kt:227-238 | when only result sets follow, the written loop and the corrected one return the same |
| Driver.ExecuteStopsAtUpdateCount | src/main/kotlin/com/urosjarc/dbmessiah/Driver.kt:227-238 | a set, an update count of 1, then a set: as written only the first set is returned; corrected, both are, the second with ordinal 2 |
| Driver.ExecuteOnePerResultSet | src/main/kotlin/com/urosjarc/dbmessiah/Driver.kt:224-240 | the corrected `execute` succeeds iff every result set decodes at its ordinal; it then returns one entry per result set, in order, each decoded with its own ordinal |
| Engine.Caught | src/main/kotlin/com/urosjarc/dbmessiah/impl/DbMessiahEngine.kt:69-71 | an SQLException becomes an EngineException wrapping it; any other throwable passes through unchanged |
| Engine.KeysFor | src/main/kotlin/com/urosjarc/dbmessiah/impl/DbMessiahEngine.kt:42-46 | generated keys are requested by column name exactly when `autoGeneratedKey` is given |
| Engine.PrepareQuery | src/main/kotlin/com/urosjarc/dbmessiah/impl/DbMessiahEngine.kt:38-58 | a fresh open statement for the SQL, with the key request `KeysFor` gives and exactly the bindings of the values |
| Engine.ExecuteQuery | src/main/kotlin/com/urosjarc/dbmessiah/impl/DbMessiahEngine.kt:61-73 | the decoded rows, or the caught failure; the result set is closed exactly when all rows decode; the statement is untouched |
| Engine.QueryOneElementPerRow | src/main/kotlin/com/urosjarc/dbmessiah/impl/DbMessiahEngine.kt:61-73 | success iff the query runs and every row decodes, then one element per row in order; every failure is an EngineException over an SQLException, or another throwable passed through |
| Engine.ExecuteUpdate | src/main/kotlin/com/urosjarc/dbmessiah/impl/DbMessiahEngine.kt:75-81 | the driver's count unchanged; an SQLException becomes an EngineException |
| Engine.InsertPrefersGeneratedKeys | src/main/kotlin/com/urosjarc/dbmessiah/impl/DbMessiahEngine.kt:88-112 | null on zero updates. A generated key decides the id whatever the fallback. Without fallback SQL the fallback query plays no part. Any id returned comes from the first row of the generated keys, or from that of the fallback query |
| Engine.InsertWithoutIdFails | src/main/kotlin/com/urosjarc/dbmessiah/impl/DbMessiahEngine.kt:112 | when neither the keys nor the fallback (if any) give a row, the insert raises an EngineException |
| Engine.ReadFirst | src/main/kotlin/com/urosjarc/dbmessiah/impl/DbMessiahEngine.kt:96-97 | reading the first row of a result set gives what `ReadId` defines: the id, a miss, or a fatal throwable |
| Engine.ExecuteInsert | src/main/kotlin/com/urosjarc/dbmessiah/impl/DbMessiahEngine.kt:83-113 | the outcome is `InsertOutcome` of the scripts; the statement is not closed; the fallback statement is prepared with the fallback SQL exactly when it is consulted |
| Engine.ExecuteQueries | src/main/kotlin/com/urosjarc/dbmessiah/impl/DbMessiahEngine.kt:115-133 | the decoder is handed every result set, at its own ordinal (results before it, sets and counts alike). A successful run passes the ordinals of all sets, in order. An SQLException becomes an EngineException |
| Engine.QueriesVisitEverySet | src/main/kotlin/com/urosjarc/dbmessiah/impl/DbMessiahEngine.kt:120-128 | the run succeeds iff every set decodes at its ordinal; the ordinals increase strictly and cover every result set |
| SqliteService.Entity.SetValue | src/main/kotlin/com/urosjarc/dbmessiah/impl/sqlite/SqliteService.kt:27 | the named property takes the value and every other stays |
| SqliteService.Insert | src/main/kotlin/com/urosjarc/dbmessiah/impl/sqlite/SqliteService.kt:15-32 | true exactly when the engine returns an id, and then the primary-key property holds it; false on null with the object unchanged; the engine's failure propagates with the object unchanged |
| SqliteService.LastRowIdIsTheId | src/main/kotlin/com/urosjarc/dbmessiah/impl/sqlite/SqliteService.kt:21-23 | without a generated key, the id is the Int in column 1 of the first row of `select last_insert_rowid();` |
| SqliteService.NoRowIdFails | src/main/kotlin/com/urosjarc/dbmessiah/impl/sqlite/SqliteService.kt:21-23 | without a generated key, a row-id query that gives no row, throws, or has no integer, makes the insert fail with an EngineException |
| CallQueries.Call | src/main/kotlin/com/urosjarc/dbmessiah/domain/queries/CallQueries.kt:9-20 | runs the call through the driver's `execute` and answers `CallOutcome`; the statement and its result sets are closed |
| CallQueries.CallMissesSetsAfterUpdateCount | src/main/kotlin/com/urosjarc/dbmessiah/domain/queries/CallQueries.kt:12-17 | on `execute` as written, a result set, an update count and a result set called for two output classes fail with a count mismatch of 1 against 2; on the corrected `execute` both lists are returned |
| CallQueries.CallChecksResultCount | src/main/kotlin/com/urosjarc/dbmessiah/domain/queries/CallQueries.kt:12-19 | success iff every result set decodes and there are as many as output classes. The driver's list is then returned unchanged, one per output. With all sets decoded but the numbers differing, a SerializerException names both numbers |

## Left out

- I/O and connection acquisition:
  - connection acquisition and the Hikari pool (`DbMessiahEngine.kt:20-36`) are left out;
  - `conn.prepareStatement`/`prepareCall` are `Statement.Prepare` on a statement the caller supplies;
  - `prepareStatement` itself never fails in the model.
- Logging: log messages and the escaped `rawSql` text built only for the log are left out; `closeAll` logs and swallows close errors, so closing is modelled as never failing.
- Reflection: `memberProperties`, `javaFields`, `primaryConstructor`/`callBy` and `setValue` reflection are replaced by class descriptors. `callBy` is a predicate `accepts` on the argument map.
- Encoders and decoders are opaque identifiers, or scripted `Reply` functions. A `dbjesus` decoder that throws is given by the row's `throwing` map; the values decoders produce are not computed.
- Driver.PrepareQuery: an encoder or `setNull` that throws (`Driver.kt:34-37`) is not modelled; binding always succeeds, so the DriverException that each caller's `try` would wrap such a throw in is not promised.
- Engine.PrepareQuery: an encoder or `setNull` that throws (`DbMessiahEngine.kt:52-53`) is not modelled; in the source that throw propagates unwrapped out of `prepareQuery`, and the model's binding always succeeds.
- JDBC behaviour taken as given:
  - `next`, `close`, `getResultSet`, `getUpdateCount` and `getMoreResults` never throw;
  - `getGeneratedKeys`, `executeQuery`, `executeUpdate`, `executeBatch` and `execute` answer from their scripts.
- Jdbc.GetInt: Java's 32-bit `int` range is not modelled; values are unbounded integers. A text value raising an SQLException is one driver's behaviour, assumed here; SQLite's driver, which `SqliteService.kt:22` reads through, converts text to an integer instead, so `SqliteService.NoRowIdFails` is stated for a driver that refuses text.
- DbJesus.FindColumn: only ASCII letters are folded when labels are compared; the case folding of other letters that Java's driver-side comparisons do is not modelled.
- UserConfiguration.Validate:
  - no file of the source runs the twelve checks of `TestUserConfiguration.kt`; the model runs them in the numeric order of their names (`1-th` to `12-th`), so which broken rule is reported first is a modelling choice. `Check1` to `Check12` and `RunCheck` do not depend on it;
  - `Schema`, `Table` and `TypeSerializer` are compared as structural values in checks 2, 3, 6 and 7; their `equals` is not part of this model;
  - `table.primaryKeyConstraints` (`TestUserConfiguration.kt:138`) is taken to be the constraints listed for the primary-key property, as `PrimaryKeyConstraints` collects them; that property's source is not part of this model.
- Driver.Batch: the `Int` sum of the counts does not model 32-bit overflow.
- JDBC type codes: `setNull` receives `jdbcType.ordinal`, and the column decoder compares that ordinal with `getColumnType`, which gives `java.sql.Types` codes. The two numberings differ. The model keeps one abstract type code, so this possible mismatch is not modelled.
- TableInfos.TableInfo.HashCode: a path hash with Java's 32-bit wrap-around; only its dependence on the path is used.
- TableInfos.TestMapper:
  - the consistency-check source is not part of this model;
  - its rules come from the expectations of `Test_MapperTests.kt`;
  - it checks them in the order those tests list.
- Unseen collaborators, which become parameters:
  - `insertQuery`, `callQuery`, `decodeMany` and `getTableInfo` of the serializer;
  - the SQL text and query values of each statement are parameters;
  - decoding is a function parameter.
- `getTableInfo` and `getDbType` of `Mapper.kt`: compositions of `GetTableNotNull`/`GetColumns` and of `GetSerializerFor`; they are not separately modelled.
- SqliteService.Insert: it calls `executeInsert` with a `primaryKey` argument, which `DbMessiahEngine.executeInsert` (`DbMessiahEngine.kt:83`) does not take. This is modelled as `Engine.PrepareQuery` with the key's name, followed by `Engine.ExecuteInsert`.
- Driver.InsertAsWritten: the fallback query's own prepared statement is never closed by the source, and the model does not track it.
- Engine.ExecuteQuery: on a decode failure the result set stays open, as in the source.
- Engine.ExecuteInsert and Engine.ExecuteQueries: the source closes neither the statement nor the result sets, and the model keeps them open.
- Driver `call`: it runs on `prepareCall`, and its loop is the same as `execute`'s. It is modelled by the same `ExecuteAsWritten`/`Execute` members.
- CallQueries.Call: it uses the corrected `Driver.Execute`, so it sees every result set. The source's behaviour on `execute` as written is `CallOutcomeAsWritten`, and `CallMissesSetsAfterUpdateCount` shows where the two differ.
- Left out entirely:
  - the service wiring of H2, MSSQL and MySQL;
  - demo programs and the VARCHAR-rewriting `insertRow` override;
  - `QueryBuilder`, e2e fixtures and test runners.

## Findings

| source | as written | input that shows it | evidently intended | confidence | as-written member | corrected member |
|---|---|---|---|---|---|---|
| src/main/kotlin/com/urosjarc/dbmessiah/Driver.kt:227-238 | the `do … while (isResultSet)` loop of `execute` (and the same loop of `call`, 298-309) ends as soon as `getMoreResults` reports an update count, so result sets after an update count are dropped | results: a result set, an update count of 1, a result set | every result set is decoded, the loop ending only at update count -1, as the engine's `executeQueries` does | not executed | Driver.ExecuteStopsAtUpdateCount | Driver.Execute |
| src/main/kotlin/com/urosjarc/dbmessiah/Driver.kt:170,204 | without fallback SQL, `insert` never reads the generated keys and always raises IssueException after a successful insert, leaving the statement open | one row inserted, generated key 7, no fallback SQL | the generated key is read first, whatever the fallback, as the engine's `executeInsert` does | not executed | Driver.InsertWithoutFallbackIgnoresKeys | Driver.Insert |
| src/main/kotlin/com/urosjarc/dbmessiah/Driver.kt:240 | `execute` returns without closing its prepared statement on success, unlike `batch`, `update`, `query` and `insert` with a fallback query | any successful execute | the statement is closed on every path | not executed | Driver.ExecuteAsWritten | Driver.Execute |

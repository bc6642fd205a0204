# Verification of the PostgreSQL adapter

This project models the PostgreSQL adapter of soaprs-sqlx in Dafny 4.11 and proves what its
layers promise together. `dafny verify dfyconfig.toml` checks all of it.

The adapter turns portable queries and entities into SQL text with numbered placeholders and
an ordered list of bindings. Text is all the server gets, so the proofs go through the text:
the compiled string is lexed, parsed with a precedence grammar and evaluated in three-valued
logic under the compiled bindings, and only then compared with what the query meant.

| layer | files | content |
|---|---|---|
| data | `Results`, `Identifiers`, `Decimals`, `Mapping`, `Values`, `Conditions`, `Entity` | identifiers, columns, field maps, scalar and persistence values, conditions with their two-valued meaning, builder chains |
| what is written | `Compiler`, `Repository` | functions for the text and bindings of every fragment and statement; classes that append them to a shared output in loops, as the adapter does |
| the server | `SqlLexer`, `SqlGrammar`, `SqlSemantics`, `SqlStatements` | tokens, expressions, three-valued evaluation, statements on one table |
| conditions | `Intended`, `LexingProofs`, `ParsingProofs`, `MeaningProofs`, `ConditionTheorems`, `Placeholders` | text to tokens to expression to meaning, placeholder numbering |
| find and count | `SelectProofs`, `Queries`, `FindTheorems`, `PagingTheorems`, `TieTheorems` | filter, sort, slice; pages, reversed orders, counts; what ties do to pages |
| the repository | `StatementProofs`, `StatementPlaceholders`, `Stores`, `RepositoryRuns`, `WriteProofs`, `KeyedTables`, `RepositoryTheorems`, `RunTheorems`, `RowTheorems`, `AgreementTheorems` | statements on a table refine operations on a map from identity to row, over every run; each column of a written or returned row by its field's permissions and the entity's own value |
| sharing | `Transaction`, `CommitTheorems`, `Router` | the mutex-guarded transaction under every interleaving; what a commit makes of the table; round-robin routing and trees of routers |

No lemma relies on Dafny's automatic induction: each carries `{:induction false}`, and every
inductive step is a call in its body.

## What is assumed

- A condition has been validated: groups are not empty, set operators carry lists, and
  operators that need a value carry one (`ValidExactlyWhen`). `EmptyGroupIsUnreadable` shows why
  the first is needed.
- The table is the mapping's: each mapped column exists with the kind it is mapped with
  (`Hosts`), the identity's column is its key (`Sound`), and no two fields share a column
  (`DistinctColumns`; the adapter refuses only duplicate logical names). `BuiltIsProper` says which
  builder calls lead there, `EmptyTableIsSound` and `StartOfARun` where a
  run can start and `RunsGoOn` that it can always go on.
- Server behaviour the model leaves open is a parameter: the place of a text in the order of a
  native type or of a non-integer numeric, and the default collation (`Server`); the value each
  column default yields (`defaults`); the server's answer to a statement or commit (`ok`).

## Where code and documentation differ

The code is modelled as it is.

- `PgFieldMap::insert` is documented as inserting one mapping and reports a duplicate logical
  field, but by then it has replaced the old column (src/postgres/mapping.rs:137-167).
  `PgFieldMap.Insert` states the exact state left behind and exactly when a refusal is harmless;
  `RefusedInsertReplaces` is a call whose refusal is not.
- The router is documented as round-robin (src/postgres/router.rs:14-18). Where its counter
  wraps, the round starts over early unless the number of replicas divides the number of
  counter values; `AlwaysBalancedExactlyWhen` and `TwiceRound` say what that costs.
- Conditions and entities are normalised by two functions. They treat scalars alike, refusals
  included, except for two families: a null, which a write binds and a query refuses
  (src/postgres/compiler.rs:428-430 and 446), and a text on a native column, which a query sends
  to be cast and a write refuses (`PathsAgreeExactlyWhen`).

## Model

| member | source | states |
|---|---|---|
| Identifiers.NewIdentifier | src/postgres/identifier.rs:14-33 | a name is accepted exactly when it is not empty, is made of ASCII letters, digits and underscores and does not start with a digit; an accepted one is kept as it is and holds no quote, blank or dot, which is what makes its quoted form one token |
| Decimals.IntTextRoundTrip | src/postgres/compiler.rs:408-413 | the decimal text bound for an integer reads back as the same integer |
| Mapping.PgFieldMap.InsertWithPermissions | src/postgres/mapping.rs:152-167 | a bad logical or physical name is refused in that order and changes nothing; a duplicate logical name is refused after its old column has been overwritten; otherwise the column is added |
| Mapping.PgFieldMap.Insert | src/postgres/mapping.rs:138-150 | succeeds exactly for valid names and a new logical one, and then touches no column already mapped; a refusal leaves the map alone exactly when a name is bad or the duplicate repeats the column it replaces |
| Mapping.RefusedInsertReplaces | src/postgres/mapping.rs:152-167 | two inserts under one name: the second is refused and is the one the map keeps |
| Entity.PgEntityMapping.WithFieldPermissions | src/postgres/entity.rs:129-153 | agrees with the value-level builder step, with each refusal's condition written out; a refused call leaves the field order alone, and the map too unless everything was in order but the name a duplicate, whose column is then the new one |
| Entity.PgEntityMapping.WithField | src/postgres/entity.rs:84-96 | adds a field that is selected, inserted and updated |
| Entity.PgEntityMapping.WithImmutableField | src/postgres/entity.rs:98-111 | adds a field that is selected and inserted, never updated |
| Entity.PgEntityMapping.WithGeneratedField | src/postgres/entity.rs:113-126 | adds a field that is selected only |
| Entity.BuiltColumn | src/postgres/entity.rs:129-153 | a chain maps every name to the column, kind and permissions of its own call |
| Entity.ReachableMappings | src/postgres/entity.rs:60-153 | in every mapping a builder chain reaches, the ordered fields are the logical names in the order of the calls, free of duplicates, exactly the mapped ones, and all resolve |
| Entity.ChainSucceedsExactlyWhen | src/postgres/entity.rs:129-153 | a chain succeeds exactly when each step has one of the three permissions and valid names, and no logical name comes twice |
| Entity.MatchingKeepsOrder | src/postgres/entity.rs:202-223 | the fields of a role are exactly those whose selectable, insertable or updatable bit is set, in statement order, once each |
| Entity.ValidateIsTheIdentityCheck | src/postgres/entity.rs:156-180 | on a reachable mapping the first and the last check of validate never decide: it succeeds exactly when the identity is mapped and selectable, and fails with a validation error |
| Repository.NewRepository | src/postgres/repository.rs:29-38 | a repository exists for a valid mapping and compiles with that mapping's fields |
| Conditions.ValidExactlyWhen | src/postgres/compiler.rs:169-174 | a condition passes validation exactly when every group in it has a child, every set operator a list and every other operator but the null tests an operand |
| Compiler.CompilerOutput.PushBinding | src/postgres/compiler.rs:366-375 | pushes one binding and writes its placeholder, numbered by the bindings now held |
| Compiler.PgQueryCompiler.WriteCondition | src/postgres/compiler.rs:239-272 | appends exactly the fragment of the condition, numbered from the bindings already in the output, or returns its error |
| Compiler.PgQueryCompiler.WritePredicate | src/postgres/compiler.rs:274-357 | appends exactly the fragment of one predicate, empty sets, LIKE on a wrong kind and missing operands included |
| Compiler.PgQueryCompiler.CompileCondition | src/postgres/compiler.rs:169-174 | an invalid condition is refused; otherwise the fragment from the first placeholder on |
| Compiler.PgQueryCompiler.CompileFind | src/postgres/compiler.rs:179-223 | in place, writes what FindFragment says, the subject of FindMeans and FindIsNumbered |
| Compiler.PgQueryCompiler.CompileCount | src/postgres/compiler.rs:229-237 | in place, writes what CountFragment says, the subject of CountMeans and CountAgreesWithFind |
| LexingProofs.ConditionLexes | src/postgres/compiler.rs:239-375 | in front of any boundary the text of a condition is exactly its intended tokens, and it holds one binding a placeholder |
| ParsingProofs.ConditionParses | src/postgres/compiler.rs:244-271 | whatever ends the condition, its tokens parse, with AND above OR, to the intended expression: groups bind as written |
| ConditionTheorems.TextRoundTrip | src/postgres/compiler.rs:239-357 | the text of a condition followed by any clause text reads back as the intended expression and leaves that text untouched |
| ConditionTheorems.SingleChildForgetsOperator | src/postgres/compiler.rs:245-262 | a group of one child is written alike under AND and OR, and means its child |
| ConditionTheorems.EmptyGroupIsUnreadable | src/postgres/compiler.rs:245-262 | an empty group would be written `()`, which the server cannot read as an expression |
| MeaningProofs.ConditionMeans | src/postgres/compiler.rs:239-357 | the intended expression under the compiled bindings is true exactly on the rows the two-valued condition holds of, and never fails on a row |
| ConditionTheorems.CompiledConditionMeans | src/postgres/compiler.rs:169-174 | end to end: text, bindings and row give acceptance exactly when the portable condition holds of the row's record, nulls and empty sets included |
| MeaningProofs.LikeMeans | src/postgres/compiler.rs:343-353 | without an escape character the server's LIKE is the portable one |
| MeaningProofs.DefaultEscapeDiffers | src/postgres/compiler.rs:351-353 | with the server's default escape character it is not: a concrete pattern for each direction |
| MeaningProofs.SetMeans | src/postgres/compiler.rs:298-327 | IN and NOT IN, empty or not, select by membership among non-null fields only |
| MeaningProofs.CompareMeans | src/postgres/compiler.rs:328-355 | each comparison, under casts and collation, decides by the value order of the column's kind and rejects a null field |
| MeaningProofs.ParamMeans | src/postgres/compiler.rs:401-438 | a placeholder under its column's cast yields the operand's value, of the column's kind, never null |
| ConditionTheorems.CompilesExactlyWhen | src/postgres/compiler.rs:239-357 | a valid condition compiles exactly when every leaf is mapped, every LIKE is on a text column and every operand fits its column; otherwise the error is a validation error |
| ConditionTheorems.MoreFieldsChangeNothing | src/postgres/mapping.rs:170-174 | mapping further fields never changes the text or bindings of a condition that compiles |
| Placeholders.ConditionIsNumbered | src/postgres/compiler.rs:318-350 | read off the text, the k-th placeholder is number k, carries the cast of the k-th operand's kind, and the k-th binding is that operand's |
| StatementPlaceholders.FindIsNumbered | src/postgres/compiler.rs:206-220 | the same for a whole find: numbering runs on through WHERE, LIMIT and OFFSET |
| StatementPlaceholders.InsertIsNumbered | src/postgres/repository.rs:125-137 | the same for an insert: fields left to the database take no number and no binding |
| StatementPlaceholders.ReplaceIsNumbered | src/postgres/repository.rs:163-191 | the same for a replacement: the identity takes the number after the assignments |
| SelectProofs.FindReads | src/postgres/repository.rs:240-252 | the text of a find parses to one SELECT with exactly the mapped columns, table, filter, order, limit and offset |
| SelectProofs.CountReads | src/postgres/repository.rs:267-289 | the text of a count parses to a counting SELECT with the filter alone |
| SelectProofs.GetReads | src/postgres/repository.rs:254-265 | the text of a get parses to a SELECT filtered by the bare identity column |
| Values.ValueOrder | src/postgres/compiler.rs:478-481 | the order comparisons and sorts go by: false before true, numbers by amount, texts and bytes where they first differ or where one ends |
| Queries.CompareSwaps | src/postgres/compiler.rs:197-203 | the sort order is total: swapping two records negates their comparison |
| Queries.CompareChains | src/postgres/compiler.rs:197-203 | the sort order is transitive |
| Queries.NullSortsLeast | src/postgres/compiler.rs:199-202 | null and a value never tie on the first sort field; null comes first ascending and last descending |
| Queries.FlippingReverses | src/postgres/compiler.rs:199-202 | flipping every direction gives exactly the reversed order |
| FindTheorems.FindMeans | src/postgres/compiler.rs:179-223 | the server may answer a compiled find with exactly the filter, then sort, then slice of the table, projected to the selected columns; an omitted offset is zero |
| FindTheorems.FindHasAnswers | src/postgres/compiler.rs:188-204 | such an answer always exists, and it is the only one when no tie shows in the selected columns |
| PagingTheorems.FindCompilesExactlyWhen | src/postgres/compiler.rs:179-223 | a find compiles exactly when its condition is valid and does, its sort fields are mapped and limit and offset are at most 9223372036854775807 |
| PagingTheorems.PagesConcatenate | src/postgres/compiler.rs:206-220 | when no tie shows in the selected columns, the pages of a client that starts at any row and stops at the first short page concatenate to the one answer of the find without a limit from that row on |
| TieTheorems.PagingExactlyWhen | src/postgres/compiler.rs:188-220 | pages from the first row on always concatenate to an answer of the unpaged find exactly when no tie shows in the selected columns |
| TieTheorems.TiedPages | src/postgres/compiler.rs:188-220 | two tied rows that look different give pages, each an answer, that together show one of them twice and the other never |
| TieTheorems.OneWayExactlyWithoutTies | src/postgres/compiler.rs:188-204 | whole rows arrange in one way only exactly when no two different selected rows tie |
| PagingTheorems.FlippedFindReverses | src/postgres/compiler.rs:188-204 | without limit and offset, a find with every direction flipped may answer the reverse of any answer |
| PagingTheorems.CountMeans | src/postgres/compiler.rs:229-237 | a compiled count yields the number of rows the condition holds of |
| PagingTheorems.CountIsAPrefix | src/postgres/compiler.rs:179-237 | count compiles whenever find does, and its text and bindings are prefixes of find's |
| PagingTheorems.CountAgreesWithFind | src/postgres/compiler.rs:225-237 | count ignores sort, limit and offset and is the number of rows of any answer of the unpaged find |
| Repository.PgRepository.CompileInsert | src/postgres/repository.rs:108-149 | the loop over the insertable fields writes what InsertStatement says, or returns the first error; the subject of InsertReads and InsertExecutes |
| Repository.PgRepository.CompileReplace | src/postgres/repository.rs:151-202 | the loop over the updatable fields writes what ReplaceStatement says, or returns the first error; the subject of ReplaceReads and ReplaceExecutes |
| StatementProofs.InsertReads | src/postgres/repository.rs:108-149 | the text of an insert parses to one INSERT pairing each insertable column with its own source |
| StatementProofs.ReplaceReads | src/postgres/repository.rs:151-202 | the text of a replacement parses to one UPDATE of the updatable non-identity columns, filtered by the identity |
| StatementProofs.RemoveReads | src/postgres/repository.rs:322-336 | the text of a removal parses to one DELETE filtered by the identity |
| WriteProofs.StoredMeans | src/postgres/compiler.rs:440-476 | a persistence value's placeholder yields the value the column is to hold |
| WriteProofs.SourcesRefuse | src/postgres/repository.rs:119-136 | an entity is refused exactly for the first field its codec or its column refuses, with that error |
| WriteProofs.IdRefuses | src/postgres/repository.rs:90-106 | an identity is refused exactly for a codec error, a null or default, or a value that does not fit its column |
| WriteProofs.AssignMeans | src/postgres/repository.rs:108-149 | each written column receives its own field's value, a default where the codec says so, and no other column changes |
| WriteProofs.IdMeans | src/postgres/repository.rs:100-104 | the identity condition accepts exactly the rows whose key is the identity's value |
| RepositoryTheorems.InsertExecutes | src/postgres/repository.rs:296-305 | the server inserts the row written from defaults and field values, or reports a null or a taken key |
| RepositoryTheorems.ReplaceExecutes | src/postgres/repository.rs:307-320 | the server changes the one row with the identity, in the updatable non-identity columns only, or no row |
| RepositoryTheorems.InsertDoes | src/postgres/repository.rs:296-305 | insert and its returning form add the row to the map under its key, or change nothing and say why |
| RepositoryTheorems.ReplaceDoes | src/postgres/repository.rs:307-320 | replace and its returning form change the map at the identity, and report not found exactly when it is absent |
| RepositoryTheorems.RemoveDoes | src/postgres/repository.rs:322-336 | remove takes the identity out of the map and is true exactly when it was there |
| RunTheorems.GetDoes | src/postgres/repository.rs:254-265 | get returns the map's row at the identity, if any, and changes nothing |
| RunTheorems.FindDoes | src/postgres/repository.rs:240-252 | find returns a filter, sort and slice of the map's rows, or a validation error exactly when it does not compile |
| RunTheorems.CountDoes | src/postgres/repository.rs:267-289 | count returns the number of identities whose row the condition holds of |
| RunTheorems.RunsRefineTheMap | src/postgres/repository.rs:204-337 | over every sequence of operations the table stays keyed and typed, and each operation does to its map what it does to a map |
| RunTheorems.EveryOperationRuns | src/postgres/repository.rs:204-337 | on a sound table every operation has an outcome, whatever its arguments |
| RunTheorems.RunsGoOn | src/postgres/repository.rs:204-337 | and so every run can go on, with any operation |
| RowTheorems.InsertByField | src/postgres/repository.rs:79-149 | every insertable field's column holds the identity's value at the identity and the codec's own value elsewhere, or the default the codec asks for; every other column its default; the row is added unless its key is null or taken; a returned row shows the selectable columns |
| RowTheorems.InsertRefusedByField | src/postgres/repository.rs:118-136 | the first insertable field, in statement order, that the codec refuses, does not know or fills with a value that does not fit decides the error, and nothing is sent |
| RowTheorems.InsertColumns | src/postgres/repository.rs:108-149 | read off the text: an insert names each insertable field's column once and returns the selectable ones |
| RowTheorems.ReplaceByField | src/postgres/repository.rs:151-202 | in the row with the identity, and in no other, updatable fields other than the identity receive their own values and every other column keeps what was stored |
| RowTheorems.ReplaceRefusedByField | src/postgres/repository.rs:164-179 | the first updatable field with a complaint decides the error, before the identity is asked |
| RowTheorems.ReplaceIsUnsupported | src/postgres/repository.rs:151-161 | unsupported exactly when no field but the identity is updatable, codec errors of that category aside |
| RowTheorems.ReplaceColumns | src/postgres/repository.rs:151-202 | read off the text: a replacement assigns each updatable field's column but the identity's, once |
| RowTheorems.GetByField | src/postgres/repository.rs:254-265 | the row a get returns has exactly the columns of the fields whose selectable bit is set, as they are stored |
| RowTheorems.FindByField | src/postgres/repository.rs:240-252 | so has every row a find returns |
| RowTheorems.BuiltIsProper | src/postgres/entity.rs:60-180 | a chain's mapping is one the theorems are about exactly when it selects the identity and gives every field a column of its own |
| AgreementTheorems.PathsAgreeExactlyWhen | src/postgres/compiler.rs:401-476 | on every column, the query path and conversion with the write path give every scalar the same binding or the same refusal exactly when it is neither a null nor a text on a native column; for these two, what each path gives |
| AgreementTheorems.WriteThenQuery | src/postgres/value.rs:68-86 | the row inserted from a value is accepted by the compiled equality on an operand for that value: the scalar it was converted from, one of the amount of a stored decimal, or a text the server reads as the stored native value |
| AgreementTheorems.OperandsStandForValues | src/postgres/value.rs:68-86 | every operand that fits its column stands for such a value |
| AgreementTheorems.GetAgreesWithFind | src/postgres/repository.rs:254-265 | for an identity of any kind, get and a find by equality on an operand for it have the same answers on every table, and remove reports whether there was one |
| AgreementTheorems.IntegersAreOperands | src/postgres/compiler.rs:408-413 | every integer of the 64-bit signed and unsigned ranges is an operand |
| AgreementTheorems.IntegersCompareAsIntegers | src/postgres/compiler.rs:334-350 | a row written from one 64-bit integer and compared with another, signed or not, is decided as the integers are |
| AgreementTheorems.IntegerSets | src/postgres/compiler.rs:318-326 | IN and NOT IN over mixed signed and unsigned integers decide by integer equality |
| AgreementTheorems.TextOrderIsNotIntegerOrder | src/postgres/compiler.rs:478-481 | why numeric operands are cast: the order of the bound texts differs from that of the integers |
| Transaction.PgTransactionSource.TakeActive | src/postgres/transaction.rs:56-64 | the transaction is handed out once; the source is completed either way |
| Transaction.PgTransactionSource.Commit | src/postgres/transaction.rs:39-45 | one critical section of a serial run: publishes the effects if the server accepts, refused if already completed |
| Transaction.PgTransactionSource.Rollback | src/postgres/transaction.rs:48-54 | one critical section of a serial run that publishes nothing |
| Transaction.PgTransactionSource.Run | src/postgres/transaction.rs:73-136 | an operation takes effect on an active source, and is refused without effect on a completed one |
| Transaction.SerialPublishes | src/postgres/transaction.rs:38-64 | a serial run publishes the effects before its first finisher exactly if that is a commit that succeeds, and refuses every later call |
| Transaction.RunsKeep | src/postgres/transaction.rs:39-146 | over every interleaving: at most the lock holder is inside, statements run only on an active source, the transaction is in the source, with one finisher or used up, and the run equals the serial run in lock order |
| Transaction.NothingRunsAfterTaking | src/postgres/transaction.rs:56-64 | once the transaction is taken no statement starts, runs or ends and nobody takes it again, even while the commit is under way |
| Transaction.OutcomeOfARun | src/postgres/transaction.rs:38-146 | what any interleaving publishes and replies, in lock order: effects before the first finisher if it is a commit that succeeded, nothing otherwise; calls before it served, calls after it refused |
| CommitTheorems.RunReplays | src/postgres/repository.rs:204-337 | replaying only the statements the server accepted, in order, on the first table of a run gives its last table |
| CommitTheorems.CommitLeavesTheRun | src/postgres/transaction.rs:38-64 | under any interleaving, what a transaction running repository operations has published makes of the table the run's last table if its first finisher is a commit that succeeded, and leaves the first table otherwise |
| Transaction.CallerCanMove | src/postgres/transaction.rs:73-146 | in every reachable state an idle caller may ask anything, a waiting one may take a free lock, a holder may start, be refused or take the transaction as the source and its request say, and a statement, commit or rollback may end with either answer |
| Transaction.EveryCallReturns | src/postgres/transaction.rs:38-146 | from every state a run reaches, finitely many steps without new calls answer every caller and free the lock |
| Transaction.NoRunIsLonger | src/postgres/transaction.rs:38-146 | however it is scheduled, a run without new calls ends within three steps a caller |
| Router.PgPrimaryReplicaSource.ReadSource | src/postgres/router.rs:45-53 | reads take the replica at the counter's old value modulo their number and advance it, from 2^64 - 1 back to 0; without replicas the primary |
| Router.FreshRouterGoesRound | src/postgres/router.rs:45-53 | for the first 2^64 reads of a fresh router, read k finds the counter at k and goes to replica k modulo their number |
| Router.PgPrimaryReplicaSource.WriteSource | src/postgres/router.rs:79-95 | writes go to the primary |
| Router.ShareIs | src/postgres/router.rs:45-53 | the number of reads a replica gets, without counting them one by one |
| Router.ReadsAreBalanced | src/postgres/router.rs:45-53 | over any run from any counter value, two replicas' reads differ by at most one plus the wraparounds crossed |
| Router.AlwaysBalancedExactlyWhen | src/postgres/router.rs:45-53 | they never differ by more than one exactly when the number of replicas divides the number of counter values |
| Router.TwiceRound | src/postgres/router.rs:45-53 | otherwise two turns of the counter leave the first replica two reads ahead of the last |
| Router.ThreeReplicasDrift | src/postgres/router.rs:45-53 | as happens with three replicas at the source's own counter width |
| Router.WritesOnATree | src/postgres/router.rs:79-95 | after any run on any tree, the server found by following primaries has received every write and no other server any |
| Router.RunOnATree | src/postgres/router.rs:45-95 | in every finite tree of routers and every run, all writes reach the server found by following primaries, reads add up at the servers, skip the primary of every router with replicas, and stay even among replicas at every level |

## Left out

- Floating-point text and the values of native kinds: `f64` operands are known by their decimal text, uuid, jsonb, date and time values by their place in the server's order, and the server's reading of either is a parameter.
- Malformed text for a native kind, which the server would reject when it evaluates the cast: the model's cast always yields a value.
- `Condition::validate` and `FindParams::validate` are not part of this model beyond what the compiler relies on; what `FieldName::new` makes of a logical name is a parameter of the calls that take one.
- Failure of binding encoding (src/postgres/compiler.rs:87-131) and of row decoding: bindings and rows pass as values, and a codec is its encoded values.
- Error classification (src/postgres/error.rs): an error is its category, and only those the modelled paths raise.
- Native query handlers (src/postgres/native_query.rs) and the pool source (src/postgres/source.rs): text of the caller's own, and execution by SQLx.
- Constraints other than the key, isolation levels, the aborted state of a transaction after a failed statement, parameter-count limits and truncation of long identifiers: a failed statement has no effect and the next one may run.
- Futures that are dropped: no cancellation inside a critical section, and no rollback when a transaction is dropped unfinished. A commit that fails publishes nothing.
- SQL the adapter never writes: comments, escape strings, case folding of key words, and other expression forms.
- Sources shared between several routers: routers form a tree of values, so one replica under two routers is not modelled.
- PagesConcatenate: speaks of pages answered from one table; writes between two pages are not considered.
- PagingExactlyWhen: speaks of tables of at most 2^63 - 1 rows; past that a page's offset no longer fits a BIGINT and the walk stops with a refusal.
- CommitLeavesTheRun: replays the published statements on the table as it was when the transaction began; what other transactions do to it meanwhile is a matter of isolation levels.

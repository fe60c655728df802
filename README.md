# Service Manager query criteria and Postgres statement helpers

This project is a Dafny model of two parts of the Service Manager:

- **The criteria query language** (`pkg/query/selection.go`). It covers:
  - the operators and their three classifications;
  - the `Criterion` record and its four builders;
  - `Criterion.Validate`;
  - `mergeCriteria` and the context wrappers built on it (`AddCriteria`, `CriteriaForContext`, `ContextWithCriteria`);
  - the hand-written parser of `fieldQuery` and `labelQuery` strings (`process` and `findRightOp`);
  - `BuildCriteriaFromRequest`, which parses both query parameters, merges them and sorts the result by left operand.
- **The SQL-shaping helpers of the Postgres storage** (`storage/postgres/abstract.go`). They cover:
  - the `db` tags a structure yields (`getDBTags`/`getTags` with `isAutoIncrementable`);
  - the column allow-list (`columnsByTags`, `validateFieldQueryParams`);
  - the base `SELECT … LEFT JOIN` of a labelled entity (`constructBaseQueryForLabelable`);
  - the `UPDATE` text (`updateQuery`) and the `INSERT` text that `create` prepares;
  - the value and error converters (`toNullString`, `getJSONText`, `getJSONRawMessage`, `checkRowsAffected`, `checkSQLNoRows`).

Where the source loops over mutable state, the model does too:

- `findRightOp`'s character loop, `process`'s index loop, and the counting loop and the checking loop of `mergeCriteria`, are methods.
- `BuildCriteriaFromRequest`'s loop over query types, its in-place sort with `ByLeftOp.Swap`, `getTags`, `columnsByTags`, `validateFieldQueryParams`, `constructBaseQueryForLabelable` and `updateQuery` are methods as well.

Each method is either proved equal to a specification function or states its result or new state directly (for example, the sort states that the array ends sorted and is a permutation of what it held). The properties are proved as lemmas about those functions.

A Go runtime panic (an index or slice out of range) is modelled as an outcome of its own:

- `Outcome<T> = Ok | Err | Panic` for operations that return a value;
- `Status = Passed | Failed | Panicked` for checks that return only an error.

Panics are not turned into preconditions. Whether the parser panics depends on the state of the scan, and the lemmas state when it does.

The scan of a right operand takes the reading of an escaped bar (a backslash, then a bar) as a parameter:

- `AsWritten` is the source's own slice: it keeps the buffer's first `offset-1` characters, then appends the bar. `findRightOp`, `process`, `BuildCriteriaFromRequest` and every lemma about them use this reading.
- `Intended` drops the backslash that ends the buffer. It is the reference that the discrepancy under Findings is measured against.

The two readings agree on a text in which every escaped bar comes before any other bar, so that there is at most one, in the first value (ParserProperties.OperandsAgree).

Modules:

| file | module | models |
|---|---|---|
| text.dfy | Text | `strings.Join`, `strings.FieldsFunc`, `strings.ToLower` (ASCII), Go's byte-wise string `<` |
| strconv.dfy | Strconv | `strconv.Atoi` and `strconv.Itoa` on 64-bit `int` |
| fmt.dfy | Fmt | `fmt.Sprintf` with `%s` and `%[n]s` verbs and string arguments |
| query_criteria.dfy | QueryCriteria | operators, criteria, builders, `Validate` |
| query_parser.dfy | QueryParser | `findRightOp` and `process` |
| parser_properties.dfy | ParserProperties | what `findRightOp` reads back, and where the source's escape handling goes wrong |
| process_properties.dfy | ProcessProperties | what `process` emits, and that a written query parses back to its criteria |
| query_merge.dfy | QueryMerge | `mergeCriteria` |
| query_context.dfy | QueryContext | `AddCriteria`, `CriteriaForContext`, `ContextWithCriteria` |
| query_request.dfy | QueryRequest | `BuildCriteriaFromRequest` and the `ByLeftOp` sort |
| postgres.dfy | Postgres | the helpers of `storage/postgres/abstract.go` |

## Model

In this table, *bar* is the separator character (the vertical bar) and *double bar* is two of them. An *escaped bar* is a backslash followed by a bar.

| member | source | states |
|---|---|---|
| QueryCriteria.OperatorKindsBySpelling | pkg/query/selection.go:57-70 | IsMultiVariate holds exactly for `in`/`notin`, IsNullable exactly for `eqornil` and IsNumeric exactly for `lt`/`gt`/`lte`/`gte`; `nop` has none of the three |
| QueryCriteria.TokenInjective | pkg/query/selection.go:34-55 | no two operators share a spelling, so comparing spellings is comparing operators |
| QueryCriteria.FirstWithNewline | pkg/query/selection.go:196-200 | finds nothing exactly when no operand contains a newline; what it finds is an operand that contains one |
| QueryCriteria.ValidatePredicate | pkg/query/selection.go:179-201 | for a field or label criterion, Validate passes iff the criterion is well formed: at most one operand unless the operator is `in`/`notin`, `eqornil` only on fields, a numeric or datetime first operand for a numeric operator, no bar in the key and no newline in any operand; it panics exactly when a numeric operator has no operand, or when the key consists only of bars |
| QueryCriteria.ValidateResult | pkg/query/selection.go:156-177 | a result criterion fails only for a `limit` that is not a Go int or is below 1, or an `orderBy` with fewer than two operands; it panics only for a `limit` with no operand; everything else passes |
| QueryCriteria.ValidateOrderResultBy | pkg/query/selection.go:139-142 | every criterion OrderResultBy builds passes Validate |
| QueryCriteria.ValidateLimitResultBy | pkg/query/selection.go:144-148 | a criterion LimitResultBy builds passes iff the limit is at least 1, and otherwise fails naming the limit |
| QueryCriteria.ValidateByFieldOrLabel | pkg/query/selection.go:129-137 | an `=` criterion built by ByField or ByLabel with a key free of bars and a value free of newlines passes |
| QueryCriteria.NullableOnlyOnFields | pkg/query/selection.go:182-184 | `eqornil` is refused on a label criterion and accepted on a field criterion |
| Strconv.AtoiItoa | pkg/query/selection.go:146-158 | Atoi reads back every 64-bit int that Itoa prints, so a limit survives LimitResultBy and Validate |
| QueryParser.Step | pkg/query/selection.go:339-363 | one iteration of findRightOp's loop keeps the buffer ending with the last non-separator character read. The `AsWritten` reading of an escaped bar keeps the buffer's first `offset-1` characters and faults when the buffer is shorter, as the source slices; the `Intended` reading drops the backslash that ends the buffer |
| QueryParser.ScanFrom | pkg/query/selection.go:338-364 | in either reading of an escaped bar, the loop's final offset lies between where it started and the end of the text |
| QueryParser.ScanChar | pkg/query/selection.go:339-362 | the loop body is the step Step specifies in the `AsWritten` reading, including the fault when `offset-1` exceeds the buffer |
| QueryParser.RightOperandOf | pkg/query/selection.go:365-386 | in either reading, a right operand that is returned has at least one value (the `[""]` fallback), and its offset lies within the text |
| QueryParser.StripBrackets | pkg/query/selection.go:368-381 | the bracket check is the one Bracketed specifies |
| QueryParser.FindRightOp | pkg/query/selection.go:336-386 | findRightOp's loop, the kept buffer, the bracket check and the fallback return what RightOperandOf specifies in the `AsWritten` reading |
| QueryParser.MatchFrom | pkg/query/selection.go:319-325 | an operator that is found has its ` op ` pattern at the head of the text |
| QueryParser.MatchOperatorAt | pkg/query/selection.go:318-325 | the inner loop over the operators returns the first listed operator whose pattern starts the text |
| QueryParser.ReadOperand | pkg/query/selection.go:302-316 | after a right operand is read in the `AsWritten` reading, the indices stay in range, i moves forward and the pending key and operator are cleared |
| QueryParser.SeekOperator | pkg/query/selection.go:317-326 | an iteration without a pending operator only advances i and keeps j and the criteria |
| QueryParser.ReadOperandAt | pkg/query/selection.go:302-316 | the first branch of process's loop body is the step ReadOperand specifies |
| QueryParser.Process | pkg/query/selection.go:293-334 | process returns what Parse specifies |
| ParserProperties.ScanStops | pkg/query/selection.go:338-364 | the scan never returns an error, and it stops at the first unescaped single bar with the buffer emptied, or else at the end of the text. It panics when the text starts with a bar. In the `Intended` reading that is the only panic; in the `AsWritten` reading any other panic is at an escaped bar |
| ParserProperties.ScansAgree | pkg/query/selection.go:353-358 | the two readings scan a text alike when every escaped bar reached has no bar before it and the buffer holds one character per character read |
| ParserProperties.OperandsAgree | pkg/query/selection.go:336-386 | a text whose escaped bars each come before any other bar gives the same right operand, or the same error or panic, in both readings |
| ParserProperties.ScanWrittenChar | pkg/query/selection.go:353-361 | a plain character, or a bar written as an escaped bar, is appended to the buffer as the character itself. In the `AsWritten` reading the escaped bar needs a buffer with one character per character read |
| ParserProperties.ScanWritten | pkg/query/selection.go:338-364 | scanning an escaped value appends exactly the value to the buffer. This holds in the `Intended` reading always; in the `AsWritten` reading it needs a value without a bar, or with one bar and the buffer in step with the offset |
| ParserProperties.ScanCloses | pkg/query/selection.go:348-352 | at the end of the text, or at an unescaped single bar, the scan stops and the buffer becomes the last element |
| ParserProperties.WrittenReadsBack | pkg/query/selection.go:336-386 | a single value written with escaped separators and closed where it ends reads back as that value. The `AsWritten` reading needs at most one bar in the value |
| ParserProperties.EscapedValueReadsBack | pkg/query/selection.go:336-386 | for a single-valued operator, an escaped value reads back as exactly itself, with all of the text consumed. This holds for every value in the `Intended` reading, and for a value with at most one bar in the `AsWritten` reading |
| ParserProperties.ScanElementSeparator | pkg/query/selection.go:340-343 | in either reading, an unescaped double bar closes the buffer as an element and skips both separators |
| ParserProperties.ScanList | pkg/query/selection.go:338-364 | scanning values joined by double bar makes each value but the last an element and leaves the last in the buffer. The `AsWritten` reading needs the bars confined to the first value (one at most, with the buffer in step) |
| ParserProperties.BracketedEnclosed | pkg/query/selection.go:368-381 | the bracket check strips exactly one `[` from the first element and one `]` from the last |
| ParserProperties.ScanBracketed | pkg/query/selection.go:338-367 | a bracketed list closed at q scans to its elements, the first carrying `[` and the last `]`; in the `AsWritten` reading at most one value, the first, may hold a bar, and only one |
| ParserProperties.SplitReadsBack | pkg/query/selection.go:365-386 | in either reading, a text that scans to a bracketed list's elements reads back as the list's values |
| ParserProperties.ListReadsBack | pkg/query/selection.go:336-386 | a text that starts with a bracketed list, closed there, reads back as the list (in the `AsWritten` reading, with at most one bar, in the first value) |
| ParserProperties.JoinedReadsBack | pkg/query/selection.go:336-386 | `[`, the escaped values joined by double bar, and `]`, closed there, read back as the values (in the `AsWritten` reading, with at most one bar, in the first value) |
| ParserProperties.BracketListReadsBack | pkg/query/selection.go:336-386 | for `in`/`notin`, a bracketed list of non-empty escaped values that do not end in a backslash reads back as exactly those values. This holds for every list in the `Intended` reading; in the `AsWritten` reading only the first value may hold a bar, and only one |
| ParserProperties.SecondEscapeKeptAsWritten | pkg/query/selection.go:353-358 | the source's slice to `offset-1` reads `a`, escaped bar, `b`, escaped bar, `c` as a-bar-b, escaped bar, `c`: the second backslash is kept |
| ParserProperties.SecondEscapeReadBack | pkg/query/selection.go:353-358 | the `Intended` reading reads `a`, escaped bar, `b`, escaped bar, `c` as the value a-bar-b-bar-c |
| ParserProperties.LaterEscapePanicsAsWritten | pkg/query/selection.go:353-358 | on `[a`, double bar, escaped bar, `b]` the source's slice runs past the buffer's end and panics, while the `Intended` reading gives `a` and bar-`b` |
| ParserProperties.SingleSeparatorsRefused | pkg/query/selection.go:348-352 | a list written with single separators ends at the first one and fails the bracket check |
| ParserProperties.BracketsRequired | pkg/query/selection.go:370-374 | a list written without brackets fails the bracket check |
| ParserProperties.LoneBracketPanics | pkg/query/selection.go:375-376 | a lone `[` leaves an empty last element, and reading its last character panics |
| ProcessProperties.PatternsPrefixFree | pkg/query/selection.go:319-325 | no operator's ` op ` pattern starts another's, so at most one operator matches at a position and the order of the list does not matter |
| ProcessProperties.MatchNeedsSpace | pkg/query/selection.go:319-320 | no operator is recognised where the text does not start with a space |
| ProcessProperties.MatchFromFinds | pkg/query/selection.go:319-325 | a listed operator whose pattern starts the text is the one recognised |
| ProcessProperties.MatchFromListed | pkg/query/selection.go:319-325 | a recognised operator is one of the listed ones |
| ProcessProperties.MatchOperatorExact | pkg/query/selection.go:318-325 | an operator is recognised iff some listed operator's pattern starts the text, and then it is such an operator |
| ProcessProperties.ProcessFromSound | pkg/query/selection.go:301-333 | from any reachable loop state, a successful result extends the criteria gathered so far, is not empty, and each criterion has the requested type, a key, a listed operator and an operand, and passed Validate |
| ProcessProperties.ContinueSound | pkg/query/selection.go:302-316 | the same holds from an iteration that reads a right operand |
| ProcessProperties.ParseSound | pkg/query/selection.go:293-334 | an empty query gives no criteria and no error, and a successful result is empty only for the empty query; in any case every criterion it returns has the requested type, a key, a listed operator and an operand, and passed Validate |
| ProcessProperties.SeekingFindsNothing | pkg/query/selection.go:317-332 | with no operator pending and none ahead, the loop ends with the "not a valid" error |
| ProcessProperties.ParseNeedsOperator | pkg/query/selection.go:328-332 | a non-empty query in which no operator is recognised is "not a valid" query of its type |
| ProcessProperties.OperandReadsBack | pkg/query/selection.go:336-386 | a writable criterion's written operand, closed where it ends, reads back through the source's slice as the criterion's operands |
| ProcessProperties.SkipKey | pkg/query/selection.go:317-326 | over characters that are not spaces the loop only advances i |
| ProcessProperties.RecogniseOperator | pkg/query/selection.go:318-324 | at an operator's pattern after a non-empty key, the key `input[j:i]` and the operator become pending |
| ProcessProperties.ContinueReads | pkg/query/selection.go:302-316 | a successful operand read hands the loop on to the state it produced |
| ProcessProperties.AppendCriterion | pkg/query/selection.go:302-316 | a pending criterion whose operand reads back and which Validate accepts is appended, and i and j move past the closing separator |
| ProcessProperties.ReadCriterionAt | pkg/query/selection.go:301-326 | a key, an operator pattern and an operand that reads back are gathered as one criterion, and the loop resumes after the separator |
| ProcessProperties.ReadCriterion | pkg/query/selection.go:301-326 | one written criterion is read from its start to the separator after it |
| ProcessProperties.ReadInQuery | pkg/query/selection.go:301-326 | in a written query, the k-th criterion is read from its start to the start of the next |
| ProcessProperties.ReadLast | pkg/query/selection.go:301-333 | past the end of the text the loop returns the criteria it has read |
| ProcessProperties.ReadFrom | pkg/query/selection.go:301-333 | a written query read from the start of its n-th criterion yields all of its criteria |
| ProcessProperties.ParseWritten | pkg/query/selection.go:293-334 | criteria written with escaped values and bracketed lists, joined by bar, parse back to exactly those criteria when Validate accepts them and at most one bar occurs among each criterion's values, in the first |
| QueryMerge.CountKey | pkg/query/selection.go:206-216 | a key is counted at most once per criterion |
| QueryMerge.CountKeyAppend | pkg/query/selection.go:209-216 | counting over c1 followed by c2 is counting over each |
| QueryMerge.CountKeys | pkg/query/selection.go:206-216 | the counting loop leaves each map holding, for every key, the number of field (or label) criteria of c1 followed by c2 with that key; a missing key reads as 0 |
| QueryMerge.MergeCriteria | pkg/query/selection.go:204-234 | mergeCriteria returns what Merge specifies |
| QueryMerge.CheckIncomingPasses | pkg/query/selection.go:218-231 | the checks on an incoming criterion pass iff its key occurs once among its type's criteria (for field and label criteria) and Validate passes |
| QueryMerge.MergeFromSucceeds | pkg/query/selection.go:218-233 | the loop over the incoming criteria from the k-th on succeeds iff each is accepted, and then returns c1 followed by c2 |
| QueryMerge.MergeSucceeds | pkg/query/selection.go:204-234 | mergeCriteria succeeds iff every incoming criterion is accepted, and then returns exactly c1 followed by c2 |
| QueryMerge.MergeFromFailsAtFirst | pkg/query/selection.go:218-231 | a failure of the loop from k on is the failure of the first incoming criterion a check rejects |
| QueryMerge.MergeFailsAtFirst | pkg/query/selection.go:218-231 | when mergeCriteria fails, it returns the error (or panic) of the first incoming criterion a check rejects, and no criteria |
| QueryMerge.RepeatedKeyRejected | pkg/query/selection.go:220-227 | an incoming field or label criterion whose key a held criterion of its type uses is rejected as a duplicate of its type |
| QueryMerge.KeysCountedPerType | pkg/query/selection.go:209-216 | criteria of other types never change a type's key count, so a field key and an equal label key do not collide |
| QueryMerge.HeldDuplicatesUnchecked | pkg/query/selection.go:218-233 | merging nothing returns the held criteria, duplicates included |
| QueryMerge.CountKeyTwo | pkg/query/selection.go:209-216 | two criteria of a type with the same key count at least twice |
| QueryMerge.MergeSeparatesKeys | pkg/query/selection.go:204-234 | after a successful merge no incoming field or label criterion shares its key with another criterion of its type, held or incoming |
| QueryContext.ContextWithCriteria | pkg/query/selection.go:257-260 | the new context's criteria are exactly the given ones |
| QueryContext.AddCriteriaAppends | pkg/query/selection.go:238-255 | AddCriteria succeeds iff mergeCriteria accepts every new criterion against the context's, and the new context then carries the context's criteria followed by the new ones |
| QueryContext.AddingHeldKeyFails | pkg/query/selection.go:238-246 | adding a field or label criterion whose key the context already holds for its type fails as a duplicate |
| QueryRequest.Swap | pkg/query/selection.go:289-291 | ByLeftOp.Swap exchanges two criteria and keeps the multiset |
| QueryRequest.SortByLeftOp | pkg/query/selection.go:275-291 | the sort leaves the criteria ordered by left operand under Go's byte-wise string order, and a permutation of what they were |
| QueryRequest.BuildCriteriaFromRequest | pkg/query/selection.go:262-277 | the result is an error or panic exactly when parsing or merging the field query, then the label query, is; otherwise it is the merged criteria sorted by left operand, as a permutation |
| QueryRequest.CollectFromOk | pkg/query/selection.go:265-274 | a successful collection passed each query type's parse and merge in turn |
| QueryRequest.CollectSteps | pkg/query/selection.go:263-274 | a successful collection parsed the field query, then the label query, and merged them in that order |
| QueryRequest.MergedTwiceKeysDistinct | pkg/query/selection.go:263-274 | field criteria merged into nothing, then label criteria merged into those, have distinct keys within each type |
| QueryRequest.EmittedBoth | pkg/query/selection.go:265-274 | the criteria parsed from the two queries have their queries' types and passed Validate |
| QueryRequest.CollectFieldsThenLabels | pkg/query/selection.go:263-274 | the criteria collected from a request are the field query's followed by the label query's; each passed Validate and none is a result criterion, and no two of a type share a key |
| QueryRequest.EmptyRequest | pkg/query/selection.go:263-277 | a request with neither query yields no criteria |
| Postgres.GetDBTags | storage/postgres/abstract.go:166-190 | getTags' loop yields the tags DBTags specifies |
| Postgres.DBTags | storage/postgres/abstract.go:166-190 | there are never more tags than fields |
| Postgres.DBTagsOfKept | storage/postgres/abstract.go:166-190 | a name is a tag iff some field that is not a nil pointer, not tagged `-` and not auto-incremented has it as its tag or, when untagged, as its lower-cased name |
| Postgres.DBTagsEmpty | storage/postgres/abstract.go:166-190 | there are no tags iff no field is kept |
| Postgres.AutoIncrementSkipped | storage/postgres/abstract.go:145-148 | a field whose tag contains `auto_increment` contributes no column; its tag appears only when another kept field names the same column |
| Postgres.Column | storage/postgres/abstract.go:99-100 | the column a tag names is the part before its first comma: a prefix of the tag without a comma, and the whole tag when it has none |
| Postgres.ColumnsByTags | storage/postgres/abstract.go:96-103 | the map's keys are exactly the tags' columns, each mapped to true |
| Postgres.ValidateFieldQueryParams | storage/postgres/abstract.go:105-112 | the result is nil iff no criterion is a field query on an unavailable column; otherwise it is the "unsupported field query key" error naming the first such criterion's key |
| Postgres.FirstUnsupportedNone | storage/postgres/abstract.go:105-112 | validation passes iff every field query names an available column; label and result criteria are never checked |
| Postgres.FirstUnsupportedIsFirst | storage/postgres/abstract.go:105-112 | the reported key belongs to a rejected field query that every earlier criterion passed |
| Postgres.FieldQueriesOnTaggedColumns | storage/postgres/abstract.go:96-112 | with the columns columnsByTags builds, validation passes iff every field query's key is the column of some tag |
| Postgres.ConstructBaseQueryForLabelable | storage/postgres/abstract.go:114-129 | the loop over the label tags, the comma trim and the final Sprintf produce the query BaseQuery specifies |
| Postgres.BaseQueryParts | storage/postgres/abstract.go:114-129 | without a labels entity the query is `SELECT * FROM <table>`; with one, it is `SELECT <table>.*`, then `, <labels>.<tag> "<labels>.<tag>"` for each label tag with no trailing comma, then `FROM <table> LEFT JOIN <labels> ON <table>.<pk> = <labels>.<ref>` |
| Postgres.UpdateQuery | storage/postgres/abstract.go:192-203 | the loop over the tags and the final Sprintf produce the statement UpdateStatement specifies |
| Postgres.UpdateStatementText | storage/postgres/abstract.go:192-203 | the statement is "" iff no field is settable; otherwise it is `UPDATE <t> SET a = :a, b = :b WHERE id = :id` over the tags in field order |
| Postgres.UpdateUntaggedField | storage/postgres/abstract_test.go:72-100 | an untagged field updates its lower-cased name: `UPDATE n/a SET field = :field WHERE id = :id` |
| Postgres.UpdateTaggedField | storage/postgres/abstract_test.go:82-90 | a tagged field updates its tag: `UPDATE n/a SET taggedField = :taggedField WHERE id = :id` |
| Postgres.UpdateNothing | storage/postgres/abstract_test.go:102-118 | a nil pointer field, or no field at all, gives "" |
| Postgres.PlaceholdersJoined | storage/postgres/abstract.go:81-84 | the leading `:` of `VALUES(:%s` with the tags joined by `, :` gives each tag its own `:` parameter |
| Postgres.InsertRefused | storage/postgres/abstract.go:76-78 | the error of an insert with no fields names the table: `<t> insert: No fields to insert` |
| Postgres.InsertFormatted | storage/postgres/abstract.go:80-85 | the INSERT format takes the table, the joined columns and the joined parameters in that order, and nothing else |
| Postgres.InsertStatementText | storage/postgres/abstract.go:69-85 | create fails with `<t> insert: No fields to insert` iff no field is insertable; otherwise it prepares `INSERT INTO <t> (a, b) VALUES(:a, :b) RETURNING *;` over the tags in field order |
| Postgres.ToNullString | storage/postgres/abstract.go:257-259 | the string is kept, and it is valid iff it is not empty |
| Postgres.GetJSONText | storage/postgres/abstract.go:261-267 | exactly `null` becomes `{}`, and every other message is kept |
| Postgres.GetJSONRawMessage | storage/postgres/abstract.go:269-277 | exactly `{}` and `null` become nil, and every other message is kept |
| Postgres.JSONRoundTrip | storage/postgres/abstract.go:261-277 | storing with getJSONText and reading with getJSONRawMessage gives back every message other than `{}` and `null`; those two come back as nil |
| Postgres.CheckRowsAffected | storage/postgres/abstract.go:238-248 | an error from asking for the count is returned as is; otherwise the result is not-found iff fewer than one row was affected, and nil otherwise |
| Postgres.CheckSQLNoRows | storage/postgres/abstract.go:250-255 | exactly the no-rows error becomes not-found; every other error, and nil, passes through |

## Left out

- Panics are modelled as a `Panic` outcome (or a `Panicked` status) rather than excluded by preconditions. The cases are: a right operand that starts with `|`, an empty last list element, an empty right operand reaching a numeric check or a `limit` check, a key made only of `|`, and an escaped bar whose `offset-1` slice reaches past the end of the buffer (see Findings).
- `isNumeric`'s float parsing (`strconv.ParseFloat`) and `isDateTime` (`time.Parse` with RFC 3339) are not modelled. They are oracle predicates in a `Literals` parameter. `strconv.Atoi` is modelled in full.
- Strings are sequences of characters, one character per byte. The parser is exact only on ASCII text: `findRightOp` ranges over runes but indexes bytes, and that mismatch on multi-byte characters is not modelled.
- `strings.ToLower` is modelled on ASCII letters only.
- `fmt.Sprintf` is modelled only for string arguments and the `%s` and `%[n]s` verbs (n from 1 to 9). Other verbs, `%%`, and the `%!(EXTRA …)` suffix for unused arguments are not modelled.
- ProcessProperties.ParseWritten, ProcessProperties.OperandReadsBack: the round trip is stated only for criteria in which at most one value, the first, holds a bar, and only one. With more bars the source's slice keeps a backslash or panics (see Findings). The round trip for every value holds only in the `Intended` reading, and is stated per operand, by ParserProperties.EscapedValueReadsBack and ParserProperties.BracketListReadsBack.
- ParserProperties.EscapedValueReadsBack, ParserProperties.BracketListReadsBack, ParserProperties.WrittenReadsBack, ParserProperties.ListReadsBack, ParserProperties.JoinedReadsBack, ParserProperties.ScanBracketed: in the `AsWritten` reading they are stated only for values with at most one bar, in the first value. Beyond that the source does not read the value back.
- ParserProperties.ScanStops: in the `AsWritten` reading it states only that a panic other than at the first character is at an escaped bar, not exactly which escaped bars panic.
- Postgres.BaseQueryParts, Postgres.UpdateStatementText: they describe the statement text only when the names pasted into the format hold no `%`. In the source such a `%` would itself be read as a verb.
- Reflection in `getDBTags`/`getTags` is replaced by an explicit sequence of fields: each field's Go name, its `db` tag and whether it is a nil pointer.
  - Embedded structures are not modelled; they must be passed already flattened, in declaration order.
  - Each tag's reflected `Type` is not kept.
  - The predicate is always `isAutoIncrementable`, the only one the modelled callers pass.
- Postgres.UpdateUntaggedField, Postgres.UpdateTaggedField: the expected text is written as three literal pieces joined together, rather than as one literal.
- ProcessProperties.MatchFromListed: it states only that the operator found is listed. That its pattern starts the text is stated by QueryParser.MatchFrom, and the full characterisation by ProcessProperties.MatchOperatorExact.
- `sort.Sort`'s own algorithm is not modelled. An insertion sort over `ByLeftOp.Less` and `ByLeftOp.Swap` stands in for it. Only what `sort.Sort` promises is stated: sorted, and a permutation. Which of several equal-keyed orders results is not stated, since `sort.Sort` is not stable.
- QueryMerge.MergeCriteria, QueryContext.AddCriteria: Go slices are modelled as values. When `c1` has spare capacity, `append(c1, c2...)` and `append(result, c2...)` write into `c1`'s backing array, which for `AddCriteria` is the slice stored in the parent context. This sharing is not modelled. So the model cannot show two `AddCriteria` calls on one parent context overwriting each other's appended criteria, nor a failed merge doing so through its counting `append`.
- The HTTP request is reduced to its URL query values, and `context.Context` to the criteria it carries under the criteria key.
- The affected-row count is an unbounded integer rather than an `int64`.
- A nil JSON message is `None`, and any other message (empty included) is `Some`.
- Database execution is not modelled. This covers preparing and running statements, `update`'s and `create`'s calls to the driver, `closeRows` and logging.
- `checkUniqueViolation` and `checkIntegrityViolation` are not modelled. They classify driver error codes from a library that is not part of this model.
- The listing and deletion statement compilers are not part of this model.
- `api/filters/tenant_criteria.go` is not part of this model. It is a wrapper over token-claim extraction and `AddCriteria`.

## Findings

Bar, double bar and escaped bar are as in the Model table.

| source | as written | input that shows it | evidently intended | confidence | as-written member | corrected member |
|---|---|---|---|---|---|---|
| pkg/query/selection.go:353-358 | An escaped bar keeps the buffer's first `offset-1` characters. Here `offset` counts characters of the whole remaining text, not of the current value, so only the first escape of the first value drops its backslash. | `a`, escaped bar, `b`, escaped bar, `c` reads as a-bar-b, escaped bar, `c`: the second backslash is kept. `[a`, double bar, escaped bar, `b]` slices past the end of the buffer and panics. | Drop only the backslash that ends the buffer, so that every escaped separator reads as a literal bar. | not executed | QueryParser.Step (`AsWritten`), ParserProperties.SecondEscapeKeptAsWritten, ParserProperties.LaterEscapePanicsAsWritten | QueryParser.Step (`Intended`), ParserProperties.SecondEscapeReadBack, ParserProperties.EscapedValueReadsBack, ParserProperties.BracketListReadsBack, ParserProperties.OperandsAgree |

# Payout bot: withdraw selection, record store and gateway acceptance

A Dafny model of the logic at the heart of an operator chat bot that
reconciles withdrawal payouts for a fantasy-sports platform. The bot downloads
a CSV of pending withdraw requests, stores them in a SQLite table keyed by the
withdraw request id, lists pending ids within a cumulative amount limit, and
looks up payin/payout status at two payment gateways (BappaVenture and
Wellness). The model covers:

- `main.py`: the permission check (`Permissions`), the normalisation of the
  withdraw id an operator types (`WithdrawIds`), the three status-to-label
  mappings (`StatusLabels`), the packing of ids into copyable text blocks
  (`IdChunks`), the cumulative-limit selection of pending withdraws
  (`LimitSelection`) and the CSV ingestion loop (`CsvIngest`);
- `database.py`: the withdraw request table and its upsert (`Database`), a
  class holding a map from withdraw request id to row and a logical clock;
- `wellness.py`: the guard chains that decide whether a Wellness reply is
  returned or raised (`Wellness`), as pure classifiers over an abstract reply.

Amounts are Dafny `real`s (no float rounding). Status codes are 0 Created,
1 Processing, 2 Success, 3 Failed.

Points of the code's behaviour worth stating up front:
- the limit selection walks the pending rows once, in the order the store
  returns them, taking each row with an id whose amount still fits;
- a CSV row whose Amount is not a number ends the ingestion at that row (the
  exception propagates out of `process_csv_and_save`), it is not skipped;
- CSV re-ingestion of an id overwrites status, order id and payment method
  with Created, "" and "" whatever the row held (`Database.UpsertResetsLifecycle`).

## Model

| member | source | states |
|---|---|---|
| `Permissions.HasPermission` | main.py:32-33 | no ensures; its meaning is in `PermissionMeaning`, `UnknownUserRefused` and `GrantIsLocal` |
| `Permissions.PermissionMeaning` | main.py:32-33 | a user has a feature exactly when the user is in `ADMINS` and the feature is in the user's list |
| `Permissions.UnknownUserRefused` | main.py:33 | a user missing from `ADMINS` (the `[]` default) has no feature |
| `Permissions.GrantIsLocal` | main.py:32-33 | adding a feature to one user's list grants it and changes no other user's or feature's permission |
| `WithdrawIds.IsSpace` | main.py:150 | no ensures; the characters Python's `str.isspace` accepts, which `strip()` removes; used by `Strip`, whose ensures state the stripping |
| `WithdrawIds.WithdrawId` | main.py:150-155 | no ensures; its meaning is in `WithdrawIdShape`, `WithdrawIdKeepsPrefixed` and `WithdrawIdIdempotent` |
| `WithdrawIds.StartOf` | main.py:150 | `strip()` removes exactly the leading whitespace: all before the index is whitespace, the character at it is not |
| `WithdrawIds.EndOf` | main.py:150 | `strip()` removes exactly the trailing whitespace after the leading part |
| `WithdrawIds.Strip` | main.py:150 | the stripped text is an infix of the input with no whitespace at either end, and only whitespace was cut |
| `WithdrawIds.StripOfStripped` | main.py:150 | text without surrounding whitespace is unchanged by `strip()` |
| `WithdrawIds.WithdrawIdShape` | main.py:152-155 | the lookup id always starts with `IND-` and is the stripped input, with `IND-` in front when it lacked it |
| `WithdrawIds.WithdrawIdKeepsPrefixed` | main.py:152-153 | a stripped input that already starts with `IND-` is used unchanged |
| `WithdrawIds.WithdrawIdIdempotent` | main.py:150-155 | normalising an already normalised id changes nothing |
| `StatusLabels.PayoutLabel` | main.py:181-188 | no ensures; its meaning is in `LabelIsExactMatch`, `TokenRoundTrip` and `NonTextIsUnknown` |
| `StatusLabels.BappaPayinLabel` | main.py:229-236 | no ensures; its meaning is in `LabelIsExactMatch`, `TokenRoundTrip` and `VocabulariesDoNotMix` |
| `StatusLabels.WellnessPayinLabel` | main.py:284-291 | no ensures; its meaning is in `LabelIsExactMatch`, `TokenRoundTrip` and `VocabulariesDoNotMix` |
| `StatusLabels.LabelIsExactMatch` | main.py:181-291 | in each of the three mappings a status gets Success, Failed or Pending exactly when it equals that vocabulary's token; everything else is Unknown |
| `StatusLabels.TokenRoundTrip` | main.py:181-291 | each mapping sends its own token for a label back to that label |
| `StatusLabels.NonTextIsUnknown` | main.py:187-188 | a missing or non-string status is Unknown in every mapping |
| `StatusLabels.VocabulariesDoNotMix` | main.py:229-291 | the matches are case-sensitive: a Wellness token is Unknown to the BappaVenture payin mapping and the reverse, and the numeric payout tokens are Unknown to both word mappings and the word tokens of both payin mappings are Unknown to the payout mapping |
| `IdChunks.Pack` | main.py:333-346 | no ensures; the packing loop as a function, whose meaning is in `PackIsGreedy` |
| `IdChunks.BuildIdChunks` | main.py:328-346 | the blocks joined give the ids in order, no block is empty, each fits the budget or is one oversized id, and each block but the last was closed only because the next id did not fit; no ids give no blocks |
| `IdChunks.PackIsGreedy` | main.py:333-346 | continuing the packing loop from any sound state (blocks so far cover the ids seen, all promises kept) ends in a greedy chunking of all the ids |
| `IdChunks.GreedyChunkingUnique` | main.py:333-341 | two chunkings with those properties are equal, so the blocks are determined by the ids and the budget |
| `IdChunks.NoChunksIffNoIds` | main.py:343-346 | a chunking that covers the ids with non-empty blocks is empty exactly when the ids are |
| `IdChunks.DefaultBudgetHolds` | main.py:328 | at the default budget of 3000 characters that the bot uses, ids shorter than 3000 characters always give blocks within the budget |
| `LimitSelection.Walk` | main.py:374-384 | no ensures; the selection loop as a function, whose meaning is in `WalkTotal`, `WalkPartition` and `WalkKeepsOrder` |
| `LimitSelection.SelectWithinLimit` | main.py:374-384 | the selected ids are those of an order-preserving subsequence of the rows whose amounts sum to the running total, the total never exceeds a non-negative limit, and selected plus skipped is the number of rows with an id |
| `LimitSelection.WalkTotal` | main.py:380-382 | the running total is the start plus the amounts taken and stays within the limit |
| `LimitSelection.WalkPartition` | main.py:377-384 | rows with an empty id are neither taken nor skipped; every other row is exactly one of the two, and every taken row has an id |
| `LimitSelection.WalkKeepsOrder` | main.py:380-382 | the rows taken are a subsequence of the input, in input order |
| `LimitSelection.FitTakes` | main.py:380-382 | a row with an id that fits is taken and the walk continues from the total raised by its amount |
| `LimitSelection.OverflowContinues` | main.py:380-384 | a row that does not fit is counted as skipped and the walk continues from the same running total |
| `LimitSelection.ExampleFullAtLimit` | main.py:374-384 | amounts 500, 100, 9999, 50 under 600 select the first two, total 600, two skipped |
| `LimitSelection.ExampleSmallerRowAfterOverflow` | main.py:374-384 | after an overflowing row and a row without id, a later smaller row is still selected |
| `CsvIngest.CsvRecord` | main.py:406-415 | no ensures; its meaning is in `CsvRowStored` |
| `CsvIngest.UpsertAll` | main.py:405-417 | no ensures; its meaning is in `BusinessUpsertAll` and `IngestTwiceIsIngestOnce` |
| `CsvIngest.FirstBadAmount` | main.py:405-411 | the position of the first row whose Amount does not parse; every row before it parses |
| `CsvIngest.Records` | main.py:406-415 | one record per row, in order, with status 0, empty order id and payment method and the other cells copied |
| `CsvIngest.CsvRowStored` | main.py:406-417 | an ingested row is stored with status Created, empty correlation columns and its own name, account, IFSC and amount |
| `CsvIngest.LastFieldsKeys` | main.py:405-417 | an id has an entry among the last records of an ingestion exactly when some record carries that id |
| `CsvIngest.LastFieldsLast` | main.py:405-417 | the entry of an id holds the business columns of the last record with that id, so later rows of the file win |
| `CsvIngest.BusinessUpsertAll` | main.py:405-417 | ingesting records in file order leaves the table's business columns overridden by the last record of each id and the other ids untouched |
| `CsvIngest.IngestTwiceIsIngestOnce` | main.py:405-417 | ingesting the same rows twice leaves the same ids and business columns as ingesting them once |
| `CsvIngest.ProcessCsvAndSave` | main.py:401-417 | the rows before the first bad Amount are upserted in file order, the rest are not, and the error names that row |
| `Database.FieldsOf` | database.py:95-104 | no ensures; its meaning is in `MissingKeysDefault` |
| `Database.Upsert` | database.py:72-104 | no ensures; its meaning is in `UpsertMeaning`, `UpsertCount` and `LastWriteWins` |
| `Database.UpsertMeaning` | database.py:72-104 | after the upsert the id is in the table with the data's business columns and `updated_at` now, `created_at` kept for an existing id, every other row unchanged and no other id added |
| `Database.UpsertCount` | database.py:45-48 | the row count grows by one exactly when the id was absent (the unique index on the id) |
| `Database.MissingKeysDefault` | database.py:101-103 | a missing status, order id and payment method are stored as 0, "" and "" |
| `Database.BusinessUpsert` | database.py:86-93 | on the business columns an upsert replaces the id's entry and nothing else |
| `Database.UpsertIdempotent` | database.py:86-94 | upserting the same data twice leaves the same business columns, ids and `created_at` as once |
| `Database.LastWriteWins` | database.py:86-94 | of two upserts of one id the second one's columns win and the first one's `created_at` stays |
| `Database.UpsertResetsLifecycle` | database.py:91-93 | an upsert with the ingestion defaults moves a Processing, Success or Failed row back to Created with empty order id and payment method |
| `Database.WithdrawStore.constructor` | database.py:6-65 | a freshly initialised table is empty and satisfies the timestamp invariant |
| `Database.WithdrawStore.InsertWithdraw` | database.py:68-107 | the table becomes the upsert of the data at the current time and the timestamp invariant is kept |
| `Wellness.StatusGuards` | wellness.py:24-33 | a lookup reply is returned, unchanged, exactly when it is an HTTP 200 JSON object with a truthy `status` |
| `Wellness.CheckPayinStatus` | wellness.py:24-33 | the payin lookup returns the reply unchanged exactly when it is HTTP 200, a JSON object and has a truthy `status` |
| `Wellness.CheckPayoutStatus` | wellness.py:56-65 | the payout lookup returns the reply unchanged under the same conditions |
| `Wellness.CreatePayout` | wellness.py:145-167 | payout creation returns the reply unchanged exactly when the lookup conditions hold and `gateway.gateway_status` is "Completed" or "Pending" |
| `Wellness.Non200IsHttpError` | wellness.py:145-146 | a non-200 reply is an HTTP error for all three operations whatever its body |
| `Wellness.UnreadableRepliesAreErrors` | wellness.py:107-152 | a transport failure and a non-JSON 200 reply are errors in all three operations |
| `Wellness.FalsyStatusIsApiError` | wellness.py:154-156 | a 200 object reply with a missing or falsy `status` is an API error in all three operations |
| `Wellness.CreationRefinesStatus` | wellness.py:158-165 | creation accepts a subset of what the lookups accept, and refuses a lookup-accepted reply exactly for a missing or other gateway state |
| `Wellness.GatewayStatusIsCaseSensitive` | wellness.py:164-165 | "Completed" is accepted and "completed" is refused |

## Left out

- Telegram handlers, keyboards, conversation states, message text and application wiring (main.py:37-141, 143-300 outside the label mappings, 348-366, 419-444): presentation and I/O.
- The extraction of `status` from each lookup result (`msg.status`, top-level `status`, `data.status`): the mappings take the extracted value as input.
- The `asyncio` executor off-loading of the blocking calls: concurrency plumbing.
- Parsing the limit text with `float()` and `isfinite`: the selector takes the limit as a non-negative real, as that check guarantees.
- `get_pending_withdraws` is not part of this model; the selector takes its ordered rows as input, without the third column the selection ignores.
- `csv.DictReader` text parsing and Python's `float()` of the Amount cell: rows come already split, with the Amount as a parsed number or as "does not parse"; missing columns (a `KeyError`) are not modelled.
- Float arithmetic: amounts and the running total are exact reals, so rounding in the running total is not modelled, and neither are the non-finite values `float()` also accepts ("nan", "inf", "-inf"); a "-inf" amount in the source makes every later row with a finite amount fit the limit (a later "inf" gives nan and is skipped).
- The `init_db` DDL and column migration, the autoincrement `id` column and the connections and commits: the table is a map keyed by the withdraw request id.
- Database.WithdrawStore.InsertWithdraw: CURRENT_TIMESTAMP is a logical clock advanced by each write, so two writes in the same second, which SQLite stamps alike, get distinct stamps here.
- The Wellness request payloads, credentials, URLs and the HTTP call: each guard takes the reply or the transport failure as input; the error message texts are not modelled.
- downloader.py (browser automation) and bappaVenture.py (HTTP wrapper): not part of this model.
- Batch payout creation, status polling, phone and email pools, IFSC lookup and gateway prefix dispatch: these have no code in the modelled files.

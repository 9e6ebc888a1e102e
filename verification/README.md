# NEEDLE-TRACK record store, modelled in Dafny

NEEDLE-TRACK keeps a local table of astronomical transients. Each transient is
keyed by its ZTF `objectId` and holds:

- a properties document, a tag list and a comment list;
- a link to its object page;
- the flags `astronote_status`, `is_followup`, `is_new`, `is_removed` and
  `is_updated`;
- creation and update times.

Batches of alert records are reconciled against the table. Each record is
normalised by `convert_data_scheme` and then upserted by
`add_or_update_transient`, which classifies it as `inserted`, `updated` or
`no_change`. `ingest_data` counts the three outcomes. The table's operations
also comment on an object, mark it removed, and query the table by id, by
tag, by annotation status, or for the update list.

The model treats the SQLite table as an immutable map from `objectId` to a
`Record`. Every SQL statement of `DatabaseManager` becomes a pure transition
or filter over that map. Timestamps are readings `now: nat` of an abstract
clock. Properties are a JSON value compared with `==`.

Modules:

- `Wrappers`: `Option` and `Result`.
- `JsonValue`: the JSON value datatype.
- `SqlLike`: SQLite's `LIKE` operator. It has the `%` and `_` wildcards,
  ASCII-only case folding and no escape character.
- `TagJson`: how a tag list is stored, i.e. Python's `json.dumps` of a list
  of strings with `ensure_ascii` escaping.
- `RecordStore`: the table and the `DatabaseManager` operations.
- `StoreProperties`: properties relating several operations.
- `Ingestion`: `convert_data_scheme` and `ingest_data`, both as a recursive
  fold and as the counting loop.
- `IngestionProperties`: what one or two ingestions do to the table and to
  the report.
- `Session`: sequences of reset / ingest / comment / remove operations, and
  the invariant they keep.
- `Findings`: the properties-normalisation discrepancy at `run.py:164`, as
  written and corrected.

The program normalises as written: properties are the popped `objectId`
value, not the rest of the document. The model follows the code here. As a
result, for records whose `objectId` is a JSON string (the only ones the
model accepts):

- Every stored row's properties equal its own identifier.
- An already stored object is always `no_change`.
- The update list stays empty.

The program's own docstrings describe a different normalisation.
`add_or_update_transient` expects `properties` to be a dict (run.py:67), and
`ingest_data` says it compares properties and updates the row when they differ
(run.py:176-177). That normalisation is modelled alongside as
`Scheme.Intended`, so the two can be compared. Under the code a changed
magnitude is reported as `no_change`, and the model follows the code (see
Findings).

## Model

| member | source | states |
|---|---|---|
| RecordStore.Initialize | run.py:36-40 | Dropping and recreating the table leaves no row at all |
| RecordStore.Upsert | run.py:62-100 | Returns `inserted` exactly when the id is absent. Returns `no_change` exactly when it is present with equal properties, and then the table is untouched. An insert adds one row: given properties, tags `[]`, comments `[]` and link `""` by default, created and updated at `now`, `is_new` set, other flags clear (column defaults at run.py:48-53). An update rewrites only properties, tags (default `[]`) and link (default `""`), sets `is_updated` and `updated_at`, and keeps comments, creation time and the other flags. No other row changes. Well-formedness is kept |
| RecordStore.MarkRemoved | run.py:102-110 | On a stored id: sets `is_removed` and `updated_at` and changes nothing else in that row or any other. On an absent id: the table is unchanged |
| RecordStore.AddComment | run.py:112-130 | Returns true iff the id is stored; on false the table is unchanged. On true: exactly one `{text, now}` entry is appended after the earlier comments, which keep their order; `updated_at` becomes `now`; nothing else changes |
| RecordStore.SearchById | run.py:132-135 | Finds a row iff the id is stored, and it is the stored row, carrying that id |
| RecordStore.SearchByTag | run.py:137-143 | The result is a subset of the table's rows. The `LIKE` test it applies is `SqlLike.Like`, whose wildcard, case-folding and no-escape behaviour the SqlLike rows state; the exact characterisation of the search is in the StoreProperties rows |
| RecordStore.SearchByAstronote | run.py:145-149 | Exactly the rows whose annotation status equals the argument |
| RecordStore.SearchUpdates | run.py:151-154 | Exactly the rows flagged as updated |
| TagJson.SerializeTags | run.py:80 | The stored tag text is a JSON array: it opens with `[` and closes with `]` |
| TagJson.PlainTagSerialized | run.py:93 | A tag free of characters JSON escapes appears verbatim in the stored tag text |
| SqlLike.PercentMatchesAll | run.py:142 | The pattern `%` matches every text |
| SqlLike.ContainsIsFoldedInfix | run.py:142 | For an argument without `%` or `_`, `LIKE '%t%'` holds iff the text contains the argument, ignoring ASCII case |
| SqlLike.InfixMatchesContains | run.py:142 | Any text containing the argument verbatim matches `'%' + t + '%'`, wildcards or not |
| StoreProperties.UpsertIdempotent | run.py:74-89 | Upserting the same record a second time reports `no_change` and leaves the table as the first upsert left it |
| StoreProperties.UpsertThenSearchById | run.py:62-100 | After an upsert, search by id finds the row and it holds the incoming properties |
| StoreProperties.UpsertSize | run.py:90-100 | Only `inserted` grows the table, and by exactly one row |
| StoreProperties.UpsertAndUpdateList | run.py:81-87 | An `updated` row is on the update list; a freshly inserted row is not |
| StoreProperties.MarkRemovedTwice | run.py:102-110 | Marking twice equals marking once at the later time |
| StoreProperties.MarkRemovedThenSearchById | run.py:102-110 | Removal is soft: the row is still found, flagged removed, with its comments |
| StoreProperties.CommentsKeepOrder | run.py:112-130 | Two comments in a row are appended in the order they were added |
| StoreProperties.SearchByTagFindsVerbatim | run.py:137-143 | A row whose stored tag text contains the argument verbatim is returned |
| StoreProperties.SearchByTagFindsTag | run.py:137-143 | A row holding a plain tag is returned when that tag is searched for |
| StoreProperties.SearchByTagIsSubstringSearch | run.py:137-143 | For an argument without `%`/`_`: exactly the rows whose stored tag text contains the argument, ignoring ASCII case |
| StoreProperties.SearchByBracketReturnsAll | run.py:137-143 | Searching for `[` returns every row: the match is over the serialised text, not over tags |
| Ingestion.LinkRoundTrip | run.py:165 | The link `https://lasair-ztf.lsst.ac.uk/objects/<id>/` decodes back to the identifier |
| Ingestion.ConvertDataScheme | run.py:159-166 | A record without `objectId` fails (the KeyError), and it succeeds iff `objectId` is present and text. On success: the identifier is kept, the properties are the popped `objectId` value itself, the link is the object page URL of the identifier, and there are no tags or comments |
| Ingestion.ConvertIntended | run.py:159-166 | Corrected normalisation: fails exactly as above. On success the identifier and link are as above, the properties are an object whose keys are exactly the record's keys other than `objectId`, each holding the record's value unchanged, and there are no tags or comments |
| Ingestion.IngestFrom | run.py:185-194 | The ingestion of the rest of the batch succeeds iff every remaining record normalises, and then the three counts sum to the number of remaining records |
| Ingestion.IngestData | run.py:185-194 | `ingest_data` succeeds iff every record of the batch normalises, and then `inserted + updated + no_change` equals the batch length |
| Ingestion.RunIngest | run.py:185-194 | The counting loop computes the same table and report as the fold, and its counts sum to the batch length |
| Ingestion.IngestFailureNamesRecord | run.py:186-187 | A failed ingestion fails with the error of the first record that does not normalise: every record before it normalises, and the table returned is exactly the one left by upserting those earlier records in order |
| Ingestion.IngestCommitsAll | run.py:186-188 | A completed ingestion returns exactly the table left by upserting every record of the batch in order |
| Ingestion.IngestKeys | run.py:186-188 | Ingestion never drops a row; a completed one adds exactly the identifiers of the batch |
| Ingestion.IngestPreservesWellFormed | run.py:186-188 | Ingestion keeps every row under its own identifier with creation before last update, if the clock has not gone backwards |
| IngestionProperties.InsertedCountsNewIds | run.py:189-190 | The insert count is the number of distinct identifiers of the batch not yet stored |
| IngestionProperties.FirstIngestInsertsAll | run.py:185-194 | Ingesting into an empty table inserts one row per distinct identifier |
| IngestionProperties.AsWrittenNeverUpdates | run.py:164 | With properties equal to identifiers, that stays so, the update count is 0, and every record that does not insert counts as `no_change` |
| IngestionProperties.KnownIdsAreNoChange | run.py:164 | A batch of already stored objects reports inserted 0, updated 0 and no_change equal to its length |
| IngestionProperties.AsWrittenConsistent | run.py:164 | Under the as-written normalisation, records sharing an identifier always normalise to equal properties |
| IngestionProperties.DistinctIdsConsistent | run.py:159-166 | A batch naming each object once is consistent under either normalisation |
| IngestionProperties.IngestKeepsAgreeingRow | run.py:186-188 | A stored row that agrees with every later record of its identifier keeps its properties through ingestion |
| IngestionProperties.IngestReflects | run.py:186-188 | After a completed ingestion of a consistent batch, every record of it is stored under its identifier with its normalised properties |
| IngestionProperties.IngestReflectedIsNoChange | run.py:72-89 | Ingesting records the table already reflects changes nothing and counts them all as `no_change` |
| IngestionProperties.ReingestConsistent | run.py:185-194 | Re-ingesting a consistent batch leaves the table as it was and reports inserted 0, updated 0, no_change equal to the batch length |
| IngestionProperties.ReingestIsNoChange | run.py:185-194 | Running `ingest_data` twice on the same batch: the second report is inserted 0, updated 0, no_change equal to the batch length, and the table is unchanged |
| IngestionProperties.ReingestIntendedIsNoChange | run.py:185-194 | The same with the corrected normalisation, for batches naming each object once |
| Session.IngestKeepsHealthy | run.py:185-194 | Ingestion keeps rows under their identifiers, with identifier properties, no annotation and no update flag |
| Session.StepKeepsHealthy | run.py:102-130 | Reset, ingest, comment and remove each keep that invariant |
| Session.RunKeepsHealthy | run.py:102-130 | Any sequence of those operations keeps it |
| Session.QueriesStayEmpty | run.py:145-154 | From a fresh table and with text identifiers (the only ones the model accepts), every sequence of operations leaves the update list and the annotation query empty, and every row's properties equal its identifier |
| Findings.AsWrittenMissesChange | run.py:164 | A one-record batch naming a stored object reports (0, 0, 1) and leaves the table unchanged, whatever its other fields |
| Findings.IntendedReportsChange | run.py:159-166 | Corrected: such a batch reports (0, 1, 0) iff its measurements differ from the stored ones. Then the row holds the new measurements and is on the update list; otherwise the report is (0, 0, 1) and the table is unchanged |
| Findings.BrighteningIsMissed | run.py:164 | Object `ZTF21aaaaaaa` ingested at magnitude 19.2 and then at 18.9 reports (0, 0, 1) the second time, and the update list is empty |
| Findings.BrighteningIsCaught | run.py:159-166 | With the corrected normalisation the same two sightings report (0, 1, 0) the second time; the row holds magnitude 18.9 and is on the update list |

## Left out

- SQLite itself: connections, `row_factory`, commits, transactions, the internal autoincrement `id` column, and the DDL beyond the column defaults.
- The file opening, `json.load` and report printing of `ingest_data`. The batch arrives as decoded JSON objects.
- The `main` command-line parsing in `run.py`, and `__main__.py` and `setup.py`. `add_tag` and automatic ingestion live in modules not part of this model.
- JSON round-trip fidelity: stored properties, tags and comments are modelled as the values themselves, on the assumption that decoding an encoding gives the value back. Python's `True == 1` equality and floating-point numbers are not modelled; numbers are `real`.
- The `JSONDecodeError` fallback in `add_comment` (run.py:122-123), which fires only on a corrupt stored comment list.
- Wall-clock time and ISO formatting. `add_comment` reads the clock twice; the model uses one reading for both the comment timestamp and `updated_at`.
- Query result order, since no query has an `ORDER BY`. Results are sets of rows.
- Ingestion.ConvertDataScheme: an `objectId` that is not a JSON string is an error in the model. The program behaves in three different ways here. A number or boolean id is bound as is, and the `TEXT` column (run.py:44) stores it as text. An array or object id cannot be bound, so the query at run.py:72 raises. A JSON `null` id is bound as SQL `NULL`, which never matches `WHERE objectId = ?`. Such a record is therefore inserted again on every ingestion, and because `UNIQUE` admits any number of `NULL`s, the table collects duplicate rows. The model does not represent these rows. A numeric or boolean id also meets a stored text id of the same spelling: the bound value takes the column's `TEXT` affinity, so the lookup at run.py:72 finds the row, run.py:77 compares the stored text (for example `"1"`) with the number `1`, and run.py:81-87 takes the update path. The batch `[{"objectId": "1"}, {"objectId": 1}]` thus reports inserted 1, updated 1, and the row appears on the update list, so the results that no record is ever updated and that the update list stays empty hold only for text ids.
- Ingestion.IngestFrom: the whole batch is upserted at one clock reading `now`, while `add_or_update_transient` reads the clock on every call (run.py:71). Only the `created_at`/`updated_at` values depend on this; the counts, keys and properties do not.
- Ingestion.IngestData: a record that raises stops the batch, and the earlier upserts stay written. The model returns that table with the error instead of a report. The exception itself is not modelled.
- RecordStore.SearchByTag: its own contract gives only the subset bound. The exact characterisation, as a case-insensitive substring search over the serialised tag text, is stated by the StoreProperties lemmas for arguments without `%` or `_`.
- Session.Healthy: does not include the creation-before-update ordering, because session commands may carry clock readings in any order.

## Findings

| source | as written | input that shows it | evidently intended | confidence | as-written member | corrected member |
|---|---|---|---|---|---|---|
| run.py:164 | `properties` is set to the value popped for `objectId`, so every stored object's properties are its own identifier | ingest `{"objectId": "ZTF21aaaaaaa", "mag": 19.2}`, then `{"objectId": "ZTF21aaaaaaa", "mag": 18.9}`: the second report is no_change 1 and the update list stays empty | properties are the rest of the document, so a changed measurement is reported as `updated` and flagged | not executed | Findings.AsWrittenMissesChange, Findings.BrighteningIsMissed | Ingestion.ConvertIntended, Findings.IntendedReportsChange, Findings.BrighteningIsCaught |

The rest of the model keeps the as-written normalisation, because that is
what `ingest_data` runs. The generic ingestion lemmas (`IngestKeys`,
`InsertedCountsNewIds`, `IngestReflects`, `ReingestConsistent` and their
helpers) take a `Scheme` parameter and hold for the corrected normalisation
too.

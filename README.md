# DataBASED document store: index maintainer and query engine

DataBASED keeps each database as a directory tree: `databases/<db>/collections/<col>/documents/<name>.json`
holds one JSON document. Release 1.0.5 (`src/functions.js`) also keeps one index file per
(collection, property) under `indexing/databases/<db>/collections/<col>/<property>.json`. An index file maps
a timestamp key to an entry `{ key, value, document }`. `setDoc`, `updateDoc` and `deleteDoc` keep those
files in step with the documents, and `query` answers a `where(property, operator, value)` condition by
scanning the index of that property. Release 1.0.0 (`src/index.js`) has no index: its `query` reads every
document of the collection.

This project models both releases in Dafny:

- **`Results`**: the `Option` and `Result` types. The named errors of the store appear as `Error` constructors, one for each message text of the source. A raw `ENOENT` becomes `NoSuchFile(syscall, path)`.
- **`Json`**: document values (integers, strings, booleans), documents as maps, the object-spread merge of `updateDoc`, and JavaScript's `<` on strings (code-unit order).
- **`Conditions`**: `where`, `limit`, and the six comparison operators of `checkWhereCondition`.
- **`Paths`**: the `path.join` layout and the `endsWith` / `includes` tests. The error handlers use these tests to decide which segment of a path was missing.
- **`IndexFile`**:
  - an index file as a sequence of `(stamp, entry)` pairs in insertion order;
  - the re-index step of `setDoc` and `updateDoc`: delete the first entry for the document, then assign `Date.now()`;
  - the drop step of `deleteDoc`.
- **`Disk`**:
  - the store as a value (`Store`);
  - `class FileSystem`, whose fields the operations update;
  - the container checks shared by every operation;
  - `getDoc`.
- **`DataBased`**: release 1.0.5. `setDoc`, `updateDoc` and `deleteDoc` are methods on `FileSystem`; each is proved to leave the state given by a specification function. `query` and `getCollection` are loops, proved equal to a specification function.
- **`DataBasedLegacy`**: release 1.0.0. `query` is a directory scan with a loop over each document's keys. It also has `setDoc`, `deleteDoc`, `getCollection` and `getDoc`.
- **`DataBasedProperties`**, **`DataBasedConsistency`**, **`LegacyProperties`**: the lemmas.
  - Round trips.
  - The per-document index invariant.
  - The collection-wide invariant: every entry is current and every property of every document is indexed exactly once.
  - Query results equal reference definitions.
  - Limit bounds.
  - Error classification.
  - A comparison of the two releases.

`Date.now()` is a `stamp` argument; the lemmas about the index assume it is not already a key of the file
(`FreshStamp`). The order `readdir` lists a directory in is a `listing` argument. The callbacks that
`Promise.all` runs are modelled one after the other, in key or listing order.

Some behaviours of the code are easy to miss. Each of them is proved:

- Release 1.0.5's `deleteDoc` reads the document before unlinking it (`src/functions.js:390-391`). So a second delete of the same document fails with `ENOENT` (`LegacyProperties.DeleteDocTwiceFails`). Release 1.0.0's `deleteDoc` is idempotent (`LegacyProperties.LegacyDeleteDocIdempotent`).
- A 1.0.5 query on a property that was never indexed has no index file to read. The `ENOENT` handler returns `[]` for it only when its database and collection tests do not match the index path first (`src/functions.js:62-69`, `DataBasedProperties.QueryMissingIndex`). In a database named `json` the index path ends with the database name, so the query reports a missing database (`DataBasedProperties.QueryMissingIndexInJsonDatabase`).
- The handler's `documents` branch (`src/functions.js:66-67`) is dead code. Every path the 1.0.5 `query` can fail on ends with the database name, the collection name, `<property>.json` or `<document>.json` (`DataBasedProperties.QueryNeverReportsNoDocuments`).
- A matching index entry whose document file is missing, when neither the database nor the collection name ends that file's path, makes the 1.0.5 `query` return `[]` if the path ends with `<property>.json`, for instance when the document is named like the queried property. Otherwise the query throws an error with an empty message, modelled as `Unnamed` (`DataBasedProperties.QueryMissingDocument`).
- `setDoc` replaces a document without touching the index files of the properties the new content drops, so their entries go stale (`DataBasedConsistency.SetDocLeavesStaleEntry`). `updateDoc` and `deleteDoc` keep every entry current (`DataBasedConsistency.UpdateDocKeepsConsistent`, `DataBasedConsistency.DeleteDocKeepsConsistent`).
- A `limit` of `0` means "no limit" in the 1.0.5 `query`, because the check is `if (limit)` (`DataBasedProperties.QueryLimitZero`). Both versions of `getCollection` and the 1.0.0 `query` compare with `i === limit`, so there `limit(0)` returns nothing (`DataBasedProperties.GetCollectionReadsListing`, `LegacyProperties.LegacyQueryMatchesReference`).

## Model

| member | source | states |
|---|---|---|
| Json.Merge | src/functions.js:294-297 | the merged document has the union of both key sets; the update's value wins on every key it has; every other stored value is kept |
| Json.StrLessTrichotomy | src/functions.js:91-98 | string `<` is irreflexive and asymmetric, and any two distinct strings are ordered one way |
| Json.StrLessTransitive | src/functions.js:91-98 | string `<` is transitive |
| Json.LessTrichotomy | src/functions.js:91-98 | on two values of one type, `<` is a strict total order |
| Json.LessTransitive | src/functions.js:91-98 | value `<` is transitive |
| Conditions.Where | src/functions.js:105-111 | the condition carries exactly the given property, operator and value (identical in release 1.0.0, `src/index.js:98-104`) |
| Conditions.Limit | src/functions.js:114-120 | succeeds exactly on a number and returns it unchanged; anything else is `InvalidLimit` (identical in release 1.0.0, `src/index.js:107-113`) |
| Conditions.Evaluate | src/functions.js:86-101 | fails exactly when the operator is not one of the six, naming that operator |
| Conditions.OperatorsAgree | src/functions.js:87-98 | `!=` negates `==`; on one type, `>=` negates `<`, `<=` negates `>`, and exactly one of `<`, `==`, `>` holds |
| Conditions.CrossTypeOnlyDiffer | src/functions.js:87-98 | comparing values of different types only ever satisfies `!=` |
| Paths.PathsContainDatabase | src/index.js:22-24 | every path built for a query contains the database name, which the 1.0.0 error handler tests with `includes` |
| Paths.PathsEndWithSegment | src/functions.js:22-25 | the database, collection, documents and document paths end with the segment their error branch tests |
| Disk.CheckContainers | src/functions.js:169-195 | `Ready` exactly when the database, collection and documents directories all exist; a missing database is reported as such; a missing collection is reported as the database when its path ends with the database name |
| Disk.Classify | src/functions.js:177-184 | an `ENOENT` path is classified by `endsWith`, database first, then collection, and is never `Ready` |
| Disk.ClassificationByName | src/functions.js:374-380 | the name tests can misreport: a collection `myshop` of database `shop` is reported as a missing database |
| Disk.GetDocAt | src/functions.js:123-161 | with existing containers: absent document gives `exists() == false`, blank file gives a parse error, otherwise the stored data; a missing database or collection gives its named error unless the path ends with `<name>.json`; every input has one of these outcomes, so the raw rethrow of `src/functions.js:155` is never reached |
| Disk.NonEmpty | src/functions.js:57 | the empty-object filter drops an empty document and keeps a non-empty one unchanged |
| IndexFile.DropFirstReference | src/functions.js:220-226 | the loop deletes exactly the first entry that refers to the document, and changes nothing when none does |
| IndexFile.RemoveAtFirstRef | src/functions.js:220-226 | removing the first reference cuts out exactly position `i`, the first entry for the document |
| IndexFile.NoRefsNoRemoval | src/functions.js:425-431 | a file with no entry for the document has count zero, and the drop loop leaves it unchanged |
| IndexFile.RemoveFirstRefSpec | src/functions.js:425-431 | the drop lowers the document's count by one (if any), keeps every other entry in order, and keeps keys distinct |
| IndexFile.RemoveFirstRefKeepsOthers | src/functions.js:425-431 | the drop only removes entries, and the reference counts of all other documents stay the same |
| IndexFile.RemoveOnlyRef | src/functions.js:425-431 | when the document was referenced at most once, no entry for it remains after the drop |
| IndexFile.AssignFresh | src/functions.js:229-233 | assigning a fresh timestamp key appends the entry at the end |
| IndexFile.AssignKeys | src/functions.js:229-233 | assignment keeps keys distinct and adds exactly the new stamp to the key set |
| IndexFile.ReindexedSpec | src/functions.js:220-235 | re-indexing with a fresh stamp is the first-reference drop followed by the new entry; the count for the document becomes at least one, other documents' entries are kept, keys stay distinct, and a document indexed at most once ends with exactly the new entry |
| IndexFile.ReindexedOthers | src/functions.js:323-338 | after re-indexing, every entry is the new one or an old entry of another document, and other documents' counts are unchanged |
| IndexFile.CollidingStampLosesEntry | src/functions.js:229-233 | when `Date.now()` repeats a key, the new entry overwrites another document's entry, which is lost from the index |
| IndexFile.OnlyFirstReferenceRemoved | src/functions.js:220-226 | with two entries for one document, only the first is deleted before the new one is added |
| DataBased.CheckWhereCondition | src/functions.js:81-102 | an entry for another property never matches; an error occurs exactly for the entry's own property with an unknown operator; otherwise the operator decides |
| DataBased.IndexProperties | src/functions.js:204-250 | the index map becomes the specification `WriteIndexes` of every property; the properties whose index file was missing are reported |
| DataBased.DropReferences | src/functions.js:410-442 | the index map becomes `DropIndexes` of the document's properties; the properties without an index file are reported |
| DataBased.SetDoc | src/functions.js:164-251 | the new store is `SetDocState` of the old one: containers checked, `documents` created if missing, document written, every property re-indexed; the outcome is the container error, the failure to create an index file whose directory is missing, or success |
| DataBased.UpdateDoc | src/functions.js:254-358 | the new store is `UpdateDocState`: the stored document merged with the update (or the update alone), then the update's properties re-indexed; a missing index file fails with `ENOENT` after it is created |
| DataBased.DeleteDoc | src/functions.js:361-443 | the new store is `DeleteDocState`: a blank document is refused, a missing one fails on read, otherwise the file is unlinked and its references are dropped; a missing index file is `NoIndexReference` |
| DataBased.Query | src/functions.js:21-77 | the loop returns exactly `QueryResult`: containers and index file checked, entries scanned in order, matches read, at most `limit` kept |
| DataBased.GetCollection | src/functions.js:446-501 | the loop returns exactly `GetCollectionResult`: the limit is checked before each read; a missing file ends in `undefined` |
| DataBasedProperties.SetDocThenGetDoc | src/functions.js:123-251 | after `setDoc`, `getDoc` returns exactly the document written |
| DataBasedProperties.WriteIndexesWellFormed | src/functions.js:204-250 | index writes only go to existing index directories and keep keys distinct |
| DataBasedProperties.WritesKeepWellFormed | src/functions.js:164-443 | `setDoc`, `updateDoc` and `deleteDoc` preserve store well-formedness |
| DataBasedProperties.UpdateDocStoresMerge | src/functions.js:287-306 | `updateDoc` stores the merge (or the update when absent), leaves every other document unchanged, and touches no index file outside the update's properties |
| DataBasedProperties.UpdateDocCreatesIndexThenFails | src/functions.js:341-356 | a missing index file is created with the single new entry, yet the call still fails with the `stat` error |
| DataBasedProperties.ReindexRefersOnce | src/functions.js:220-235 | with a fresh stamp, the re-indexed file refers to the document exactly once, with its new value |
| DataBasedProperties.WriteIndexesRefersOnce | src/functions.js:204-250 | after indexing a document, every property's file refers to it once with the current value; no file refers to it twice; other files are untouched |
| DataBasedProperties.SetDocKeepsIndexed | src/functions.js:164-251 | `setDoc` preserves the per-document index invariant |
| DataBasedProperties.UpdateDocKeepsIndexed | src/functions.js:254-358 | `updateDoc` preserves the per-document index invariant |
| DataBasedProperties.DeleteDocCleansUp | src/functions.js:361-443 | after `deleteDoc` the file is gone and no index of its properties refers to it |
| DataBasedProperties.CapCons | src/functions.js:41-43 | below the bound, capping keeps the head and caps the rest with one more counted |
| DataBasedProperties.MatchingTail | src/functions.js:45 | the matching names of a suffix are the head's match followed by the matches of the rest |
| DataBasedProperties.QueryScanFetches | src/functions.js:38-57 | when every match exists, the scan yields the documents of the matching names, capped, in index order |
| DataBasedProperties.QueryMatchesReference | src/functions.js:21-57 | `query` returns the documents referenced by the matching entries, in index order, capped by the limit |
| DataBasedProperties.QueryScanBounded | src/functions.js:41-43 | a scan with a positive limit yields at most the remaining allowance |
| DataBasedProperties.QueryRespectsLimit | src/functions.js:41-43 | with a positive limit, a successful query returns at most that many documents |
| DataBasedProperties.QueryScanLimitZero | src/functions.js:41 | a scan with limit 0 is the scan with no limit |
| DataBasedProperties.QueryLimitZero | src/functions.js:41 | `query` with limit 0 equals `query` with no limit |
| DataBasedProperties.QueryScanUnsupported | src/functions.js:45 | with an unknown operator the scan fails exactly when some entry is for the queried property |
| DataBasedProperties.QueryUnsupportedOperator | src/functions.js:99-100 | with an unknown operator, `query` fails exactly when the index has an entry for the property, and returns `[]` otherwise |
| DataBasedProperties.QueryMissingIndex | src/functions.js:68-69 | a missing index file gives `[]` when neither the database nor the collection name ends its path |
| DataBasedProperties.JsonPathNeverNoDocuments | src/functions.js:66-67 | the `ENOENT` handler never reports "no documents" for a path ending in `.json` |
| DataBasedProperties.QueryNeverReportsNoDocuments | src/functions.js:59-73 | no store and no condition make the 1.0.5 `query` report "no documents": that branch is dead |
| DataBasedProperties.QueryMissingDocument | src/functions.js:44-47 | a first matching entry whose document file is missing gives `[]` when the file's path ends with `<property>.json` (in particular when the document is named like the property) and `Unnamed` otherwise |
| DataBasedProperties.QueryMissingIndexInJsonDatabase | src/functions.js:62-69 | a missing index in a database named `json` is reported as a missing database |
| DataBasedProperties.MatchingMembers | src/functions.js:45 | a name is matched exactly when some entry for it satisfies the condition |
| DataBasedProperties.MatchingCount | src/functions.js:45 | a name is matched no more often than it is referenced |
| DataBasedProperties.ConsistentMatching | src/functions.js:21-57 | on a consistent collection the matched names are exactly the documents that satisfy the condition, each once |
| DataBasedProperties.QueryOnConsistentStore | src/functions.js:21-57 | on a consistent collection `query` returns the satisfying documents, each once, capped by the limit |
| DataBasedProperties.CollectionScanFetches | src/functions.js:480-493 | when every listed file exists, the scan yields the listed documents, capped, in listing order |
| DataBasedProperties.GetCollectionReadsListing | src/functions.js:446-501 | `getCollection` returns the listed documents up to the limit, and nothing for limit 0 |
| DataBasedProperties.FetchMembers | src/functions.js:57 | the documents read from a list of names are exactly the non-empty parsed documents among them |
| DataBasedProperties.FetchLength | src/functions.js:57 | over distinct names, one document is read per non-empty parsed document |
| DataBasedProperties.GetCollectionReturnsCollection | src/functions.js:446-501 | with no limit and a listing of the whole collection, `getCollection` returns every non-empty document of the collection and nothing else, one result per document |
| DataBasedProperties.CollectionScanBounded | src/functions.js:481-483 | the scan yields at most the remaining allowance |
| DataBasedProperties.GetCollectionRespectsLimit | src/functions.js:481-483 | a successful `getCollection` returns at most `limit` documents |
| DataBasedConsistency.AbsentIsIndexed | src/functions.js:220-226 | in a consistent collection no index refers to a document that does not exist, so such a document satisfies the index invariant |
| DataBasedConsistency.EntriesStayCurrent | src/functions.js:220-235 | entries of other documents stay current when only one document and its entries change |
| DataBasedConsistency.RefersOnceCarriesOver | src/functions.js:220-235 | a document's single current entry survives an edit that keeps its count and its entries |
| DataBasedConsistency.WriteIndexesAt | src/functions.js:204-250 | after indexing, each index file is the re-indexed old file for the document's properties and unchanged otherwise |
| DataBasedConsistency.WrittenEntriesCurrent | src/functions.js:308-357 | after a write whose stored document agrees with the indexed values, every entry of the collection is current |
| DataBasedConsistency.WriteKeepsOthersIndexed | src/functions.js:204-250 | indexing one document keeps every other document indexed |
| DataBasedConsistency.UpdateDocKeepsConsistent | src/functions.js:254-358 | `updateDoc` keeps the collection consistent |
| DataBasedConsistency.SetDocKeepsConsistent | src/functions.js:164-251 | `setDoc` keeps the collection consistent when the new content keeps every old property |
| DataBasedConsistency.SetDocLeavesStaleEntry | src/functions.js:204-250 | a property dropped by `setDoc` keeps its old entry, so the collection is no longer consistent |
| DataBasedConsistency.DroppedEntriesCurrent | src/functions.js:410-442 | after the reference drop, the remaining entries are all current |
| DataBasedConsistency.DeleteDocKeepsConsistent | src/functions.js:361-443 | `deleteDoc` keeps the collection consistent |
| DataBasedConsistency.DeleteKeepsOthersIndexed | src/functions.js:410-442 | dropping one document's references keeps every other document indexed |
| DataBasedLegacy.GetDoc | src/index.js:116-154 | with existing containers: an absent document gives `exists() == false`, a blank file a parse error, otherwise the stored data |
| DataBasedLegacy.CheckWhereCondition | src/index.js:74-95 | a field with another name never matches; an error occurs exactly for the queried field with an unknown operator; otherwise the operator decides |
| DataBasedLegacy.DocMatches | src/index.js:45-53 | a document matches exactly when some field satisfies the condition, and fails exactly when some field errs |
| DataBasedLegacy.MatchDocument | src/index.js:45-53 | the key loop computes exactly `DocMatches` |
| DataBasedLegacy.Query | src/index.js:21-70 | the loop returns exactly `QueryResult`: containers checked, documents read in listing order, matches kept up to the limit |
| DataBasedLegacy.SetDoc | src/index.js:157-196 | the new store has the documents directory created when missing and the document written; the outcome is the container error or success |
| DataBasedLegacy.DeleteDoc | src/index.js:199-238 | the new store lacks the document when the containers exist; a missing document is not an error |
| DataBasedLegacy.GetCollection | src/index.js:241-296 | the loop returns exactly `GetCollectionResult`: each file is read before the limit check |
| LegacyProperties.NoEntryNamesDatabase | src/index.js:60-63 | every path the 1.0.0 query can fail on contains the database name, so the handler reports a missing database |
| LegacyProperties.ScanNeverReportsCollection | src/index.js:59-69 | the document scan never reports a missing collection |
| LegacyProperties.QueryReportsMissingDatabase | src/index.js:59-69 | the 1.0.0 query never reports a missing collection; a missing database, collection or documents directory is all reported as a missing database |
| LegacyProperties.LegacyScanFetches | src/index.js:34-58 | when every listed file exists, the scan yields the selected documents, capped, in listing order |
| LegacyProperties.LegacyQueryMatchesReference | src/index.js:21-58 | the 1.0.0 query returns the listed documents that match, capped by the limit; limit 0 returns nothing |
| LegacyProperties.LegacyQueryReturnsMatching | src/index.js:21-58 | with no limit and a listing of the whole collection, the 1.0.0 query returns every non-empty document that satisfies the condition and nothing else |
| LegacyProperties.SelectedMembers | src/index.js:45-53 | a name is selected exactly when it is listed, its file parses, and some field matches |
| LegacyProperties.EntryAgreesWithScan | src/functions.js:81-102 | judging a document's field through an index entry agrees with the 1.0.0 field scan |
| LegacyProperties.VersionsSelectAlike | src/index.js:45-53 | on a consistent collection, the 1.0.5 index and the 1.0.0 scan select the same documents |
| LegacyProperties.LegacySetDocThenGetDoc | src/index.js:157-196 | after the 1.0.0 `setDoc`, `getDoc` returns the document written |
| LegacyProperties.LegacyDeleteDocIdempotent | src/index.js:228-237 | a second 1.0.0 delete changes nothing and has the same outcome; a successful delete removes the document |
| LegacyProperties.DeleteDocTwiceFails | src/functions.js:390-391 | in release 1.0.5 a second delete of a document fails when reading the missing file |
| LegacyProperties.LegacyCollectionScanFetches | src/index.js:275-288 | when every listed file exists, the scan yields the listed documents, capped, in listing order |
| LegacyProperties.LegacyGetCollectionReadsListing | src/index.js:241-296 | `getCollection` returns the listed documents up to the limit |
| LegacyProperties.LegacyGetCollectionReturnsCollection | src/index.js:241-296 | with no limit and a listing of the whole collection, the 1.0.0 `getCollection` returns every non-empty document and nothing else, one result per document |
| LegacyProperties.LegacyCollectionScanBounded | src/index.js:280-282 | the scan yields at most the remaining allowance |
| LegacyProperties.LegacyQueryScanBounded | src/index.js:41-50 | the 1.0.0 query scan adds at most the remaining allowance, and aborts only with an error |
| LegacyProperties.LegacyQueryRespectsLimit | src/index.js:41-50 | a successful 1.0.0 query returns at most `limit` documents |
| LegacyProperties.LegacyGetCollectionRespectsLimit | src/index.js:280-282 | a successful 1.0.0 `getCollection` returns at most `limit` documents |
| LegacyProperties.LimitCheckedBeforeRead | src/index.js:276-282 | release 1.0.0 reads a file before checking the limit, so a blank file fails even with limit 0; release 1.0.5 checks first and returns nothing |

## Left out

- Concurrency: the `Promise.all` callbacks are modelled one after the other, in key or listing order. In the source they interleave at every `await`. In the 1.0.5 `query` every callback checks the limit before any of them increments the counter, so there the limit does not actually truncate. Release 1.0.5 `getCollection` has the same problem.
- DataBased.Query: when several callbacks fail, the model reports the first failure in index order. `Promise.all` rejects with whichever fails first in time.
- DataBased.SetDoc: when several properties' index files cannot be written, the outcome allows the error of any one of them. The model does not say which one `Promise.all` reports first. `DataBased.UpdateDoc` and `DataBased.DeleteDoc` are stated the same way.
- Races between concurrent writers on one index file: these are lost updates caused by interleaving, which the sequential model does not represent.
- `Date.now()` is the `stamp` argument. Successive calls within one operation share that one stamp. The index lemmas assume it is fresh.
- JSON text: the pretty-printed format, `JSON.parse` errors on non-blank invalid text, and `null`, floating-point numbers, arrays and nested objects as values. A file is either blank or holds parsed data.
- DataBased.SetDoc: the `console.error` branch at `src/functions.js:247` (a non-`ENOENT` error while indexing a property) is left out. The model has no such errors to swallow.
- Failures of `mkdir`, `writeFile` and `unlink` other than `ENOENT`: they propagate unchanged in the source, and the model has no such failures.
- `path.join` normalisation: names that are empty or contain `/` or `..` are not modelled (an empty database name, for instance, makes `path.join` name the databases directory itself).
- JavaScript's loose coercions: comparing a number with a string, or any two values of different types, is `false` for every operator but `!=`.
- Strings compare by Dafny `char`. JavaScript compares UTF-16 code units, which differ only for characters outside the Basic Multilingual Plane.
- Property order inside a document (`Object.keys` order). It only orders the index callbacks, which the model treats as a set.
- Error message texts: each becomes an `Error` constructor carrying the names it mentions.
- The `commands/` scripts (create database, create collection, backup) are not part of this model.

# IBGE bronze/silver pipeline: a Dafny model of the publish protocol

The pipeline has two jobs. The **bronze writer** fetches the list of Brazilian states from a public API. It writes the reply as one immutable JSON object under a dated key, `bronze/api/data=<YYYYMMDD>/ibge-uf_<YYYYMMDD_HHMMSS>.json`, in the bucket `datalake`. The **silver job** does four things:

1. It resolves the newest bronze snapshot. This means taking the greatest `data=YYYYMMDD` folder and, inside it, the `.json` object with the latest modification time.
2. It has Spark turn that snapshot into Parquet in a local directory.
3. It strips Spark's completion markers from that directory.
4. It republishes the directory under `silver/ibge_uf/`: first it deletes everything under the prefix, then, only when the delete reported no error, it uploads every local file to `prefix + relative path`.

The model has these parts:

- **Object store.** `Store.ObjectStore` is a class that holds buckets, a map from (bucket, name) to stored objects, and the log of calls the jobs make. Faults are fixed at construction, each independently of the others: the store can be offline; `bucket_exists` and `make_bucket` can fail together, or `make_bucket` alone; recursive listings can fail; puts of chosen objects and deletes of chosen objects can be refused.
- **Resolver.** `Resolver.FindLatestJson` is a method whose two loops are the methods `CollectTokens` and `LatestJson`. It is proved against the predicates `IsGreatest`, `IsFirstLatest` and `Resolves`. The store's non-recursive listing is a parameter: a function from prefix to a sequence of `(name, lastModified)` entries, in the order the store returns them.
- **Bronze writer.** `Bronze.Run` is the writer's `main`. It builds the key from two separate clock readings by zero-padded formatting (`Bronze.ObjectName`, built on `Decimal.Pad`). Two things are proved: the key has its exact shape and field values, and every key the writer makes has the form the resolver recognises, in the folder it lists for that date (`Interop`).
- **Silver job.** `Silver.Run` is the silver job's `main`. The local output directory is the class `Silver.LocalDir`: its files and the order `os.walk` visits them. The marker loop, `remove_prefix` and `upload_directory` are methods. The store after an upload is tied to the recursive function `Silver.Uploaded`, and the publish properties are proved about that function: prefix convergence, untouched keys outside the prefix, a partial upload never mixing old and new content, and idempotence.
- **Scenarios.** `Scenarios` proves what the resolver returns on small concrete listings.

Exceptions the source raises or catches are modelled as result values: `Result`, `ResolveError`, `SilverError` and `WriterOutcome`.

Where the code and the design disagree, the model follows the code:

- **Ties.** The design breaks a tie on last-modified time by the greater key. The code keeps the first entry listed, because its comparison is a strict `>`.
- **Status codes.** The design calls any non-2xx status a fetch failure. `raise_for_status` raises only for codes 400 to 599.

## Model

| member | source | states |
|---|---|---|
| Text.HasPrefix | src/silver_ibge.py:86 | `s` starts with `p`, the test a prefix listing applies to each name; `NamesUnder` and `FolderNamesCarryToken` state what it selects |
| Text.HasSuffix | src/silver_ibge.py:64 | `s.endswith(x)`; `JsonTestReadsSuffix` states what the `.json` test reads |
| Text.LexLe | src/silver_ibge.py:59 | Python's `str <=`: code-point order, a prefix before its extensions; `LexLeTotal`, `LexLeAntisymmetric`, `LexLeTransitive` and `LexLeSharedPrefix` state its properties |
| Text.LexLeTotal | src/silver_ibge.py:59 | Python's `str` order is total: any two strings compare one way or the other |
| Text.LexLeAntisymmetric | src/silver_ibge.py:59 | two strings each `<=` the other are equal, so `max` of a set of dates is a single string |
| Text.LexLeTransitive | src/silver_ibge.py:59 | `str` order is transitive, which is what lets a running maximum be the maximum of the whole set |
| Text.LexLeSharedPrefix | src/silver_ibge.py:59 | prefixing both strings with the same text keeps their order |
| Text.Lower | src/silver_ibge.py:64 | `lower()` keeps the length of the name |
| Text.Slashes | src/silver_ibge.py:103 | `.replace("\\", "/")` keeps the length of the path; `SlashesNormalises` and `SlashesPreimage` state what it does to the characters |
| Text.SlashesNormalises | src/silver_ibge.py:103 | after `.replace("\\", "/")` no backslash is left, and a path without backslashes is unchanged |
| Text.SlashesPreimage | src/silver_ibge.py:103 | the only path that the replacement maps to a slash-free string is that string itself |
| Decimal.Pad | src/bronze_ibge.py:36-37 | a zero-padded field has exactly its width, all of it digits |
| Decimal.PadValue | src/bronze_ibge.py:36-37 | a zero-padded field reads back as the number it was made from, when the number fits its width |
| Decimal.ValueConcat | src/bronze_ibge.py:36-37 | the digits of two adjacent fields read as the first field's value shifted left by the second's width, plus the second |
| Decimal.LexOrderIsNumericOrder | src/silver_ibge.py:59 | for digit strings of the same length, Python's string order is exactly numeric order, in both directions |
| Store.NamesUnder | src/silver_ibge.py:86-87 | a recursive listing under a prefix returns exactly the names in the bucket that start with the prefix |
| Store.ObjectStore.ListBuckets | src/silver_ibge.py:42 | the sanity check succeeds exactly when the store is reachable, and it is logged |
| Store.ObjectStore.BucketExists | src/bronze_ibge.py:43 | when the call succeeds, it answers whether the bucket exists |
| Store.ObjectStore.MakeBucket | src/bronze_ibge.py:44 | the call can fail on its own even when `bucket_exists` works; when it succeeds the bucket is added; nothing else changes |
| Store.ObjectStore.PutObject | src/bronze_ibge.py:49-55 | an accepted put stores the first `length` bytes with the content type given; a refused one changes no object; the call is logged |
| Store.ObjectStore.FPutObject | src/silver_ibge.py:105 | `fput_object` stores the whole file with the default content type, or changes nothing when refused |
| Store.ObjectStore.ListObjects | src/silver_ibge.py:86 | a recursive listing read to the end gives the names under the prefix when the store is reachable, listings work and the bucket exists, and fails otherwise (`NoSuchBucket` for a missing bucket); the call is logged |
| Store.ObjectStore.RemoveObjects | src/silver_ibge.py:89 | the batch delete removes every named object it can and reports exactly the names it could not remove |
| Resolver.MatchDate | src/silver_ibge.py:48-54 | a match captures eight digits that follow `bronze/api/data=` at the start of the name |
| Resolver.MatchDateComplete | src/silver_ibge.py:48-54 | every name starting with `bronze/api/data=` and eight digits matches, whatever follows, and the token is those digits |
| Resolver.FolderPrefix | src/silver_ibge.py:63 | the prefix the second listing asks for, `bronze/api/data=<token>/`; `FolderNamesCarryToken` states what it guarantees |
| Resolver.FolderNamesCarryToken | src/silver_ibge.py:48-63 | every name listed under a date's folder prefix matches the date pattern with that date as its token |
| Resolver.IsJsonName | src/silver_ibge.py:64 | the case-insensitive `.json` test; `JsonTestReadsSuffix` states what it depends on |
| Resolver.JsonTestReadsSuffix | src/silver_ibge.py:64 | only the last five characters of a name decide the `.json` test: they must lower-case to `.json` |
| Resolver.Tokens | src/silver_ibge.py:49-54 | the set of tokens captured from the top-level listing; `TokenShape` states their shape |
| Resolver.CollectTokens | src/silver_ibge.py:49-54 | the first loop collects exactly the tokens of the matching names of the listing |
| Resolver.LatestJson | src/silver_ibge.py:62-66 | the second loop finds a `.json` entry exactly when the folder holds one, and it is the first entry with the greatest last-modified time |
| Resolver.TokenShape | src/silver_ibge.py:52-54 | every collected date token is eight digits |
| Resolver.MaxToken | src/silver_ibge.py:59 | `max(dates)` returns a member of the set that no other member exceeds in string order |
| Resolver.GreatestIsUnique | src/silver_ibge.py:59 | the greatest date token is unique |
| Resolver.FirstLatestIsUnique | src/silver_ibge.py:62-66 | the first `.json` entry with the greatest last-modified time is unique |
| Resolver.FindLatestJson | src/silver_ibge.py:46-71 | fails with no date folder exactly when no listed name matches the pattern; fails with no `.json` file exactly when the greatest folder holds none; otherwise returns the first latest `.json` entry of the greatest folder |
| Resolver.ResolutionIsUnique | src/silver_ibge.py:46-72 | the selection designates at most one object name |
| Resolver.ResolvedFromNewestFolder | src/silver_ibge.py:63-72 | when the store lists only names under the prefix asked for, the resolved name ends in `.json` in any case, and its own date token is the greatest one |
| Bronze.DateToken | src/bronze_ibge.py:36 | `%Y%m%d` is eight digits |
| Bronze.ClockToken | src/bronze_ibge.py:37 | `%H%M%S` is six digits |
| Bronze.Timestamp | src/bronze_ibge.py:37 | `%Y%m%d_%H%M%S` is 15 characters: eight digits that read back as the date, `_`, six digits that read back as the time |
| Bronze.ObjectName | src/bronze_ibge.py:39 | the key is 53 characters between `bronze/api/data=` and `.json`; today's date token sits at 16..24, `/ibge-uf_` at 24..33 and the second reading's timestamp at 33..48 |
| Bronze.DateTokenValue | src/bronze_ibge.py:36 | the date token reads back as the number `year*10000 + month*100 + day` |
| Bronze.ClockTokenValue | src/bronze_ibge.py:37 | the time part reads back as `hour*10000 + minute*100 + second` |
| Bronze.DateTokenOrderIsCalendarOrder | src/bronze_ibge.py:36 | date tokens compare as strings exactly as their days compare on the calendar |
| Bronze.ObjectNameShape | src/bronze_ibge.py:36-39 | the key is 53 characters: `bronze/api/data=`, eight digits, `/ibge-uf_`, eight digits, `_`, six digits, `.json`; each field reads back as its clock reading |
| Bronze.FolderDateMayDifferFromTimestamp | src/bronze_ibge.py:36-37 | the two clock readings can fall on different days, and then the folder date and the timestamp's date differ |
| Bronze.RaisesForStatus | src/bronze_ibge.py:28 | `raise_for_status` raises for exactly the client-error and server-error classes, 4xx and 5xx |
| Bronze.Payload | src/bronze_ibge.py:26-29 | a reply yields a payload only when it arrived, its status does not raise and its body parsed, and then the payload is that body; a 2xx reply always yields its parsed body |
| Bronze.SaveSnapshot | src/bronze_ibge.py:42-55 | the storage step succeeds exactly when the store is reachable, `bucket_exists` works, the bucket exists or `make_bucket` works, and the key is accepted; it creates the bucket only when missing and makes exactly one put of the whole payload as `application/json`; on failure no object changes, and the calls made are fixed for each of the three failures: the bucket check, the bucket creation, the put |
| Bronze.SourceApi.Get | src/bronze_ibge.py:27 | one request returns the API's reply and counts one request |
| Bronze.Run | src/bronze_ibge.py:7-58 | a failed connection makes no request and no other call; a failed fetch or error status makes no bucket call and no put; otherwise the key is the dated name; a run saves exactly when the store is reachable, the reply yields a payload, `bucket_exists` works, the bucket exists or `make_bucket` works, and the key is accepted; a saved run checks the bucket, creates it only when absent, and makes exactly one put of the whole payload as `application/json`; a storage failure writes nothing, is returned rather than raised, and made one of three call sequences: the failed bucket check; the bucket check and the failed bucket creation; or the full bucket-and-put sequence ending in the refused put |
| Interop.LowerKeepsJsonSuffix | src/silver_ibge.py:64 | a name ending in `.json` passes the case-insensitive `.json` test |
| Interop.WriterKeysAreResolvable | src/bronze_ibge.py:36-39 | every key the writer produces matches the resolver's pattern (src/silver_ibge.py:48), captures the folder date, lies in the folder the resolver lists for that date, and passes its `.json` test |
| Interop.LaterDayIsGreatest | src/bronze_ibge.py:36 | of two folders the writer makes, the resolver picks the one of the later day |
| Silver.Keep | src/silver_ibge.py:156-160 | dropping paths keeps exactly the other paths, in order, and keeps them distinct |
| Silver.KeepTwice | src/silver_ibge.py:156-160 | dropping one set of paths and then another is dropping both at once |
| Silver.KeepAbsent | src/silver_ibge.py:157-158 | dropping a path that does not occur changes nothing |
| Silver.LocalDir.RemoveIfExists | src/silver_ibge.py:157-160 | deletes the file when it exists; every other file and the walk order stay |
| Silver.LocalDir.RemoveMarkers | src/silver_ibge.py:156-160 | exactly `_SUCCESS` and `._SUCCESS` are removed when present; every other file stays, in its walk position |
| Silver.KeepMarkers | src/silver_ibge.py:156-160 | dropping the two markers one after the other is dropping both |
| Silver.KeyForShape | src/silver_ibge.py:103-104 | every upload key starts with the destination prefix and has no backslash after it; a path without backslashes is appended as it is |
| Silver.KeyFor | src/silver_ibge.py:103-104 | the key of a local file, `dest_prefix` followed by the slash-normalised relative path; `KeyForShape` states its shape |
| Silver.Uploaded | src/silver_ibge.py:99-105 | the store after putting the walked files in walk order, a later file overwriting an earlier one at the same key; `UploadedFrame` and `UploadedContent` state its properties |
| Silver.UploadedFrame | src/silver_ibge.py:99-105 | an upload adds exactly the keys of the walked files and leaves every other object as it was |
| Silver.UploadedContent | src/silver_ibge.py:99-105 | after an upload each file's key holds one of the files mapped to it, and exactly that file when no two files share a key |
| Silver.Cleared | src/silver_ibge.py:84-89 | the store with every object under the prefix deleted; `RemovePrefix` and `ClearThenUploadConverges` state its role |
| Silver.RemovePrefix | src/silver_ibge.py:81-94 | fails before any delete exactly when the listing fails (store unreachable, listing error, or no such bucket), changing no object; otherwise one batch delete of the names listed under the prefix; success exactly when the listing works and no name is reported; on success the prefix is empty; on failure only the reported names remain under it; no object outside the prefix changes |
| Silver.PutCallsArePuts | src/silver_ibge.py:99-105 | an upload makes one put per walked file, in walk order, of that file's byte length |
| Silver.PublishCallsClearBeforeUpload | src/silver_ibge.py:165-166 | in a publish's calls (the sanity check, the listing, the batch delete, the puts) no delete comes after a put |
| Silver.UploadDirectory | src/silver_ibge.py:96-107 | puts the files in walk order; succeeds exactly when every put is accepted, leaving the uploaded store; otherwise stops at the first refused file, with the files before it uploaded and its put the last call |
| Silver.ClearThenUploadConverges | src/silver_ibge.py:165-166 | after a clear and a full upload, the names under the prefix are exactly the keys of the local files, whatever the prefix held before; nothing outside changes |
| Silver.PartialUploadIsNotMixed | src/silver_ibge.py:165-166 | after a clear and an upload that stopped part-way, the prefix holds only keys of the new files, and nothing outside changes |
| Silver.UploadKeepsAgreement | src/silver_ibge.py:99-105 | the same upload into two stores that agree under the prefix leaves them agreeing there |
| Silver.PublishIsIdempotent | src/silver_ibge.py:165-166 | publishing the same output from any two stores leaves the same objects under the prefix, and publishing twice equals publishing once |
| Silver.NoBackslashMeansDistinctKeys | src/silver_ibge.py:103-104 | relative paths without backslashes never share an upload key |
| Silver.MarkersAreNeverPublished | src/silver_ibge.py:156-160 | after the marker step no upload key is the prefix followed by a marker name |
| Silver.Publish | src/silver_ibge.py:165-166 | the upload runs only when the clear succeeded; a failed listing changes no object; a failed delete removes only the deletable names and leaves the refused ones; otherwise the store is the published one, or a partial upload over the cleared prefix |
| Silver.Run | src/silver_ibge.py:109-171 | no connection means no other call; when the greatest folder holds no `.json` object the run returns the resolution failure, so neither the markers nor the store are touched; otherwise the markers are stripped, then the clear-then-upload publish, whose failed listing, failed delete or failed put is returned as it ended, and success returns the resolved name |
| Scenarios.NineDigitFolderMatches | src/silver_ibge.py:48-54 | `bronze/api/data=202501019/...` matches, with token `20250101` |
| Scenarios.StaleTokens | src/silver_ibge.py:51-54 | the example listing yields the tokens of its two folders |
| Scenarios.NotesAreNotJson | src/silver_ibge.py:64 | a `.txt` object is not a `.json` candidate |
| Scenarios.NewestFolderWithoutJson | src/silver_ibge.py:63-69 | the resolver fails on the newest folder without a `.json` object, although an older folder holds one |
| Scenarios.TieGoesToFirstListed | src/silver_ibge.py:64-66 | of two `.json` objects with the same time, the first listed is returned |

## Left out

- The Spark session, the JSON read, the column casts and the Parquet write are not modelled; `Silver.Run` takes the engine's output as `out`. The download of the snapshot (`fget_object`) and the temporary directory are not modelled either.
- The HTTP request and the JSON decoding become the `Bronze.ApiReply` value: no reply, or a status with the UTF-8 JSON bytes when the body parses.
- Bronze.Run: the re-encoding of the data at src/bronze_ibge.py:46 is folded into the fetch. In the code it runs after `bucket_exists`/`make_bucket`, and its failure (JSON escapes can decode to unpaired surrogates, which UTF-8 cannot encode) lands in the storage `except` at src/bronze_ibge.py:57; a reply that parses as JSON but has no `len()`, such as `42`, already fails at src/bronze_ibge.py:30. The model has neither failure.
- `datetime.now()` becomes two `Bronze.Stamp` inputs. MinIO endpoint, credentials and environment variables take their defaults: bucket `datalake`, prefixes `bronze/api/` and `silver/ibge_uf/`.
- All `print` logging is left out.
- Resolver.FindLatestJson: the listing is a parameter and is not derived from the store's object map, so a listing at src/silver_ibge.py:51 or :63 that raises (a missing bucket, a dropped connection) is not modelled; `Silver.Run` then goes on with whatever its `lister` returns, where the code stops. The model does not capture how the store orders entries, how its delimiter folds names into folders, or the timestamps it assigns.
- Resolver.FindLatestJson: `last_modified` is an integer. Folder entries of a non-recursive listing carry none in the client, but their time is never read.
- Resolver.MatchDate: `\d` is modelled as the ASCII digits; Python 3 also matches other Unicode decimal digits.
- Text.Lower: `str.lower()` is modelled on ASCII letters only.
- Bronze.DateToken: `%Y` is modelled as four zero-padded digits; the C library may not pad years below 1000.
- Store.ObjectStore.RemoveObjects: on an unreachable store it reports every name as an error where the real client raises. `Silver.RemovePrefix` never reaches this case, because its listing fails first on such a store.
- The store's faults are each fixed for the life of the store, so a call cannot succeed once and fail the next time on the same object.
- Silver.RemovePrefix: the client lists and deletes in interleaved batches of up to a thousand names; the model lists everything, then deletes in one batch.
- Silver.Run: a failure of the marker deletion itself (for example a directory named `_SUCCESS`) is not modelled.
- Concurrency between jobs is left out; the code has none.

# webmention.io-backup, modelled in Dafny

webmention.io-backup downloads the webmentions a site received from the
webmention.io API and keeps them as JSON on disk. It asks for everything newer
than the highest id it already holds, one page at a time, until a page comes
back empty. Then it either appends the new records to one file or, with a
content directory, stores each record next to the page it mentions: the
target URL's path, minus a locale prefix such as `en/`, names the directory.
In content-directory mode a record already present in its file is not stored
again; without a content directory every fetched record is appended to the one
file with no such check (main.go:86-89). Two records are the same mention
when their source URLs are equal and their verification timestamps denote the
same instant.

The model covers:

- the page reader and the three on-disk shapes (a bare array, `{"links": …}`,
  and the JF2 feed `{"type": "feed", "name": "Webmentions", "children": …}`);
- the id scan, the identity of a mention, and the page loop;
- the read-merge-write of one record into one file, and the routing of a batch
  into per-page files with a fallback to the content root;
- the URL-to-directory and URL-to-file-name helpers of `internal/path`.

Modules:

- `Json` (`json.dfy`): decoded JSON values and `either`.
- `Failures` (`errors.dfy`): the errors the code reports.
- `UrlPath` (`urlpath.dfy`): `internal/path/path.go`, with the string functions
  of Go's `strings`, `path` and `path/filepath` that it uses. The copy of
  `dirFromUrl`/`trimOne` in `main.go` is the same code and is modelled once.
- `UrlPathCases` (`urlpath_cases.dfy`): the cases of `path_test.go`, and what
  plain character-prefix matching implies.
- `Records` (`records.dfy`): ids, `findLatest` and `sameMention`.
- `Pages` (`pages.dfy`): `parsePage`, the envelope `writeFile` chooses,
  `getNextPage` and `getNew`.
- `Store` (`store.dfy`): `readFile`, `writeFile`, `saveToFile`,
  `saveToContentDir`, `suggestDir`, `saveToDir` and `saveToDirs`.

The file system is a value: a map from path to the decoded document stored
there, or `None` for bytes that are not JSON. The state-changing operations are
methods that take the map and return the new map with the error they report.
Each method's ensures give its result or its new state, most of them as a
specification function, and the lemmas state the properties of those
functions. Four collaborators are parameters:

- `url.Parse(…).Path` is a `UrlParser`;
- `time.Parse(time.RFC3339, …)` is a `TimeParser` giving an instant as an
  integer;
- whether `ioutil.WriteFile` succeeds at a path is `canWrite`;
- the HTTP fetch of one page for a `since_id` and a page number is an
  `Endpoint`.

Four behaviours of the code are easy to misread:

- `getNew` returns the pages it has gathered together with the error of the
  page that failed. It does not discard them.
- A page whose body is an object with neither `links` nor `children`, such as
  an error object from the API, counts as an empty page. The fetch ends there
  and reports no error.
- In `saveToDirs`, a failed write into a routed directory is not an error. The
  record falls back to the content root. Only a failure there stops the batch:
  a refused write, or an empty file name (`NoFilename`, main.go:174-176).
- `suggestDir` reports success for any string target, even one that does not
  parse as a URL. The directory is then empty, so the record goes to the
  content root's own file.

## Model

| member | source | states |
|---|---|---|
| Json.Either | main.go:353-361 | the value of the first key present in the map, and null when none is |
| Pages.ParsePage | main.go:274-294 | fails with "could not parse JSON" exactly when the document does not decode or is neither an object nor an array; an array gives its elements |
| Pages.ParsePageLinksFirst | main.go:282-286 | an object with `links` gives that list, or no records when it is not an array, whatever `children` holds |
| Pages.ParsePageChildren | main.go:282-286 | an object without `links` gives its `children` list, or no records when that is missing or not an array |
| Pages.Envelope | main.go:124-141 | the array itself without a top-level object; in JF2 mode exactly the keys `type` = `"feed"`, `name` = `"Webmentions"` and `children` holding the records; otherwise exactly the key `links` holding the records |
| Pages.EnvelopeRoundTrip | main.go:124-141 | reading back any of the three shapes `writeFile` produces gives exactly the records written |
| Pages.GetNextPageOfEnvelope | main.go:322-328 | a page served in any of the three shapes this program writes yields exactly its records |
| Pages.ObjectWithoutListStops | main.go:281-286 | a page whose body is an object with neither `links` nor `children`, such as an error object from the API, yields no records, so the fetch ends there as if complete and reports no error |
| Pages.EnvelopePageStops | main.go:309-316 | a page served in any of the three shapes this program writes ends the fetch exactly when it holds no records |
| Pages.FirstStopUnique | main.go:308-317 | the first page that fails or comes back empty is unique |
| Pages.GetNew | main.go:296-320 | an unparseable URI gives its error and no records; otherwise the records are the pages up to and including the first that fails or is empty, in order, with that page's error if it failed |
| Pages.GetNewTwoPages | main_test.go:206-241 | a non-empty first page followed by `{"links":[]}` stops at page 1 and gathers exactly the first page |
| Pages.GetNewReturnsFirstPage | main_test.go:233-238 | in that scenario `getNew` returns exactly the first page's records and no error |
| Records.Id | main.go:112-114 | an id is a number found under `id` or, failing that, `wm-id` of an object |
| Records.FindLatest | main.go:110-122 | the result is at least 0, no record's id exceeds it, and it is 0 or the id of some record |
| Records.SameMention | main.go:194-226 | true exactly when both are objects whose sources are equal strings and whose verification dates parse to the same instant |
| Records.SameMentionSymmetric | main.go:194-226 | the relation does not depend on argument order |
| Records.SameMentionReflexive | main.go:194-226 | a record is the same mention as itself exactly when it has a source and a parseable verification date |
| Records.SameMentionTransitive | main.go:194-226 | the relation is transitive |
| Records.SameMentionIgnoresId | main.go:194-226 | two records differing only in their ids are the same mention |
| UrlPath.TrimPrefix | internal/path/path.go:59 | the prefix is removed when present; otherwise the string is unchanged |
| UrlPath.TrimSuffix | internal/path/path.go:34 | the suffix is removed when present; otherwise the string is unchanged |
| UrlPath.TrimmedPath | internal/path/path.go:53-62 | absent exactly when the URL does not parse; otherwise the URL's path without one leading slash |
| UrlPath.TrimOne | internal/path/path.go:43-51 | the result is a suffix of the input |
| UrlPath.TrimOneNoMatch | internal/path/path.go:43-51 | when no prefix strips anything the string is returned unchanged |
| UrlPath.TrimOneFirstMatch | internal/path/path.go:43-51 | the first prefix that strips something is the one removed |
| UrlPath.TrimOneSkipsEmpty | internal/path/path.go:43-51 | an empty prefix anywhere in the list is skipped |
| UrlPath.Dir | internal/path/path.go:18 | "." without a slash, "/" for a slash only at the start, else everything before the last slash |
| UrlPath.DirFromUrl | internal/path/path.go:11-21 | an unparseable URL gives the empty directory |
| UrlPath.ParentDropsLastSegment | internal/path/path.go:17-20 | the directory is ".", empty, or the path with its last segment and a leading slash removed |
| UrlPath.ParentRelative | internal/path/path.go:18-19 | without `//` in the path the directory never starts with a slash |
| UrlPath.DirFromUrlRelative | main.go:237-248 | for a URL path without `//` the directory is relative to the content directory |
| UrlPath.ParentOfTrailingSlash | internal/path/path.go:18-19 | for a path ending in a slash the directory is the path without that slash and one leading slash |
| UrlPath.Ext | internal/path/path.go:33 | a suffix of the name that is empty or starts with its last dot, holding no slash |
| UrlPath.ExtOfDotted | internal/path/path.go:33 | the extension of `stem.ext` is `.ext` |
| UrlPath.Base | internal/path/path.go:32 | never empty; a name without slashes is its own base; a path of slashes only gives `/`; otherwise the final element after trailing slashes are removed: a slash-free suffix preceded by `/` or by nothing |
| UrlPath.LocaleFilenameDropsDirectory | internal/path/path.go:32-36 | a directory part of the file name is dropped: `dir/stem.ext` is tagged as `stem.pref.ext` |
| UrlPath.FirstPrefix | internal/path/path.go:30-31 | absent exactly when no prefix begins the path, else the first that does |
| UrlPath.LocaleFilenameInsertsTag | internal/path/path.go:32-36 | `stem.ext` becomes `stem.pref.ext` |
| UrlPath.FilenameFromUrl | internal/path/path.go:24-41 | empty for an unparseable URL, the file name unchanged when no prefix matches, else the name tagged with the first matching prefix |
| UrlPath.DirFromUrlUnderPrefix | internal/path/path.go:11-21 | a URL whose path is `/pref/d/`, with `pref` the first prefix that strips anything, is stored under `d` |
| UrlPath.FilenameFromUrlUnderPrefix | internal/path/path.go:24-41 | a URL whose path starts with `/pref`, the first matching prefix, turns `stem.ext` into `stem.pref.ext` |
| UrlPathCases.DirFromUrlNoPrefixCase | internal/path/path_test.go:15-19 | `…/posts/2024/elevator/` with prefix `en` gives `posts/2024/elevator` |
| UrlPathCases.DirFromUrlLocaleCase | internal/path/path_test.go:20-24 | `…/en/posts/2021/covid/` with prefixes `en`, `ru` gives `posts/2021/covid` |
| UrlPathCases.FilenameFromUrlNoPrefixCase | internal/path/path_test.go:43-48 | no matching prefix keeps `webmentions.json` |
| UrlPathCases.FilenameFromUrlLocaleCase | internal/path/path_test.go:49-54 | prefix `en` gives `webmentions.en.json` |
| UrlPathCases.TrimOneIsNotSegmentAware | internal/path/path.go:43-51 | prefix `en` also strips the start of `english/notes/` |
| UrlPathCases.EmptyPrefixAlwaysTags | internal/path/path.go:30-36 | an empty first prefix tags every file name, even with an empty tag |
| UrlPathCases.EmptyPrefixNeverTrims | main.go:250-258 | an empty prefix, which an empty `-l` flag yields, never shortens a path |
| Store.JoinPath | main.go:177 | an empty or `.` element adds nothing to a join; two ordinary paths are joined by exactly one `/` (also the join at main.go:165) |
| Store.ReadFileFails | main.go:101-108 | reading fails exactly when the file is missing (a not-found error), does not decode, or holds neither an array nor an object |
| Store.ReadAfterWrite | main.go:101-108 | after a successful write the file reads back as exactly the records written, and every other path reads as before |
| Store.WriteFile | main.go:124-150 | when the write succeeds the file holds the envelope the `tlo` and `useJF2` settings select, it reads back as exactly the records written, and no other file changes; otherwise nothing changes and the write error is reported |
| Store.MergeKeepsEntries | main.go:181-190 | merging keeps the stored list as a prefix and adds at most the new record; nothing is added exactly when the record is present |
| Store.MergeIdempotent | main.go:181-190 | merging a record with an identity twice equals merging it once |
| Store.MergeWithoutIdentityAppends | main.go:181-190 | a record without an identity is appended by every merge |
| Store.SaveToFile | main.go:181-192 | the scan-then-append code gives the specified outcome of a save |
| Store.SaveToFileMerges | main.go:181-192 | on success the file holds the merged list and no other file changes; it fails exactly when the record is new and the file cannot be written, and then changes nothing |
| Store.SaveToFileNoOp | main.go:181-192 | a save changes nothing and succeeds exactly when the same mention is already stored |
| Store.SaveToFileIdempotent | main.go:181-192 | saving a record with an identity a second time gives the same files and report |
| Store.SaveToFileTwiceDuplicates | main.go:181-192 | a record without an identity is stored twice by two saves |
| Store.SaveToContentDir | main.go:173-179 | an empty file name is an error and changes nothing; otherwise the record is saved to the file name joined to the content directory |
| Store.SuggestDir | main.go:228-235 | a directory exactly when the target is a string: the one derived from its URL, or empty when it does not parse |
| Store.SaveToDir | main.go:163-171 | the routed save's files, and whether it succeeded |
| Store.SaveToDirs | main.go:152-161 | the loop gives the specified outcome of a batch |
| Store.SaveOneRoutes | main.go:163-171 | a record with a target whose routed file can be written is merged into that file, and no other file changes |
| Store.SaveOneFallsBack | main.go:152-161 | with no string target, or a routed file that cannot take the record, the record is saved to the content root |
| Store.UnparsableTargetGoesToRoot | main.go:228-235 | a target that is not a URL routes to the content root's file |
| Store.SaveToDirsNoFilename | main_test.go:154-169 | without a file name a non-empty batch fails at once and changes nothing |
| Store.SaveToDirsUnwritableRoot | main_test.go:154-169 | a record without a target or an identity, under an unwritable content root, fails the batch with that path's write error |
| Store.SaveToDirsAppend | main.go:152-161 | saving two batches in turn is saving their concatenation, and the batch stops at the first error |
| Store.PresentGrows | main.go:183-187 | a record found in a list is still found after records are appended |
| Store.SaveToFileGrows | main.go:181-192 | a save only appends to stored lists, and a failed save changes nothing |
| Store.SaveOneGrows | main.go:152-161 | one batch step only appends, and a failed step changes nothing |
| Store.SaveToDirsGrows | main.go:152-161 | a batch only appends to stored lists |
| Store.SaveOnePlaces | main.go:152-171 | a record with an identity that was saved is in its routed file, or in the root file with the routed file unwritable |
| Store.PlacedGrows | main.go:152-171 | appending records keeps a saved record in place |
| Store.PlacedSettles | main.go:152-171 | saving a record that is in place again changes nothing and succeeds |
| Store.SaveToDirsRerun | main.go:152-161 | when every record has an identity, running a batch again over the files the first run left gives the same files and the same report |

## Left out

- HTTP (`getPage`), reading and writing bytes, and the JSON byte codec
  (including `SetEscapeHTML(false)`) are out of scope. A document is its decoded
  value, a fetched page is a parameter, and whether a write succeeds is
  `canWrite`. A write that fails is taken to leave the file as it was.
- `endpointUrl`, the `since_id` and `page` query parameters, `main` and the
  command-line flags are not modelled. The page source is keyed directly by the
  since-id and the page number.
- Pages.GetNew requires that, for the given since-id, some page fails or is
  empty. The code loops for as long as the server keeps returning records.
- Records.Id: JSON numbers are integers here. The code decodes them as
  `float64` and truncates them with `int(…)`, so fractional ids are not modelled.
- Records.SameMention: times are the instants a `TimeParser` returns.
  RFC 3339 parsing itself is not modelled.
- `path.Dir`, `filepath.Join`, `filepath.Base` and `filepath.Ext` are modelled
  for paths without `.`/`..` elements or `//`. The lexical clean-up `path.Clean`
  does on other paths is not modelled.
- Store.JoinPath assumes both arguments are relative paths: no leading `/` on
  the second and no trailing `/` on either. Go's `filepath.Join` cleans
  `content` + `/x` to `content/x`, where the model gives `content//x`, so an
  absolute `-f` file name used together with `-cd` (main.go:177) is not
  modelled. Likewise `content/` + `x` gives `content//x` in the model, so a
  content directory given with a trailing slash is not modelled either.
- The progress messages the code prints (such as "Saving new mention to …" in
  `saveToFile`, main.go:189) are console output and are not modelled.
- Store.WriteFile does not model Go encoding a nil slice as `null`. Every caller
  passes a list that holds at least the new record.
- The timestamp mode, `findLast`, `getTimestamp` and the `pretty` and
  `timestamp` settings appear only in `main_test.go`. `main.go` does not define
  them.
- The read-only directory case of `TestSaveToDirs` (main_test.go:88-152) depends
  on the records in its data files. Only its general form is stated, by
  Store.SaveToDirsUnwritableRoot.

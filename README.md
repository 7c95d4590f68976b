# SmartRepos core, modelled in Dafny

SmartRepos recommends GitHub repositories and answers questions about them.
This project models the deterministic core behind those features:

- **Repository digest synthesizer** (`repomix.dfy`, module `Repomix`):
  - `withRetry`, with its capped exponential backoff;
  - the path importance score;
  - the tree filter, the stable sort by score and the top-20 working set;
  - per-file truncation;
  - the assembly of the digest text by `processRepository`.

  Every GitHub call (metadata, tree, blob) is an oracle: a total function
  from the attempt number to that attempt's outcome. The blob oracle also
  takes the entry's index in the working set, since each entry makes its
  own call.
- **Disk cache with a seven-day TTL** (`file_cache.dfy`, module `FileCache`):
  - the sanitised cache file name;
  - the class `RepomixFileCache`, whose directory is a `map` from file name
    to file (a parsed record or a corrupt file).
  - `get`, `set` (written to a temp file, then renamed), `cleanup`,
    `isCached`, `clearRepo` and the file count of `getStats`, each
    deletion either succeeding or failing, as the oracle `unlinkOk` says.
- **Client AI cache** (`ai_cache.dfy`, module `AiCache`):
  - the class `AICache` over a `localStorage` map;
  - `ai-<type>-<owner>-<name>` keys with a per-item expiry;
  - `clear` limited to the `ai-` prefix;
  - `getStats`, a loop proved against set-comprehension definitions.
- **Recommendation scoring** (`recommendation_scoring.dfy`, module
  `RecommendationScoring`):
  - the neutral score of 50;
  - the language, experience, interest and goal adjustments;
  - the clamp to 0..100;
  - the score-to-message rule of the two queries.
- **Repository queries** (`repos.dfy`, module `Repos`): `parseGitHubUrl`
  and the period table of `getTrending`.
- **Chat gateway** (`repo_chat.dfy`, module `RepoChat`):
  - the cache hit / miss / write-back decision of `chatWithRepository`;
  - the quick-question rule, the context budgets with their truncation
    marker, and the last-four-messages history window;
  - the reply of `clearRepositoryCache`.

`common.dfy` (module `Common`) holds the shared helpers:
- `Option`/`Result`;
- ASCII lower-casing;
- prefix, suffix and substring tests;
- `Join` and decimal rendering.

The clock is an integer parameter `now` (milliseconds). A write that can
fail on disk or against the storage quota, and a file deletion that can
throw, take a boolean parameter saying whether it succeeds (`cleanup`, which
deletes many files, takes one answer per file name).

Behaviours of the code a reader might not expect:
- Blob fetches get 2 attempts (`src/server/repomix/index.ts:197`). Metadata
  and tree fetches get 3 (`src/server/repomix/index.ts:104`, `:141`).
- `withRetry` retries every error, including a definitive "not found"
  (`src/server/repomix/index.ts:17-29`).
- A cache hit in the chat gateway still fetches the repository details from
  GitHub (`src/server/repo-chat/index.ts:82-85`).
- The cache file name is not a one-to-one function of (owner, repository).
  Owner `a-b` with repository `c` and owner `a` with repository `b-c` share
  `a-b-c.json` (`src/server/file-cache/index.ts:23`). Both pairs are valid
  GitHub names. `FileCache.CacheFileNameCollides` proves the collision, and
  `FileCache.CollidingIdentitiesShareRecord` shows one identity reading the
  other's record.
- When deleting a cache file throws, `clearRepo` returns `false`, and
  `clearRepositoryCache` then replies "No cache found" although the file is
  still there (`src/server/file-cache/index.ts:228-230`). In `cleanup` an
  expired file whose deletion throws is counted in `errors`, not `deleted`
  (`src/server/file-cache/index.ts:182-183`).

## Model

| member | source | states |
|---|---|---|
| Repomix.BackoffDelay | src/server/repomix/index.ts:25 | the sleep after any failed attempt is between 1000 and 10000 ms |
| Repomix.BackoffSchedule | src/server/repomix/index.ts:22-26 | the delays are 1000, 2000, 4000 and 8000 ms, then 10000 ms for every later attempt |
| Repomix.RetryFrom | src/server/repomix/index.ts:17-31 | defines the settled outcome from a given attempt on: the first success, else the last error |
| Repomix.RetryOutcome | src/server/repomix/index.ts:11-32 | defines what `withRetry` settles to: `RetryFrom` starting at attempt 1 with no error |
| Repomix.RetryFromMeaning | src/server/repomix/index.ts:17-31 | from a given attempt on: the result is the value of the first successful attempt; it throws iff every remaining attempt fails, and then rethrows the last error |
| Repomix.RetryOutcomeMeaning | src/server/repomix/index.ts:11-32 | `withRetry` returns the first success within `maxRetries` attempts; it throws iff all of them fail, rethrowing the last error (`undefined` when there were no attempts) |
| Repomix.WithRetry | src/server/repomix/index.ts:11-32 | the loop settles as the reference semantics and calls `fn` at most `maxRetries` times; `onRetry` fires once per failed attempt except the last, with attempt numbers 1, 2, …; each sleep follows the backoff schedule |
| Repomix.FileNameScore | src/server/repomix/index.ts:42-52 | the anchored file-name rules score 800..1000, only for paths without `/`; 1000 exactly for `readme.md` |
| Repomix.DirectoryScore | src/server/repomix/index.ts:55-64 | the directory-prefix rules score 500..700 |
| Repomix.ExtensionScore | src/server/repomix/index.ts:67-75 | the extension rules score 200..400 |
| Repomix.ImportanceScore | src/server/repomix/index.ts:38-79 | every path scores in 100..1000; the score is 1000 iff the path, lower-cased, is `readme.md` |
| Repomix.NestedPathsMissFileNameRules | src/server/repomix/index.ts:42-52 | a path containing `/` never reaches the file-name rules, so it scores at most 700 |
| Repomix.DirectoryRulesNeedInitial | src/server/repomix/index.ts:55-64 | a path whose first character is none of the listed directories' initials (`s a c p l u h m`) gets no directory score |
| Repomix.ToLowerConcat | src/server/repomix/index.ts:39 | lower-casing distributes over concatenation |
| Repomix.ReadmeSuffixScoresAsMarkdown | src/server/repomix/index.ts:67-73 | a lower-cased path ending in `/readme.md` matches no earlier extension rule and gets the `.md` score of 300 |
| Repomix.NestedReadmeScoresAsMarkdown | src/server/repomix/index.ts:38-79 | `<dir>/README.md` scores 300 (by `.md`), not 1000, when `<dir>` starts with none of those initials, e.g. `docs/README.md` |
| Repomix.SourceDirectoryBeatsExtension | src/server/repomix/index.ts:55-69 | a path under `src/` scores 700 whatever its extension (so `src/x.py` is not 380) |
| Repomix.Eligible | src/server/repomix/index.ts:162-176 | defines the filter: a blob with a path, outside the excluded directories, without an excluded extension, and with a size that is absent, 0 or below 100000 |
| Repomix.Eligibles | src/server/repomix/index.ts:162-176 | an entry is kept iff it is in the tree and passes the filter; the filter requires a blob with a path, none of the excluded directory prefixes or extensions, and a size that is absent, 0 or below 100000 |
| Repomix.InsertBy | src/server/repomix/index.ts:177-182 | defines insertion into a list sorted by descending key, before the first element with a smaller key |
| Repomix.SortBy | src/server/repomix/index.ts:177-182 | defines the sort as successive insertions, in input order |
| Repomix.WorkingSet | src/server/repomix/index.ts:162-183 | defines the working set: the first 20 of the sorted eligible entries |
| Repomix.InsertPermutes | src/server/repomix/index.ts:177-182 | inserting into the sorted list adds exactly that element |
| Repomix.InsertKeepsOrder | src/server/repomix/index.ts:177-182 | inserting into a list in non-increasing score order keeps it so |
| Repomix.WithKeyCons | src/server/repomix/index.ts:177-182 | the entries of a given score in a list with a head added |
| Repomix.InsertStable | src/server/repomix/index.ts:177-182 | the inserted element goes before every element with its own score |
| Repomix.SortPermutes | src/server/repomix/index.ts:177-182 | the sort is a permutation of its input |
| Repomix.SortOrders | src/server/repomix/index.ts:177-182 | the sort output is in non-increasing score order |
| Repomix.SortStable | src/server/repomix/index.ts:177-182 | for every score, the entries with that score keep their tree order (a stable sort) |
| Repomix.WorkingSetSelection | src/server/repomix/index.ts:162-183 | the working set has exactly min(20, #eligible) entries, all eligible and from the tree |
| Repomix.PrefixOfRankedIsTop | src/server/repomix/index.ts:177-183 | a prefix of a ranked list is ranked, and no element left out scores higher than one kept |
| Repomix.WorkingSetRanked | src/server/repomix/index.ts:177-183 | the working set is in non-increasing score order, a sub-multiset of the eligible entries, and no dropped entry outscores a kept one |
| Repomix.WorkingSetKeepsTreeOrderOnTies | src/server/repomix/index.ts:177-183 | the kept entries of each score are a prefix, in tree order, of the eligible entries of that score |
| Repomix.WithKeyOfPrefix | src/server/repomix/index.ts:183 | the entries of a given score in a prefix are a prefix of those in the whole list |
| Repomix.TruncateContent | src/server/repomix/index.ts:212-215 | content of at most 2000 characters is unchanged; longer content becomes its first 2000 characters followed by `"\n... (content truncated)"` |
| Repomix.TreeFailureGivesNotice | src/server/repomix/index.ts:130-152 | when the metadata arrives for a non-empty repository and all 3 tree attempts fail, the digest is the header plus "Could not fetch repository file structure." |
| Repomix.Header | src/server/repomix/index.ts:114-120 | defines the analysis header: repository name, then the overview's full name, description (or `No description provided`), default branch, license (or `Not specified`) and language (or `Not specified`) lines |
| Repomix.Section | src/server/repomix/index.ts:189-226 | defines one entry's section: nothing without a path or sha, else the path heading and the truncated content, or the error text when both blob attempts fail; entry `i` uses its own blob call |
| Repomix.Sections | src/server/repomix/index.ts:189-227 | defines the sections of the working set, each entry fetched under its own index |
| Repomix.Digest | src/server/repomix/index.ts:89-236 | defines the digest: null when all metadata attempts fail; else the header, then the empty notice, the tree-failure notice, or the file structure and sections |
| Repomix.Fetchable | src/server/repomix/index.ts:191 | lists, with their working-set indices and in order, exactly the entries that have both a path and a sha |
| Repomix.IndexedSections | src/server/repomix/index.ts:189-226 | defines the sections of indexed entries, in the order given |
| Repomix.SkippedEntriesAddNothing | src/server/repomix/index.ts:189-191 | entries without a path or sha contribute no section: the sections equal those of the fetchable entries, each under its own index, in order |
| Repomix.TwoBlobFailuresGivePlaceholder | src/server/repomix/index.ts:194-226 | two failed blob attempts for an entry give the `Error reading file content.` section, whatever a third attempt would return |
| Repomix.EmptyRepositoryIgnoresTree | src/server/repomix/index.ts:124-128 | a repository of size 0 gives the header plus the empty notice, independent of the tree oracle |
| Repomix.DigestFailsOnlyWithMetadata | src/server/repomix/index.ts:232-235 | the result is null iff all 3 metadata attempts fail |
| Repomix.ConcatAssoc | src/server/repomix/index.ts:115-121 | string concatenation is associative, so the header can be built by successive appends |
| Repomix.PrefixConcat | src/server/repomix/index.ts:115-121 | a string is a prefix of itself with anything appended |
| Repomix.DigestStartsWithHeader | src/server/repomix/index.ts:115-121 | every non-null digest starts with the overview header |
| Repomix.AppendFileSection | src/server/repomix/index.ts:189-226 | one loop iteration appends exactly that entry's section |
| Repomix.WriteHeader | src/server/repomix/index.ts:115-121 | the successive `+=` build exactly the overview header |
| Repomix.WriteStructureIntro | src/server/repomix/index.ts:185-186 | appends the file-structure heading with the working-set size |
| Repomix.AppendSections | src/server/repomix/index.ts:189-227 | the file loop appends the sections of the working set in order |
| Repomix.ProcessRepository | src/server/repomix/index.ts:89-236 | returns the reference digest; the tree is fetched at most 3 times and not at all when metadata fails or the repository is empty |
| FileCache.Sanitize | src/server/file-cache/index.ts:23 | the same length; characters outside `[a-zA-Z0-9-_]` become `-` and the others are kept |
| FileCache.CacheFileName | src/server/file-cache/index.ts:21-25 | the name is the sanitised owner, then `-`, then the sanitised repoName, then `.json`: each safe character is kept in place and each other character becomes `-` |
| FileCache.CacheFileNameCollides | src/server/file-cache/index.ts:21-25 | `(o-x, y)` and `(o, x-y)` share a file name, e.g. `a-b/c` and `a/b-c` |
| FileCache.UnsafeCharactersCollide | src/server/file-cache/index.ts:23 | replacing one unsafe character by another does not change the file name |
| FileCache.Stale | src/server/file-cache/index.ts:34-68 | defines when `get` deletes a file: it exists and is corrupt or more than 7 days old |
| FileCache.Lookup | src/server/file-cache/index.ts:30-69 | a hit iff the file exists, parses, and its age is at most 7 days (a strict `>` test); a hit returns the stored content |
| FileCache.DeletedNames | src/server/file-cache/index.ts:175-180 | defines the files counted in `deleted`: expired `.json` files whose deletion succeeds |
| FileCache.ErrorNames | src/server/file-cache/index.ts:182-183 | defines the files counted in `errors`: corrupt `.json` files, and expired ones whose deletion throws |
| FileCache.CorruptRemoved | src/server/file-cache/index.ts:185-191 | defines the corrupt files the error handler manages to delete |
| FileCache.Swept | src/server/file-cache/index.ts:156-205 | after cleanup, exactly the expired and the corrupt `.json` files whose deletion succeeds are gone; every other file is unchanged |
| FileCache.SweepComplete | src/server/file-cache/index.ts:169-194 | once every `.json` file is visited, the directory is the swept directory |
| FileCache.SweepStep | src/server/file-cache/index.ts:169-194 | visiting one more file keeps the sweep invariant, whether or not its deletion succeeds |
| FileCache.CountsStep | src/server/file-cache/index.ts:175-183 | visiting a file adds one to `deleted` iff it is expired and its deletion succeeds, and one to `errors` iff it is corrupt or expired with a failing deletion |
| FileCache.AllVisited | src/server/file-cache/index.ts:166-169 | after the loop, the visited files cover every file either counter counts |
| FileCache.StoreThenLookup | src/server/file-cache/index.ts:30-102 | a stored content reads back unchanged while at most 7 days old |
| FileCache.StoreThenLookupAfterMaxAge | src/server/file-cache/index.ts:41-50 | a record older than 7 days is a miss and is deleted |
| FileCache.SweepKeepsHits | src/server/file-cache/index.ts:156-205 | cleanup never changes what `get` answers, and removes a file iff it is stale and its deletion succeeds |
| FileCache.CardMinusSubset | src/server/file-cache/index.ts:166-194 | removing a subset removes exactly its size, so the file count drops by the number of deleted files |
| FileCache.SweepCount | src/server/file-cache/index.ts:156-205 | after cleanup the expired and corrupt files left are exactly those whose deletion failed; the file count drops by the files removed; and `deleted` + `errors` equals the number of expired plus corrupt files |
| FileCache.SweptLeavesFailures | src/server/file-cache/index.ts:169-194 | the `.json`, expired and corrupt files after a sweep are those before it less the ones deleted |
| FileCache.ErrorsSplit | src/server/file-cache/index.ts:182-183 | `errors` counts the corrupt files plus the expired files whose deletion failed, two disjoint sets |
| FileCache.SweepWithoutFailures | src/server/file-cache/index.ts:156-205 | when every deletion succeeds, no expired or corrupt file remains, `deleted` counts the expired files and `errors` the corrupt ones |
| FileCache.RepomixFileCache.constructor | src/server/file-cache/index.ts:8-19 | the cache starts over the existing directory |
| FileCache.RepomixFileCache.Get | src/server/file-cache/index.ts:30-69 | returns the lookup result; the file is deleted iff it is expired or corrupt and the deletion succeeds; a failed deletion is swallowed and the file stays |
| FileCache.RepomixFileCache.Set | src/server/file-cache/index.ts:74-102 | when the write succeeds, the record is replaced whole (content, timestamp now) and no temp file remains; when it fails, nothing changes |
| FileCache.RepomixFileCache.GetStats | src/server/file-cache/index.ts:107-151 | the file count is the number of `.json` files |
| FileCache.RepomixFileCache.SweepFile | src/server/file-cache/index.ts:170-193 | counts one file as deleted iff expired and deleted, as an error iff corrupt or expired with a failing deletion, and removes it iff stale and the deletion succeeds |
| FileCache.RepomixFileCache.Visit | src/server/file-cache/index.ts:169-194 | one loop step keeps the sweep invariant and both counters |
| FileCache.RepomixFileCache.SweepAll | src/server/file-cache/index.ts:169-194 | the `for` loop visits every `.json` file and ends with the directory and both counters as the sweep invariant describes them for all files |
| FileCache.RepomixFileCache.Cleanup | src/server/file-cache/index.ts:156-205 | the directory becomes the swept directory; `deleted` counts the expired files deleted, `errors` the corrupt files and the expired files whose deletion failed |
| FileCache.RepomixFileCache.IsCached | src/server/file-cache/index.ts:210-213 | true iff the file exists, even when expired |
| FileCache.RepomixFileCache.ClearRepo | src/server/file-cache/index.ts:218-232 | true iff the file existed and its deletion succeeded; a failed deletion gives false and keeps the file |
| FileCache.SetThenGet | src/server/file-cache/index.ts:30-102 | `set` then `get` within 7 days returns the content, whether or not deletions succeed |
| FileCache.CachedAfterExpiry | src/server/file-cache/index.ts:41-69 | after 7 days `isCached` is still true and `get` misses; the file is gone afterwards iff the deletion succeeded |
| FileCache.CollidingIdentitiesShareRecord | src/server/file-cache/index.ts:21-25 | content stored for `a-b/c` is returned for `a/b-c` |
| AiCache.TypeName | src/client/utils/aiCache.ts:8 | the type names, `analysis`, `description`, `guide` and the `chat` that the chat panel uses (src/client/components/RepoChatInterface.tsx:55,70), are non-empty and contain no `-` |
| AiCache.Key | src/client/utils/aiCache.ts:8-10 | the key is exactly `ai-`, the type name, `-`, the owner, `-`, the name, each part at its place |
| AiCache.KeyCollides | src/client/utils/aiCache.ts:8-10 | `(o-x, y)` and `(o, x-y)` share a key |
| AiCache.Lifetime | src/client/utils/aiCache.ts:25 | a missing or zero custom expiry gives 7 days; any other value is kept |
| AiCache.Evicts | src/client/utils/aiCache.ts:36-45 | defines when `get` removes its key: the key holds a parsable item that is expired |
| AiCache.Cached | src/client/utils/aiCache.ts:33-52 | a hit iff the key holds a parsable item that is not expired (strict `>`); a hit returns the stored data |
| AiCache.NonAiEntries | src/client/utils/aiCache.ts:63-74 | exactly the keys not starting with `ai-` remain, with their values |
| AiCache.TypeSegment | src/client/utils/aiCache.ts:89 | defines the type of an `ai-` key: the text after `ai-` up to the next `-` |
| AiCache.TypeOfKey | src/client/utils/aiCache.ts:89 | the second `-`-separated segment of a key is its type |
| AiCache.FirstSegmentOfWord | src/client/utils/aiCache.ts:89 | splitting at the first `-` yields the leading dash-free word |
| AiCache.SegmentsAdd | src/client/utils/aiCache.ts:89-90 | adding a key adds its type to the set of types |
| AiCache.WithSegmentAdd | src/client/utils/aiCache.ts:89-90 | adding a new key raises the count of its type by one and leaves the others alone |
| AiCache.WithSegmentAbsent | src/client/utils/aiCache.ts:89-90 | a type that no key has counts no keys |
| AiCache.GroupCountsAdd | src/client/utils/aiCache.ts:89-90 | adding one new key gives the `(types[type] \|\| 0) + 1` update |
| Common.CountStep | src/client/utils/aiCache.ts:86-103 | a counted set grows by one iff the visited key belongs to it |
| AiCache.TypeCounts | src/client/utils/aiCache.ts:86-90 | defines the `types` record: each type segment of an `ai-` key with the number of `ai-` keys carrying it |
| AiCache.StatsIn | src/client/utils/aiCache.ts:85-104 | defines the statistics of the keys visited so far: `ai-` keys, expired or unparsable ones, per-type counts |
| AiCache.TypeCountsMeaning | src/client/utils/aiCache.ts:86-90 | a type is listed iff some `ai-` key has it, and its count is the number of such keys |
| AiCache.StoredResultIsCounted | src/client/utils/aiCache.ts:86-90 | after a result is stored, its type appears in the counts |
| AiCache.AICache.constructor | src/client/utils/aiCache.ts:7 | the cache starts over the existing storage |
| AiCache.AICache.Set | src/client/utils/aiCache.ts:19-31 | stores (data, now, lifetime) under the key, or changes nothing when storage fails |
| AiCache.AICache.Get | src/client/utils/aiCache.ts:33-52 | returns the cached value; removes the key iff it holds an expired item; an unparsable slot gives null and stays |
| AiCache.AICache.Remove | src/client/utils/aiCache.ts:54-61 | removes exactly its own key |
| AiCache.AICache.Clear | src/client/utils/aiCache.ts:63-74 | removes exactly the `ai-` keys and leaves every other entry untouched |
| AiCache.AICache.GetStats | src/client/utils/aiCache.ts:77-111 | `total` is the number of `ai-` keys, `expired` the number of expired or unparsable ones, and `types` the per-type counts |
| AiCache.CountKey | src/client/utils/aiCache.ts:86-104 | one loop step counts an `ai-` key into total, its type and, when it is expired or unparsable, `expired`; it ignores other keys |
| AiCache.StatsSkip | src/client/utils/aiCache.ts:86-87 | visiting a key without the `ai-` prefix changes no statistic |
| AiCache.StatsAdd | src/client/utils/aiCache.ts:87-103 | visiting an `ai-` key updates the statistics as one loop step does |
| AiCache.StatsStep | src/client/utils/aiCache.ts:86-104 | every visited key updates the statistics of the visited keys as one loop step does |
| AiCache.StatsComplete | src/client/utils/aiCache.ts:85-86 | once every key is visited, the counts cover all `ai-` and all expired keys |
| AiCache.MapSumRemove | src/client/utils/aiCache.ts:86-90 | a sum of counts splits off any one entry |
| AiCache.MapSumBump | src/client/utils/aiCache.ts:90 | the `(types[type] \|\| 0) + 1` update raises the sum of counts by one |
| AiCache.GroupCountsSum | src/client/utils/aiCache.ts:86-90 | the per-type counts of a set of keys sum to its size |
| AiCache.StatsConsistent | src/client/utils/aiCache.ts:77-111 | the per-type counts sum to `total`, and `expired` is at most `total` |
| AiCache.CardSubset | src/client/utils/aiCache.ts:96-102 | a subset is no larger than its superset (`expired` ≤ `total`) |
| AiCache.StoreThenGet | src/client/utils/aiCache.ts:19-52 | a stored result reads back unchanged before it expires |
| AiCache.TypesAreSeparate | src/client/utils/aiCache.ts:8-10 | storing one type of result leaves every other type's lookup unchanged |
| AiCache.ClearForgetsResults | src/client/utils/aiCache.ts:63-74 | after `clear` no result is cached and no `ai-` key remains |
| AiCache.ZeroLifetimeMeansDefault | src/client/utils/aiCache.ts:25 | a custom expiry of 0 behaves as the 7-day default: the item is still served a day later |
| AiCache.SetThenGet | src/client/utils/aiCache.ts:19-52 | `set` then `get` returns the data within the lifetime; later it misses and the key is gone |
| RecommendationScoring.LowerAll | src/server/recommendation-scoring/index.ts:104 | every topic is lower-cased, in order |
| RecommendationScoring.HasIndicators | src/server/recommendation-scoring/index.ts:102-114 | defines an indicator: some keyword occurs in the lower-cased description or name, or in a lower-cased topic |
| RecommendationScoring.EstimateRepoComplexity | src/server/recommendation-scoring/index.ts:97-119 | the result is in {1, 2, 3}; it is 3 iff a complexity keyword occurs; 1 iff no complexity keyword but a simplicity keyword occurs; otherwise 2 |
| RecommendationScoring.InterestKeywords | src/server/recommendation-scoring/index.ts:127-140 | defines the keyword list of each of the twelve known interests; any other name has none |
| RecommendationScoring.RepoText | src/server/recommendation-scoring/index.ts:143 | defines the matched text: name, description, language and topics, space-separated, lower-cased |
| RecommendationScoring.MatchingInterests | src/server/recommendation-scoring/index.ts:146-156 | the match count is at most the number of interests |
| RecommendationScoring.MatchingConcat | src/server/recommendation-scoring/index.ts:148-154 | the count over two lists of interests is the sum of their counts |
| RecommendationScoring.UnknownInterestAddsNothing | src/server/recommendation-scoring/index.ts:149 | an interest without keywords never adds a match |
| RecommendationScoring.MatchInterestsToRepo | src/server/recommendation-scoring/index.ts:125-157 | the loop's count equals the reference count over the repository text, so it is at most \|interests\| |
| RecommendationScoring.StripPunctuation | src/server/recommendation-scoring/index.ts:170 | only word and space characters remain, each of them taken from the input, the text gets no longer, and a text of word and space characters is unchanged |
| RecommendationScoring.StripPunctuationAppend | src/server/recommendation-scoring/index.ts:170 | stripping distributes over concatenation |
| RecommendationScoring.LeadingWord | src/server/recommendation-scoring/index.ts:171 | the leading run of non-space characters is a prefix, non-empty when the text starts with one, and stops only at a space or the end |
| RecommendationScoring.LeadingWordBeforeSpace | src/server/recommendation-scoring/index.ts:171 | text after a space does not change the leading word |
| RecommendationScoring.Words | src/server/recommendation-scoring/index.ts:171 | the split words are all non-empty |
| RecommendationScoring.WordsOfWord | src/server/recommendation-scoring/index.ts:171 | a non-empty text without spaces is one word |
| RecommendationScoring.WordsSplitAtSpace | src/server/recommendation-scoring/index.ts:171 | a space separates words: the words of `a + c + b` for a space `c` are those of `a` followed by those of `b` |
| RecommendationScoring.WordsPastLeadingWord | src/server/recommendation-scoring/index.ts:171 | before a space, the first word of the text is the leading word of what precedes the space |
| RecommendationScoring.LongWords | src/server/recommendation-scoring/index.ts:172 | exactly the words longer than 3 characters are kept: every kept word is longer than 3 and comes from the input, every input word longer than 3 is kept, and the result is no longer than the input |
| RecommendationScoring.LongWordsAppend | src/server/recommendation-scoring/index.ts:172 | the length filter distributes over concatenation |
| RecommendationScoring.GoalKeywords | src/server/recommendation-scoring/index.ts:169-173 | the keywords are the first min(10, n) of the n long words of the stripped, lower-cased goals |
| RecommendationScoring.CountIn | src/server/recommendation-scoring/index.ts:176 | the count is at most the number of keywords, and 0 iff none occurs in the text |
| RecommendationScoring.EstimateGoalAlignment | src/server/recommendation-scoring/index.ts:163-182 | the alignment is 15 iff at least 3 goal keywords occur in the repository text, 10 iff 1 or 2 occur, and -5 otherwise |
| RecommendationScoring.GoalPenaltyIffNoKeyword | src/server/recommendation-scoring/index.ts:176-181 | the alignment is -5 iff no goal keyword occurs in the repository text |
| RecommendationScoring.ThreeWords | src/server/recommendation-scoring/index.ts:171 | a space-free word written three times, space-separated, splits into three copies of it |
| RecommendationScoring.ThreeGoalKeywords | src/server/recommendation-scoring/index.ts:169-173 | a lower-case word of more than 3 letters written three times gives itself three times as goal keywords |
| RecommendationScoring.LongWordThrice | src/server/recommendation-scoring/index.ts:172 | a word longer than 3 characters written three times passes the length filter three times |
| RecommendationScoring.CleanGoalsUnchanged | src/server/recommendation-scoring/index.ts:169-171 | a goals text of lower-case letters and spaces is unchanged by lower-casing and punctuation stripping |
| RecommendationScoring.LongWordsKeepsLong | src/server/recommendation-scoring/index.ts:172 | a list whose words are all longer than 3 characters passes the length filter whole |
| RecommendationScoring.LanguageMatches | src/server/recommendation-scoring/index.ts:28-39 | defines a language match: some preferred language and the repository's language, lower-cased, contain one another |
| RecommendationScoring.LanguageAdjustment | src/server/recommendation-scoring/index.ts:28-39 | the adjustment is -10, 0 or 25; it is 25 iff the user has languages, the repository has a language and one of them matches it; it is non-zero iff both are present, so -10 when both are present without a match |
| RecommendationScoring.ExperienceAdjustment | src/server/recommendation-scoring/index.ts:46-60 | the whole experience table: +15, +5 and -5 exactly in their cells, 0 elsewhere |
| RecommendationScoring.InterestAdjustment | src/server/recommendation-scoring/index.ts:68-74 | +25 iff at least 2 matches, -10 iff none, otherwise +15 |
| RecommendationScoring.Factors | src/server/recommendation-scoring/index.ts:25-82 | at most four factors apply, and when none does the raw score is the neutral 50 |
| RecommendationScoring.RawScore | src/server/recommendation-scoring/index.ts:24-82 | defines the unclamped score: 50 plus the adjustment of every active factor |
| RecommendationScoring.RecommendationScore | src/server/recommendation-scoring/index.ts:11-91 | the score is in 0..100, and 50 without completed onboarding |
| RecommendationScoring.RawScoreRange | src/server/recommendation-scoring/index.ts:24-82 | before clamping, the score lies in 20..130 |
| RecommendationScoring.UpperClampReachable | src/server/recommendation-scoring/index.ts:84-88 | with all four factors at their best the raw score is 130, and it clamps to 100 |
| RecommendationScoring.WitnessRepo | src/server/recommendation-scoring/index.ts:97-143 | the repository `node` (language `node`, no description, no topics) has complexity 2 and text `node  node ` |
| RecommendationScoring.WitnessLanguage | src/server/recommendation-scoring/index.ts:28-39 | `node` matches the preferred language `node` |
| RecommendationScoring.WitnessMatches | src/server/recommendation-scoring/index.ts:125-176 | web development, listed twice, matches `node  node ` twice, and three `node` goal keywords all occur in it |
| RecommendationScoring.WitnessGoals | src/server/recommendation-scoring/index.ts:169-173 | the goals `node node node` give the keywords `node`, `node`, `node` |
| RecommendationScoring.UpperClampWitness | src/server/recommendation-scoring/index.ts:11-91 | a concrete onboarded user (language `node`, Advanced, web development twice, goals `node node node`) scores the repository `node` at exactly 100 |
| RecommendationScoring.CalculateRecommendationScore | src/server/recommendation-scoring/index.ts:11-91 | the step-by-step computation equals the reference score and lies in 0..100 |
| RecommendationScoring.ScoreMessage | src/server/recommendation-scoring/index.ts:213-218 | each of the four messages is chosen iff the score lies in its band (≥80, 60..79, 40..59, <40) |
| RecommendationScoring.CalculateRepoScore | src/server/recommendation-scoring/index.ts:189-221 | score 50 with the onboarding message when not onboarded; otherwise the reference score with its band message |
| RecommendationScoring.CalculateMultipleScores | src/server/recommendation-scoring/index.ts:223-265 | the same length and order as the input; each entry carries its repository, its score and the message the score calls for |
| Repos.Split | src/server/repos/index.ts:150 | the pieces are never empty as a list and never contain `/` |
| Repos.SplitJoin | src/server/repos/index.ts:150 | joining the pieces with `/` gives back the path |
| Repos.JoinCons | src/server/repos/index.ts:150 | joining a list with a head prepended |
| Repos.SplitAppend | src/server/repos/index.ts:150 | splitting `a/b` gives the pieces of `a` followed by those of `b` |
| Repos.NonEmpty | src/server/repos/index.ts:150 | exactly the non-empty segments remain: every kept segment is non-empty and comes from the input, every non-empty input segment is kept, and the result is no longer than the input |
| Repos.NonEmptyAppend | src/server/repos/index.ts:150 | the filter distributes over concatenation |
| Repos.PathSegments | src/server/repos/index.ts:150 | every path segment is non-empty and contains no `/` |
| Repos.SplitPlain | src/server/repos/index.ts:150 | a slash-free string splits into itself |
| Repos.SplitOwnerAndName | src/server/repos/index.ts:150 | `/owner/name` splits into `""`, owner and name |
| Repos.StripGit | src/server/repos/index.ts:159 | one trailing `.git` is removed; other names are unchanged |
| Repos.StripGitOnce | src/server/repos/index.ts:159 | `x.git` becomes `x` for every `x`, so `x.git.git` becomes `x.git` |
| Repos.ParseGitHubUrl | src/server/repos/index.ts:140-168 | the host error iff the host is not `github.com`/`www.github.com`; the format error iff there are fewer than two segments; otherwise owner is the first segment and name the second without `.git`, neither containing `/` |
| Repos.TrailingPathIgnored | src/server/repos/index.ts:150-156 | segments after the second (`/tree/main`) do not change the result |
| Repos.ParsesOwnerAndName | src/server/repos/index.ts:145-161 | `https://github.com/<owner>/<name>` parses back to owner and name without `.git` |
| Repos.Rule | src/server/repos/index.ts:12-41 | daily (pushed, 1, 50), weekly (created, 7, 10), monthly (pushed, 30, 100), yearly (pushed, 365, 500); no period means weekly |
| Repos.SearchQuery | src/server/repos/index.ts:20-41 | the query is exactly `<qualifier>:><date>` followed by ` stars:><threshold>`, the date being now minus the period's days: it starts and ends with them and has their combined length |
| Repos.DefaultPeriodIsWeekly | src/server/repos/index.ts:12-41 | without a period the query is the weekly one |
| Repos.ThresholdTexts | src/server/repos/index.ts:41 | the star thresholds print as `10`, `50`, `100` and `500` |
| Repos.SuffixOfSuffix | src/server/repos/index.ts:41 | of two tails of one string, the shorter ends the longer |
| Repos.TailsDistinct | src/server/repos/index.ts:41 | ` stars:>` followed by digits never ends a different such tail |
| Repos.QueryDeterminesRule | src/server/repos/index.ts:12-41 | equal queries, for the same clock and date renderer, come from the same search rule |
| RepoChat.IsQuickQuestion | src/server/repo-chat/index.ts:111-114 | defines a quick question: under 50 characters, and its lower-cased text mentions none of `code`, `implement`, `example` |
| RepoChat.BudgetFor | src/server/repo-chat/index.ts:111-118 | quick questions get 5000/2000 characters for analysis/README, all others 15000/6000 (both directions) |
| RepoChat.CodeQuestionsGetTheLargeBudget | src/server/repo-chat/index.ts:111-118 | any message mentioning `code` gets the large budget |
| RepoChat.Truncate | src/server/repo-chat/index.ts:124-125 | content within the budget is kept whole; longer content becomes its budget-long prefix plus `...(content truncated)` |
| RepoChat.TruncateKeepsPrefix | src/server/repo-chat/index.ts:124-125 | the result starts with the kept prefix, and either is the content or ends with the marker |
| RepoChat.HistoryLine | src/server/repo-chat/index.ts:136 | each line is `User: ` or `Assistant: ` by role, followed by exactly the message content |
| RepoChat.HistoryLines | src/server/repo-chat/index.ts:135-136 | one line per message, in order |
| RepoChat.LastFour | src/server/repo-chat/index.ts:135 | the window is the last min(4, n) messages |
| RepoChat.FormatHistory | src/server/repo-chat/index.ts:135-137 | an empty history gives the empty string |
| RepoChat.HistoryUsesLastFour | src/server/repo-chat/index.ts:135-137 | messages before the last four never appear |
| RepoChat.ShortHistoryShownWhole | src/server/repo-chat/index.ts:135-137 | a history of one to four messages is shown whole, one line each, joined by newlines |
| RepoChat.ReadmeBlock | src/server/repo-chat/index.ts:124 | defines the README part: the cut README, or `Not available.` for a missing or empty README |
| RepoChat.AnalysisBlock | src/server/repo-chat/index.ts:125 | defines the digest part: the heading and the cut digest, or the not-available text |
| RepoChat.Context | src/server/repo-chat/index.ts:110-137 | defines the context: description or `Not provided.`, the README and digest parts under the question's budget, and the history |
| RepoChat.ContextWithinBudget | src/server/repo-chat/index.ts:117-125 | the README and analysis blocks never exceed their budget plus the marker, and content within budget appears whole |
| RepoChat.AfterGet | src/server/repo-chat/index.ts:82-85 | defines the cache after the lookup: a stale or corrupt record is deleted unless the deletion fails |
| RepoChat.AfterSet | src/server/repo-chat/index.ts:101-103 | defines the cache after a successful write-back: the record replaced whole, no temp file |
| RepoChat.ChatWithRepository | src/server/repo-chat/index.ts:64-125 | no token: an error and nothing changes; no details: "Repository not found"; a hit skips synthesis and writes nothing; a miss synthesises and writes back iff the digest is non-empty (and the disk write succeeds); the lookup's deletion of a stale record takes effect only when it succeeds |
| RepoChat.SecondChatIsServedFromCache | src/server/repo-chat/index.ts:94-108 | after a first chat that synthesised and stored a digest, a second chat within 7 days is served from the cache |
| RepoChat.ClearRepositoryCache | src/server/repo-chat/index.ts:200-215 | `success` iff a cache file existed and its deletion succeeded; the file is gone afterwards iff the deletion succeeded; a failed deletion is reported as `No cache found` |

## Left out

- Network access: the Octokit calls are oracles from attempt number to outcome. The retry sleeps are returned as values, not performed.
- The real clock: `now` is a parameter. So `Date.now()` is a single value within each call, even where the source reads the clock twice.
- The startup cleanup timer and the concurrency of `Promise.all`: the repository details and the cache lookup are modelled as sequential steps, with the details fetch always made.
- The LLM call in `chatWithRepository`, the prompt template, the repository statistics lines of the context, and the 429 and generic error replies.
- JSON parsing and serialisation. A cache file is either a parsed record or corrupt. A `localStorage` slot is either an item or unparsable.
- A JSON text that parses but lacks `timestamp` or `repoContent`: the source computes with `undefined`/`NaN` there, and the model treats such a file as corrupt.
- Base64 and UTF-8 decoding of blobs and READMEs: contents arrive as decoded strings.
- `new URL` parsing: `Repos.ParseGitHubUrl` takes the hostname and pathname it would yield. A URL that does not parse makes the URL parser throw its own `TypeError`, which is an `Error` and is rethrown as is (`src/server/repos/index.ts:162-166`). So the generic "Invalid GitHub repository URL" message is unreachable, and the model has no case for it.
- ISO date formatting: `Repos.SearchQuery` takes the date renderer as a parameter. The search call and the mapping of its results in `getTrending` are not part of this model.
- String lengths are counted in characters, not UTF-16 code units.
- Case folding is ASCII only. `\w` and `\s` are their ASCII classes (space, tab, newline, carriage return, vertical tab, form feed).
- Interest names that are `Object.prototype` members (`constructor`, `toString`) make the source's keyword lookup misbehave. The model treats them as unknown interests.
- `Math.round` is applied to an integer score, where it is the identity.
- zod validation of the query arguments: every argument is taken as already valid.
- The `fs` layer. `ensureCacheDir`, `stat` sizes and modification times, directories whose names end in `.json`, and a crash between the temp write and the rename are not modelled. `cleanup`'s outer catch (an unreadable cache directory) is not modelled either.
- FileCache.RepomixFileCache.GetStats: models only the file count. `totalSize`, `oldestFile` and `newestFile` depend on file sizes and modification times and use float MB formatting.
- FileCache.RepomixFileCache.Cleanup: does not model `savedSpace`, which sums file sizes in float MB. Whether a deletion succeeds is one answer per file, so a deletion that fails and then succeeds on the error handler's retry is not modelled; nor is a failing `statSync` before the deletion.
- FileCache.RepomixFileCache.Set: a write either succeeds whole or changes nothing. A temp file left behind by a failed rename is not modelled.
- AiCache.AICache.Set: `data` is a string standing for any JSON-serialisable value (for the `chat` type, the chat history array); serialisation is not modelled.
- AiCache.AICache.GetStats: `types` is a map, while the source uses a plain object. A type segment that names an `Object.prototype` member (`ai-__proto__-…`, `ai-constructor-…`, `ai-toString-…`) makes the source's counts go wrong: the per-type counts then no longer sum to `total`. The model counts such segments like any other.
- The `getCacheStats` query and the `cleanupCache` mutation of the chat module only forward to `getStats` and `cleanup`, plus MB text formatting.

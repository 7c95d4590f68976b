/** The repository digest synthesizer of src/server/repomix/index.ts: the
    retry loop with capped exponential backoff, the path-based importance
    score, the filter / stable sort / top-20 selection of the file tree, the
    per-file truncation, and the assembly of the digest text.

    Every GitHub call is an oracle: a total function from the attempt number
    (1, 2, ...) to the outcome that attempt would have; the blob oracle also
    takes the index of the entry in the working set. */
module Repomix {
  import opened Common

  // ---------------------------------------------------------------------
  // Retry with exponential backoff
  // ---------------------------------------------------------------------

  /** Outcome of one call of a remote operation. */
  datatype Attempt<T> = Succeeded(value: T) | Failed(error: string)

  /** How `withRetry` settles: the first successful value, or the error it
      rethrows (`None` is the `undefined` thrown when no attempt was made). */
  datatype RetryResult<T> = Returned(value: T) | Threw(error: Option<string>)

  const BaseDelay: nat := 1000
  const MaxDelay: nat := 10000

  function Pow2(n: nat): (r: nat)
    ensures r >= 1
  {
    if n == 0 then 1 else 2 * Pow2(n - 1)
  }

  /** The sleep after failed attempt `attempt`: min(1000 * 2^(attempt-1), 10000) ms. */
  function BackoffDelay(attempt: nat): (d: nat)
    requires attempt >= 1
    ensures BaseDelay <= d <= MaxDelay
  {
    if BaseDelay * Pow2(attempt - 1) <= MaxDelay then BaseDelay * Pow2(attempt - 1) else MaxDelay
  }

  lemma {:induction false} Pow2AtLeast16(n: nat)
    requires n >= 4
    ensures Pow2(n) >= 16
  {
    if n > 4 {
      Pow2AtLeast16(n - 1);
    }
  }

  /** The schedule is 1000, 2000, 4000, 8000 ms and then the 10000 ms cap
      for every later attempt. */
  lemma BackoffSchedule(attempt: nat)
    requires attempt >= 1
    ensures attempt == 1 ==> BackoffDelay(attempt) == 1000
    ensures attempt == 2 ==> BackoffDelay(attempt) == 2000
    ensures attempt == 3 ==> BackoffDelay(attempt) == 4000
    ensures attempt == 4 ==> BackoffDelay(attempt) == 8000
    ensures attempt >= 5 ==> BackoffDelay(attempt) == MaxDelay
  {
    if attempt >= 5 {
      Pow2AtLeast16(attempt - 1);
    }
  }

  /** Reference semantics of `withRetry` from attempt number `attempt` on,
      `lastError` being the error of the previous failed attempt. */
  function RetryFrom<T>(call: nat -> Attempt<T>, attempt: nat, maxRetries: nat, lastError: Option<string>): RetryResult<T>
    decreases if attempt <= maxRetries then maxRetries + 1 - attempt else 0
  {
    if attempt > maxRetries then Threw(lastError)
    else match call(attempt)
      case Succeeded(v) => Returned(v)
      case Failed(e) => RetryFrom(call, attempt + 1, maxRetries, Some(e))
  }

  /** What `withRetry(fn, {maxRetries})` settles to. */
  function RetryOutcome<T>(call: nat -> Attempt<T>, maxRetries: nat): RetryResult<T> {
    RetryFrom(call, 1, maxRetries, None)
  }

  lemma {:induction false} RetryFromMeaning<T>(call: nat -> Attempt<T>, attempt: nat, maxRetries: nat, lastError: Option<string>)
    requires attempt >= 1
    ensures var r := RetryFrom(call, attempt, maxRetries, lastError);
      && (r.Returned? ==>
            exists k :: attempt <= k <= maxRetries && call(k).Succeeded? && r.value == call(k).value
                        && forall j :: attempt <= j < k ==> call(j).Failed?)
      && (r.Threw? <==> forall j :: attempt <= j <= maxRetries ==> call(j).Failed?)
      && (r.Threw? ==> r.error == if maxRetries < attempt then lastError else Some(call(maxRetries).error))
    decreases if attempt <= maxRetries then maxRetries + 1 - attempt else 0
  {
    if attempt <= maxRetries {
      match call(attempt)
      case Succeeded(v) =>
      case Failed(e) =>
        RetryFromMeaning(call, attempt + 1, maxRetries, Some(e));
    }
  }

  /** `withRetry` returns the first successful attempt's value, and rethrows
      the last attempt's error when all `maxRetries` attempts fail. */
  lemma RetryOutcomeMeaning<T>(call: nat -> Attempt<T>, maxRetries: nat)
    ensures var r := RetryOutcome(call, maxRetries);
      && (r.Returned? ==>
            exists k :: 1 <= k <= maxRetries && call(k).Succeeded? && r.value == call(k).value
                        && forall j :: 1 <= j < k ==> call(j).Failed?)
      && (r.Threw? <==> forall j :: 1 <= j <= maxRetries ==> call(j).Failed?)
      && (r.Threw? ==> r.error == if maxRetries == 0 then None else Some(call(maxRetries).error))
  {
    RetryFromMeaning(call, 1, maxRetries, None);
  }

  /** `withRetry`: calls `fn` (the oracle `call`) until an attempt succeeds
      or `maxRetries` attempts have failed. `calls` counts the calls of `fn`;
      `retried` lists the attempt numbers passed to `onRetry`, and `delays`
      the sleep that followed each of them. */
  method WithRetry<T(==)>(call: nat -> Attempt<T>, maxRetries: nat)
    returns (r: RetryResult<T>, calls: nat, retried: seq<nat>, delays: seq<nat>)
    ensures r == RetryOutcome(call, maxRetries)
    ensures calls <= maxRetries
    ensures r.Returned? ==>
      1 <= calls && call(calls).Succeeded? && r.value == call(calls).value
      && forall j :: 1 <= j < calls ==> call(j).Failed?
    ensures r.Threw? ==>
      calls == maxRetries && (forall j :: 1 <= j <= maxRetries ==> call(j).Failed?)
      && r.error == (if maxRetries == 0 then None else Some(call(maxRetries).error))
    ensures |retried| == (if r.Returned? then calls - 1 else if maxRetries == 0 then 0 else maxRetries - 1)
    ensures forall i :: 0 <= i < |retried| ==> retried[i] == i + 1
    ensures |delays| == |retried|
    ensures forall i :: 0 <= i < |delays| ==> delays[i] == BackoffDelay(i + 1)
  {
    var lastError: Option<string> := None;
    var attempt := 1;
    calls, retried, delays := 0, [], [];
    while attempt <= maxRetries
      invariant 1 <= attempt <= maxRetries + 1
      invariant calls == attempt - 1
      invariant forall j :: 1 <= j < attempt ==> call(j).Failed?
      invariant lastError == if attempt == 1 then None else Some(call(attempt - 1).error)
      invariant RetryFrom(call, attempt, maxRetries, lastError) == RetryOutcome(call, maxRetries)
      invariant |retried| == (if attempt <= maxRetries || maxRetries == 0 then attempt - 1 else maxRetries - 1)
      invariant forall i :: 0 <= i < |retried| ==> retried[i] == i + 1
      invariant |delays| == |retried|
      invariant forall i :: 0 <= i < |delays| ==> delays[i] == BackoffDelay(i + 1)
    {
      calls := calls + 1;
      match call(attempt)
      case Succeeded(v) =>
        r := Returned(v);
        return;
      case Failed(e) =>
        lastError := Some(e);
        if attempt < maxRetries {
          retried := retried + [attempt];
          delays := delays + [BackoffDelay(attempt)];
        }
        attempt := attempt + 1;
    }
    r := Threw(lastError);
  }

  // ---------------------------------------------------------------------
  // Repository metadata and file tree
  // ---------------------------------------------------------------------

  /** The fields of the repository metadata that the digest uses. `license`
      is the license's name when a license object is present. */
  datatype RepoMeta = RepoMeta(
    name: string,
    fullName: string,
    description: Option<string>,
    defaultBranch: string,
    license: Option<string>,
    language: Option<string>,
    size: int)

  datatype EntryKind = Blob | Tree | Commit

  /** One entry of the recursive git tree listing. */
  datatype TreeEntry = TreeEntry(path: Option<string>, kind: EntryKind, size: Option<int>, sha: Option<string>)

  // ---------------------------------------------------------------------
  // Importance score
  // ---------------------------------------------------------------------

  /** The anchored, case-insensitive file-name tier of the cascade, on the
      lower-cased path (`docker-compose.ya?ml`, `main.[jt]s`, `index.[jt]sx?`,
      `app.[jt]sx?` and `server.[jt]s` spelled out). None of these names holds
      a `/`. */
  function FileNameScore(p: string): (r: Option<int>)
    ensures r.Some? ==> 800 <= r.value <= 1000 && '/' !in p
    ensures r == Some(1000) <==> p == "readme.md"
  {
    if p == "readme.md" then Some(1000)
    else if p == "package.json" then Some(950)
    else if p == "requirements.txt" then Some(950)
    else if p == "dockerfile" then Some(900)
    else if p == "docker-compose.yml" || p == "docker-compose.yaml" then Some(900)
    else if p == "tsconfig.json" then Some(850)
    else if p == ".env.example" then Some(800)
    else if p == "main.js" || p == "main.ts" then Some(800)
    else if p == "index.js" || p == "index.ts" || p == "index.jsx" || p == "index.tsx" then Some(800)
    else if p == "app.js" || p == "app.ts" || p == "app.jsx" || p == "app.tsx" then Some(800)
    else if p == "server.js" || p == "server.ts" then Some(800)
    else None
  }

  /** The directory-prefix tier, on the lower-cased path. */
  function DirectoryScore(p: string): (r: Option<int>)
    ensures r.Some? ==> 500 <= r.value <= 700
  {
    if StartsWith(p, "src/") then Some(700)
    else if StartsWith(p, "app/") then Some(700)
    else if StartsWith(p, "api/") then Some(650)
    else if StartsWith(p, "components/") then Some(600)
    else if StartsWith(p, "pages/") then Some(600)
    else if StartsWith(p, "lib/") then Some(550)
    else if StartsWith(p, "utils/") then Some(550)
    else if StartsWith(p, "hooks/") then Some(500)
    else if StartsWith(p, "models/") then Some(500)
    else if StartsWith(p, "controllers/") then Some(500)
    else None
  }

  /** The extension tier, on the lower-cased path. */
  function ExtensionScore(p: string): (r: Option<int>)
    ensures r.Some? ==> 200 <= r.value <= 400
  {
    if EndsWith(p, ".ts") || EndsWith(p, ".tsx") then Some(400)
    else if EndsWith(p, ".js") || EndsWith(p, ".jsx") then Some(390)
    else if EndsWith(p, ".py") then Some(380)
    else if EndsWith(p, ".java") then Some(370)
    else if EndsWith(p, ".go") then Some(360)
    else if EndsWith(p, ".rs") then Some(350)
    else if EndsWith(p, ".md") then Some(300)
    else if EndsWith(p, ".json") then Some(200)
    else if EndsWith(p, ".yml") || EndsWith(p, ".yaml") then Some(200)
    else None
  }

  const DefaultScore: int := 100

  /** `getFileImportanceScore`: file names first, then directory prefixes,
      then extensions, then the default 100; the first rule that matches
      decides. The score is in 100..1000 and is 1000 exactly for the
      top-level README. */
  function ImportanceScore(filePath: string): (r: int)
    ensures 100 <= r <= 1000
    ensures r == 1000 <==> ToLower(filePath) == "readme.md"
  {
    var p := ToLower(filePath);
    match FileNameScore(p)
    case Some(s) => s
    case None =>
      match DirectoryScore(p)
      case Some(s) => s
      case None =>
        match ExtensionScore(p)
        case Some(s) => s
        case None => DefaultScore
  }

  /** The file-name rules are anchored at the start of the path: a path with
      a directory part never gets a file-name score (800 and above). */
  lemma NestedPathsMissFileNameRules(filePath: string, k: nat)
    requires k < |filePath| && filePath[k] == '/'
    ensures ImportanceScore(filePath) <= 700
  {
    assert ToLower(filePath)[k] == '/';
  }

  /** A prefix match fixes the first character, so a lower-cased path that
      starts with none of the directory rules' initials gets no directory score. */
  lemma DirectoryRulesNeedInitial(p: string)
    requires |p| > 0 && p[0] !in "sacpluhm"
    ensures DirectoryScore(p) == None
  {
    forall x: string | |x| > 0 && StartsWith(p, x) ensures p[0] == x[0] {
      assert p[..|x|][0] == p[0];
    }
  }

  /** Lower-casing works character by character, so it distributes over
      concatenation. */
  lemma {:induction false} ToLowerConcat(a: string, b: string)
    ensures ToLower(a + b) == ToLower(a) + ToLower(b)
  {
    var l, r := ToLower(a + b), ToLower(a) + ToLower(b);
    forall i | 0 <= i < |l| ensures l[i] == r[i] {
      if i < |a| {
        assert (a + b)[i] == a[i];
      } else {
        assert (a + b)[i] == b[i - |a|];
      }
    }
  }

  /** A lower-cased path ending in `/readme.md` matches none of the earlier
      extension rules and scores 300 as Markdown. */
  lemma ReadmeSuffixScoresAsMarkdown(p: string)
    requires EndsWith(p, "/readme.md")
    ensures ExtensionScore(p) == Some(300)
  {
    var n := |p|;
    assert p[n - 10..] == "/readme.md";
    assert p[n - 1] == 'd' && p[n - 2] == 'm' && p[n - 3] == '.' && p[n - 4] == 'e' && p[n - 5] == 'm';
    assert !EndsWith(p, ".ts") && !EndsWith(p, ".js") && !EndsWith(p, ".py") && !EndsWith(p, ".go") && !EndsWith(p, ".rs") by {
      assert p[n - 3..][2] == p[n - 1];
    }
    assert !EndsWith(p, ".tsx") && !EndsWith(p, ".jsx") && !EndsWith(p, ".java") && !EndsWith(p, ".json") by {
      assert p[n - 4..][3] == p[n - 1];
      assert p[n - 5..][4] == p[n - 1];
    }
    assert EndsWith(p, ".md") by {
      assert p[n - 3..] == p[n - 10..][7..];
    }
  }

  /** A README below a directory (`docs/README.md`, say) is not the top-level
      README: when the directory starts with none of the directory rules'
      initials, it scores 300 by its `.md` extension. */
  lemma NestedReadmeScoresAsMarkdown(dir: string)
    requires |dir| > 0 && LowerChar(dir[0]) !in "sacpluhm"
    ensures ImportanceScore(dir + "/README.md") == 300
  {
    var low := ToLower(dir);
    ToLowerConcat(dir, "/README.md");
    assert ToLower("/README.md") == "/readme.md";
    var p := low + "/readme.md";
    assert FileNameScore(p) == None by {
      assert p[|low|] == '/';
    }
    assert p[0] == low[0];
    DirectoryRulesNeedInitial(p);
    assert p[|p| - 10..] == "/readme.md";
    ReadmeSuffixScoresAsMarkdown(p);
  }

  /** A source-directory prefix beats the extension: any path under `src/`
      scores 700, so `src/x.py` scores 700 rather than 380. */
  lemma SourceDirectoryBeatsExtension(filePath: string)
    requires StartsWith(ToLower(filePath), "src/")
    ensures ImportanceScore(filePath) == 700
  {
    NestedPathsMissFileNameRules(filePath, 3);
  }

  // ---------------------------------------------------------------------
  // Filter, rank, select
  // ---------------------------------------------------------------------

  const ExcludedPrefixes: seq<string> :=
    ["node_modules/", "venv/", "dist/", "build/", ".git/", "assets/", "public/"]

  const ExcludedExtensions: seq<string> :=
    [".jpg", ".jpeg", ".png", ".gif", ".bmp", ".ico", ".svg",
     ".mp4", ".mp3", ".wav", ".ogg", ".pdf", ".zip", ".tar",
     ".gz", ".rar", ".exe", ".dll", ".so", ".pyc", ".class"]

  const MaxFileSize: int := 100000
  const WorkingSetSize: nat := 20

  /** The filter of `processRepository`: a blob with a non-empty path, not
      under an excluded directory, without an excluded extension (both
      case-sensitive), and with a size that is absent or below 100000 (a size
      of 0 is falsy and passes too). */
  predicate Eligible(e: TreeEntry) {
    && e.kind == Blob
    && Truthy(e.path)
    && (forall prefix :: prefix in ExcludedPrefixes ==> !StartsWith(e.path.value, prefix))
    && (forall ext :: ext in ExcludedExtensions ==> !EndsWith(e.path.value, ext))
    && (e.size.None? || e.size.value == 0 || e.size.value < MaxFileSize)
  }

  /** `tree.filter(...)`, keeping tree order. */
  function Eligibles(tree: seq<TreeEntry>): (r: seq<TreeEntry>)
    ensures |r| <= |tree|
    ensures forall e :: e in r <==> e in tree && Eligible(e)
  {
    if tree == [] then []
    else (if Eligible(tree[0]) then [tree[0]] else []) + Eligibles(tree[1..])
  }

  function PathOf(e: TreeEntry): string {
    if e.path.Some? then e.path.value else ""
  }

  /** The sort key: the importance score of the entry's path. */
  function Score(e: TreeEntry): int {
    ImportanceScore(PathOf(e))
  }

  /** Inserts `x` in front of the first element whose key is no larger: the
      step of a stable sort by descending key. */
  function InsertBy<T>(x: T, sorted: seq<T>, key: T -> int): seq<T> {
    if sorted == [] || key(sorted[0]) <= key(x) then [x] + sorted
    else [sorted[0]] + InsertBy(x, sorted[1..], key)
  }

  /** A stable sort by descending key: the comparator `(a, b) => key(b) - key(a)`
      under a stable `Array.prototype.sort` (ECMAScript 2019, section 22.1.3.27). */
  function SortBy<T>(s: seq<T>, key: T -> int): seq<T> {
    if s == [] then [] else InsertBy(s[0], SortBy(s[1..], key), key)
  }

  ghost predicate NonIncreasing<T>(s: seq<T>, key: T -> int) {
    forall i, j :: 0 <= i < j < |s| ==> key(s[i]) >= key(s[j])
  }

  /** The elements of `s` whose key is `v`, in order. */
  function WithKey<T>(s: seq<T>, key: T -> int, v: int): seq<T> {
    if s == [] then [] else (if key(s[0]) == v then [s[0]] else []) + WithKey(s[1..], key, v)
  }

  lemma {:induction false} InsertPermutes<T>(x: T, sorted: seq<T>, key: T -> int)
    ensures multiset(InsertBy(x, sorted, key)) == multiset(sorted) + multiset{x}
  {
    if !(sorted == [] || key(sorted[0]) <= key(x)) {
      InsertPermutes(x, sorted[1..], key);
      assert sorted == [sorted[0]] + sorted[1..];
    }
  }

  lemma {:induction false} InsertKeepsOrder<T>(x: T, sorted: seq<T>, key: T -> int)
    requires NonIncreasing(sorted, key)
    ensures NonIncreasing(InsertBy(x, sorted, key), key)
  {
    if !(sorted == [] || key(sorted[0]) <= key(x)) {
      var rest := InsertBy(x, sorted[1..], key);
      InsertKeepsOrder(x, sorted[1..], key);
      InsertPermutes(x, sorted[1..], key);
      forall j | 0 <= j < |rest| ensures key(sorted[0]) >= key(rest[j]) {
        assert rest[j] in multiset(rest);
        if rest[j] != x {
          assert rest[j] in multiset(sorted[1..]);
          var k :| 0 <= k < |sorted[1..]| && sorted[1..][k] == rest[j];
          assert sorted[k + 1] == rest[j];
        }
      }
    }
  }

  /** `WithKey` unfolded at the front of a sequence. */
  lemma WithKeyCons<T>(h: T, t: seq<T>, key: T -> int, v: int)
    ensures WithKey([h] + t, key, v) == (if key(h) == v then [h] else []) + WithKey(t, key, v)
  {
    assert ([h] + t)[1..] == t;
  }

  lemma {:induction false} InsertStable<T>(x: T, sorted: seq<T>, key: T -> int, v: int)
    ensures WithKey(InsertBy(x, sorted, key), key, v) == (if key(x) == v then [x] else []) + WithKey(sorted, key, v)
  {
    if sorted == [] || key(sorted[0]) <= key(x) {
      WithKeyCons(x, sorted, key, v);
    } else {
      var rest := InsertBy(x, sorted[1..], key);
      InsertStable(x, sorted[1..], key, v);
      WithKeyCons(sorted[0], rest, key, v);
      WithKeyCons(sorted[0], sorted[1..], key, v);
      assert [sorted[0]] + sorted[1..] == sorted;
      var head := if key(sorted[0]) == v then [sorted[0]] else [];
      var mine := if key(x) == v then [x] else [];
      // key(sorted[0]) > key(x), so at most one of the two is non-empty
      assert head == [] || mine == [];
    }
  }

  /** The sort is a permutation of its input. */
  lemma {:induction false} SortPermutes<T>(s: seq<T>, key: T -> int)
    ensures multiset(SortBy(s, key)) == multiset(s)
    ensures |SortBy(s, key)| == |s|
  {
    if s != [] {
      SortPermutes(s[1..], key);
      InsertPermutes(s[0], SortBy(s[1..], key), key);
      assert s == [s[0]] + s[1..];
    }
  }

  /** The sort orders by non-increasing key. */
  lemma {:induction false} SortOrders<T>(s: seq<T>, key: T -> int)
    ensures NonIncreasing(SortBy(s, key), key)
  {
    if s != [] {
      SortOrders(s[1..], key);
      InsertKeepsOrder(s[0], SortBy(s[1..], key), key);
    }
  }

  /** The sort is stable: for every key, the elements with that key keep
      their relative order. */
  lemma {:induction false} SortStable<T>(s: seq<T>, key: T -> int, v: int)
    ensures WithKey(SortBy(s, key), key, v) == WithKey(s, key, v)
  {
    if s != [] {
      SortStable(s[1..], key, v);
      InsertStable(s[0], SortBy(s[1..], key), key, v);
    }
  }

  /** `filesToProcess`: the eligible entries, ranked, cut to the first 20. */
  function WorkingSet(tree: seq<TreeEntry>): seq<TreeEntry> {
    var ranked := SortBy(Eligibles(tree), Score);
    ranked[..Min(WorkingSetSize, |ranked|)]
  }

  /** The working set holds exactly min(20, #eligible) entries, each of them
      an eligible entry of the tree. */
  lemma WorkingSetSelection(tree: seq<TreeEntry>)
    ensures |WorkingSet(tree)| == Min(WorkingSetSize, |Eligibles(tree)|)
    ensures forall e :: e in WorkingSet(tree) ==> e in tree && Eligible(e)
  {
    var ranked := SortBy(Eligibles(tree), Score);
    SortPermutes(Eligibles(tree), Score);
    forall e | e in WorkingSet(tree) ensures e in tree && Eligible(e) {
      assert e in ranked;
      assert e in multiset(ranked);
    }
  }

  /** A prefix of a sequence sorted by descending key is itself sorted, and
      holds the largest keys: nothing outside it has a larger key than
      anything inside it. */
  lemma PrefixOfRankedIsTop<T>(ranked: seq<T>, n: nat, key: T -> int)
    requires NonIncreasing(ranked, key) && n <= |ranked|
    ensures NonIncreasing(ranked[..n], key)
    ensures multiset(ranked[..n]) <= multiset(ranked)
    ensures forall e, w :: e in multiset(ranked) - multiset(ranked[..n]) && w in ranked[..n] ==> key(e) <= key(w)
  {
    var top, rest := ranked[..n], ranked[n..];
    assert ranked == top + rest;
    assert multiset(ranked) == multiset(top) + multiset(rest);
    forall e, w | e in multiset(ranked) - multiset(top) && w in top ensures key(e) <= key(w) {
      assert e in multiset(rest);
      var j :| 0 <= j < |rest| && rest[j] == e;
      var i :| 0 <= i < |top| && top[i] == w;
      assert ranked[i] == w && ranked[n + j] == e;
    }
  }

  /** The working set is in non-increasing score order, and no eligible entry
      left out of it scores above an entry kept. */
  lemma WorkingSetRanked(tree: seq<TreeEntry>)
    ensures NonIncreasing(WorkingSet(tree), Score)
    ensures multiset(WorkingSet(tree)) <= multiset(Eligibles(tree))
    ensures forall e, w :: e in multiset(Eligibles(tree)) - multiset(WorkingSet(tree)) && w in WorkingSet(tree) ==> Score(e) <= Score(w)
  {
    var ranked := SortBy(Eligibles(tree), Score);
    SortPermutes(Eligibles(tree), Score);
    SortOrders(Eligibles(tree), Score);
    PrefixOfRankedIsTop(ranked, Min(WorkingSetSize, |ranked|), Score);
  }

  /** Entries of equal score appear in the working set in tree order: the
      selection is a prefix of the stable ranking. */
  lemma WorkingSetKeepsTreeOrderOnTies(tree: seq<TreeEntry>, v: int)
    ensures exists k :: 0 <= k <= |WithKey(Eligibles(tree), Score, v)| && WithKey(WorkingSet(tree), Score, v) == WithKey(Eligibles(tree), Score, v)[..k]
  {
    var ranked := SortBy(Eligibles(tree), Score);
    SortStable(Eligibles(tree), Score, v);
    WithKeyOfPrefix(ranked, WorkingSet(tree), Score, v);
  }

  lemma {:induction false} WithKeyOfPrefix<T>(s: seq<T>, p: seq<T>, key: T -> int, v: int)
    requires p <= s
    ensures exists k :: 0 <= k <= |WithKey(s, key, v)| && WithKey(p, key, v) == WithKey(s, key, v)[..k]
  {
    if p == [] {
      assert WithKey(p, key, v) == WithKey(s, key, v)[..0];
    } else {
      WithKeyOfPrefix(s[1..], p[1..], key, v);
      var k :| 0 <= k <= |WithKey(s[1..], key, v)| && WithKey(p[1..], key, v) == WithKey(s[1..], key, v)[..k];
      WithKeyCons(s[0], s[1..], key, v);
      WithKeyCons(s[0], p[1..], key, v);
      assert [s[0]] + s[1..] == s && [s[0]] + p[1..] == p;
      if key(s[0]) == v {
        assert WithKey(p, key, v) == WithKey(s, key, v)[..k + 1];
      } else {
        assert WithKey(p, key, v) == WithKey(s, key, v)[..k];
      }
    }
  }

  // ---------------------------------------------------------------------
  // Truncation and digest assembly
  // ---------------------------------------------------------------------

  const MaxContentChars: nat := 2000
  const TruncationMarker: string := "\n... (content truncated)"

  /** Content longer than 2000 characters keeps its first 2000 and gains the
      marker; shorter content is emitted unchanged. */
  function TruncateContent(content: string): (r: string)
    ensures |r| <= MaxContentChars + |TruncationMarker|
    ensures |content| <= MaxContentChars ==> r == content
    ensures |content| > MaxContentChars ==>
      StartsWith(r, content[..MaxContentChars]) && EndsWith(r, TruncationMarker)
      && |r| == MaxContentChars + |TruncationMarker|
  {
    if |content| > MaxContentChars then content[..MaxContentChars] + TruncationMarker else content
  }

  const EmptyRepositoryNotice: string := "\n## Files\n\nThis repository is empty and contains no files.\n"
  const TreeFailureNotice: string := "\n## Files\n\nCould not fetch repository file structure.\n"
  const ReadErrorText: string := "Error reading file content.\n\n"

  const MetaRetries: nat := 3
  const TreeRetries: nat := 3
  const BlobRetries: nat := 2

  /** The overview header written before anything is fetched from the tree. */
  function Header(m: RepoMeta): string {
    "# Repository Analysis: " + m.name + "\n\n"
    + "## Overview\n\n"
    + "- Repository: " + m.fullName + "\n"
    + "- Description: " + OrElse(m.description, "No description provided") + "\n"
    + "- Default Branch: " + m.defaultBranch + "\n"
    + "- License: " + (if m.license.Some? then m.license.value else "Not specified") + "\n"
    + "- Language: " + OrElse(m.language, "Not specified") + "\n\n"
  }

  /** The heading of the file part, with the size of the working set. */
  function StructureIntro(n: nat): string {
    "## File Structure\n\n" + "Total Files in Analysis: " + NatToString(n) + "\n\n"
  }

  /** The outcome of attempt `a` of the `getBlob` call made for the entry at
      index `i` of the working set is `blob(i, a)`. Every entry makes its own
      call, so two entries with the same sha can fare differently. */
  type BlobOracle = (nat, nat) -> Attempt<string>

  /** The blob oracle seen by the retry loop of working-set entry `i`. */
  function BlobCall(blob: BlobOracle, i: nat): nat -> Attempt<string> {
    (a: nat) => blob(i, a)
  }

  /** The loop skips an entry unless it has both a path and a sha. */
  predicate HasPathAndSha(e: TreeEntry) {
    Truthy(e.path) && Truthy(e.sha)
  }

  function SectionHead(path: string): string {
    "### File: " + path + "\n\n"
  }

  /** The section one working-set entry contributes: nothing when it has no
      path or sha, the fenced (truncated) content when its blob arrives, the
      error placeholder when all blob attempts fail. */
  function Section(e: TreeEntry, i: nat, blob: BlobOracle): string {
    if !HasPathAndSha(e) then ""
    else match RetryOutcome(BlobCall(blob, i), BlobRetries)
      case Returned(c) => SectionHead(e.path.value) + "```\n" + TruncateContent(c) + "\n```\n\n"
      case Threw(_) => SectionHead(e.path.value) + ReadErrorText
  }

  /** The sections of `files`, in working-set order. */
  function Sections(files: seq<TreeEntry>, blob: BlobOracle): string {
    if files == [] then "" else Sections(files[..|files| - 1], blob) + Section(files[|files| - 1], |files| - 1, blob)
  }

  /** What `processRepository` returns, as a function of the three oracles. */
  function Digest(
    meta: nat -> Attempt<RepoMeta>,
    tree: nat -> Attempt<seq<TreeEntry>>,
    blob: BlobOracle): Option<string>
  {
    match RetryOutcome(meta, MetaRetries)
    case Threw(_) => None
    case Returned(m) =>
      if m.size == 0 then Some(Header(m) + EmptyRepositoryNotice)
      else match RetryOutcome(tree, TreeRetries)
        case Threw(_) => Some(Header(m) + TreeFailureNotice)
        case Returned(entries) =>
          var ws := WorkingSet(entries);
          Some(Header(m) + StructureIntro(|ws|) + Sections(ws, blob))
  }

  /** Two failed blob attempts exhaust the budget of 2: the file becomes the
      error placeholder, whatever a third attempt would have returned. */
  lemma TwoBlobFailuresGivePlaceholder(e: TreeEntry, i: nat, blob: BlobOracle)
    requires HasPathAndSha(e)
    requires blob(i, 1).Failed? && blob(i, 2).Failed?
    ensures Section(e, i, blob) == SectionHead(e.path.value) + ReadErrorText
  {
    RetryOutcomeMeaning(BlobCall(blob, i), BlobRetries);
  }

  /** A repository whose metadata reports size 0 gets the header and the
      empty notice, whatever the tree oracle would have answered. */
  lemma EmptyRepositoryIgnoresTree(
    meta: nat -> Attempt<RepoMeta>,
    tree1: nat -> Attempt<seq<TreeEntry>>,
    tree2: nat -> Attempt<seq<TreeEntry>>,
    blob: BlobOracle)
    requires RetryOutcome(meta, MetaRetries).Returned? && RetryOutcome(meta, MetaRetries).value.size == 0
    ensures Digest(meta, tree1, blob) == Digest(meta, tree2, blob)
    ensures Digest(meta, tree1, blob) == Some(Header(RetryOutcome(meta, MetaRetries).value) + EmptyRepositoryNotice)
  {
  }

  /** When the metadata arrives for a non-empty repository but all three tree
      attempts fail, the digest is the header and the tree-failure notice. */
  lemma TreeFailureGivesNotice(
    meta: nat -> Attempt<RepoMeta>,
    tree: nat -> Attempt<seq<TreeEntry>>,
    blob: BlobOracle)
    requires RetryOutcome(meta, MetaRetries).Returned? && RetryOutcome(meta, MetaRetries).value.size != 0
    requires forall j :: 1 <= j <= TreeRetries ==> tree(j).Failed?
    ensures Digest(meta, tree, blob) == Some(Header(RetryOutcome(meta, MetaRetries).value) + TreeFailureNotice)
  {
    RetryOutcomeMeaning(tree, TreeRetries);
  }

  /** The working-set entries that have both a path and a sha, each with its
      index, in working-set order. */
  function Fetchable(files: seq<TreeEntry>): (r: seq<(nat, TreeEntry)>)
    ensures forall k :: 0 <= k < |r| ==> r[k].0 < |files| && files[r[k].0] == r[k].1 && HasPathAndSha(r[k].1)
    ensures forall i :: 0 <= i < |files| && HasPathAndSha(files[i]) ==> (i, files[i]) in r
    ensures forall k, l :: 0 <= k < l < |r| ==> r[k].0 < r[l].0
  {
    if files == [] then []
    else
      var init, e := files[..|files| - 1], files[|files| - 1];
      var r0 := Fetchable(init);
      assert forall k :: 0 <= k < |r0| ==> files[r0[k].0] == init[r0[k].0];
      r0 + (if HasPathAndSha(e) then [(|files| - 1, e)] else [])
  }

  /** The sections of indexed entries, in the order given. */
  function IndexedSections(entries: seq<(nat, TreeEntry)>, blob: BlobOracle): string {
    if entries == [] then ""
    else
      var last := entries[|entries| - 1];
      IndexedSections(entries[..|entries| - 1], blob) + Section(last.1, last.0, blob)
  }

  /** Entries without a path or sha are skipped: the sections are those of
      the fetchable entries alone, each fetched under its own index, in
      working-set order. */
  lemma {:induction false} SkippedEntriesAddNothing(files: seq<TreeEntry>, blob: BlobOracle)
    ensures Sections(files, blob) == IndexedSections(Fetchable(files), blob)
  {
    if files != [] {
      var n := |files| - 1;
      var init, e := files[..n], files[n];
      SkippedEntriesAddNothing(init, blob);
      assert Sections(files, blob) == Sections(init, blob) + Section(e, n, blob);
      if HasPathAndSha(e) {
        var f := Fetchable(init) + [(n, e)];
        assert Fetchable(files) == f;
        assert f[..|f| - 1] == Fetchable(init);
        assert IndexedSections(f, blob) == IndexedSections(Fetchable(init), blob) + Section(e, n, blob);
      } else {
        assert Fetchable(files) == Fetchable(init) + [];
        assert Fetchable(init) + [] == Fetchable(init);
        assert Section(e, n, blob) == "";
        assert Sections(init, blob) + "" == Sections(init, blob);
      }
    } else {
      assert Fetchable(files) == [];
    }
  }

  /** A digest is produced unless every metadata attempt fails. */
  lemma DigestFailsOnlyWithMetadata(
    meta: nat -> Attempt<RepoMeta>,
    tree: nat -> Attempt<seq<TreeEntry>>,
    blob: BlobOracle)
    ensures Digest(meta, tree, blob).None? <==> forall j :: 1 <= j <= MetaRetries ==> meta(j).Failed?
  {
    RetryOutcomeMeaning(meta, MetaRetries);
  }

  lemma ConcatAssoc(a: string, b: string, c: string)
    ensures (a + b) + c == a + (b + c)
  {
  }

  lemma PrefixConcat(a: string, b: string)
    ensures StartsWith(a + b, a)
  {
    assert (a + b)[..|a|] == a;
  }

  /** Every digest starts with the overview header of the repository. */
  lemma DigestStartsWithHeader(
    meta: nat -> Attempt<RepoMeta>,
    tree: nat -> Attempt<seq<TreeEntry>>,
    blob: BlobOracle)
    ensures Digest(meta, tree, blob).Some? ==>
      StartsWith(Digest(meta, tree, blob).value, Header(RetryOutcome(meta, MetaRetries).value))
  {
    match RetryOutcome(meta, MetaRetries)
    case Threw(_) =>
    case Returned(m) =>
      var h := Header(m);
      if m.size == 0 {
        PrefixConcat(h, EmptyRepositoryNotice);
      } else {
        match RetryOutcome(tree, TreeRetries)
        case Threw(_) =>
          PrefixConcat(h, TreeFailureNotice);
        case Returned(entries) =>
          var ws := WorkingSet(entries);
          ConcatAssoc(h, StructureIntro(|ws|), Sections(ws, blob));
          PrefixConcat(h, StructureIntro(|ws|) + Sections(ws, blob));
      }
  }

  /** One turn of the per-file loop of `processRepository`: skip the entry
      without path or sha, otherwise fetch its blob (2 attempts) and append
      the fenced, truncated content or the error placeholder. */
  method AppendFileSection(out0: string, i: nat, file: TreeEntry, blob: BlobOracle)
    returns (out: string)
    ensures out == out0 + Section(file, i, blob)
  {
    out := out0;
    if !Truthy(file.path) || !Truthy(file.sha) {
      return;
    }
    var contentResponse, _, _, _ := WithRetry(BlobCall(blob, i), BlobRetries);
    match contentResponse
    case Returned(c) =>
      var content := c;
      if |content| > MaxContentChars {
        content := content[..MaxContentChars] + TruncationMarker;
      }
      out := out + "### File: " + file.path.value + "\n\n";
      out := out + "```\n";
      out := out + content;
      out := out + "\n```\n\n";
    case Threw(_) =>
      out := out + "### File: " + file.path.value + "\n\n";
      out := out + "Error reading file content.\n\n";
  }

  /** The header lines of `processRepository`, appended one by one. */
  method WriteHeader(repository: RepoMeta) returns (out: string)
    ensures out == Header(repository)
  {
    out := "# Repository Analysis: " + repository.name + "\n\n";
    out := out + "## Overview\n\n";
    out := out + "- Repository: " + repository.fullName + "\n";
    out := out + "- Description: " + OrElse(repository.description, "No description provided") + "\n";
    out := out + "- Default Branch: " + repository.defaultBranch + "\n";
    out := out + "- License: " + (if repository.license.Some? then repository.license.value else "Not specified") + "\n";
    out := out + "- Language: " + OrElse(repository.language, "Not specified") + "\n\n";
  }

  /** The two lines that open the file part. */
  method WriteStructureIntro(out0: string, n: nat) returns (out: string)
    ensures out == out0 + StructureIntro(n)
  {
    out := out0 + "## File Structure\n\n";
    out := out + "Total Files in Analysis: " + NatToString(n) + "\n\n";
  }

  /** The per-file loop of `processRepository`, in working-set order. */
  method AppendSections(out0: string, filesToProcess: seq<TreeEntry>, blob: BlobOracle)
    returns (out: string)
    ensures out == out0 + Sections(filesToProcess, blob)
  {
    out := out0;
    var i := 0;
    while i < |filesToProcess|
      invariant 0 <= i <= |filesToProcess|
      invariant out == out0 + Sections(filesToProcess[..i], blob)
    {
      ghost var done := Sections(filesToProcess[..i], blob);
      out := AppendFileSection(out, i, filesToProcess[i], blob);
      assert filesToProcess[..i + 1][..i] == filesToProcess[..i];
      assert Sections(filesToProcess[..i + 1], blob) == done + Section(filesToProcess[i], i, blob);
      ConcatAssoc(out0, done, Section(filesToProcess[i], i, blob));
      i := i + 1;
    }
    assert filesToProcess[..i] == filesToProcess;
  }

  /** `processRepository`: fetches the metadata, writes the header, handles
      the empty repository and the failed tree fetch, then appends one
      section per working-set file. `treeCalls` counts the tree fetches. */
  method ProcessRepository(
    owner: string, repo: string,
    meta: nat -> Attempt<RepoMeta>,
    tree: nat -> Attempt<seq<TreeEntry>>,
    blob: BlobOracle)
    returns (output: Option<string>, treeCalls: nat)
    ensures output == Digest(meta, tree, blob)
    ensures treeCalls <= TreeRetries
    ensures (RetryOutcome(meta, MetaRetries).Threw? || RetryOutcome(meta, MetaRetries).value.size == 0) ==> treeCalls == 0
  {
    var info, _, _, _ := WithRetry(meta, MetaRetries);
    if info.Threw? {
      return None, 0;
    }
    var repository := info.value;
    var out := WriteHeader(repository);

    if repository.size == 0 {
      out := out + EmptyRepositoryNotice;
      return Some(out), 0;
    }

    var treeResponse, calls, _, _ := WithRetry(tree, TreeRetries);
    treeCalls := calls;
    if treeResponse.Threw? {
      out := out + TreeFailureNotice;
      return Some(out), treeCalls;
    }

    var filesToProcess := WorkingSet(treeResponse.value);
    out := WriteStructureIntro(out, |filesToProcess|);
    out := AppendSections(out, filesToProcess, blob);
    output := Some(out);
  }
}

/** The disk cache of src/server/file-cache/index.ts: one JSON file per
    repository under the cache directory, named by a sanitised
    `owner-repoName`, expiring lazily after 7 days.

    The directory is a map from file name to file; a file either parses as a
    cache record or is corrupt (unreadable or not valid JSON). The clock is
    the parameter `now`, in milliseconds. */
module FileCache {
  import opened Common

  /** 7 days in milliseconds. */
  const MaxAge: int := 7 * 24 * 60 * 60 * 1000

  const JsonSuffix: string := ".json"
  const TempSuffix: string := ".tmp"

  /** The characters `[a-zA-Z0-9-_]` that survive sanitisation. */
  predicate IsSafeChar(c: char) {
    ('a' <= c <= 'z') || ('A' <= c <= 'Z') || ('0' <= c <= '9') || c == '-' || c == '_'
  }

  /** `.replace(/[^a-zA-Z0-9-_]/g, '-')`: safe characters stay, every other
      character becomes `-`. */
  function Sanitize(s: string): (r: string)
    ensures |r| == |s|
    ensures forall i :: 0 <= i < |r| ==> IsSafeChar(r[i])
    ensures forall i :: 0 <= i < |s| && IsSafeChar(s[i]) ==> r[i] == s[i]
    ensures forall i :: 0 <= i < |s| && !IsSafeChar(s[i]) ==> r[i] == '-'
  {
    seq(|s|, i requires 0 <= i < |s| => if IsSafeChar(s[i]) then s[i] else '-')
  }

  /** `getCacheFilePath`, relative to the cache directory. */
  function CacheFileName(owner: string, repoName: string): (r: string)
    ensures EndsWith(r, JsonSuffix)
    ensures |r| == |owner| + 1 + |repoName| + |JsonSuffix|
    ensures forall i :: 0 <= i < |r| - |JsonSuffix| ==> IsSafeChar(r[i])
    ensures forall i :: 0 <= i < |owner| ==> r[i] == (if IsSafeChar(owner[i]) then owner[i] else '-')
    ensures r[|owner|] == '-'
    ensures forall j :: 0 <= j < |repoName| ==>
      r[|owner| + 1 + j] == (if IsSafeChar(repoName[j]) then repoName[j] else '-')
  {
    Sanitize(owner + "-" + repoName) + JsonSuffix
  }

  /** The file name is not injective: a dash may come from the separator or
      from either name, so `(o + "-" + x, y)` and `(o, x + "-" + y)` share one
      file; owner `a-b` with repo `c` and owner `a` with repo `b-c` both map
      to `a-b-c.json`. */
  lemma CacheFileNameCollides(o: string, x: string, y: string)
    ensures CacheFileName(o + "-" + x, y) == CacheFileName(o, x + "-" + y)
    ensures CacheFileName("a-b", "c") == CacheFileName("a", "b-c")
  {
    assert (o + "-" + x) + "-" + y == o + "-" + (x + "-" + y);
    assert ("a-b" + "-" + "c") == "a" + "-" + ("b-c");
  }

  /** Any character outside the safe set collides with `-`: `facebook/react`
      and `facebook-react` share a file name. */
  lemma UnsafeCharactersCollide(owner: string, repoName: string, i: nat, c: char)
    requires i < |repoName| && !IsSafeChar(repoName[i]) && !IsSafeChar(c)
    ensures CacheFileName(owner, repoName) == CacheFileName(owner, repoName[i := c])
  {
    var s, t := owner + "-" + repoName, owner + "-" + repoName[i := c];
    assert |s| == |t|;
    forall j | 0 <= j < |s| ensures Sanitize(s)[j] == Sanitize(t)[j] {
      if j != |owner| + 1 + i {
        assert s[j] == t[j];
      }
    }
    assert Sanitize(s) == Sanitize(t);
  }

  /** The parsed body of a cache file (the ISO `createdAt`/`expiresAt`
      strings and the version tag are not modelled). */
  datatype CacheRecord = CacheRecord(owner: string, repoName: string, repoContent: string, timestamp: int, contentSize: nat)

  datatype CacheFile = Parsed(record: CacheRecord) | Corrupt

  type Directory = map<string, CacheFile>

  /** A record is expired when it is strictly older than 7 days. */
  predicate IsExpired(rec: CacheRecord, now: int) {
    now - rec.timestamp > MaxAge
  }

  /** `get` deletes the file it finds when it is corrupt or expired. */
  predicate Stale(dir: Directory, name: string, now: int) {
    name in dir && (dir[name].Corrupt? || IsExpired(dir[name].record, now))
  }

  /** What `get` returns for file `name`. */
  function Lookup(dir: Directory, name: string, now: int): (r: Option<string>)
    ensures r.Some? <==> name in dir && !Stale(dir, name, now)
    ensures r.Some? ==> r.value == dir[name].record.repoContent
  {
    if name !in dir then None
    else match dir[name]
      case Corrupt => None
      case Parsed(rec) => if IsExpired(rec, now) then None else Some(rec.repoContent)
  }

  /** The `.json` files of the directory: those `getStats` and `cleanup` visit. */
  function JsonNames(dir: Directory): set<string> {
    set name | name in dir && EndsWith(name, JsonSuffix)
  }

  /** The expired `.json` files: those `cleanup` tries to delete in its
      main path. */
  function ExpiredNames(dir: Directory, now: int): set<string> {
    set name | name in dir && EndsWith(name, JsonSuffix) && dir[name].Parsed? && IsExpired(dir[name].record, now)
  }

  /** The corrupt `.json` files: those whose reading throws. */
  function CorruptNames(dir: Directory): set<string> {
    set name | name in dir && EndsWith(name, JsonSuffix) && dir[name].Corrupt?
  }

  /* Deleting a file can fail (`unlinkSync` throws). Whether it succeeds is
     the oracle `unlinkOk`, one answer per file: a delete that failed fails
     again when the error handler retries it. */

  /** The files `cleanup` counts in `deleted`: expired files whose deletion
      succeeds. */
  function DeletedNames(dir: Directory, now: int, unlinkOk: string -> bool): set<string> {
    set name | name in ExpiredNames(dir, now) && unlinkOk(name)
  }

  /** The files `cleanup` counts in `errors`: every corrupt file, and every
      expired file whose deletion throws. */
  function ErrorNames(dir: Directory, now: int, unlinkOk: string -> bool): set<string> {
    set name | name in dir && EndsWith(name, JsonSuffix)
                 && (dir[name].Corrupt? || (IsExpired(dir[name].record, now) && !unlinkOk(name)))
  }

  /** The corrupt files the error handler manages to delete. */
  function CorruptRemoved(dir: Directory, unlinkOk: string -> bool): set<string> {
    set name | name in CorruptNames(dir) && unlinkOk(name)
  }

  /** The directory after a sweep: every expired or corrupt `.json` file
      whose deletion succeeds is gone; everything else is untouched. */
  function Swept(dir: Directory, now: int, unlinkOk: string -> bool): (d: Directory)
    ensures d.Keys == dir.Keys - DeletedNames(dir, now, unlinkOk) - CorruptRemoved(dir, unlinkOk)
    ensures forall name :: name in d ==> d[name] == dir[name]
  {
    map name | name in dir && name !in DeletedNames(dir, now, unlinkOk) && name !in CorruptRemoved(dir, unlinkOk) :: dir[name]
  }

  /** The directory after `cleanup` has visited the files `done`: exactly the
      visited stale files whose deletion succeeded are gone and every other
      file is unchanged. */
  ghost predicate SweptSoFar(dir: Directory, now: int, unlinkOk: string -> bool, done: set<string>, files: Directory) {
    (forall name :: name in files <==> name in dir && !(name in done && Stale(dir, name, now) && unlinkOk(name)))
    && (forall name :: name in files ==> files[name] == dir[name])
  }

  /** The state of `cleanup` after visiting the files `done`: the directory
      as `SweptSoFar` describes it, and each counter holding the visited
      files it counts. */
  ghost predicate Sweeping(dir: Directory, now: int, unlinkOk: string -> bool, done: set<string>,
                           files: Directory, deleted: nat, errors: nat)
  {
    SweptSoFar(dir, now, unlinkOk, done, files)
    && deleted == |DeletedNames(dir, now, unlinkOk) * done|
    && errors == |ErrorNames(dir, now, unlinkOk) * done|
  }

  /** Once every `.json` file has been visited, the directory is the swept
      one. */
  lemma SweepComplete(dir: Directory, now: int, unlinkOk: string -> bool, done: set<string>, files: Directory)
    requires JsonNames(dir) == done
    requires SweptSoFar(dir, now, unlinkOk, done, files)
    ensures files == Swept(dir, now, unlinkOk)
  {
    var d := Swept(dir, now, unlinkOk);
    forall name | name in files ensures name in d {
      if name in done {
        assert !(Stale(dir, name, now) && unlinkOk(name));
      }
    }
    forall name | name in d ensures name in files {
      assert !(name in done && Stale(dir, name, now) && unlinkOk(name));
    }
    assert files.Keys == d.Keys;
  }

  /** One visited file keeps the loop's description of the directory. */
  lemma SweepStep(dir: Directory, now: int, unlinkOk: string -> bool, done: set<string>, file: string, before: Directory, after: Directory)
    requires SweptSoFar(dir, now, unlinkOk, done, before)
    requires file in dir && file !in done
    requires after == if Stale(before, file, now) && unlinkOk(file) then before - {file} else before
    ensures file in before && before[file] == dir[file]
    ensures SweptSoFar(dir, now, unlinkOk, done + {file}, after)
  {
  }

  /** Visiting one more `.json` file adds it to the count it belongs to. */
  lemma CountsStep(dir: Directory, now: int, unlinkOk: string -> bool, done: set<string>, file: string)
    requires file in JsonNames(dir) && file !in done
    ensures |DeletedNames(dir, now, unlinkOk) * (done + {file})| == |DeletedNames(dir, now, unlinkOk) * done|
              + (if dir[file].Parsed? && IsExpired(dir[file].record, now) && unlinkOk(file) then 1 else 0)
    ensures |ErrorNames(dir, now, unlinkOk) * (done + {file})| == |ErrorNames(dir, now, unlinkOk) * done|
              + (if dir[file].Corrupt? || (IsExpired(dir[file].record, now) && !unlinkOk(file)) then 1 else 0)
  {
    CountStep(DeletedNames(dir, now, unlinkOk), done, file);
    CountStep(ErrorNames(dir, now, unlinkOk), done, file);
  }

  /** Every counted file is among the visited ones. */
  lemma AllVisited(dir: Directory, now: int, unlinkOk: string -> bool, done: set<string>)
    requires done == JsonNames(dir)
    ensures DeletedNames(dir, now, unlinkOk) * done == DeletedNames(dir, now, unlinkOk)
    ensures ErrorNames(dir, now, unlinkOk) * done == ErrorNames(dir, now, unlinkOk)
  {
  }

  /** The record `set` writes. */
  function NewRecord(owner: string, repoName: string, content: string, now: int): CacheRecord {
    CacheRecord(owner, repoName, content, now, |content|)
  }

  /** Round trip: after `set(o, r, c)` at time `t`, a lookup of the same file
      at any time at most 7 days later yields `c`; an age of exactly 7 days is
      still a hit. */
  lemma StoreThenLookup(dir: Directory, owner: string, repoName: string, content: string, t: int, now: int)
    requires now - t <= MaxAge
    ensures var name := CacheFileName(owner, repoName);
      Lookup(dir[name := Parsed(NewRecord(owner, repoName, content, t))], name, now) == Some(content)
  {
  }

  /** One moment later than 7 days the record is a miss and `get` deletes it. */
  lemma StoreThenLookupAfterMaxAge(dir: Directory, owner: string, repoName: string, content: string, t: int, now: int)
    requires now - t > MaxAge
    ensures var name := CacheFileName(owner, repoName);
      var d := dir[name := Parsed(NewRecord(owner, repoName, content, t))];
      Lookup(d, name, now) == None && Stale(d, name, now)
  {
  }

  /** The sweep keeps every record still within the TTL, so lookups that hit
      before it still hit, with the same content, and a file it fails to
      delete still misses; the files it removes are exactly the stale ones
      whose deletion succeeds. */
  lemma SweepKeepsHits(dir: Directory, name: string, now: int, unlinkOk: string -> bool)
    requires EndsWith(name, JsonSuffix)
    ensures Lookup(Swept(dir, now, unlinkOk), name, now) == Lookup(dir, name, now)
    ensures name in dir && name !in Swept(dir, now, unlinkOk) <==> Stale(dir, name, now) && unlinkOk(name)
  {
  }

  /** After a sweep the expired and corrupt `.json` files left are exactly
      those whose deletion failed; the count of `.json` files drops by the
      files removed; and every stale file is counted exactly once, in
      `deleted` or in `errors`. */
  lemma {:induction false} SweepCount(dir: Directory, now: int, unlinkOk: string -> bool)
    ensures ExpiredNames(Swept(dir, now, unlinkOk), now) == ExpiredNames(dir, now) - DeletedNames(dir, now, unlinkOk)
    ensures CorruptNames(Swept(dir, now, unlinkOk)) == CorruptNames(dir) - CorruptRemoved(dir, unlinkOk)
    ensures |JsonNames(Swept(dir, now, unlinkOk))|
            == |JsonNames(dir)| - |DeletedNames(dir, now, unlinkOk)| - |CorruptRemoved(dir, unlinkOk)|
    ensures |DeletedNames(dir, now, unlinkOk)| + |ErrorNames(dir, now, unlinkOk)|
            == |ExpiredNames(dir, now)| + |CorruptNames(dir)|
  {
    SweptLeavesFailures(dir, now, unlinkOk);
    var j, e := JsonNames(dir), ExpiredNames(dir, now);
    var del, cr := DeletedNames(dir, now, unlinkOk), CorruptRemoved(dir, unlinkOk);
    CardMinusSubset(j, del);
    CardMinusSubset(j - del, cr);
    ErrorsSplit(dir, now, unlinkOk);
    CardMinusSubset(e, del);
  }

  /** The `.json` files a sweep leaves, and which of them are stale. */
  lemma SweptLeavesFailures(dir: Directory, now: int, unlinkOk: string -> bool)
    ensures ExpiredNames(Swept(dir, now, unlinkOk), now) == ExpiredNames(dir, now) - DeletedNames(dir, now, unlinkOk)
    ensures CorruptNames(Swept(dir, now, unlinkOk)) == CorruptNames(dir) - CorruptRemoved(dir, unlinkOk)
    ensures JsonNames(Swept(dir, now, unlinkOk))
            == JsonNames(dir) - DeletedNames(dir, now, unlinkOk) - CorruptRemoved(dir, unlinkOk)
  {
  }

  /** The errors are the corrupt files and the expired files whose deletion
      failed, two disjoint sets. */
  lemma ErrorsSplit(dir: Directory, now: int, unlinkOk: string -> bool)
    ensures ErrorNames(dir, now, unlinkOk) == CorruptNames(dir) + (ExpiredNames(dir, now) - DeletedNames(dir, now, unlinkOk))
    ensures |ErrorNames(dir, now, unlinkOk)| == |CorruptNames(dir)| + |ExpiredNames(dir, now) - DeletedNames(dir, now, unlinkOk)|
  {
    var c, f := CorruptNames(dir), ExpiredNames(dir, now) - DeletedNames(dir, now, unlinkOk);
    assert ErrorNames(dir, now, unlinkOk) == c + f;
    assert c * f == {};
  }

  /** When every deletion succeeds, no expired or corrupt `.json` file is
      left, `deleted` counts the expired files and `errors` the corrupt ones. */
  lemma SweepWithoutFailures(dir: Directory, now: int, unlinkOk: string -> bool)
    requires forall name :: unlinkOk(name)
    ensures ExpiredNames(Swept(dir, now, unlinkOk), now) == {} && CorruptNames(Swept(dir, now, unlinkOk)) == {}
    ensures DeletedNames(dir, now, unlinkOk) == ExpiredNames(dir, now)
    ensures ErrorNames(dir, now, unlinkOk) == CorruptNames(dir)
  {
    SweepCount(dir, now, unlinkOk);
  }

  /** Visiting one more file leaves fewer to visit. */
  lemma RemainingShrinks(all: set<string>, done: set<string>, file: string)
    requires file in all - done
    ensures |all - (done + {file})| < |all - done|
  {
    var rest := all - (done + {file});
    assert all - done == rest + {file};
    assert file !in rest;
  }

  lemma CardMinusSubset(a: set<string>, b: set<string>)
    requires b <= a
    ensures |a - b| == |a| - |b|
  {
    assert a == (a - b) + b;
    assert (a - b) * b == {};
  }

  class RepomixFileCache {
    /** The contents of the cache directory. */
    var files: Directory

    /** The directory is created when missing and otherwise kept as found. */
    constructor (existing: Directory)
      ensures files == existing
    {
      files := existing;
    }

    /** `get`: a miss when there is no file; a corrupt file or one strictly
        older than 7 days gives a miss and is deleted, unless the deletion
        fails (`unlinkOk` false), in which case the error is swallowed and
        the file stays; otherwise the stored content. */
    method Get(owner: string, repoName: string, now: int, unlinkOk: bool) returns (r: Option<string>)
      modifies this
      ensures r == Lookup(old(files), CacheFileName(owner, repoName), now)
      ensures files == if Stale(old(files), CacheFileName(owner, repoName), now) && unlinkOk
                       then old(files) - {CacheFileName(owner, repoName)} else old(files)
    {
      var filePath := CacheFileName(owner, repoName);
      if filePath !in files {
        return None;
      }
      match files[filePath]
      case Corrupt =>
        if unlinkOk {
          files := files - {filePath};
        }
        r := None;
      case Parsed(cached) =>
        var cacheAge := now - cached.timestamp;
        if cacheAge > MaxAge {
          // A failed delete throws into the handler, whose retry fails too.
          if unlinkOk {
            files := files - {filePath};
          }
          return None;
        }
        r := Some(cached.repoContent);
    }

    /** `set`: writes the whole record to `<name>.tmp` and renames it over
        `<name>`, so the file holds either the old record or the new one.
        With `diskOk` false a write error is swallowed and nothing changes. */
    method Set(owner: string, repoName: string, repoContent: string, now: int, diskOk: bool)
      modifies this
      ensures diskOk ==> files == (old(files) - {CacheFileName(owner, repoName) + TempSuffix})
                                  [CacheFileName(owner, repoName) := Parsed(NewRecord(owner, repoName, repoContent, now))]
      ensures !diskOk ==> files == old(files)
    {
      if !diskOk {
        return;
      }
      var filePath := CacheFileName(owner, repoName);
      var cacheData := CacheRecord(owner, repoName, repoContent, now, |repoContent|);
      var tempFilePath := filePath + TempSuffix;
      files := files[tempFilePath := Parsed(cacheData)];
      files := (files - {tempFilePath})[filePath := files[tempFilePath]];
    }

    /** The `files` count of `getStats`: the number of `.json` files. */
    method GetStats() returns (fileCount: nat)
      ensures fileCount == |JsonNames(files)|
    {
      fileCount := |JsonNames(files)|;
    }

    /** One step of `cleanup`: tries to delete `file` when it is corrupt or
        expired, and says which counter it goes to. An expired file whose
        deletion throws lands in the error handler and counts as an error. */
    method SweepFile(file: string, now: int, unlinkOk: bool) returns (deleted: bool, error: bool)
      requires file in files
      modifies this
      ensures deleted <==> old(files)[file].Parsed? && IsExpired(old(files)[file].record, now) && unlinkOk
      ensures error <==> old(files)[file].Corrupt? || (IsExpired(old(files)[file].record, now) && !unlinkOk)
      ensures files == if Stale(old(files), file, now) && unlinkOk then old(files) - {file} else old(files)
    {
      match files[file]
      case Corrupt =>
        if unlinkOk {
          files := files - {file};
        }
        deleted, error := false, true;
      case Parsed(cached) =>
        var age := now - cached.timestamp;
        if age > MaxAge {
          if unlinkOk {
            files := files - {file};
            deleted, error := true, false;
          } else {
            deleted, error := false, true;
          }
        } else {
          deleted, error := false, false;
        }
    }

    /** The body of the `cleanup` loop: sweeps one unvisited `.json` file and
        adds it to the count it belongs to. */
    method Visit(file: string, now: int, unlinkOk: string -> bool, ghost dir: Directory, ghost done: set<string>,
                 deleted0: nat, errors0: nat)
      returns (deleted: nat, errors: nat)
      requires file in JsonNames(dir) && file !in done
      requires Sweeping(dir, now, unlinkOk, done, files, deleted0, errors0)
      modifies this
      ensures Sweeping(dir, now, unlinkOk, done + {file}, files, deleted, errors)
    {
      assert file in files;
      ghost var before := files;
      var isDeleted, isError := SweepFile(file, now, unlinkOk(file));
      SweepStep(dir, now, unlinkOk, done, file, before, files);
      CountsStep(dir, now, unlinkOk, done, file);
      deleted, errors := deleted0, errors0;
      if isDeleted {
        deleted := deleted + 1;
      }
      if isError {
        errors := errors + 1;
      }
    }

    /** The loop of `cleanup`: visits every file of `jsonFiles`, in whatever
        order the directory lists them. */
    method SweepAll(now: int, unlinkOk: string -> bool, ghost dir: Directory, jsonFiles: set<string>)
      returns (deleted: nat, errors: nat)
      requires files == dir && jsonFiles == JsonNames(dir)
      modifies this
      ensures Sweeping(dir, now, unlinkOk, jsonFiles, files, deleted, errors)
    {
      var done: set<string> := {};
      deleted, errors := 0, 0;
      while done != jsonFiles
        invariant done <= jsonFiles
        invariant Sweeping(dir, now, unlinkOk, done, files, deleted, errors)
        decreases |jsonFiles - done|
      {
        var file :| file in jsonFiles - done;
        deleted, errors := Visit(file, now, unlinkOk, dir, done, deleted, errors);
        RemainingShrinks(jsonFiles, done, file);
        done := done + {file};
      }
    }

    /** `cleanup`: visits every `.json` file; deletes the expired ones
        (counted in `deleted`, or in `errors` when the deletion fails) and
        the corrupt ones (counted in `errors`), and leaves the others
        untouched. */
    method Cleanup(now: int, unlinkOk: string -> bool) returns (deleted: nat, errors: nat)
      modifies this
      ensures files == Swept(old(files), now, unlinkOk)
      ensures deleted == |DeletedNames(old(files), now, unlinkOk)|
      ensures errors == |ErrorNames(old(files), now, unlinkOk)|
    {
      ghost var dir := files;
      var jsonFiles := JsonNames(files);
      deleted, errors := SweepAll(now, unlinkOk, dir, jsonFiles);
      AllVisited(dir, now, unlinkOk, jsonFiles);
      SweepComplete(dir, now, unlinkOk, jsonFiles, files);
    }

    /** `isCached`: whether the file exists, expired or not. */
    method IsCached(owner: string, repoName: string) returns (b: bool)
      ensures b <==> CacheFileName(owner, repoName) in files
    {
      b := CacheFileName(owner, repoName) in files;
    }

    /** `clearRepo`: deletes the file and reports whether it did; a deletion
        that throws is reported as `false` and leaves the file in place. */
    method ClearRepo(owner: string, repoName: string, unlinkOk: bool) returns (cleared: bool)
      modifies this
      ensures cleared <==> CacheFileName(owner, repoName) in old(files) && unlinkOk
      ensures files == if unlinkOk then old(files) - {CacheFileName(owner, repoName)} else old(files)
    {
      var filePath := CacheFileName(owner, repoName);
      if filePath in files {
        if !unlinkOk {
          return false;
        }
        files := files - {filePath};
        return true;
      }
      return false;
    }
  }

  /** Round trip through the class: `set` then `get` at most 7 days later
      returns the stored content, whatever the directory held before. */
  method SetThenGet(cache: RepomixFileCache, owner: string, repoName: string, content: string, t0: int, t1: int, unlinkOk: bool)
    returns (r: Option<string>)
    requires t1 - t0 <= MaxAge
    modifies cache
    ensures r == Some(content)
  {
    cache.Set(owner, repoName, content, t0, true);
    r := cache.Get(owner, repoName, t1, unlinkOk);
  }

  /** `isCached` ignores expiry: a record older than 7 days is still cached
      until a `get` deletes it, and stays cached when that deletion fails. */
  method CachedAfterExpiry(cache: RepomixFileCache, owner: string, repoName: string, content: string, t0: int, t1: int, unlinkOk: bool)
    returns (cachedBefore: bool, r: Option<string>, cachedAfter: bool)
    requires t1 - t0 > MaxAge
    modifies cache
    ensures cachedBefore && r == None && (cachedAfter <==> !unlinkOk)
  {
    cache.Set(owner, repoName, content, t0, true);
    cachedBefore := cache.IsCached(owner, repoName);
    r := cache.Get(owner, repoName, t1, unlinkOk);
    cachedAfter := cache.IsCached(owner, repoName);
  }

  /** Two identities with one file name share the record: the content stored
      for owner `a-b`, repo `c` is what owner `a`, repo `b-c` gets back. */
  method CollidingIdentitiesShareRecord(cache: RepomixFileCache, content: string, now: int)
    returns (r: Option<string>)
    modifies cache
    ensures r == Some(content)
  {
    CacheFileNameCollides("a", "b", "c");
    cache.Set("a-b", "c", content, now, true);
    r := cache.Get("a", "b-c", now, true);
  }
}

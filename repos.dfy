/** Two pure pieces of the repository queries (src/server/repos/index.ts):
    reading owner and name out of a GitHub repository URL (`parseGitHubUrl`
    inside `searchRepoByUrl`), and the search query `getTrending` sends for
    each period.

    URL parsing itself is not modelled: `ParseGitHubUrl` takes the hostname
    and pathname the URL parser yields. Calendar formatting is not modelled
    either: the trending query takes the function that renders a timestamp
    as a `YYYY-MM-DD` date. */
module Repos {
  import opened Common

  /* ---------------- parseGitHubUrl ---------------- */

  /** `s.split('/')`: the pieces between slashes, empty ones included. */
  function Split(s: string): (r: seq<string>)
    ensures |r| >= 1
    ensures forall i :: 0 <= i < |r| ==> '/' !in r[i]
  {
    if s == [] then [""]
    else if s[0] == '/' then [""] + Split(s[1..])
    else
      var rest := Split(s[1..]);
      [[s[0]] + rest[0]] + rest[1..]
  }

  /** Splitting loses nothing: joining the pieces with `/` gives back the
      path. */
  lemma {:induction false} SplitJoin(s: string)
    ensures Join(Split(s), "/") == s
  {
    if s == [] {
    } else if s[0] == '/' {
      SplitJoin(s[1..]);
      JoinCons("", Split(s[1..]));
      assert s == [s[0]] + s[1..];
    } else {
      var rest := Split(s[1..]);
      SplitJoin(s[1..]);
      JoinCons(rest[0], rest[1..]);
      JoinCons([s[0]] + rest[0], rest[1..]);
      assert rest == [rest[0]] + rest[1..];
      assert s == [s[0]] + s[1..];
    }
  }

  lemma JoinCons(x: string, xs: seq<string>)
    ensures Join([x] + xs, "/") == if xs == [] then x else x + "/" + Join(xs, "/")
  {
    if xs != [] {
      assert ([x] + xs)[1..] == xs;
    }
  }

  /** A slash between two paths splits them apart: the last piece of the
      first and the first piece of the second stay separate. */
  lemma {:induction false} SplitAppend(a: string, b: string)
    ensures Split(a + "/" + b) == Split(a) + Split(b)
  {
    if a == [] {
      assert a + "/" + b == ['/'] + b;
      assert (['/'] + b)[1..] == b;
    } else {
      assert (a + "/" + b)[1..] == a[1..] + "/" + b;
      SplitAppend(a[1..], b);
    }
  }

  /** `filter(segment => segment.length > 0)`. */
  function NonEmpty(xs: seq<string>): (r: seq<string>)
    ensures forall i :: 0 <= i < |r| ==> |r[i]| > 0
    ensures forall i :: 0 <= i < |r| ==> r[i] in xs
    ensures forall i :: 0 <= i < |xs| && |xs[i]| > 0 ==> xs[i] in r
    ensures |r| <= |xs|
  {
    if xs == [] then []
    else (if |xs[0]| > 0 then [xs[0]] else []) + NonEmpty(xs[1..])
  }

  lemma {:induction false} NonEmptyAppend(a: seq<string>, b: seq<string>)
    ensures NonEmpty(a + b) == NonEmpty(a) + NonEmpty(b)
  {
    if a == [] {
      assert a + b == b;
    } else {
      assert (a + b)[1..] == a[1..] + b;
      NonEmptyAppend(a[1..], b);
    }
  }

  /** The non-empty path segments. */
  function PathSegments(pathname: string): (r: seq<string>)
    ensures forall i :: 0 <= i < |r| ==> |r[i]| > 0 && '/' !in r[i]
  {
    NonEmpty(Split(pathname))
  }

  const GitSuffix: string := ".git"

  /** `name.endsWith('.git') ? name.slice(0, -4) : name`. */
  function StripGit(name: string): (r: string)
    ensures EndsWith(name, GitSuffix) ==> r + GitSuffix == name
    ensures !EndsWith(name, GitSuffix) ==> r == name
  {
    if EndsWith(name, GitSuffix) then name[..|name| - 4] else name
  }

  /** The suffix is removed exactly once: `x.git.git` becomes `x.git`. */
  lemma StripGitOnce(x: string)
    ensures StripGit(x + GitSuffix) == x
  {
    assert (x + GitSuffix)[|x + GitSuffix| - 4..] == GitSuffix;
    assert (x + GitSuffix)[..|x|] == x;
  }

  datatype RepoId = RepoId(owner: string, name: string)

  const NotGitHubMessage: string := "URL must be a GitHub repository URL"
  const BadFormatMessage: string := "Invalid GitHub repository URL format"

  predicate IsGitHubHost(hostname: string) {
    hostname == "github.com" || hostname == "www.github.com"
  }

  /** `parseGitHubUrl`: only the two GitHub hosts; at least two non-empty
      path segments; owner is the first, name the second without `.git`. */
  function ParseGitHubUrl(hostname: string, pathname: string): (r: Result<RepoId, string>)
    ensures !IsGitHubHost(hostname) <==> r == Err(NotGitHubMessage)
    ensures IsGitHubHost(hostname) && |PathSegments(pathname)| < 2 <==> r == Err(BadFormatMessage)
    ensures r.Ok? ==> (|PathSegments(pathname)| >= 2
      && r.value.owner == PathSegments(pathname)[0]
      && r.value.name == StripGit(PathSegments(pathname)[1]))
    ensures r.Ok? ==> |r.value.owner| > 0 && '/' !in r.value.owner && '/' !in r.value.name
  {
    if !IsGitHubHost(hostname) then Err(NotGitHubMessage)
    else
      var segments := PathSegments(pathname);
      if |segments| < 2 then Err(BadFormatMessage)
      else
        assert '/' !in segments[1];
        Ok(RepoId(segments[0], StripGit(segments[1])))
  }

  /** Anything after the repository in the path (`/tree/main`, `/issues`)
      does not change the result. */
  lemma TrailingPathIgnored(hostname: string, pathname: string, rest: string)
    requires |PathSegments(pathname)| >= 2
    ensures ParseGitHubUrl(hostname, pathname + "/" + rest) == ParseGitHubUrl(hostname, pathname)
  {
    SplitAppend(pathname, rest);
    NonEmptyAppend(Split(pathname), Split(rest));
  }

  /** A path `/<owner>/<name>` with plain segments reads back as the pair,
      with `.git` removed from the name. */
  lemma ParsesOwnerAndName(owner: string, name: string)
    requires |owner| > 0 && |name| > 0 && '/' !in owner && '/' !in name
    ensures ParseGitHubUrl("github.com", "/" + owner + "/" + name) == Ok(RepoId(owner, StripGit(name)))
  {
    SplitOwnerAndName(owner, name);
    var pieces := ["", owner, name];
    assert pieces[1..] == [owner, name] && pieces[1..][1..] == [name] && pieces[1..][1..][1..] == [];
    assert NonEmpty([name]) == [name] + NonEmpty([]);
    assert NonEmpty([owner, name]) == [owner] + NonEmpty([name]);
    assert NonEmpty(pieces) == NonEmpty([owner, name]);
  }

  lemma SplitOwnerAndName(owner: string, name: string)
    requires '/' !in owner && '/' !in name
    ensures Split("/" + owner + "/" + name) == ["", owner, name]
  {
    var tail := owner + "/" + name;
    SplitAppend(owner, name);
    SplitPlain(owner);
    SplitPlain(name);
    assert Split(tail) == [owner, name];
    assert "/" + owner + "/" + name == ['/'] + tail;
    assert (['/'] + tail)[1..] == tail;
  }

  lemma {:induction false} SplitPlain(s: string)
    requires '/' !in s
    ensures Split(s) == [s]
  {
    if s != [] {
      SplitPlain(s[1..]);
      assert s == [s[0]] + s[1..];
    }
  }

  /* ---------------- getTrending ---------------- */

  datatype Period = Daily | Weekly | Monthly | Yearly

  /** The search rule of a period: the date qualifier, how many days back,
      and the star threshold. */
  datatype TrendingRule = TrendingRule(qualifier: string, days: nat, minStars: nat)

  /** The `switch` of `getTrending`; an absent period is weekly. */
  function Rule(period: Option<Period>): (r: TrendingRule)
    ensures period == None ==> r == TrendingRule("created", 7, 10)
    ensures period == Some(Daily) ==> r == TrendingRule("pushed", 1, 50)
    ensures period == Some(Weekly) ==> r == TrendingRule("created", 7, 10)
    ensures period == Some(Monthly) ==> r == TrendingRule("pushed", 30, 100)
    ensures period == Some(Yearly) ==> r == TrendingRule("pushed", 365, 500)
  {
    match if period.Some? then period.value else Weekly
    case Daily => TrendingRule("pushed", 1, 50)
    case Weekly => TrendingRule("created", 7, 10)
    case Monthly => TrendingRule("pushed", 30, 100)
    case Yearly => TrendingRule("pushed", 365, 500)
  }

  const DayMs: int := 24 * 60 * 60 * 1000

  /** The search query: `<qualifier>:><date> stars:><threshold>`, where the
      date is that of `now` minus the period's days. */
  function SearchQuery(period: Option<Period>, now: int, isoDate: int -> string): (r: string)
    ensures var rule := Rule(period);
      StartsWith(r, rule.qualifier + ":>" + isoDate(now - rule.days * DayMs))
      && EndsWith(r, " stars:>" + NatToString(rule.minStars))
      && |r| == |rule.qualifier + ":>" + isoDate(now - rule.days * DayMs)| + |" stars:>" + NatToString(rule.minStars)|
  {
    var rule := Rule(period);
    var head := rule.qualifier + ":>" + isoDate(now - rule.days * DayMs);
    var tail := " stars:>" + NatToString(rule.minStars);
    assert (head + tail)[..|head|] == head;
    assert (head + tail)[|head + tail| - |tail|..] == tail;
    head + tail
  }

  /** Without a period the query is the weekly one. */
  lemma DefaultPeriodIsWeekly(now: int, isoDate: int -> string)
    ensures SearchQuery(None, now, isoDate) == SearchQuery(Some(Weekly), now, isoDate)
  {
  }

  /** The star thresholds as the query prints them. */
  lemma ThresholdTexts()
    ensures NatToString(10) == "10" && NatToString(50) == "50"
    ensures NatToString(100) == "100" && NatToString(500) == "500"
  {
    assert NatToString(1) == "1" && NatToString(5) == "5";
    assert NatToString(10) == "1" + "0";
    assert NatToString(50) == "5" + "0";
    assert NatToString(100) == "10" + "0";
    assert NatToString(500) == "50" + "0";
  }

  /** Two tails of one string: the shorter is a suffix of the longer. */
  lemma SuffixOfSuffix(s: string, a: string, b: string)
    requires EndsWith(s, a) && EndsWith(s, b) && |a| <= |b|
    ensures EndsWith(b, a)
  {
    assert b[|b| - |a|..] == s[|s| - |a|..];
  }

  /** " stars:>" followed by digits: no such tail ends a longer one, since
      only its first character is a space. */
  lemma TailsDistinct(d1: string, d2: string)
    requires forall i :: 0 <= i < |d2| ==> '0' <= d2[i] <= '9'
    requires |d1| <= |d2|
    requires EndsWith(" stars:>" + d2, " stars:>" + d1)
    ensures d1 == d2
  {
    var t1, t2 := " stars:>" + d1, " stars:>" + d2;
    var k := |t2| - |t1|;
    assert t2[k] == ' ' by {
      assert t2[k..] == t1;
    }
    assert k == 0 by {
      assert forall j :: 1 <= j < 8 ==> t2[j] != ' ';
      assert forall j :: 8 <= j < |t2| ==> t2[j] == d2[j - 8];
    }
    assert t1[8..] == d1 && t2[8..] == d2;
  }

  /** The query tells the periods apart: equal queries (for the same clock
      and date formatter) come from the same search rule. */
  lemma QueryDeterminesRule(p1: Option<Period>, p2: Option<Period>, now: int, isoDate: int -> string)
    requires SearchQuery(p1, now, isoDate) == SearchQuery(p2, now, isoDate)
    ensures Rule(p1) == Rule(p2)
  {
    var q := SearchQuery(p1, now, isoDate);
    var m1, m2 := Rule(p1).minStars, Rule(p2).minStars;
    var t1, t2 := " stars:>" + NatToString(m1), " stars:>" + NatToString(m2);
    if |NatToString(m1)| <= |NatToString(m2)| {
      SuffixOfSuffix(q, t1, t2);
      TailsDistinct(NatToString(m1), NatToString(m2));
    } else {
      SuffixOfSuffix(q, t2, t1);
      TailsDistinct(NatToString(m2), NatToString(m1));
    }
    ThresholdTexts();
  }
}

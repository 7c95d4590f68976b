/** The recommendation score of a repository for a user
    (src/server/recommendation-scoring/index.ts): a neutral 50, adjusted by
    up to four factors taken from the user's onboarding answers (languages,
    experience level, technology interests, goals) and clamped to 0..100.

    Preferences and repositories are the validated shapes of the query
    arguments; an absent or null field is `None`. */
module RecommendationScoring {
  import opened Common

  datatype Repo = Repo(
    owner: string,
    name: string,
    language: Option<string>,
    description: Option<string>,
    topics: Option<seq<string>>)

  datatype Prefs = Prefs(
    programmingLanguages: Option<seq<string>>,
    experienceLevel: Option<string>,
    techInterests: Option<seq<string>>,
    goals: Option<string>,
    onboardingCompleted: Option<bool>)

  /** `!userPreferences || !userPreferences.onboardingCompleted` is false. */
  predicate Onboarded(prefs: Option<Prefs>) {
    prefs.Some? && prefs.value.onboardingCompleted == Some(true)
  }

  /** `list?.length > 0`. */
  predicate HasItems(list: Option<seq<string>>) {
    list.Some? && |list.value| > 0
  }

  /* ---------------- Complexity ---------------- */

  const ComplexityKeywords: seq<string> := ["advanced", "complex", "enterprise", "scalable", "production"]
  const SimpleKeywords: seq<string> := ["starter", "beginner", "simple", "learn", "tutorial", "example"]

  function LowerAll(xs: seq<string>): (r: seq<string>)
    ensures |r| == |xs|
    ensures forall i :: 0 <= i < |xs| ==> r[i] == ToLower(xs[i])
  {
    seq(|xs|, i requires 0 <= i < |xs| => ToLower(xs[i]))
  }

  /** Some keyword occurs in the lower-cased description or name, or in one
      of the lower-cased topics. */
  predicate HasIndicators(words: seq<string>, repo: Repo) {
    var description := ToLower(OrElse(repo.description, ""));
    var name := ToLower(repo.name);
    var topics := LowerAll(if repo.topics.Some? then repo.topics.value else []);
    (exists i :: 0 <= i < |words| && (Contains(description, words[i]) || Contains(name, words[i])))
    || (exists j, i :: 0 <= j < |topics| && 0 <= i < |words| && Contains(topics[j], words[i]))
  }

  /** `estimateRepoComplexity`: 3 when a complexity keyword appears, else 1
      when a simplicity keyword appears, else 2. */
  function EstimateRepoComplexity(repo: Repo): (r: int)
    ensures r in {1, 2, 3}
    ensures r == 3 <==> HasIndicators(ComplexityKeywords, repo)
    ensures r == 1 <==> !HasIndicators(ComplexityKeywords, repo) && HasIndicators(SimpleKeywords, repo)
  {
    if HasIndicators(ComplexityKeywords, repo) then 3
    else if HasIndicators(SimpleKeywords, repo) then 1
    else 2
  }

  /* ---------------- Interests ---------------- */

  /** The keyword list of each known interest; any other name has none. */
  function InterestKeywords(interest: string): seq<string> {
    if interest == "Web Development" then ["web", "frontend", "backend", "fullstack", "html", "css", "javascript", "typescript", "react", "vue", "angular", "node"]
    else if interest == "Mobile Apps" then ["mobile", "android", "ios", "flutter", "react-native", "swift", "kotlin"]
    else if interest == "Machine Learning" then ["ml", "ai", "machine-learning", "deep-learning", "neural", "tensorflow", "pytorch", "model"]
    else if interest == "DevOps" then ["devops", "ci/cd", "pipeline", "docker", "kubernetes", "container", "deployment"]
    else if interest == "Cloud Computing" then ["cloud", "aws", "azure", "gcp", "serverless", "lambda"]
    else if interest == "Blockchain" then ["blockchain", "crypto", "web3", "nft", "token", "defi"]
    else if interest == "Game Development" then ["game", "unity", "unreal", "godot", "3d", "rendering"]
    else if interest == "Data Science" then ["data", "analytics", "visualization", "pandas", "jupyter", "statistics"]
    else if interest == "Security" then ["security", "crypto", "encryption", "authentication", "authorization", "vulnerability"]
    else if interest == "AI/ML" then ["ai", "ml", "artificial-intelligence", "machine-learning", "deep-learning", "neural", "gpt", "llm"]
    else if interest == "Backend Development" then ["backend", "server", "api", "database", "microservices", "rest", "graphql"]
    else if interest == "Frontend Development" then ["frontend", "ui", "ux", "react", "vue", "angular", "svelte", "css", "html"]
    else []
  }

  /** The text the interests and goals are matched against: name,
      description, language and topics, separated by spaces, lower-cased. */
  function RepoText(repo: Repo): string {
    var topics := if repo.topics.Some? then repo.topics.value else [];
    ToLower(repo.name + " " + OrElse(repo.description, "") + " " + OrElse(repo.language, "") + " " + Join(topics, " "))
  }

  predicate InterestMatches(interest: string, text: string) {
    var keywords := InterestKeywords(interest);
    exists k :: 0 <= k < |keywords| && Contains(text, ToLower(keywords[k]))
  }

  /** The number of entries of `interests` (repetitions included) that match. */
  function MatchingInterests(interests: seq<string>, text: string): (r: nat)
    ensures r <= |interests|
  {
    if interests == [] then 0
    else
      var last := interests[|interests| - 1];
      MatchingInterests(interests[..|interests| - 1], text) + (if InterestMatches(last, text) then 1 else 0)
  }

  /** Counting splits over concatenation. */
  lemma {:induction false} MatchingConcat(a: seq<string>, b: seq<string>, text: string)
    ensures MatchingInterests(a + b, text) == MatchingInterests(a, text) + MatchingInterests(b, text)
    decreases |b|
  {
    if b == [] {
      assert a + b == a;
    } else {
      var b' := b[..|b| - 1];
      assert (a + b)[..|a + b| - 1] == a + b';
      MatchingConcat(a, b', text);
    }
  }

  /** A name with no keyword list (an unknown interest) never matches. */
  lemma UnknownInterestAddsNothing(interests: seq<string>, unknown: string, text: string)
    requires InterestKeywords(unknown) == []
    ensures MatchingInterests(interests + [unknown], text) == MatchingInterests(interests, text)
  {
    assert (interests + [unknown])[..|interests|] == interests;
  }

  /** `matchInterestsToRepo`: counts, one pass over the interests, those with
      a keyword in the repository's text. */
  method MatchInterestsToRepo(interests: seq<string>, repo: Repo) returns (matchCount: nat)
    ensures matchCount == MatchingInterests(interests, RepoText(repo))
    ensures matchCount <= |interests|
  {
    var text := RepoText(repo);
    matchCount := 0;
    for i := 0 to |interests|
      invariant matchCount == MatchingInterests(interests[..i], text)
    {
      assert interests[..i + 1][..i] == interests[..i];
      if InterestMatches(interests[i], text) {
        matchCount := matchCount + 1;
      }
    }
    assert interests[..|interests|] == interests;
  }

  /* ---------------- Goals ---------------- */

  /** `\w` and `\s` of a regular expression, on ASCII. */
  predicate IsWordChar(c: char) {
    'a' <= c <= 'z' || 'A' <= c <= 'Z' || '0' <= c <= '9' || c == '_'
  }

  predicate IsSpace(c: char) {
    c == ' ' || c == '\t' || c == '\n' || c == '\r' || c as int == 11 || c as int == 12
  }

  /** `replace(/[^\w\s]/g, '')`. */
  function StripPunctuation(s: string): (r: string)
    ensures forall i :: 0 <= i < |r| ==> (IsWordChar(r[i]) || IsSpace(r[i])) && r[i] in s
    ensures |r| <= |s|
    ensures (forall i :: 0 <= i < |s| ==> IsWordChar(s[i]) || IsSpace(s[i])) ==> r == s
  {
    if s == [] then []
    else (if IsWordChar(s[0]) || IsSpace(s[0]) then [s[0]] else []) + StripPunctuation(s[1..])
  }

  /** Stripping works character by character, so it distributes over
      concatenation. */
  lemma {:induction false} StripPunctuationAppend(a: string, b: string)
    ensures StripPunctuation(a + b) == StripPunctuation(a) + StripPunctuation(b)
  {
    if a == [] {
      assert a + b == b;
    } else {
      assert (a + b)[0] == a[0];
      assert (a + b)[1..] == a[1..] + b;
      StripPunctuationAppend(a[1..], b);
    }
  }

  /** The run of non-space characters at the start of `s`. */
  function LeadingWord(s: string): (r: string)
    ensures |r| <= |s| && r == s[..|r|]
    ensures s != [] && !IsSpace(s[0]) ==> |r| > 0
    ensures forall i :: 0 <= i < |r| ==> !IsSpace(r[i])
    ensures |r| == |s| || IsSpace(s[|r|])
  {
    if s == [] || IsSpace(s[0]) then [] else [s[0]] + LeadingWord(s[1..])
  }

  /** The leading word ends at the first space: what follows it does not
      change it. */
  lemma {:induction false} LeadingWordBeforeSpace(a: string, t: string)
    requires t != [] && IsSpace(t[0])
    ensures LeadingWord(a + t) == LeadingWord(a)
  {
    if a == [] {
      assert a + t == t;
    } else if !IsSpace(a[0]) {
      assert (a + t)[0] == a[0];
      assert (a + t)[1..] == a[1..] + t;
      LeadingWordBeforeSpace(a[1..], t);
    } else {
      assert (a + t)[0] == a[0];
    }
  }

  /** `split(/\s+/)` without its empty strings (which the length filter that
      follows drops anyway). */
  function Words(s: string): (r: seq<string>)
    ensures forall k :: 0 <= k < |r| ==> |r[k]| > 0
    decreases |s|
  {
    if s == [] then []
    else if IsSpace(s[0]) then Words(s[1..])
    else
      var w := LeadingWord(s);
      [w] + Words(s[|w|..])
  }

  /** A non-empty run of non-space characters is a single word. */
  lemma WordsOfWord(w: string)
    requires |w| > 0 && forall i :: 0 <= i < |w| ==> !IsSpace(w[i])
    ensures Words(w) == [w]
  {
    assert LeadingWord(w) == w;
    assert w[|w|..] == [];
  }

  /** A space separates words: the words of `a + [c] + b` are those of `a`
      followed by those of `b`. */
  lemma {:induction false} WordsSplitAtSpace(a: string, c: char, b: string)
    requires IsSpace(c)
    ensures Words(a + [c] + b) == Words(a) + Words(b)
    decreases |a|
  {
    var s := a + [c] + b;
    if a == [] {
      assert Words(s) == Words(b) by {
        assert s == [c] + b;
        assert s[1..] == b;
      }
    } else if IsSpace(a[0]) {
      assert Words(s) == Words(a[1..] + [c] + b) by {
        assert s[0] == a[0];
        assert s[1..] == a[1..] + [c] + b;
      }
      WordsSplitAtSpace(a[1..], c, b);
    } else {
      WordsPastLeadingWord(a, c, b);
      WordsSplitAtSpace(a[|LeadingWord(a)|..], c, b);
    }
  }

  /** Before a space, the first word of `a + [c] + b` is that of `a`. */
  lemma WordsPastLeadingWord(a: string, c: char, b: string)
    requires IsSpace(c) && a != [] && !IsSpace(a[0])
    ensures var w := LeadingWord(a);
      Words(a + [c] + b) == [w] + Words(a[|w|..] + [c] + b)
  {
    var s, w := a + [c] + b, LeadingWord(a);
    assert s == a + ([c] + b);
    LeadingWordBeforeSpace(a, [c] + b);
    assert s[0] == a[0];
    assert s[|w|..] == a[|w|..] + [c] + b;
  }

  /** `filter(word => word.length > 3)`. */
  function LongWords(words: seq<string>): (r: seq<string>)
    ensures forall k :: 0 <= k < |r| ==> |r[k]| > 3 && r[k] in words
    ensures forall i :: 0 <= i < |words| && |words[i]| > 3 ==> words[i] in r
    ensures |r| <= |words|
  {
    if words == [] then []
    else (if |words[0]| > 3 then [words[0]] else []) + LongWords(words[1..])
  }

  lemma {:induction false} LongWordsAppend(a: seq<string>, b: seq<string>)
    ensures LongWords(a + b) == LongWords(a) + LongWords(b)
  {
    if a == [] {
      assert a + b == b;
    } else {
      assert (a + b)[0] == a[0];
      assert (a + b)[1..] == a[1..] + b;
      LongWordsAppend(a[1..], b);
    }
  }

  /** The goal keywords: at most the first 10 long words of the stripped,
      lower-cased goals. */
  function GoalKeywords(goals: string): (r: seq<string>)
    ensures |r| <= 10
    ensures forall k :: 0 <= k < |r| ==> |r[k]| > 3
    ensures |r| == Min(10, |LongWords(Words(StripPunctuation(ToLower(goals))))|)
    ensures r == LongWords(Words(StripPunctuation(ToLower(goals))))[..|r|]
  {
    var long := LongWords(Words(StripPunctuation(ToLower(goals))));
    if |long| <= 10 then long else long[..10]
  }

  /** How many of `keywords` occur in `text`. */
  function CountIn(keywords: seq<string>, text: string): (r: nat)
    ensures r <= |keywords|
    ensures r == 0 <==> forall k :: 0 <= k < |keywords| ==> !Contains(text, keywords[k])
  {
    if keywords == [] then 0
    else (if Contains(text, keywords[0]) then 1 else 0) + CountIn(keywords[1..], text)
  }

  /** `estimateGoalAlignment`: 15 for three or more matching goal keywords,
      10 for one or two, -5 for none. */
  function EstimateGoalAlignment(goals: string, repo: Repo): (r: int)
    ensures r in {-5, 10, 15}
    ensures r == 15 <==> CountIn(GoalKeywords(goals), RepoText(repo)) >= 3
    ensures r == 10 <==> 1 <= CountIn(GoalKeywords(goals), RepoText(repo)) <= 2
  {
    var matching := CountIn(GoalKeywords(goals), RepoText(repo));
    if matching >= 3 then 15 else if matching >= 1 then 10 else -5
  }

  /** The goal adjustment is negative exactly when no goal keyword occurs in
      the repository's text. */
  lemma GoalPenaltyIffNoKeyword(goals: string, repo: Repo)
    ensures EstimateGoalAlignment(goals, repo) == -5 <==>
      forall k :: 0 <= k < |GoalKeywords(goals)| ==> !Contains(RepoText(repo), GoalKeywords(goals)[k])
  {
  }

  /* ---------------- The score ---------------- */

  /** Some preferred language is a case-insensitive substring of the
      repository's language, or the other way round. */
  predicate LanguageMatches(languages: seq<string>, language: string) {
    exists i :: 0 <= i < |languages| &&
      (Contains(ToLower(language), ToLower(languages[i])) || Contains(ToLower(languages[i]), ToLower(language)))
  }

  function LanguageAdjustment(p: Prefs, repo: Repo): (r: int)
    ensures r in {-10, 0, 25}
    ensures r != 0 <==> HasItems(p.programmingLanguages) && Truthy(repo.language)
    ensures r == 25 <==> (HasItems(p.programmingLanguages) && Truthy(repo.language)
      && LanguageMatches(p.programmingLanguages.value, repo.language.value))
  {
    if !(HasItems(p.programmingLanguages) && Truthy(repo.language)) then 0
    else if LanguageMatches(p.programmingLanguages.value, repo.language.value) then 25
    else -10
  }

  /** The experience table: Beginner +15 at complexity at most 1;
      Intermediate +15 at 2 and +5 at 3; Advanced +15 at 2 or more and -5
      below; anything else 0. */
  function ExperienceAdjustment(level: string, complexity: int): (r: int)
    ensures r in {-5, 0, 5, 15}
    ensures r == -5 <==> level == "Advanced" && complexity < 2
    ensures r == 5 <==> level == "Intermediate" && complexity == 3
    ensures r == 15 <==> ((level == "Beginner" && complexity <= 1)
      || (level == "Intermediate" && complexity == 2) || (level == "Advanced" && complexity >= 2))
  {
    if level == "Beginner" && complexity <= 1 then 15
    else if level == "Intermediate" then (if complexity == 2 then 15 else if complexity == 3 then 5 else 0)
    else if level == "Advanced" then (if complexity >= 2 then 15 else -5)
    else 0
  }

  function InterestAdjustment(matching: nat): (r: int)
    ensures r in {-10, 15, 25}
    ensures r == 25 <==> matching >= 2
    ensures r == -10 <==> matching == 0
  {
    if matching >= 2 then 25 else if matching == 1 then 15 else -10
  }

  /** The number of factors the preferences switch on. */
  function Factors(p: Prefs, repo: Repo): (r: nat)
    ensures r <= 4
    ensures r == 0 ==> RawScore(p, repo) == 50
  {
    (if HasItems(p.programmingLanguages) && Truthy(repo.language) then 1 else 0)
    + (if Truthy(p.experienceLevel) then 1 else 0)
    + (if HasItems(p.techInterests) then 1 else 0)
    + (if Truthy(p.goals) then 1 else 0)
  }

  /** 50 plus the adjustment of every active factor. */
  function RawScore(p: Prefs, repo: Repo): int {
    50
    + LanguageAdjustment(p, repo)
    + (if Truthy(p.experienceLevel) then ExperienceAdjustment(p.experienceLevel.value, EstimateRepoComplexity(repo)) else 0)
    + (if HasItems(p.techInterests) then InterestAdjustment(MatchingInterests(p.techInterests.value, RepoText(repo))) else 0)
    + (if Truthy(p.goals) then EstimateGoalAlignment(p.goals.value, repo) else 0)
  }

  /** The reference definition of the score: the raw sum, clamped once a
      factor was considered. */
  function RecommendationScore(repo: Repo, prefs: Option<Prefs>): (r: int)
    ensures 0 <= r <= 100
    ensures !Onboarded(prefs) ==> r == 50
  {
    if !Onboarded(prefs) then 50
    else
      var p := prefs.value;
      if Factors(p, repo) > 0 then Max(0, Min(100, RawScore(p, repo)))
      else
        assert RawScore(p, repo) == 50;
        RawScore(p, repo)
  }

  /** The unclamped sum stays within 20..130. */
  lemma RawScoreRange(p: Prefs, repo: Repo)
    ensures 20 <= RawScore(p, repo) <= 130
  {
  }

  /** The upper clamp is reached: a matching language, an advanced user on a
      non-simple repository, two matching interests and three matching goal
      keywords sum to 130, which is reported as 100. */
  lemma UpperClampReachable(p: Prefs, repo: Repo)
    requires HasItems(p.programmingLanguages) && Truthy(repo.language)
    requires LanguageMatches(p.programmingLanguages.value, repo.language.value)
    requires p.experienceLevel == Some("Advanced") && EstimateRepoComplexity(repo) >= 2
    requires HasItems(p.techInterests) && MatchingInterests(p.techInterests.value, RepoText(repo)) >= 2
    requires Truthy(p.goals) && CountIn(GoalKeywords(p.goals.value), RepoText(repo)) >= 3
    ensures RawScore(p, repo) == 130
    ensures RecommendationScore(repo, Some(p.(onboardingCompleted := Some(true)))) == 100
  {
  }

  /** A word repeated three times, space-separated, is three words. */
  lemma ThreeWords(w: string, text: string)
    requires |w| > 0 && forall i :: 0 <= i < |w| ==> !IsSpace(w[i])
    requires text == w + [' '] + (w + [' '] + w)
    ensures Words(text) == [w, w, w]
  {
    WordsOfWord(w);
    WordsSplitAtSpace(w, ' ', w);
    WordsSplitAtSpace(w, ' ', w + [' '] + w);
  }

  /** A long lower-case word written three times has itself three times as
      its goal keywords. */
  lemma ThreeGoalKeywords(w: string, goals: string)
    requires |w| > 3 && forall i :: 0 <= i < |w| ==> 'a' <= w[i] <= 'z'
    requires goals == w + [' '] + (w + [' '] + w)
    ensures GoalKeywords(goals) == [w, w, w]
  {
    LongWordThrice(w);
    CleanGoalsUnchanged(goals);
    ThreeWords(w, goals);
  }

  lemma LongWordThrice(w: string)
    requires |w| > 3
    ensures LongWords([w, w, w]) == [w, w, w]
  {
    LongWordsKeepsLong([w, w, w]);
  }

  /** Lower-case letters and spaces survive lower-casing and stripping. */
  lemma CleanGoalsUnchanged(goals: string)
    requires forall i :: 0 <= i < |goals| ==> goals[i] == ' ' || 'a' <= goals[i] <= 'z'
    ensures StripPunctuation(ToLower(goals)) == goals
  {
    assert ToLower(goals) == goals;
  }

  /** A list of long words passes the length filter whole. */
  lemma {:induction false} LongWordsKeepsLong(words: seq<string>)
    requires forall k :: 0 <= k < |words| ==> |words[k]| > 3
    ensures LongWords(words) == words
  {
    if words != [] {
      LongWordsKeepsLong(words[1..]);
    }
  }

  /** The repository `node`: its complexity is the neutral 2, and its text
      is "node  node ". */
  lemma WitnessRepo(repo: Repo)
    requires repo == Repo("octo", "node", Some("node"), None, None)
    ensures EstimateRepoComplexity(repo) == 2
    ensures RepoText(repo) == "node  node "
  {
    // No keyword is short enough to occur in the four-letter name.
    assert !HasIndicators(ComplexityKeywords, repo) && !HasIndicators(SimpleKeywords, repo) by {
      assert |ToLower(repo.name)| == 4 && ToLower(OrElse(repo.description, "")) == [];
    }
    assert RepoText(repo) == "node  node " by {
      assert repo.name + " " + "" + " " + "node" + " " + Join([], " ") == "node  node ";
      assert ToLower("node  node ") == "node  node ";
    }
  }

  /** "node" matches itself. */
  lemma WitnessLanguage(node: string)
    requires node == "node"
    ensures LanguageMatches([node], node)
  {
    assert ToLower(node) == node;
    assert OccursAt(ToLower(node), ToLower(node), 0);
    assert Contains(ToLower(node), ToLower(node));
    assert [node][0] == node;
  }

  /** Web development (listed twice) matches "node  node " twice, and each
      of three "node" goal keywords occurs in it. */
  lemma WitnessMatches(text: string)
    requires text == "node  node "
    ensures MatchingInterests(["Web Development", "Web Development"], text) == 2
    ensures CountIn(["node", "node", "node"], text) == 3
  {
    var node := "node";
    assert OccursAt(text, node, 0);
    assert Contains(text, node);
    assert ToLower(InterestKeywords("Web Development")[11]) == node;
    assert InterestMatches("Web Development", text);
    assert ["Web Development", "Web Development"][..1] == ["Web Development"];
    assert ["Web Development"][..0] == [];
  }

  lemma WitnessGoals(goals: string)
    requires goals == "node node node"
    ensures GoalKeywords(goals) == ["node", "node", "node"]
  {
    var node := "node";
    assert forall i :: 0 <= i < |node| ==> 'a' <= node[i] <= 'z';
    assert goals == node + [' '] + (node + [' '] + node);
    ThreeGoalKeywords(node, goals);
  }

  /** A user who knows Node, is advanced, is interested in web development
      (listed twice) and wants to "node node node" scores the repository
      `node` (language Node, no description, no topics) at 100. */
  lemma UpperClampWitness(repo: Repo, p: Prefs)
    requires repo == Repo("octo", "node", Some("node"), None, None)
    requires p == Prefs(Some(["node"]), Some("Advanced"), Some(["Web Development", "Web Development"]),
                        Some("node node node"), Some(true))
    ensures RecommendationScore(repo, Some(p)) == 100
  {
    WitnessRepo(repo);
    WitnessLanguage("node");
    WitnessMatches(RepoText(repo));
    WitnessGoals(p.goals.value);
    assert p.(onboardingCompleted := Some(true)) == p;
    UpperClampReachable(p, repo);
  }

  /** `calculateRecommendationScore`: starts at 50, lets each active factor
      add its adjustment and count itself, clamps to 0..100 when some factor
      was counted. */
  method CalculateRecommendationScore(repo: Repo, prefs: Option<Prefs>) returns (r: int)
    ensures r == RecommendationScore(repo, prefs)
    ensures 0 <= r <= 100
  {
    if !Onboarded(prefs) {
      return 50;
    }
    var p := prefs.value;
    var score := 50;
    var factors := 0;

    if HasItems(p.programmingLanguages) && Truthy(repo.language) {
      factors := factors + 1;
      if LanguageMatches(p.programmingLanguages.value, repo.language.value) {
        score := score + 25;
      } else {
        score := score - 10;
      }
    }
    assert score == 50 + LanguageAdjustment(p, repo);

    if Truthy(p.experienceLevel) {
      factors := factors + 1;
      var repoComplexity := EstimateRepoComplexity(repo);
      var level := p.experienceLevel.value;
      if level == "Beginner" && repoComplexity <= 1 {
        score := score + 15;
      } else if level == "Intermediate" {
        if repoComplexity == 2 {
          score := score + 15;
        } else if repoComplexity == 3 {
          score := score + 5;
        }
      } else if level == "Advanced" {
        if repoComplexity >= 2 {
          score := score + 15;
        } else {
          score := score - 5;
        }
      }
      assert score == 50 + LanguageAdjustment(p, repo) + ExperienceAdjustment(level, repoComplexity);
    }

    if HasItems(p.techInterests) {
      factors := factors + 1;
      var matchingInterests := MatchInterestsToRepo(p.techInterests.value, repo);
      if matchingInterests >= 2 {
        score := score + 25;
      } else if matchingInterests == 1 {
        score := score + 15;
      } else {
        score := score - 10;
      }
    }

    if Truthy(p.goals) {
      factors := factors + 1;
      var goalAlignment := EstimateGoalAlignment(p.goals.value, repo);
      score := score + goalAlignment;
    }

    assert factors == Factors(p, repo);
    assert score == RawScore(p, repo);
    if factors > 0 {
      score := Max(0, Min(100, score));
    }
    r := score;
  }

  /* ---------------- The queries ---------------- */

  const NotOnboardedMessage: string := "Complete onboarding for personalized scores"

  /** The message for a score, by the thresholds 80, 60 and 40. */
  function ScoreMessage(score: int): (r: string)
    ensures score >= 80 <==> r == "Highly recommended for you"
    ensures 60 <= score < 80 <==> r == "Good match for your skills"
    ensures 40 <= score < 60 <==> r == "Might be worth exploring"
    ensures score < 40 <==> r == "Might be challenging based on your background"
  {
    if score >= 80 then "Highly recommended for you"
    else if score >= 60 then "Good match for your skills"
    else if score >= 40 then "Might be worth exploring"
    else "Might be challenging based on your background"
  }

  /** `calculateRepoScore`: the fixed 50 and onboarding message without
      preferences, otherwise the computed score and its message. */
  method CalculateRepoScore(repo: Repo, prefs: Option<Prefs>) returns (score: int, message: string)
    ensures score == RecommendationScore(repo, prefs) && 0 <= score <= 100
    ensures !Onboarded(prefs) ==> score == 50 && message == NotOnboardedMessage
    ensures Onboarded(prefs) ==> message == ScoreMessage(score)
  {
    if !Onboarded(prefs) {
      return 50, NotOnboardedMessage;
    }
    score := CalculateRecommendationScore(repo, prefs);
    message := ScoreMessage(score);
  }

  datatype ScoredRepo = ScoredRepo(repo: Repo, recommendationScore: int, scoreMessage: string)

  /** `calculateMultipleScores`: the repositories in their order, each with
      its score and message. */
  function CalculateMultipleScores(repos: seq<Repo>, prefs: Option<Prefs>): (r: seq<ScoredRepo>)
    ensures |r| == |repos|
    ensures forall i :: 0 <= i < |r| ==> r[i].repo == repos[i]
    ensures forall i :: 0 <= i < |r| ==>
      r[i].recommendationScore == RecommendationScore(repos[i], prefs) && 0 <= r[i].recommendationScore <= 100
    ensures !Onboarded(prefs) ==> forall i :: 0 <= i < |r| ==>
      r[i].recommendationScore == 50 && r[i].scoreMessage == NotOnboardedMessage
    ensures Onboarded(prefs) ==> forall i :: 0 <= i < |r| ==>
      r[i].scoreMessage == ScoreMessage(r[i].recommendationScore)
  {
    if !Onboarded(prefs) then
      seq(|repos|, i requires 0 <= i < |repos| => ScoredRepo(repos[i], 50, NotOnboardedMessage))
    else
      seq(|repos|, i requires 0 <= i < |repos| =>
        var score := RecommendationScore(repos[i], prefs);
        ScoredRepo(repos[i], score, ScoreMessage(score)))
  }
}

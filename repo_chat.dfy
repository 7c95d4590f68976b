/** The repository chat gateway (src/server/repo-chat/index.ts): before the
    language model is asked, `chatWithRepository` gathers the repository's
    details and its Repomix digest, serving the digest from the disk cache
    when it can and writing a freshly built one back; it then cuts the
    README and the digest to a budget that depends on the question, and
    keeps only the last four messages of the conversation.

    The GitHub details call is an input (`details`, absent when it failed);
    the digest builder is the one of the `Repomix` module, driven by its
    GitHub oracles; the language-model call and the prompt text around the
    context are not modelled. */
module RepoChat {
  import opened Common
  import FileCache
  import Repomix

  /* ---------------- Question size and budgets ---------------- */

  /** A short question that asks for no code: under 50 characters, and its
      lower-cased text mentions none of `code`, `implement`, `example`. */
  predicate IsQuickQuestion(message: string) {
    |message| < 50
    && !Contains(ToLower(message), "code")
    && !Contains(ToLower(message), "implement")
    && !Contains(ToLower(message), "example")
  }

  /** The character budgets of the digest and of the README. */
  datatype Budget = Budget(repoContentSize: nat, readmeSize: nat)

  function BudgetFor(message: string): (r: Budget)
    ensures IsQuickQuestion(message) <==> r == Budget(5000, 2000)
    ensures !IsQuickQuestion(message) <==> r == Budget(15000, 6000)
  {
    if IsQuickQuestion(message) then Budget(5000, 2000) else Budget(15000, 6000)
  }

  /** A question naming code is never quick, whatever its length. */
  lemma CodeQuestionsGetTheLargeBudget(message: string)
    requires Contains(ToLower(message), "code")
    ensures BudgetFor(message) == Budget(15000, 6000)
  {
  }

  const TruncationMarker: string := "...(content truncated)"

  /** `content.substring(0, size)` followed by the marker when something was
      cut off. */
  function Truncate(content: string, size: nat): (r: string)
    ensures |content| <= size ==> r == content
    ensures |content| > size ==> r == content[..size] + TruncationMarker
    ensures |r| <= size + |TruncationMarker|
  {
    if |content| > size then content[..size] + TruncationMarker else content
  }

  /** What remains of the content is a prefix of it, and the marker shows
      exactly when content was lost. */
  lemma TruncateKeepsPrefix(content: string, size: nat)
    ensures StartsWith(Truncate(content, size), content[..Min(size, |content|)])
    ensures EndsWith(Truncate(content, size), TruncationMarker) || Truncate(content, size) == content
  {
    var r := Truncate(content, size);
    var k := Min(size, |content|);
    if |content| > size {
      assert r[..k] == content[..size];
      assert r[|r| - |TruncationMarker|..] == TruncationMarker;
    } else {
      assert content[..k] == content;
    }
  }

  /* ---------------- Context blocks ---------------- */

  /** The README line of the context: the cut README, or `Not available.`
      for a missing or empty README. */
  function ReadmeBlock(readme: Option<string>, budget: Budget): string {
    if Truthy(readme) then Truncate(readme.value, budget.readmeSize) else "Not available."
  }

  const AnalysisHeading: string := "\n\nRepository Analysis (via Repomix):\n"
  const NoAnalysis: string := "Repository code analysis not available."

  /** The digest part of the context. */
  function AnalysisBlock(content: Option<string>, budget: Budget): string {
    if Truthy(content) then AnalysisHeading + Truncate(content.value, budget.repoContentSize) else NoAnalysis
  }

  /* ---------------- Chat history ---------------- */

  datatype Role = User | Assistant

  datatype ChatMessage = ChatMessage(role: Role, content: string)

  function HistoryLine(m: ChatMessage): (r: string)
    ensures var tag := if m.role == User then "User: " else "Assistant: ";
      StartsWith(r, tag) && r[|tag|..] == m.content
  {
    var tag := if m.role == User then "User: " else "Assistant: ";
    assert (tag + m.content)[..|tag|] == tag;
    tag + m.content
  }

  function HistoryLines(history: seq<ChatMessage>): (r: seq<string>)
    ensures |r| == |history|
    ensures forall i :: 0 <= i < |history| ==> r[i] == HistoryLine(history[i])
  {
    seq(|history|, i requires 0 <= i < |history| => HistoryLine(history[i]))
  }

  /** `history.slice(-4)`: the last four messages, or all of them. */
  function LastFour(history: seq<ChatMessage>): (r: seq<ChatMessage>)
    ensures |r| == Min(4, |history|)
    ensures r == history[|history| - |r|..]
  {
    if |history| <= 4 then history else history[|history| - 4..]
  }

  /** The history block: the last four messages, one labelled line each,
      joined by newlines; the empty string for an empty history. */
  function FormatHistory(history: seq<ChatMessage>): (r: string)
    ensures history == [] ==> r == ""
  {
    if |history| > 0 then Join(HistoryLines(LastFour(history)), "\n") else ""
  }

  /** Only the last four messages matter: anything said before them leaves
      the block unchanged. */
  lemma HistoryUsesLastFour(earlier: seq<ChatMessage>, recent: seq<ChatMessage>)
    requires |recent| >= 4
    ensures FormatHistory(earlier + recent) == FormatHistory(recent)
  {
    var h := earlier + recent;
    assert h[|h| - 4..] == recent[|recent| - 4..];
  }

  /** A short history is shown whole: one line per message. */
  lemma ShortHistoryShownWhole(history: seq<ChatMessage>)
    requires 0 < |history| <= 4
    ensures FormatHistory(history) == Join(HistoryLines(history), "\n")
  {
  }

  /* ---------------- The gateway ---------------- */

  /** What `getRepoDetails` yields: the description and the decoded README. */
  datatype RepoDetails = RepoDetails(description: Option<string>, readme: Option<string>)

  /** The parts of the context the model builds. */
  datatype ChatContext = ChatContext(
    description: string,
    readme: string,
    analysis: string,
    history: string)

  const TokenMessage: string := "GitHub token not configured"
  const NotFoundMessage: string := "Repository not found"

  /** The cache after a `get`: a stale or corrupt record is deleted, unless
      the deletion fails. */
  function AfterGet(files: FileCache.Directory, owner: string, repoName: string, now: int, unlinkOk: bool): FileCache.Directory {
    var name := FileCache.CacheFileName(owner, repoName);
    if FileCache.Stale(files, name, now) && unlinkOk then files - {name} else files
  }

  /** The cache after a successful `set`. */
  function AfterSet(files: FileCache.Directory, owner: string, repoName: string, content: string, now: int): FileCache.Directory {
    var name := FileCache.CacheFileName(owner, repoName);
    (files - {name + FileCache.TempSuffix})[name := FileCache.Parsed(FileCache.NewRecord(owner, repoName, content, now))]
  }

  function Context(details: RepoDetails, message: string, content: Option<string>, history: seq<ChatMessage>): ChatContext {
    var budget := BudgetFor(message);
    ChatContext(
      OrElse(details.description, "Not provided."),
      ReadmeBlock(details.readme, budget),
      AnalysisBlock(content, budget),
      FormatHistory(history))
  }

  /** The context stays within the budget of its question: the README part
      is at most the README budget plus the marker, the digest part at most
      the digest budget plus its heading and the marker; content within its
      budget is passed on whole. */
  lemma ContextWithinBudget(details: RepoDetails, message: string, content: Option<string>, history: seq<ChatMessage>)
    ensures var c, b := Context(details, message, content, history), BudgetFor(message);
      |c.readme| <= b.readmeSize + |TruncationMarker|
      && |c.analysis| <= |AnalysisHeading| + b.repoContentSize + |TruncationMarker|
      && (Truthy(details.readme) && |details.readme.value| <= b.readmeSize ==> c.readme == details.readme.value)
      && (Truthy(content) && |content.value| <= b.repoContentSize ==> c.analysis == AnalysisHeading + content.value)
  {
  }

  /** `chatWithRepository` up to the language-model call. It fails without a
      token, before anything else. The cache `get` runs alongside the details
      fetch, so it has taken effect even when the repository is not found.
      A hit (truthy cached content) is used as it is: the digest is not
      rebuilt and the cache is not written. On a miss the digest is built,
      and written back only when there is one. `processed` says whether the
      digest builder ran. */
  method ChatWithRepository(
    cache: FileCache.RepomixFileCache,
    message: string, owner: string, repoName: string, history: seq<ChatMessage>,
    githubToken: Option<string>, details: Option<RepoDetails>, now: int, unlinkOk: bool, diskOk: bool,
    meta: nat -> Repomix.Attempt<Repomix.RepoMeta>,
    tree: nat -> Repomix.Attempt<seq<Repomix.TreeEntry>>,
    blob: Repomix.BlobOracle)
    returns (r: Result<ChatContext, string>, processed: bool)
    modifies cache
    ensures !Truthy(githubToken) ==> r == Err(TokenMessage) && !processed && cache.files == old(cache.files)
    ensures Truthy(githubToken) && details.None? ==>
      r == Err(NotFoundMessage) && !processed
      && cache.files == AfterGet(old(cache.files), owner, repoName, now, unlinkOk)
    ensures Truthy(githubToken) && details.Some? ==>
      var cached := FileCache.Lookup(old(cache.files), FileCache.CacheFileName(owner, repoName), now);
      var afterGet := AfterGet(old(cache.files), owner, repoName, now, unlinkOk);
      var built := Repomix.Digest(meta, tree, blob);
      (processed <==> !Truthy(cached))
      && (Truthy(cached) ==> r == Ok(Context(details.value, message, cached, history)) && cache.files == afterGet)
      && (!Truthy(cached) ==>
            r == Ok(Context(details.value, message, built, history))
            && cache.files == (if Truthy(built) && diskOk then AfterSet(afterGet, owner, repoName, built.value, now) else afterGet))
  {
    processed := false;
    if !Truthy(githubToken) {
      return Err(TokenMessage), false;
    }
    var cachedRepoContent := cache.Get(owner, repoName, now, unlinkOk);
    if details.None? {
      return Err(NotFoundMessage), false;
    }
    var repoContent := cachedRepoContent;
    if !Truthy(repoContent) {
      processed := true;
      var built, _ := Repomix.ProcessRepository(owner, repoName, meta, tree, blob);
      repoContent := built;
      if Truthy(repoContent) {
        cache.Set(owner, repoName, repoContent.value, now, diskOk);
      }
    }
    r := Ok(Context(details.value, message, repoContent, history));
  }

  /** Write-back pays off: after a chat that built and stored the digest, a
      chat about the same repository within 7 days is served from the cache
      and does not rebuild it. */
  method SecondChatIsServedFromCache(
    cache: FileCache.RepomixFileCache,
    owner: string, repoName: string, details: RepoDetails, token: string,
    t0: int, t1: int, unlinkOk: bool,
    meta: nat -> Repomix.Attempt<Repomix.RepoMeta>,
    tree: nat -> Repomix.Attempt<seq<Repomix.TreeEntry>>,
    blob: Repomix.BlobOracle)
    returns (firstProcessed: bool, secondProcessed: bool)
    requires token != ""
    requires FileCache.CacheFileName(owner, repoName) !in cache.files
    requires Truthy(Repomix.Digest(meta, tree, blob))
    requires t1 - t0 <= FileCache.MaxAge
    modifies cache
    ensures firstProcessed && !secondProcessed
  {
    ghost var f0 := cache.files;
    var _, p0 := ChatWithRepository(cache, "What is it?", owner, repoName, [], Some(token), Some(details), t0, unlinkOk, true, meta, tree, blob);
    firstProcessed := p0;
    var name := FileCache.CacheFileName(owner, repoName);
    FileCache.StoreThenLookup(AfterGet(f0, owner, repoName, t0, unlinkOk) - {name + FileCache.TempSuffix},
                              owner, repoName, Repomix.Digest(meta, tree, blob).value, t0, t1);
    var _, p1 := ChatWithRepository(cache, "What is it?", owner, repoName, [], Some(token), Some(details), t1, unlinkOk, true, meta, tree, blob);
    secondProcessed := p1;
  }

  /* ---------------- clearRepositoryCache ---------------- */

  /** `clearRepositoryCache`: `success` is whether a record was deleted, and
      the message says which happened. A record whose deletion fails stays,
      and is reported as not found. */
  method ClearRepositoryCache(cache: FileCache.RepomixFileCache, owner: string, repoName: string, unlinkOk: bool)
    returns (success: bool, message: string, repository: string)
    modifies cache
    ensures success <==> FileCache.CacheFileName(owner, repoName) in old(cache.files) && unlinkOk
    ensures cache.files == if unlinkOk then old(cache.files) - {FileCache.CacheFileName(owner, repoName)} else old(cache.files)
    ensures repository == owner + "/" + repoName
    ensures message == if success then "Cache cleared for " + repository else "No cache found for " + repository
  {
    var cleared := cache.ClearRepo(owner, repoName, unlinkOk);
    success := cleared;
    repository := owner + "/" + repoName;
    message := if cleared then "Cache cleared for " + repository else "No cache found for " + repository;
  }
}

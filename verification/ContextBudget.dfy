/** Token budgets: truncation, the planning prompt, and the context of a model call.
    Exactly when each stays within what the model can take. */
module ContextBudget {
  import opened Collections

  const CHARS_PER_TOKEN := 4
  const NOTICE := "\n[...context truncated to fit token budget...]"

  function EstimateTokens(text: string): nat {
    Max(1, |text| / CHARS_PER_TOKEN)
  }

  function TruncateToTokens(text: string, maxTokens: int): string {
    if maxTokens <= 0 || EstimateTokens(text) <= maxTokens then text
    else
      var maxChars := maxTokens * CHARS_PER_TOKEN - |NOTICE|;
      text[..Max(0, maxChars)] + NOTICE
  }

  /** The result fits exactly when the text already did or the budget has room for the
      notice itself, which takes eleven tokens. */
  lemma TruncationFits(text: string, maxTokens: int)
    ensures EstimateTokens(TruncateToTokens(text, maxTokens)) <= maxTokens <==>
            EstimateTokens(text) <= maxTokens || maxTokens >= 11
  {
    assert |NOTICE| == 46;
  }

  lemma TruncationAtMost(text: string, maxTokens: int)
    requires maxTokens > 0
    ensures EstimateTokens(TruncateToTokens(text, maxTokens)) <= Max(maxTokens, 11)
  {
    assert |NOTICE| == 46;
  }

  /** A cut text keeps as much of the beginning as the budget holds beside the notice. */
  lemma TruncationKeepsMost(text: string, maxTokens: int)
    requires 0 < maxTokens < EstimateTokens(text)
    ensures exists k :: 0 <= k < |text| && TruncateToTokens(text, maxTokens) == text[..k] + NOTICE && LargestCut(k, maxTokens)
  {
    var k := Max(0, maxTokens * CHARS_PER_TOKEN - |NOTICE|);
    assert TruncateToTokens(text, maxTokens) == text[..k] + NOTICE && LargestCut(k, maxTokens);
  }

  /** Of all k for which k characters and the notice fit, the largest; 0 if none does. */
  predicate LargestCut(k: nat, maxTokens: int) {
    if |NOTICE| > maxTokens * CHARS_PER_TOKEN then k == 0
    else k + |NOTICE| <= maxTokens * CHARS_PER_TOKEN < k + 1 + |NOTICE|
  }

  // ----- one planning prompt -----

  datatype Budget = Budget(nCtx: int, responseTokens: int) {
    /** Tokens left for the prompt; a negative response reserve counts as none. */
    function Usable(): nat {
      Max(0, nCtx - Max(0, responseTokens))
    }

    function Margin(): int {
      Max(50, (nCtx as real * 0.05).Floor)
    }

    function ContextTokenAllowance(basePrompt: string): nat {
      Max(0, Usable() - |basePrompt| / CHARS_PER_TOKEN - Margin())
    }
  }

  const HEADING := "Current workspace context (recent activity in this session):\n\n"

  /** The planning prompt with its workspace context in front, cut to the allowance. */
  function PlanningPrompt(budget: Budget, prompt: string, context: string): string {
    if context == "" then prompt
    else
      var cut := TruncateToTokens(context, budget.ContextTokenAllowance(prompt));
      if cut == "" then prompt else HEADING + cut + "\n\n" + prompt
  }

  /** With any allowance at all the prompt fits; with none the context goes in whole, and
      it fits only if it would have fitted whole. */
  lemma PlanningPromptFits(budget: Budget, prompt: string, context: string)
    requires context != ""
    ensures EstimateTokens(PlanningPrompt(budget, prompt, context)) <= budget.Usable() <==>
            || budget.ContextTokenAllowance(prompt) > 0
            || EstimateTokens(HEADING + context + "\n\n" + prompt) <= budget.Usable()
  {
    var allowance := budget.ContextTokenAllowance(prompt);
    assert |HEADING| == 62;
    if allowance > 0 {
      TruncationAtMost(context, allowance);
    }
  }

  /** A prompt one token short of the window gets its context unabridged, however long. */
  lemma NoAllowanceNoTruncation(budget: Budget, prompt: string, context: string)
    requires |prompt| / CHARS_PER_TOKEN + budget.Margin() >= budget.Usable() && context != ""
    ensures PlanningPrompt(budget, prompt, context) == HEADING + context + "\n\n" + prompt
  {
  }

  // ----- conversation history -----

  datatype Message = Message(role: string, content: string)

  function Tokens(messages: seq<Message>): nat {
    if messages == [] then 0 else EstimateTokens(messages[0].content) + Tokens(messages[1..])
  }

  /** The longest run of newest messages that fits, or the newest alone when even that
      one does not. */
  ghost predicate IsCapped(messages: seq<Message>, budget: int, k: nat)
    requires k < |messages|
  {
    && (k < |messages| - 1 ==> Tokens(messages[k..]) <= budget)
    && (forall m :: 0 <= m < k ==> Tokens(messages[m..]) > budget)
  }

  lemma {:induction false} TokensGrow(messages: seq<Message>, i: nat, j: nat)
    requires i <= j <= |messages|
    ensures Tokens(messages[j..]) <= Tokens(messages[i..])
    decreases j - i
  {
    if i < j {
      TokensGrow(messages, i + 1, j);
      assert messages[i..][1..] == messages[i + 1..];
    }
  }

  lemma TokensFrom(messages: seq<Message>, i: nat)
    requires i < |messages|
    ensures Tokens(messages[i..]) == EstimateTokens(messages[i].content) + Tokens(messages[i + 1..])
    ensures i + 1 == |messages| ==> Tokens(messages[i + 1..]) == 0
  {
    assert messages[i..][1..] == messages[i + 1..];
  }

  method CapHistory(messages: seq<Message>, budget: int) returns (result: seq<Message>, ghost k: nat)
    ensures messages == [] ==> result == []
    ensures messages != [] ==> k < |messages| && result == messages[k..] && IsCapped(messages, budget, k)
  {
    hide Tokens, EstimateTokens;
    k := 0;
    if messages == [] {
      return [], 0;
    }
    var n := |messages|;
    var newest := messages[n - 1];
    result := [newest];
    k := n - 1;
    var total := EstimateTokens(newest.content);
    NewestOnly(messages);
    var i := n - 1;
    while i > 0
      invariant 0 <= i == k < n && result == messages[k..] && total == Tokens(messages[k..])
      invariant k < n - 1 ==> total <= budget
      decreases i
    {
      var msg := messages[i - 1];
      var tokens := EstimateTokens(msg.content);
      OneMoreMessage(messages, i - 1);
      if total + tokens > budget {
        LongerOverrun(messages, budget, i - 1);
        return;
      }
      result := [msg] + result;
      total := total + tokens;
      i, k := i - 1, i - 1;
    }
  }

  lemma NewestOnly(messages: seq<Message>)
    requires messages != []
    ensures messages[|messages| - 1..] == [messages[|messages| - 1]]
    ensures Tokens(messages[|messages| - 1..]) == EstimateTokens(messages[|messages| - 1].content)
  {
    hide EstimateTokens;
    TokensFrom(messages, |messages| - 1);
  }

  lemma OneMoreMessage(messages: seq<Message>, i: nat)
    requires i + 1 < |messages|
    ensures messages[i..] == [messages[i]] + messages[i + 1..]
    ensures Tokens(messages[i..]) == Tokens(messages[i + 1..]) + EstimateTokens(messages[i].content)
  {
    hide EstimateTokens;
    TokensFrom(messages, i);
  }

  lemma LongerOverrun(messages: seq<Message>, budget: int, i: nat)
    requires i < |messages| && Tokens(messages[i..]) > budget
    ensures forall m :: 0 <= m <= i ==> Tokens(messages[m..]) > budget
  {
    hide Tokens;
    forall m | 0 <= m <= i ensures Tokens(messages[m..]) > budget {
      TokensGrow(messages, m, i);
    }
  }

  lemma CappedOnce(messages: seq<Message>, budget: int, j: nat, k: nat)
    requires j < |messages| && k < |messages| && IsCapped(messages, budget, j) && IsCapped(messages, budget, k)
    ensures j == k
  {
    assert messages[j..] == messages[j..] && messages[k..] == messages[k..];
  }

  // ----- the context of one model call -----

  const OVERHEAD_MARGIN := 200
  const HISTORY_FRACTION: real := 0.3
  const REPO_FRACTION: real := 0.4

  /** What a call is built from: `raw` is the repository context as retrieved (empty when
      there is none), `execution` the block of recent steps (empty when there are none). */
  datatype Request = Request(task: string, system: string, tools: string, history: seq<Message>, raw: string,
                             execution: string)

  datatype EngineContext = EngineContext(history: seq<Message>, contextBlock: string, tokensUsed: nat, tokensBudget: nat)

  /** Tokens of the parts no budget can shrink. */
  function Fixed(r: Request): nat {
    EstimateTokens(r.system) + EstimateTokens(r.tools) + EstimateTokens(r.task)
  }

  function Newest(r: Request): nat {
    if r.history == [] then 0 else EstimateTokens(r.history[|r.history| - 1].content)
  }

  function Remaining(b: Budget, r: Request): nat {
    Max(0, b.Usable() - (Fixed(r) + OVERHEAD_MARGIN))
  }

  function HistoryShare(b: Budget, r: Request): nat {
    (Remaining(b, r) as real * HISTORY_FRACTION).Floor
  }

  function RepoShare(b: Budget, r: Request): nat {
    (Remaining(b, r) as real * REPO_FRACTION).Floor
  }

  function RepoContext(raw: string, budget: int): string {
    if budget <= 0 || raw == "" then "" else TruncateToTokens(raw, budget)
  }

  function Block(repo: string, execution: string): string {
    if repo == "" then execution else if execution == "" then repo else repo + "\n\n" + execution
  }

  lemma HistoryBounds(r: Request, budget: int, k: nat)
    requires k < |r.history| && IsCapped(r.history, budget, k)
    ensures Newest(r) <= Tokens(r.history[k..]) <= Max(budget, Newest(r))
  {
    var n := |r.history|;
    TokensFrom(r.history, n - 1);
    TokensGrow(r.history, k, n - 1);
  }

  /** What a call uses, given what its history takes: the repository share gives way to a
      history that overruns its own. */
  lemma UsedBounds(b: Budget, r: Request, historyTokens: nat, repo: string)
    requires Newest(r) <= historyTokens <= Max(HistoryShare(b, r), Newest(r))
    requires repo == RepoContext(r.raw, RepoShare(b, r) - Max(0, historyTokens - HistoryShare(b, r)))
    ensures var used := Fixed(r) + EstimateTokens(Block(repo, r.execution)) + historyTokens;
            && (r.execution == "" ==> (used <= b.Usable() <==> Fixed(r) + Newest(r) + 1 <= b.Usable()))
            && (Fixed(r) + Newest(r) + 1 <= b.Usable() ==> used <= b.Usable() + |r.execution| / CHARS_PER_TOKEN)
  {
    var share := RepoShare(b, r) - Max(0, historyTokens - HistoryShare(b, r));
    ShareBounds(b, r);
    if share > 0 {
      TruncationAtMost(r.raw, share);
    }
    hide HistoryShare, RepoShare, TruncateToTokens, Tokens, Fixed, Newest;
    BlockTokens(repo, r.execution);
  }

  lemma ShareBounds(b: Budget, r: Request)
    ensures 10 * HistoryShare(b, r) <= 3 * Remaining(b, r) && 10 * RepoShare(b, r) <= 4 * Remaining(b, r)
    ensures Remaining(b, r) == 0 || b.Usable() == Fixed(r) + OVERHEAD_MARGIN + Remaining(b, r)
  {
  }

  lemma BlockTokens(repo: string, execution: string)
    ensures execution == "" ==> EstimateTokens(Block(repo, execution)) == EstimateTokens(repo)
    ensures EstimateTokens(Block(repo, execution)) <= EstimateTokens(repo) + |execution| / CHARS_PER_TOKEN + (if repo == "" then 0 else 2)
  {
  }

  lemma NoTokens()
    ensures Tokens([]) == 0
  {
  }

  /** The shares, the reclaim rule and what a call is charged. */
  ghost predicate IsContext(b: Budget, r: Request, c: EngineContext, k: nat) {
    var overrun := Max(0, Tokens(c.history) - HistoryShare(b, r));
    && c.tokensBudget == b.Usable()
    && (r.history == [] ==> c.history == [])
    && (r.history != [] ==>
          k < |r.history| && c.history == r.history[k..] && IsCapped(r.history, HistoryShare(b, r), k))
    && c.contextBlock == Block(RepoContext(r.raw, RepoShare(b, r) - overrun), r.execution)
    && c.tokensUsed == Fixed(r) + EstimateTokens(c.contextBlock) + Tokens(c.history)
  }

  /** Without execution results a call fits exactly when its fixed parts, the newest
      message and one token do; with them it exceeds the window by no more than they
      take. */
  lemma FitsIff(b: Budget, r: Request, c: EngineContext, k: nat)
    requires IsContext(b, r, c, k)
    ensures r.execution == "" ==> (c.tokensUsed <= b.Usable() <==> Fixed(r) + Newest(r) + 1 <= b.Usable())
    ensures Fixed(r) + Newest(r) + 1 <= b.Usable() ==> c.tokensUsed <= b.Usable() + |r.execution| / CHARS_PER_TOKEN
    ensures Fixed(r) + Newest(r) + 1 <= c.tokensUsed
  {
    hide IsCapped, Tokens, TruncateToTokens, Block, HistoryShare, RepoShare, Fixed;
    var overrun := Max(0, Tokens(c.history) - HistoryShare(b, r));
    if r.history == [] {
      NoTokens();
    } else {
      HistoryBounds(r, HistoryShare(b, r), k);
    }
    UsedBounds(b, r, Tokens(c.history), RepoContext(r.raw, RepoShare(b, r) - overrun));
  }

  method Build(b: Budget, r: Request) returns (c: EngineContext)
    ensures exists k :: IsContext(b, r, c, k)
    ensures r.execution == "" ==> (c.tokensUsed <= b.Usable() <==> Fixed(r) + Newest(r) + 1 <= b.Usable())
  {
    hide IsCapped, Tokens, TruncateToTokens, Block, EstimateTokens;
    var baseTokens := EstimateTokens(r.system);
    var toolTokens := EstimateTokens(r.tools);
    var taskTokens := EstimateTokens(r.task);
    var overhead := baseTokens + toolTokens + taskTokens + OVERHEAD_MARGIN;
    var remaining := Max(0, b.Usable() - overhead);
    var historyBudget := (remaining as real * HISTORY_FRACTION).Floor;
    var repoBudget := (remaining as real * REPO_FRACTION).Floor;
    var history;
    ghost var k;
    history, k := CapHistory(r.history, historyBudget);
    var historyTokens := Tokens(history);
    var overrun := Max(0, historyTokens - historyBudget);
    repoBudget := Max(0, repoBudget - overrun);
    var repo := RepoContext(r.raw, repoBudget);
    var block := Block(repo, r.execution);
    var used := baseTokens + toolTokens + taskTokens + EstimateTokens(block) + historyTokens;
    c := EngineContext(history, block, used, b.Usable());
    assert IsContext(b, r, c, k);
    FitsIff(b, r, c, k);
  }

  /** The engine's promise never to exceed the window fails for a message that alone
      fills it, since the newest message is always kept whole. */
  lemma OversizedMessage(b: Budget, r: Request, c: EngineContext, k: nat)
    requires IsContext(b, r, c, k)
    requires r.history != [] && |r.history[|r.history| - 1].content| >= CHARS_PER_TOKEN * b.Usable()
    ensures c.tokensUsed > b.Usable() && c.history != [] && c.history[|c.history| - 1..] == r.history[|r.history| - 1..]
  {
    hide IsContext;
    FitsIff(b, r, c, k);
    NewestKept(b, r, c, k);
  }

  lemma NewestKept(b: Budget, r: Request, c: EngineContext, k: nat)
    requires IsContext(b, r, c, k) && r.history != []
    ensures c.history != [] && c.history[|c.history| - 1..] == r.history[|r.history| - 1..]
  {
    hide IsCapped, Tokens, Block, HistoryShare, RepoShare, Fixed;
  }
}

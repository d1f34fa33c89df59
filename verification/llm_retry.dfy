/**
 * The retry loops `_call_llm_json` and `_call_llm_json_array` (sem_analysis.py).
 *
 * The text-generation service is a script of replies, one per call; a reply is either the
 * response text or the message of the exception the call raised. `time.sleep` is recorded as
 * the list of durations slept, and the prompt of every call is recorded as well.
 */
module LlmRetry {
  import opened Wrappers
  import opened Strings
  import opened JsonExtraction

  /** What one `generate_content(prompt)` call gives: the response text, or an exception's message. */
  datatype Reply = Text(text: string) | Raised(message: string)

  /** Which of the two loops: the object one or the array one. */
  datatype Shape = Object | Array

  /** The text each loop appends to the prompt after a failed attempt. */
  function Reminder(shape: Shape): string {
    match shape
    case Object => "\n\nReturn ONLY valid minified JSON with no code fences and no extra text."
    case Array => "\n\nReturn ONLY valid minified JSON array with no code fences and no extra text."
  }

  /** `'429' in msg or 'quota' in msg.lower()` */
  predicate IsRateLimited(message: string) {
    Contains(message, "429") || Contains(Lower(message), "quota")
  }

  /** The seconds slept after failed attempt number `attempt` (counted from 0): ten per attempt made. */
  function Backoff(attempt: nat): (s: nat)
    ensures s >= 10 && s % 10 == 0
  {
    10 * (attempt + 1)
  }

  /** The body of the `try`: one call's reply turned into a parsed value or a raised message. */
  function Attempt(shape: Shape, reply: Reply, parse: Parser): Result<Json, string> {
    match reply
    case Raised(m) => Err(m)
    case Text(t) =>
      match shape
      case Object => ExtractJsonObject(t, parse)
      case Array => ExtractJsonArray(t, parse)
  }

  /** `outcome` maps a reply to what the body of the `try` gives for it. */
  type Outcome = Reply -> Result<Json, string>

  /** The `try` body of `_call_llm_json` (Object) or `_call_llm_json_array` (Array). */
  function AttemptOf(shape: Shape, parse: Parser): Outcome {
    reply => Attempt(shape, reply, parse)
  }

  /** Attempt `k` (counted from 0) failed with a message that looks like a rate limit. */
  predicate BacksOff(outcome: Outcome, replies: seq<Reply>, k: nat)
    requires k < |replies|
  {
    outcome(replies[k]).Err? && IsRateLimited(outcome(replies[k]).error)
  }

  /** The sleeps taken during the first `n` attempts, all of which failed. */
  function Sleeps(outcome: Outcome, replies: seq<Reply>, n: nat): (s: seq<nat>)
    requires n <= |replies|
    ensures |s| <= n
  {
    if n == 0 then []
    else
      Sleeps(outcome, replies, n - 1) + (if BacksOff(outcome, replies, n - 1) then [Backoff(n - 1)] else [])
  }

  /**
   * The sleeps grow strictly, at most one per failed attempt and at most ten seconds times the
   * number of attempts; a duration is slept exactly when it is the backoff of a rate-limited
   * attempt.
   */
  lemma {:induction false} SleepsSpec(outcome: Outcome, replies: seq<Reply>, n: nat)
    requires n <= |replies|
    ensures var s := Sleeps(outcome, replies, n);
      (forall i, j :: 0 <= i < j < |s| ==> s[i] < s[j])
      && (forall d :: d in s <==> exists k :: 0 <= k < n && BacksOff(outcome, replies, k) && d == Backoff(k))
      && |s| <= n
      && (forall i :: 0 <= i < |s| ==> s[i] <= 10 * n)
  {
    if n > 0 {
      SleepsSpec(outcome, replies, n - 1);
    }
  }

  /**
   * What the retry loop returns, from attempt `k` on: the first successful attempt, or the
   * failure of the last one.
   */
  function RetriedFrom(outcome: Outcome, replies: seq<Reply>, k: nat, retries: nat): (r: Result<Json, string>)
    requires k <= retries < |replies|
    ensures exists j :: k <= j <= retries && r == outcome(replies[j])
    ensures r.Ok? <==> exists j :: k <= j <= retries && outcome(replies[j]).Ok?
    decreases retries - k
  {
    if k == retries || outcome(replies[k]).Ok? then outcome(replies[k])
    else RetriedFrom(outcome, replies, k + 1, retries)
  }

  /** What the retry loop returns: one attempt's outcome, a success exactly when some attempt succeeds. */
  function Retried(outcome: Outcome, replies: seq<Reply>, retries: nat): (r: Result<Json, string>)
    requires retries < |replies|
    ensures exists j :: 0 <= j <= retries && r == outcome(replies[j])
    ensures r.Ok? <==> exists j :: 0 <= j <= retries && outcome(replies[j]).Ok?
  {
    RetriedFrom(outcome, replies, 0, retries)
  }

  /** Attempt `m` is the first success, or the last attempt after failures only: it decides. */
  lemma {:induction false} RetriedAt(outcome: Outcome, replies: seq<Reply>, k: nat, m: nat, retries: nat)
    requires k <= m <= retries < |replies|
    requires forall j :: k <= j < m ==> outcome(replies[j]).Err?
    requires m == retries || outcome(replies[m]).Ok?
    ensures RetriedFrom(outcome, replies, k, retries) == outcome(replies[m])
    decreases m - k
  {
    if k < m {
      RetriedAt(outcome, replies, k + 1, m, retries);
    }
  }

  /**
   * The retry loop shared by `_call_llm_json` and `_call_llm_json_array`: `reminder` is the
   * text appended to the prompt after each failure, `outcome` the body of the `try`
   * (`AttemptOf(Object, parse)` or `AttemptOf(Array, parse)`). `prompts` are the prompts of
   * the calls made, `sleeps` the durations slept.
   */
  method CallLlmJson(prompt: string, retries: nat, replies: seq<Reply>, reminder: string, outcome: Outcome)
    returns (r: Result<Json, string>, prompts: seq<string>, sleeps: seq<nat>)
    requires retries < |replies|
    ensures 1 <= |prompts| <= retries + 1
    ensures prompts[0] == prompt
    ensures forall k :: 0 < k < |prompts| ==> prompts[k] == prompts[k - 1] + reminder
    ensures forall k :: 0 <= k < |prompts| - 1 ==> outcome(replies[k]).Err?
    ensures r.Ok? ==> r == outcome(replies[|prompts| - 1])
    ensures r.Err? ==> |prompts| == retries + 1 && r == outcome(replies[retries])
    ensures sleeps == Sleeps(outcome, replies, if r.Ok? then |prompts| - 1 else |prompts|)
    ensures r == Retried(outcome, replies, retries)
  {
    var current := prompt;
    var lastErr := "";
    prompts, sleeps := [], [];
    var attempt := 0;
    while attempt <= retries
      invariant attempt <= retries + 1
      invariant |prompts| == attempt
      invariant attempt > 0 ==> prompts[0] == prompt
      invariant forall k :: 0 < k < attempt ==> prompts[k] == prompts[k - 1] + reminder
      invariant current == if attempt == 0 then prompt else prompts[attempt - 1] + reminder
      invariant forall k :: 0 <= k < attempt ==> outcome(replies[k]).Err?
      invariant attempt > 0 ==> lastErr == outcome(replies[attempt - 1]).error
      invariant sleeps == Sleeps(outcome, replies, attempt)
    {
      prompts := prompts + [current];
      var result := outcome(replies[attempt]);
      if result.Ok? {
        RetriedAt(outcome, replies, 0, attempt, retries);
        return result, prompts, sleeps;
      }
      lastErr := result.error;
      if IsRateLimited(lastErr) {
        sleeps := sleeps + [Backoff(attempt)];
      }
      current := current + reminder;
      attempt := attempt + 1;
    }
    RetriedAt(outcome, replies, 0, retries, retries);
    r := Err(lastErr);
  }

  /** `_call_llm_json_array`: the shared loop with the array extraction and the array reminder. */
  method CallLlmJsonArray(prompt: string, retries: nat, replies: seq<Reply>, parse: Parser)
    returns (r: Result<Json, string>)
    requires retries < |replies|
    ensures r == Retried(AttemptOf(Array, parse), replies, retries)
  {
    var prompts, sleeps;
    r, prompts, sleeps := CallLlmJson(prompt, retries, replies, Reminder(Array), AttemptOf(Array, parse));
  }

  /**
   * The rate-limit test reads the text of every exception, so a JSON decoding error that
   * reports column 429 also makes the loop sleep.
   */
  lemma DecodeErrorCanLookRateLimited()
    ensures IsRateLimited("Expecting ',' delimiter: line 1 column 429 (char 428)")
  {
    var m := "Expecting ',' delimiter: line 1 column 429 (char 428)";
    assert m[39..42] == "429";
    assert OccursAt(m, "429", 39);
  }

  /**
   * A message holding `429`, or `quota` in any mix of cases, counts as a rate limit wherever
   * it stands in the message.
   */
  lemma RateLimitMarkers(pre: string, word: string, post: string)
    ensures IsRateLimited(pre + "429" + post)
    ensures Lower(word) == "quota" ==> IsRateLimited(pre + word + post)
  {
    var m := pre + "429" + post;
    assert m[|pre|..|pre| + 3] == "429";
    assert OccursAt(m, "429", |pre|);
    if Lower(word) == "quota" {
      var q := pre + word + post;
      assert Lower(q)[|pre|..|pre| + 5] == Lower(word);
      assert OccursAt(Lower(q), "quota", |pre|);
    }
  }

  /** A reply holding a fenced object gives the parse of that object. */
  lemma FencedReply(body: string, parse: Parser)
    requires '`' !in body && |body| >= 2 && body[0] == '{' && body[|body| - 1] == '}'
    ensures AttemptOf(Object, parse)(Text("```json\n" + body + "\n```")) == parse(body)
  {
    var answer := "```json\n" + body + "\n```";
    FencedObjectAlone(body, parse);
    assert AttemptOf(Object, parse)(Text(answer)) == Attempt(Object, Text(answer), parse);
  }

  /** Two rate-limited failures in a row: sleeps of 10 and then 20 seconds. */
  lemma TwoBackoffs(outcome: Outcome, replies: seq<Reply>)
    requires |replies| >= 2 && BacksOff(outcome, replies, 0) && BacksOff(outcome, replies, 1)
    ensures Sleeps(outcome, replies, 2) == [10, 20]
  {
    assert Sleeps(outcome, replies, 1) == [] + [10];
  }

  /** Two replies raising `message`, then an answer holding `body` in a "```json" fence. */
  function RateLimitScript(message: string, body: string): seq<Reply> {
    [Raised(message), Raised(message), Text("```json\n" + body + "\n```")]
  }

  /** In that script the first two attempts back off and the third parses `body`. */
  lemma RateLimitScriptOutcomes(message: string, body: string, parse: Parser)
    requires Contains(message, "429")
    requires '`' !in body && |body| >= 2 && body[0] == '{' && body[|body| - 1] == '}'
    ensures var replies, outcome := RateLimitScript(message, body), AttemptOf(Object, parse);
      outcome(replies[0]).Err? && outcome(replies[1]).Err? && outcome(replies[2]) == parse(body)
      && Sleeps(outcome, replies, 2) == [10, 20]
  {
    var replies, outcome := RateLimitScript(message, body), AttemptOf(Object, parse);
    FencedReply(body, parse);
    assert BacksOff(outcome, replies, 0) && BacksOff(outcome, replies, 1);
    TwoBackoffs(outcome, replies);
  }

  /**
   * Two rate-limited failures and then an answer holding a fenced object: three calls, the
   * reminder appended once before the second and again before the third, sleeps of 10 and
   * 20 seconds, and the parsed object.
   */
  method TwoRateLimitsThenSuccess(prompt: string, message: string, body: string, parse: Parser)
    returns (r: Result<Json, string>, prompts: seq<string>, sleeps: seq<nat>)
    requires Contains(message, "429")
    requires '`' !in body && |body| >= 2 && body[0] == '{' && body[|body| - 1] == '}'
    requires parse(body).Ok?
    ensures r == parse(body) && sleeps == [10, 20]
    ensures |prompts| == 3
    ensures var reminder := Reminder(Object);
      prompts[0] == prompt && prompts[1] == prompt + reminder && prompts[2] == prompt + reminder + reminder
  {
    var replies, outcome := RateLimitScript(message, body), AttemptOf(Object, parse);
    RateLimitScriptOutcomes(message, body, parse);
    r, prompts, sleeps := CallLlmJson(prompt, 2, replies, Reminder(Object), outcome);
  }
}

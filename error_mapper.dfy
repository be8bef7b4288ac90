/**
 * Classification of a failed upstream call into a protocol error, by
 * substring tests on the error's message (src/core/errors/error-mapper.ts).
 */
module ErrorMapper {
  import opened Wrappers
  import opened JsonValues
  import opened Text
  import opened Exceptions

  /** One row of the classification: pattern, code, message, whether the upstream message is kept as data. */
  datatype Rule = Rule(pattern: string, code: ErrorCode, message: string, keepsMessage: bool)

  /** The checks, in the order the mapper runs them. */
  const Rules: seq<Rule> := [
    Rule("HTTP 400", InvalidParams, "Validation error", true),
    Rule("HTTP 401", InvalidRequest, "Unauthenticated", false),
    Rule("HTTP 403", InvalidRequest, "Forbidden", false),
    Rule("HTTP 404", InvalidParams, "Not found", false),
    Rule("HTTP 429", InvalidRequest, "Rate limited", false)
  ]

  /** The error for a message no rule matches, or for a value without a message. */
  const Fallback := McpError(InternalError, "Internal server error", None)

  /** `message?.includes(pat)`: false when there is no message. */
  predicate MessageIncludes(message: Option<string>, pat: string) {
    message.Some? && Includes(message.value, pat)
  }

  /** The mapper as the source writes it: a chain of guarded returns, first match wins. */
  function MapHttpErrorToMcp(error: Exception): (r: McpError)
    ensures r.code == InternalError <==> forall rule | rule in Rules :: !MessageIncludes(MessageOf(error), rule.pattern)
    ensures r.data.Some? <==> MessageIncludes(MessageOf(error), "HTTP 400")
    ensures r.data.Some? ==> r.data == Some(JStr(MessageOf(error).value))
  {
    var m := MessageOf(error);
    if MessageIncludes(m, "HTTP 400") then McpError(InvalidParams, "Validation error", Some(JStr(m.value)))
    else if MessageIncludes(m, "HTTP 401") then McpError(InvalidRequest, "Unauthenticated", None)
    else if MessageIncludes(m, "HTTP 403") then McpError(InvalidRequest, "Forbidden", None)
    else if MessageIncludes(m, "HTTP 404") then McpError(InvalidParams, "Not found", None)
    else if MessageIncludes(m, "HTTP 429") then McpError(InvalidRequest, "Rate limited", None)
    else Fallback
  }

  /** The error a rule produces for message `m`. */
  function Apply(rule: Rule, m: Option<string>): McpError {
    McpError(rule.code, rule.message, if rule.keepsMessage && m.Some? then Some(JStr(m.value)) else None)
  }

  /** Index of the first rule whose pattern the message includes, or |rules| when none does. */
  function FirstMatch(rules: seq<Rule>, m: Option<string>): (k: nat)
    ensures k <= |rules|
    ensures k < |rules| ==> MessageIncludes(m, rules[k].pattern)
    ensures forall j | 0 <= j < k :: !MessageIncludes(m, rules[j].pattern)
  {
    if rules == [] then 0
    else if MessageIncludes(m, rules[0].pattern) then 0
    else 1 + FirstMatch(rules[1..], m)
  }

  /**
   * The chain agrees with the table read as "the first rule whose pattern
   * occurs anywhere in the message decides; no match gives the fallback".
   */
  lemma MapIsFirstMatchingRule(error: Exception)
    ensures var m := MessageOf(error);
            var k := FirstMatch(Rules, m);
            MapHttpErrorToMcp(error) == if k < |Rules| then Apply(Rules[k], m) else Fallback
  {
    var m := MessageOf(error);
    var k := FirstMatch(Rules, m);
    // Each rule's pattern is the one its guard in the chain tests; the
    // minimality of k then fixes which guard fires first.
    assert Rules[0].pattern == "HTTP 400" && Rules[1].pattern == "HTTP 401";
    assert Rules[2].pattern == "HTTP 403" && Rules[3].pattern == "HTTP 404";
    assert Rules[4].pattern == "HTTP 429";
    if k < |Rules| {
      assert forall j | 0 <= j < k :: !MessageIncludes(m, Rules[j].pattern);
    }
  }

  /** First match wins: a message with both "HTTP 400" and "HTTP 404" is a validation error. */
  lemma EarlierPatternWins(error: Exception)
    requires MessageIncludes(MessageOf(error), "HTTP 400")
    requires MessageIncludes(MessageOf(error), "HTTP 404")
    ensures MapHttpErrorToMcp(error).message == "Validation error"
  {
  }

  /** Substring, not status, semantics: "HTTP 4001" contains "HTTP 400". */
  lemma StatusPrefixMatches()
    ensures MapHttpErrorToMcp(Failure(Some("HTTP 4001: x"))).message == "Validation error"
  {
    assert OccursAt("HTTP 4001: x", "HTTP 400", 0);
  }

  /** An error without a message falls through to the internal error. */
  lemma NoMessageIsInternal()
    ensures MapHttpErrorToMcp(Failure(None)) == Fallback
  {
  }
}

/**
 * The client's failure message composed with the error mapper: the error a
 * non-ok response raises is classified by the status it reports, as long
 * as the response text does not itself hold a pattern the mapper checks
 * before the status's own.
 */
module ErrorPipeline {
  import opened Wrappers
  import opened JsonValues
  import opened Text
  import opened Exceptions
  import opened ErrorMapper
  import opened HttpClient

  /** How many of the mapper's checks run before the one for `status`: all five for a status no check names. */
  function ChecksBefore(status: nat): nat {
    if status == 400 then 0
    else if status == 401 then 1
    else if status == 403 then 2
    else if status == 404 then 3
    else if status == 429 then 4
    else 5
  }

  /** The error the mapper documents for each status: the five it names, and the internal error for any other. */
  function Documented(status: nat, message: string): McpError {
    if status == 400 then McpError(InvalidParams, "Validation error", Some(JStr(message)))
    else if status == 401 then McpError(InvalidRequest, "Unauthenticated", None)
    else if status == 403 then McpError(InvalidRequest, "Forbidden", None)
    else if status == 404 then McpError(InvalidParams, "Not found", None)
    else if status == 429 then McpError(InvalidRequest, "Rate limited", None)
    else Fallback
  }

  /** Only the status's own rendering can start an "HTTP ..." occurrence before the response text. */
  lemma HeaderOccurrence(status: nat, text: string, pat: string)
    requires 100 <= status <= 999
    requires |pat| == 8 && pat[0] == 'H'
    ensures Includes(HttpErrorMessage(status, text), pat) <==>
              pat == "HTTP " + NatToString(status) || Includes(text, pat)
  {
    var digits := NatToString(status);
    ThreeDigits(status);
    var p := "HTTP " + digits + ": ";
    assert HttpErrorMessage(status, text) == p + text;
    assert p[..8] == "HTTP " + digits;
    forall i | 1 <= i < |p|
      ensures p[i] != pat[0]
    {
      if 5 <= i < 8 {
        assert p[i] == digits[i - 5];
      }
    }
    IncludesAfterHeader(p, text, pat);
  }

  /** Each of the mapper's patterns is "HTTP " and the rendering of one status. */
  lemma RulePatterns()
    ensures Rules[0].pattern == "HTTP " + NatToString(400) && Rules[1].pattern == "HTTP " + NatToString(401)
    ensures Rules[2].pattern == "HTTP " + NatToString(403) && Rules[3].pattern == "HTTP " + NatToString(404)
    ensures Rules[4].pattern == "HTTP " + NatToString(429)
  {
  }

  /** The pattern naming status `n` occurs in the error message for `status` iff `status` is `n`, or the text holds it. */
  lemma PatternFires(status: nat, text: string, n: nat)
    requires 100 <= status <= 999 && 100 <= n <= 999
    ensures Includes(HttpErrorMessage(status, text), "HTTP " + NatToString(n)) <==>
              status == n || Includes(text, "HTTP " + NatToString(n))
  {
    var pat := "HTTP " + NatToString(n);
    ThreeDigits(n);
    HeaderOccurrence(status, text, pat);
    if pat == "HTTP " + NatToString(status) {
      assert pat[5..] == NatToString(n);
      assert ("HTTP " + NatToString(status))[5..] == NatToString(status);
      NatToStringInjective(status, n);
    }
  }

  /**
   * The error a non-ok status raises maps to the kind documented for that
   * status, provided the text holds none of the patterns checked earlier.
   */
  lemma HttpErrorClassified(status: nat, text: string)
    requires 100 <= status <= 999
    requires forall j | 0 <= j < ChecksBefore(status) :: !Includes(text, Rules[j].pattern)
    ensures MapHttpErrorToMcp(Failure(Some(HttpErrorMessage(status, text)))) ==
              Documented(status, HttpErrorMessage(status, text))
  {
    RulePatterns();
    PatternFires(status, text, 400);
    PatternFires(status, text, 401);
    PatternFires(status, text, 403);
    PatternFires(status, text, 404);
    PatternFires(status, text, 429);
  }

  /** End to end: what the client throws for a non-ok response, mapped to a protocol error. */
  lemma ClientFailureClassified(response: Response)
    requires !Ok(response) && 100 <= response.status <= 999
    requires forall j | 0 <= j < ChecksBefore(response.status) :: !Includes(response.text, Rules[j].pattern)
    ensures Settle(Returned(response)).Threw?
    ensures MapHttpErrorToMcp(Settle(Returned(response)).exception) ==
              Documented(response.status, HttpErrorMessage(response.status, response.text))
  {
    HttpErrorClassified(response.status, response.text);
  }
}

/**
 * The edge-security middleware: it classifies the security service's
 * decision for a request into a 429, a 403 or passing the request on, and
 * lets the request pass when the service itself fails.
 */
module ArcjetMiddleware {
  import Http

  /** What a reason answers to `isRateLimit()`, `isBot()` and `isSpoofed()`. */
  datatype Reason = Reason(rateLimit: bool, bot: bool, spoofed: bool)

  /** The decision `protect` returns: denied or not, the reason of a denial,
      and the reason reported by each rule. */
  datatype Decision = Decision(denied: bool, reason: Reason, results: seq<Reason>)

  /** `protect` either answers with a decision or throws. */
  datatype Protection = Decided(decision: Decision) | Failed

  /** The middleware's effect: an error response, or `next()` called once. */
  datatype Outcome = Respond(status: int, error: string) | Next

  /** `results.some(r => r.reason.isBot() && r.reason.isSpoofed())`. */
  function AnySpoofedBot(results: seq<Reason>): (r: bool)
    ensures r <==> exists i :: 0 <= i < |results| && results[i].bot && results[i].spoofed
  {
    if results == [] then false
    else (results[0].bot && results[0].spoofed) || AnySpoofedBot(results[1..])
  }

  /** The middleware. */
  function Classify(p: Protection): (o: Outcome)
    ensures o.Respond? ==> o.status == Http.TooManyRequests || o.status == Http.Forbidden
    ensures o.Next? <==> p.Failed? || (!p.decision.denied && !AnySpoofedBot(p.decision.results))
    ensures o.Respond? && o.status == Http.TooManyRequests <==>
              p.Decided? && p.decision.denied && p.decision.reason.rateLimit
  {
    match p
    case Failed => Next
    case Decided(d) =>
      if d.denied then
        if d.reason.rateLimit then Respond(Http.TooManyRequests, "Too many requests")
        else if d.reason.bot then Respond(Http.Forbidden, "Bot access denied")
        else Respond(Http.Forbidden, "Forbidden")
      else if AnySpoofedBot(d.results) then Respond(Http.Forbidden, "Spoofed bot detected.")
      else Next
  }

  /** A denial is 429 when its reason is a rate limit, whatever else the reason
      says; 403 "Bot access denied" for a bot that is not a rate limit; 403
      "Forbidden" otherwise. A denial never passes, whatever the rule results. */
  lemma DenialClassified(d: Decision)
    requires d.denied
    ensures d.reason.rateLimit ==> Classify(Decided(d)) == Respond(Http.TooManyRequests, "Too many requests")
    ensures !d.reason.rateLimit && d.reason.bot ==> Classify(Decided(d)) == Respond(Http.Forbidden, "Bot access denied")
    ensures !d.reason.rateLimit && !d.reason.bot ==> Classify(Decided(d)) == Respond(Http.Forbidden, "Forbidden")
  {
  }

  /** An allowed decision is blocked with 403 "Spoofed bot detected." as soon
      as any one of its rule results reports a spoofed bot. */
  lemma SpoofedBotBlocks(d: Decision, i: nat)
    requires !d.denied && i < |d.results| && d.results[i].bot && d.results[i].spoofed
    ensures Classify(Decided(d)) == Respond(Http.Forbidden, "Spoofed bot detected.")
  {
  }

  /** Adding a spoofed-bot result to an allowed decision blocks it, whatever
      the other results say. */
  lemma {:induction false} SpoofedBotAppendedBlocks(d: Decision, extra: Reason)
    requires !d.denied && extra.bot && extra.spoofed
    ensures Classify(Decided(d.(results := d.results + [extra]))) == Respond(Http.Forbidden, "Spoofed bot detected.")
  {
    SpoofedBotBlocks(d.(results := d.results + [extra]), |d.results|);
  }
}

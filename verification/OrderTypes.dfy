/** Venue-agnostic order primitives. */
module OrderTypes {
  import opened VenueFees
  import opened Wrappers

  datatype Action = Buy | Sell

  datatype Tif = IOC | FOK | FAK | GTC | GTD

  datatype Request = Request(venue: Venue, action: Action, size: real, limitPrice: real,
                             instrument: string, outcomeSide: string, tif: Tif,
                             riskReducing: bool, opportunity: string)

  // The deterministic client order id: what the source hashes, kept as a value.
  datatype ClientId = ClientId(venue: Venue, instrument: string, outcomeSide: string, action: Action,
                               size: real, limitPrice: real, key: string)

  function ClientIdOf(req: Request, key: string): ClientId {
    ClientId(req.venue, req.instrument, req.outcomeSide, req.action, req.size, req.limitPrice, key)
  }

  datatype Status = Filled | PartlyFilled | Failed | Halted

  datatype Outcome = Outcome(status: Status, requested: real, filled: real, avgPrice: real, fees: real,
                             orderId: Option<string>, fillId: Option<string>, retryable: bool)
  {
    predicate Done() { status == Filled || status == PartlyFilled }
  }

  function FailedOutcome(requested: real): Outcome {
    Outcome(Failed, requested, 0.0, 0.0, 0.0, None, None, true)
  }

  function HaltedOutcome(requested: real): Outcome {
    Outcome(Halted, requested, 0.0, 0.0, 0.0, None, None, true)
  }

  // Neither reports any fill, price or fee; the engine may post again only after the failure.
  lemma NothingReported(requested: real)
    ensures forall o :: o in {FailedOutcome(requested), HaltedOutcome(requested)} ==>
              && o.requested == requested && o.filled == o.avgPrice == o.fees == 0.0
              && o.orderId == o.fillId == None && o.retryable && !o.Done()
    ensures FailedOutcome(requested).status == Failed && HaltedOutcome(requested).status == Halted
  {
  }

  // A gateway returns an outcome or raises.
  datatype Reply = Returned(outcome: Outcome) | Raised

  // The engine posts again after a raise, and after a failure not marked otherwise.
  predicate RetriesAfter(r: Reply) { r.Raised? || (!r.outcome.Done() && r.outcome.retryable) }

  // What every gateway's answer satisfies: it failed exactly when it filled nothing.
  predicate WellFormed(o: Outcome) {
    && (o.status == Filled || o.status == PartlyFilled || o.status == Failed)
    && o.filled >= 0.0
    && (o.status == Failed <==> o.filled == 0.0)
  }

  // Python's int(): toward zero.
  function Truncated(x: real): int { if x >= 0.0 then x.Floor else -(-x).Floor }

  // Python's round() to whole units: ties to even.
  function RoundHalfEven(x: real): int {
    var f := x.Floor;
    var rest := x - f as real;
    if rest < 0.5 then f else if rest > 0.5 then f + 1 else if f % 2 == 0 then f else f + 1
  }

  lemma RoundHalfEvenNear(x: real)
    ensures -0.5 <= RoundHalfEven(x) as real - x <= 0.5
    ensures RoundHalfEven(x) as real - x == 0.5 || x - RoundHalfEven(x) as real == 0.5 ==> RoundHalfEven(x) % 2 == 0
  {
  }
}

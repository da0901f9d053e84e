/** The risk score of one client from its total revenue and its number of
    distinct active months (src/handlers.rs:69-84). */
module Scoring {
  import opened Models

  /** The reference period, in months. */
  const ExpectedMonths: nat := 12

  /** The share of the reference period in which the client was not active;
      months beyond the period are not rewarded. */
  function ChurnRate(active: nat): (churn: real)
    ensures 0.0 <= churn <= 1.0
    ensures churn == 0.0 <==> active >= ExpectedMonths
    ensures active < ExpectedMonths ==> churn * ExpectedMonths as real == (ExpectedMonths - active) as real
  {
    if ExpectedMonths > active then (ExpectedMonths - active) as real / ExpectedMonths as real
    else 0.0
  }

  function Score(totalMrr: real, active: nat): real {
    totalMrr / 1000.0 - ChurnRate(active) * 10.0
  }

  function Label(score: real): (verdict: string)
    ensures verdict in {"Approved", "Rejected"}
    ensures verdict == "Approved" <==> score > 70.0
  {
    if score > 70.0 then "Approved" else "Rejected"
  }

  /** The decision for one client. */
  function Decide(clientId: string, totalMrr: real, active: nat): (d: LoanDecision)
    ensures d.client_id == clientId && d.total_mrr == totalMrr
    ensures d.score == totalMrr / 1000.0 - ChurnRate(active) * 10.0
    ensures totalMrr / 1000.0 - 10.0 <= d.score <= totalMrr / 1000.0
    ensures active >= ExpectedMonths ==> d.score == totalMrr / 1000.0
    ensures d.decision == "Approved" <==> d.score > 70.0
    ensures d.decision == "Approved" || d.decision == "Rejected"
  {
    var score := Score(totalMrr, active);
    LoanDecision(clientId, totalMrr, score, Label(score))
  }

  /** The threshold is strict: a score of exactly 70 is rejected, a score just
      above it is approved. */
  lemma ThresholdIsStrict()
    ensures Label(70.0) == "Rejected"
    ensures Label(70.0001) == "Approved"
  {
  }

  /** More revenue never turns an approval into a rejection, and neither does
      one more active month. */
  lemma {:induction false} DecisionMonotone(t1: real, t2: real, a1: nat, a2: nat)
    requires t1 <= t2 && a1 <= a2
    ensures Score(t1, a1) <= Score(t2, a2)
    ensures Label(Score(t1, a1)) == "Approved" ==> Label(Score(t2, a2)) == "Approved"
  {
    assert ChurnRate(a2) <= ChurnRate(a1);
  }
}

/** The records the service exchanges with its callers (src/models.rs) and the
    shape of a handler's reply. */
module Models {

  datatype Option<T> = None | Some(value: T) {
    function GetOr(default: T): T {
      match this
      case Some(v) => v
      case None => default
    }
  }

  /** One scored client of a submitted portfolio. `decision` is the label
      "Approved" or "Rejected". */
  datatype LoanDecision = LoanDecision(client_id: string, total_mrr: real, score: real, decision: string)

  /** The body of an apply-loan request. */
  datatype LoanApplication = LoanApplication(client_id: string, requested_amount: real)

  /** One row of an amortization schedule. */
  datatype PaymentDetail = PaymentDetail(month: nat, payment_amount: real)

  /** The body of a successful apply-loan reply. */
  datatype LoanResponse = LoanResponse(client_id: string, approved_amount: real, payment_table: seq<PaymentDetail>)

  /** A stored loan-status record, returned as it is. */
  datatype LoanStatus = LoanStatus(client_id: string, status: string, details: Option<string>)

  /** What a handler answers: a JSON body with status 200, an error message
      with status 400 or 404, or a rejection handed back to the web framework. */
  datatype Reply<T> =
    | Ok(body: T)
    | BadRequest(message: string)
    | NotFound(message: string)
    | Rejected(reason: string)
}

/** The two lookups against the in-memory registries: applying for a loan
    against a client's credit limit (src/handlers.rs:93-123) and reading a
    client's stored loan status (src/handlers.rs:126-142). The registries are
    passed in as values: a handler reads them and never changes them. */
module Loans {
  import opened Models

  const AmountNotPositive := "Requested amount must be greater than zero"
  const ExceedsLimit := "Loan amount exceeds credit limit"
  const ClientNotFound := "Client ID not found"
  const EmptyClientId := "Client ID cannot be empty"
  const StatusNotFound := "Loan status not found"

  /** The number of monthly installments of every loan. */
  const Installments: nat := 12

  // ---------------------------------------------------------------------
  // Apply for a loan
  // ---------------------------------------------------------------------

  /** The sum of the payments of a schedule. */
  function SumPayments(table: seq<PaymentDetail>): real
    decreases |table|
  {
    if |table| == 0 then 0.0
    else SumPayments(table[..|table| - 1]) + table[|table| - 1].payment_amount
  }

  lemma {:induction false} EqualPaymentsSum(table: seq<PaymentDetail>, x: real)
    requires forall i :: 0 <= i < |table| ==> table[i].payment_amount == x
    ensures SumPayments(table) == |table| as real * x
    decreases |table|
  {
    if |table| > 0 {
      EqualPaymentsSum(table[..|table| - 1], x);
    }
  }

  /** The amortization schedule: months 1 to 12 in order, each paying a
      twelfth of the amount, so that the payments add up to the amount. */
  function PaymentTable(amount: real): (table: seq<PaymentDetail>)
    ensures |table| == Installments
    ensures forall i :: 0 <= i < |table| ==> table[i].month == i + 1
    ensures forall i, j :: 0 <= i < j < |table| ==> table[i].payment_amount == table[j].payment_amount
    ensures SumPayments(table) == amount
  {
    var table := seq(Installments, month requires 0 <= month < Installments =>
      PaymentDetail(month + 1, amount / Installments as real));
    EqualPaymentsSum(table, amount / Installments as real);
    table
  }

  /** `POST /apply-loan`. The amount is checked before the registry is
      consulted; the limit is inclusive. */
  function ApplyLoan(app: LoanApplication, limits: map<string, real>): (r: Reply<LoanResponse>)
    ensures app.requested_amount <= 0.0 ==> r == BadRequest(AmountNotPositive)
    ensures app.requested_amount > 0.0 && app.client_id !in limits ==> r == NotFound(ClientNotFound)
    ensures app.requested_amount > 0.0 && app.client_id in limits && app.requested_amount > limits[app.client_id]
      ==> r == BadRequest(ExceedsLimit)
    ensures r.Ok? <==>
      0.0 < app.requested_amount && app.client_id in limits && app.requested_amount <= limits[app.client_id]
    ensures r.Ok? ==>
      && r.body.client_id == app.client_id
      && 0.0 < r.body.approved_amount == app.requested_amount <= limits[app.client_id]
      && |r.body.payment_table| == Installments
      && SumPayments(r.body.payment_table) == r.body.approved_amount
      && forall i :: 0 <= i < Installments ==>
           r.body.payment_table[i] == PaymentDetail(i + 1, app.requested_amount / 12.0)
  {
    if app.requested_amount <= 0.0 then
      BadRequest(AmountNotPositive)
    else if app.client_id !in limits then
      NotFound(ClientNotFound)
    else if app.requested_amount > limits[app.client_id] then
      BadRequest(ExceedsLimit)
    else
      Ok(LoanResponse(app.client_id, app.requested_amount, PaymentTable(app.requested_amount)))
  }

  // ---------------------------------------------------------------------
  // Loan status
  // ---------------------------------------------------------------------

  /** Unicode White_Space, the characters `str::trim` removes. */
  predicate IsWhitespace(c: char) {
    var n := c as int;
    || 0x09 <= n <= 0x0D || n == 0x20 || n == 0x85 || n == 0xA0 || n == 0x1680
    || 0x2000 <= n <= 0x200A || n == 0x2028 || n == 0x2029 || n == 0x202F
    || n == 0x205F || n == 0x3000
  }

  predicate IsBlank(s: string) {
    forall i :: 0 <= i < |s| ==> IsWhitespace(s[i])
  }

  /** `s` without its leading white space. */
  function TrimStart(s: string): (t: string)
    ensures |t| <= |s| && t == s[|s| - |t|..]
    ensures forall i :: 0 <= i < |s| - |t| ==> IsWhitespace(s[i])
    ensures t == [] || !IsWhitespace(t[0])
    decreases |s|
  {
    if |s| > 0 && IsWhitespace(s[0]) then TrimStart(s[1..]) else s
  }

  /** `s` without its trailing white space. */
  function TrimEnd(s: string): (t: string)
    ensures |t| <= |s| && t == s[..|t|]
    ensures forall i :: |t| <= i < |s| ==> IsWhitespace(s[i])
    ensures t == [] || !IsWhitespace(t[|t| - 1])
    decreases |s|
  {
    if |s| > 0 && IsWhitespace(s[|s| - 1]) then TrimEnd(s[..|s| - 1]) else s
  }

  function Trim(s: string): string {
    TrimEnd(TrimStart(s))
  }

  /** Trimming leaves nothing exactly when the id is empty or all white
      space. */
  lemma TrimEmptyIffBlank(s: string)
    ensures Trim(s) == [] <==> IsBlank(s)
  {
    var t := TrimStart(s);
    if t != [] {
      assert !IsWhitespace(t[0]);
      assert s[|s| - |t|] == t[0];
    }
  }

  /** `GET /loan-status/{client_id}`. The blank check trims the id; the
      lookup uses the id as given. */
  function GetLoanStatus(clientId: string, statuses: map<string, LoanStatus>): (r: Reply<LoanStatus>)
    ensures IsBlank(clientId) ==> r == BadRequest(EmptyClientId)
    ensures !IsBlank(clientId) && clientId !in statuses ==> r == NotFound(StatusNotFound)
    ensures !IsBlank(clientId) && clientId in statuses ==> r == Ok(statuses[clientId])
  {
    TrimEmptyIffBlank(clientId);
    if Trim(clientId) == [] then
      BadRequest(EmptyClientId)
    else if clientId in statuses then
      Ok(statuses[clientId])
    else
      NotFound(StatusNotFound)
  }

  /** The demo credit limits the service starts with: 40000 fits under
      CLIENT001's limit of 50000, 60000 does not. */
  lemma SeedLoanExamples()
    ensures
      var limits := map["CLIENT001" := 50000.0, "CLIENT002" := 75000.0];
      && ApplyLoan(LoanApplication("CLIENT001", 60000.0), limits) == BadRequest(ExceedsLimit)
      && ApplyLoan(LoanApplication("CLIENT001", 0.0), limits) == BadRequest(AmountNotPositive)
      && ApplyLoan(LoanApplication("GHOST", 100.0), limits) == NotFound(ClientNotFound)
      && ApplyLoan(LoanApplication("CLIENT001", 40000.0), limits).Ok?
      && SumPayments(ApplyLoan(LoanApplication("CLIENT001", 40000.0), limits).body.payment_table) == 40000.0
  {
    var limits := map["CLIENT001" := 50000.0, "CLIENT002" := 75000.0];
    assert "GHOST" !in limits;
  }

  /** The demo loan statuses the service starts with. A blank id is refused,
      an unknown or padded id is not found. */
  lemma SeedStatusExamples()
    ensures
      var statuses := map[
        "CLIENT001" := LoanStatus("CLIENT001", "Approved", Some("Loan approved and awaiting final documentation.")),
        "CLIENT002" := LoanStatus("CLIENT002", "Pending Review", Some("Loan application under review."))];
      && GetLoanStatus("GHOST", statuses) == NotFound(StatusNotFound)
      && GetLoanStatus("", statuses) == BadRequest(EmptyClientId)
      && GetLoanStatus(" \t", statuses) == BadRequest(EmptyClientId)
      && GetLoanStatus(" CLIENT001", statuses) == NotFound(StatusNotFound)
      && GetLoanStatus("CLIENT002", statuses) == Ok(statuses["CLIENT002"])
  {
    var statuses := map[
      "CLIENT001" := LoanStatus("CLIENT001", "Approved", Some("Loan approved and awaiting final documentation.")),
      "CLIENT002" := LoanStatus("CLIENT002", "Pending Review", Some("Loan application under review."))];
    assert !IsBlank("GHOST") by { assert !IsWhitespace("GHOST"[0]); }
    assert !IsBlank(" CLIENT001") by { assert !IsWhitespace(" CLIENT001"[1]); }
    assert !IsBlank("CLIENT002") by { assert !IsWhitespace("CLIENT002"[0]); }
    assert IsBlank(" \t");
    assert " CLIENT001" !in statuses && "GHOST" !in statuses;
  }
}

/** The portfolio upload (src/handlers.rs:38-91): check the header of the
    first worksheet, fold the data rows into a revenue total and a month list
    per client, then sort and deduplicate each month list and score every
    client. */
module Portfolio {
  import opened Models
  import opened Workbook
  import opened Scoring
  import opened MonthLists

  const InvalidFormat := "Invalid Excel format"
  const InvalidWorksheet := "Invalid or empty worksheet"
  const FileErrorPrefix := "Failed to read XLSX file: "

  // ---------------------------------------------------------------------
  // What the aggregation computes, stated over the data rows
  // ---------------------------------------------------------------------

  /** The rows after the header (the iterator's `skip(1)`). */
  function DataRows(rows: seq<seq<Cell>>): (data: seq<seq<Cell>>)
    ensures |rows| > 0 ==> data == rows[1..]
    ensures |rows| == 0 ==> data == []
  {
    if |rows| == 0 then [] else rows[1..]
  }

  /** Every client id read from the data rows, "" included for rows without a
      string id. */
  function ClientIds(data: seq<seq<Cell>>): set<string>
    decreases |data|
  {
    if |data| == 0 then {} else ClientIds(data[..|data| - 1]) + {ClientIdOf(data[|data| - 1])}
  }

  /** The sum of the amounts of the rows of client `id`. */
  function Total(data: seq<seq<Cell>>, id: string): real
    decreases |data|
  {
    if |data| == 0 then 0.0
    else
      var last := data[|data| - 1];
      Total(data[..|data| - 1], id) + (if ClientIdOf(last) == id then AmountOf(last) else 0.0)
  }

  /** The months of the rows of client `id`, in row order, repeats kept. */
  function Months(data: seq<seq<Cell>>, id: string): seq<nat>
    decreases |data|
  {
    if |data| == 0 then []
    else
      var last := data[|data| - 1];
      Months(data[..|data| - 1], id) + (if ClientIdOf(last) == id then [MonthOf(last)] else [])
  }

  /** The number of rows of client `id`. */
  function RowCount(data: seq<seq<Cell>>, id: string): nat
    decreases |data|
  {
    if |data| == 0 then 0
    else RowCount(data[..|data| - 1], id) + (if ClientIdOf(data[|data| - 1]) == id then 1 else 0)
  }

  /** The number of distinct month values among the rows of client `id`. */
  function ActiveMonths(data: seq<seq<Cell>>, id: string): nat {
    |Elems(Months(data, id))|
  }

  /** The decision the service owes client `id`. */
  function Evaluate(data: seq<seq<Cell>>, id: string): LoanDecision {
    Decide(id, Total(data, id), ActiveMonths(data, id))
  }

  /** `ds` holds exactly one decision per client id of `data`, each the one
      that client is owed; the order of the list is left open. */
  predicate ScoredPortfolio(ds: seq<LoanDecision>, data: seq<seq<Cell>>) {
    && |ds| == |ClientIds(data)|
    && (forall k :: 0 <= k < |ds| ==> ds[k].client_id in ClientIds(data) && ds[k] == Evaluate(data, ds[k].client_id))
    && (forall k, l :: 0 <= k < l < |ds| ==> ds[k].client_id != ds[l].client_id)
    && (forall id :: id in ClientIds(data) ==> exists k :: 0 <= k < |ds| && ds[k].client_id == id)
  }

  // ---------------------------------------------------------------------
  // Facts about the specification
  // ---------------------------------------------------------------------

  /** Appending one row adds its client. */
  lemma SnocIds(data: seq<seq<Cell>>, row: seq<Cell>)
    ensures ClientIds(data + [row]) == ClientIds(data) + {ClientIdOf(row)}
  {
    assert (data + [row])[..|data|] == data;
  }

  /** Appending one row changes exactly that row's client. */
  lemma SnocRow(data: seq<seq<Cell>>, row: seq<Cell>, id: string)
    ensures (data + [row])[..|data|] == data
    ensures Total(data + [row], id) == Total(data, id) + (if ClientIdOf(row) == id then AmountOf(row) else 0.0)
    ensures Months(data + [row], id) == Months(data, id) + (if ClientIdOf(row) == id then [MonthOf(row)] else [])
    ensures RowCount(data + [row], id) == RowCount(data, id) + (if ClientIdOf(row) == id then 1 else 0)
  {
    assert (data + [row])[..|data|] == data;
  }

  /** A client without rows has no revenue and no months. */
  lemma {:induction false} AbsentClient(data: seq<seq<Cell>>, id: string)
    requires id !in ClientIds(data)
    ensures Total(data, id) == 0.0 && Months(data, id) == [] && RowCount(data, id) == 0
    decreases |data|
  {
    if |data| > 0 {
      var init := data[..|data| - 1];
      assert data == init + [data[|data| - 1]];
      SnocIds(init, data[|data| - 1]);
      SnocRow(init, data[|data| - 1], id);
      AbsentClient(init, id);
    }
  }

  lemma {:induction false} AppendTotal(a: seq<seq<Cell>>, b: seq<seq<Cell>>, id: string)
    ensures Total(a + b, id) == Total(a, id) + Total(b, id)
    decreases |b|
  {
    if |b| == 0 {
      assert a + b == a;
    } else {
      var init := b[..|b| - 1];
      var last := b[|b| - 1];
      assert b == init + [last];
      assert a + b == (a + init) + [last];
      AppendTotal(a, init, id);
      SnocRow(a + init, last, id);
      SnocRow(init, last, id);
    }
  }

  lemma {:induction false} AppendMonths(a: seq<seq<Cell>>, b: seq<seq<Cell>>, id: string)
    ensures Months(a + b, id) == Months(a, id) + Months(b, id)
    decreases |b|
  {
    if |b| == 0 {
      assert a + b == a;
    } else {
      var init := b[..|b| - 1];
      var last := b[|b| - 1];
      var tail := if ClientIdOf(last) == id then [MonthOf(last)] else [];
      var ma, mi := Months(a, id), Months(init, id);
      assert Months(a + b, id) == (ma + mi) + tail by {
        assert a + b == (a + init) + [last];
        AppendMonths(a, init, id);
        SnocRow(a + init, last, id);
      }
      assert Months(b, id) == mi + tail by {
        assert b == init + [last];
        SnocRow(init, last, id);
      }
      assert (ma + mi) + tail == ma + (mi + tail);
    }
  }

  lemma {:induction false} AppendCount(a: seq<seq<Cell>>, b: seq<seq<Cell>>, id: string)
    ensures RowCount(a + b, id) == RowCount(a, id) + RowCount(b, id)
    decreases |b|
  {
    if |b| == 0 {
      assert a + b == a;
    } else {
      var init := b[..|b| - 1];
      var last := b[|b| - 1];
      assert b == init + [last];
      assert a + b == (a + init) + [last];
      AppendCount(a, init, id);
      SnocRow(a + init, last, id);
      SnocRow(init, last, id);
    }
  }

  /** Splitting the rows splits each client's total and month list. */
  lemma AppendRows(a: seq<seq<Cell>>, b: seq<seq<Cell>>, id: string)
    ensures Total(a + b, id) == Total(a, id) + Total(b, id)
    ensures Months(a + b, id) == Months(a, id) + Months(b, id)
    ensures RowCount(a + b, id) == RowCount(a, id) + RowCount(b, id)
  {
    AppendTotal(a, b, id);
    AppendMonths(a, b, id);
    AppendCount(a, b, id);
  }

  /** Taking one row out of the middle of the upload takes away exactly that
      row's contribution. */
  lemma {:induction false} RemoveRow(before: seq<seq<Cell>>, row: seq<Cell>, after: seq<seq<Cell>>, id: string)
    ensures Total(before + [row] + after, id) == Total(before + after, id) + (if ClientIdOf(row) == id then AmountOf(row) else 0.0)
    ensures Elems(Months(before + [row] + after, id)) == Elems(Months(before + after, id)) + (if ClientIdOf(row) == id then {MonthOf(row)} else {})
    ensures RowCount(before + [row] + after, id) == RowCount(before + after, id) + (if ClientIdOf(row) == id then 1 else 0)
  {
    AppendRows(before + [row], after, id);
    AppendRows(before, after, id);
    SnocRow(before, row, id);
    ElemsAppend(Months(before, id), Months(after, id));
    ElemsAppend(Months(before + [row], id), Months(after, id));
    ElemsAppend(Months(before, id), if ClientIdOf(row) == id then [MonthOf(row)] else []);
    assert Elems([MonthOf(row)]) == {MonthOf(row)};
  }

  /** A client is among the ids exactly when it has a row. */
  lemma {:induction false} IdsByCount(data: seq<seq<Cell>>, id: string)
    ensures id in ClientIds(data) <==> RowCount(data, id) > 0
    decreases |data|
  {
    if |data| > 0 {
      IdsByCount(data[..|data| - 1], id);
    }
  }

  /** The set of clients does not depend on the order of the rows. */
  lemma PermutedClientIds(a: seq<seq<Cell>>, b: seq<seq<Cell>>)
    requires multiset(a) == multiset(b)
    ensures ClientIds(a) == ClientIds(b)
  {
    forall id ensures id in ClientIds(a) <==> id in ClientIds(b) {
      PermutedRows(a, b, id);
      IdsByCount(a, id);
      IdsByCount(b, id);
    }
  }

  /** A row of `a` sits somewhere in any permutation `b` of `a`; without it
      the rest are still permutations of each other. */
  lemma Peel(a: seq<seq<Cell>>, b: seq<seq<Cell>>) returns (k: nat)
    requires multiset(a) == multiset(b) && |a| > 0
    ensures k < |b| && b[k] == a[|a| - 1]
    ensures multiset(a[..|a| - 1]) == multiset(b[..k] + b[k + 1..])
  {
    var init := a[..|a| - 1];
    var last := a[|a| - 1];
    assert a == init + [last];
    assert last in multiset(b);
    k :| 0 <= k < |b| && b[k] == last;
    var before, after := b[..k], b[k + 1..];
    assert b == before + [last] + after;
    assert multiset(a) == multiset(init) + multiset{last};
    assert multiset(b) == multiset(before) + multiset{last} + multiset(after);
    assert multiset(before + after) == multiset(before) + multiset(after);
    assert multiset(init) == multiset(a) - multiset{last};
    assert multiset(before + after) == multiset(b) - multiset{last};
  }

  /** Client totals, month sets and row counts do not depend on the order of
      the rows. */
  lemma {:induction false} PermutedRows(a: seq<seq<Cell>>, b: seq<seq<Cell>>, id: string)
    requires multiset(a) == multiset(b)
    ensures Total(a, id) == Total(b, id)
    ensures Elems(Months(a, id)) == Elems(Months(b, id))
    ensures RowCount(a, id) == RowCount(b, id)
    decreases |a|
  {
    if |a| == 0 {
      assert |b| == |multiset(b)| == 0;
    } else {
      var init := a[..|a| - 1];
      var last := a[|a| - 1];
      var k := Peel(a, b);
      var before, after := b[..k], b[k + 1..];
      assert b == before + [last] + after;
      assert a == init + [last] + [];
      PermutedRows(init, before + after, id);
      RemoveRow(before, last, after, id);
      RemoveRow(init, last, [], id);
      assert init + [] == init;
    }
  }

  /** The decisions do not depend on the order of the rows. */
  lemma PermutedRowsSameDecisions(a: seq<seq<Cell>>, b: seq<seq<Cell>>, ds: seq<LoanDecision>)
    requires multiset(a) == multiset(b)
    ensures forall id :: Evaluate(a, id) == Evaluate(b, id)
    ensures ScoredPortfolio(ds, a) <==> ScoredPortfolio(ds, b)
  {
    forall id ensures Evaluate(a, id) == Evaluate(b, id) {
      PermutedRows(a, b, id);
    }
    PermutedClientIds(a, b);
  }

  /** Every row's client is among the ids, and its month among that
      client's months. */
  lemma {:induction false} MonthSeen(data: seq<seq<Cell>>, k: nat)
    requires k < |data|
    ensures ClientIdOf(data[k]) in ClientIds(data)
    ensures MonthOf(data[k]) in Months(data, ClientIdOf(data[k]))
    decreases |data|
  {
    var init := data[..|data| - 1];
    var last := data[|data| - 1];
    assert data == init + [last];
    SnocIds(init, last);
    SnocRow(init, last, ClientIdOf(data[k]));
    if k < |data| - 1 {
      MonthSeen(init, k);
    }
  }

  /** Repeating a row of the upload does not change any client's number of
      active months, nor the set of clients. */
  lemma DuplicateRow(data: seq<seq<Cell>>, k: nat, id: string)
    requires k < |data|
    ensures ClientIds(data + [data[k]]) == ClientIds(data)
    ensures ActiveMonths(data + [data[k]], id) == ActiveMonths(data, id)
  {
    var row := data[k];
    MonthSeen(data, k);
    SnocIds(data, row);
    SnocRow(data, row, id);
    if ClientIdOf(row) == id {
      ElemsSnocSeen(Months(data, id), MonthOf(row));
    } else {
      assert Months(data, id) + [] == Months(data, id);
    }
  }

  lemma {:induction false} MonthsLength(data: seq<seq<Cell>>, id: string)
    ensures |Months(data, id)| == RowCount(data, id)
    decreases |data|
  {
    if |data| > 0 {
      MonthsLength(data[..|data| - 1], id);
    }
  }

  /** A client is active in at most as many months as it has rows. */
  lemma ActiveAtMostRows(data: seq<seq<Cell>>, id: string)
    ensures ActiveMonths(data, id) <= RowCount(data, id)
  {
    MonthsLength(data, id);
    ElemsBound(Months(data, id));
  }

  /** Two results that both meet the contract hold the same decisions. */
  lemma ScoredPortfolioUnique(ds1: seq<LoanDecision>, ds2: seq<LoanDecision>, data: seq<seq<Cell>>)
    requires ScoredPortfolio(ds1, data) && ScoredPortfolio(ds2, data)
    ensures forall d :: d in ds1 <==> d in ds2
  {
    forall d | d in ds1 ensures d in ds2 {
      var k :| 0 <= k < |ds1| && ds1[k] == d;
      var l :| 0 <= l < |ds2| && ds2[l].client_id == d.client_id;
      assert ds2[l] == d;
    }
    forall d | d in ds2 ensures d in ds1 {
      var k :| 0 <= k < |ds2| && ds2[k] == d;
      var l :| 0 <= l < |ds1| && ds1[l].client_id == d.client_id;
      assert ds1[l] == d;
    }
  }

  /** One client active in one month with 80000 of revenue: 11 months of
      churn cost 110/12 points, leaving a score above 70. */
  lemma SingleRowExample(ds: seq<LoanDecision>)
    requires ScoredPortfolio(ds, [[Str("CLIENT009"), Num(80000.0), Num(2024.0), Num(5.0)]])
    ensures ds == [LoanDecision("CLIENT009", 80000.0, 80.0 - 110.0 / 12.0, "Approved")]
  {
    var data := [[Str("CLIENT009"), Num(80000.0), Num(2024.0), Num(5.0)]];
    assert data == [] + [data[0]];
    SnocIds([], data[0]);
    SnocRow([], data[0], "CLIENT009");
    assert ClientIds(data) == {"CLIENT009"};
    assert TruncateToU32(5.0) == 5;
    assert Months(data, "CLIENT009") == [5];
    assert Elems([5]) == {5};
    assert |ds| == 1;
  }

  // ---------------------------------------------------------------------
  // The handler
  // ---------------------------------------------------------------------

  /** The two maps hold, for the rows read so far, each client's month list
      and running total. */
  predicate Aggregated(clientMonths: map<string, seq<nat>>, clientData: map<string, real>, read: seq<seq<Cell>>) {
    HoldsTotals(clientData, read) && HoldsMonths(clientMonths, read)
  }

  predicate HoldsTotals(clientData: map<string, real>, read: seq<seq<Cell>>) {
    && clientData.Keys == ClientIds(read)
    && forall id :: id in clientData ==> clientData[id] == Total(read, id)
  }

  predicate HoldsMonths(clientMonths: map<string, seq<nat>>, read: seq<seq<Cell>>) {
    && clientMonths.Keys == ClientIds(read)
    && forall id :: id in clientMonths ==> clientMonths[id] == Months(read, id)
  }

  /** `client_months.entry(id).or_insert_with(Vec::new).push(month)` */
  function PushMonth(clientMonths: map<string, seq<nat>>, id: string, month: nat): (m: map<string, seq<nat>>)
    ensures m.Keys == clientMonths.Keys + {id}
    ensures m[id] == (if id in clientMonths then clientMonths[id] else []) + [month]
    ensures forall k :: k in clientMonths && k != id ==> m[k] == clientMonths[k]
  {
    clientMonths[id := (if id in clientMonths then clientMonths[id] else []) + [month]]
  }

  /** `*client_data.entry(id).or_insert(0.0) += mrr` */
  function AddAmount(clientData: map<string, real>, id: string, mrr: real): (m: map<string, real>)
    ensures m.Keys == clientData.Keys + {id}
    ensures m[id] == (if id in clientData then clientData[id] else 0.0) + mrr
    ensures forall k :: k in clientData && k != id ==> m[k] == clientData[k]
  {
    clientData[id := (if id in clientData then clientData[id] else 0.0) + mrr]
  }

  /** Adding one more row's amount to its client's total keeps the totals
      those of the rows read. */
  lemma AddAmountStep(clientData: map<string, real>, read: seq<seq<Cell>>, row: seq<Cell>)
    requires HoldsTotals(clientData, read)
    ensures HoldsTotals(AddAmount(clientData, ClientIdOf(row), AmountOf(row)), read + [row])
  {
    var clientId := ClientIdOf(row);
    var newData := AddAmount(clientData, clientId, AmountOf(row));
    SnocIds(read, row);
    forall id | id in newData ensures newData[id] == Total(read + [row], id) {
      SnocRow(read, row, id);
      if id == clientId && clientId !in clientData {
        AbsentClient(read, clientId);
      }
    }
  }

  /** Pushing one more row's month onto its client's list keeps the lists
      those of the rows read. */
  lemma PushMonthStep(clientMonths: map<string, seq<nat>>, read: seq<seq<Cell>>, row: seq<Cell>)
    requires HoldsMonths(clientMonths, read)
    ensures HoldsMonths(PushMonth(clientMonths, ClientIdOf(row), MonthOf(row)), read + [row])
  {
    var clientId := ClientIdOf(row);
    var newMonths := PushMonth(clientMonths, clientId, MonthOf(row));
    SnocIds(read, row);
    forall id | id in newMonths ensures newMonths[id] == Months(read + [row], id) {
      SnocRow(read, row, id);
      if id == clientId && clientId !in clientMonths {
        AbsentClient(read, clientId);
      }
    }
  }

  /** First loop: fold the data rows into the month lists and running totals
      of each client. */
  method Aggregate(data: seq<seq<Cell>>) returns (clientMonths: map<string, seq<nat>>, clientData: map<string, real>)
    ensures Aggregated(clientMonths, clientData, data)
  {
    clientMonths, clientData := map[], map[];
    var i := 0;
    while i < |data|
      invariant 0 <= i <= |data|
      invariant Aggregated(clientMonths, clientData, data[..i])
    {
      var row := data[i];
      var clientId := ClientIdOf(row);
      var mrr := AmountOf(row);
      var month := MonthOf(row);
      AddAmountStep(clientData, data[..i], row);
      PushMonthStep(clientMonths, data[..i], row);
      assert data[..i + 1] == data[..i] + [row];

      clientMonths := PushMonth(clientMonths, clientId, month);
      clientData := AddAmount(clientData, clientId, mrr);
      i := i + 1;
    }
    assert data[..|data|] == data;
  }

  /** The body of the second loop for one client: sort and deduplicate its
      months, then compute churn, score and label. */
  method ScoreClient(clientId: string, months: seq<nat>, totalMrr: real) returns (d: LoanDecision)
    ensures d == Decide(clientId, totalMrr, |Elems(months)|)
  {
    var a := new nat[|months|](i requires 0 <= i < |months| => months[i]);
    assert a[..] == months;
    SortUnstable(a);
    ElemsOfMultiset(a[..], months);
    var len := Dedup(a);
    StrictlyIncreasingDistinct(a[..len]);

    var activeMonths := len;
    var churnRate := if ExpectedMonths > activeMonths
      then (ExpectedMonths - activeMonths) as real / ExpectedMonths as real
      else 0.0;
    var score := totalMrr / 1000.0 - churnRate * 10.0;
    var decision := if score > 70.0 then "Approved" else "Rejected";
    d := LoanDecision(clientId, totalMrr, score, decision);
  }

  /** The decision the second loop owes the client `id` of the month map. */
  function Owed(clientMonths: map<string, seq<nat>>, clientData: map<string, real>, id: string): LoanDecision
    requires id in clientMonths
  {
    Decide(id, if id in clientData then clientData[id] else 0.0, |Elems(clientMonths[id])|)
  }

  /** Every entry of `decisions` is the decision owed to a client of `done`. */
  predicate OwedTo(decisions: seq<LoanDecision>, done: set<string>,
                   clientMonths: map<string, seq<nat>>, clientData: map<string, real>)
  {
    forall k :: 0 <= k < |decisions| ==>
      decisions[k].client_id in done && decisions[k].client_id in clientMonths &&
      decisions[k] == Owed(clientMonths, clientData, decisions[k].client_id)
  }

  /** No client id appears twice in `decisions`. */
  predicate DistinctIds(decisions: seq<LoanDecision>) {
    forall k, l :: 0 <= k < l < |decisions| ==> decisions[k].client_id != decisions[l].client_id
  }

  /** Every client of `done` has an entry in `decisions`. */
  predicate Covers(decisions: seq<LoanDecision>, done: set<string>) {
    forall id :: id in done ==> exists k :: 0 <= k < |decisions| && decisions[k].client_id == id
  }

  /** `decisions` holds, once each and in some order, the decisions owed to
      the clients in `done`. */
  predicate DecidedFor(decisions: seq<LoanDecision>, done: set<string>,
                       clientMonths: map<string, seq<nat>>, clientData: map<string, real>)
  {
    && done <= clientMonths.Keys
    && |decisions| == |done|
    && OwedTo(decisions, done, clientMonths, clientData)
    && DistinctIds(decisions)
    && Covers(decisions, done)
  }

  lemma OwedToStep(decisions: seq<LoanDecision>, done: set<string>,
                   clientMonths: map<string, seq<nat>>, clientData: map<string, real>, id: string)
    requires OwedTo(decisions, done, clientMonths, clientData) && id in clientMonths
    ensures OwedTo(decisions + [Owed(clientMonths, clientData, id)], done + {id}, clientMonths, clientData)
  {
    var next := decisions + [Owed(clientMonths, clientData, id)];
    forall k | 0 <= k < |next|
      ensures next[k].client_id in done + {id} && next[k].client_id in clientMonths
      ensures next[k] == Owed(clientMonths, clientData, next[k].client_id)
    {
      if k < |decisions| {
        assert next[k] == decisions[k];
      }
    }
  }

  lemma DistinctIdsStep(decisions: seq<LoanDecision>, done: set<string>, d: LoanDecision)
    requires DistinctIds(decisions)
    requires forall k :: 0 <= k < |decisions| ==> decisions[k].client_id in done
    requires d.client_id !in done
    ensures DistinctIds(decisions + [d])
  {
  }

  lemma CoversStep(decisions: seq<LoanDecision>, done: set<string>, d: LoanDecision)
    requires Covers(decisions, done)
    ensures Covers(decisions + [d], done + {d.client_id})
  {
    var next := decisions + [d];
    forall x | x in done + {d.client_id} ensures exists k :: 0 <= k < |next| && next[k].client_id == x {
      if x == d.client_id {
        assert next[|decisions|].client_id == x;
      } else {
        var k :| 0 <= k < |decisions| && decisions[k].client_id == x;
        assert next[k] == decisions[k];
      }
    }
  }

  /** Pushing the decision of one more client keeps the list correct. */
  lemma DecidedStep(decisions: seq<LoanDecision>, done: set<string>,
                    clientMonths: map<string, seq<nat>>, clientData: map<string, real>, id: string)
    requires DecidedFor(decisions, done, clientMonths, clientData)
    requires id in clientMonths && id !in done
    ensures DecidedFor(decisions + [Owed(clientMonths, clientData, id)], done + {id}, clientMonths, clientData)
  {
    var d := Owed(clientMonths, clientData, id);
    OwedToStep(decisions, done, clientMonths, clientData, id);
    DistinctIdsStep(decisions, done, d);
    CoversStep(decisions, done, d);
  }

  /** Moving one key from the pending set to the done set keeps the two
      apart and their union the same. */
  lemma MoveKey(pending: set<string>, done: set<string>, x: string)
    requires pending !! done && x in pending
    ensures (pending - {x}) !! (done + {x})
    ensures (pending - {x}) + (done + {x}) == pending + done
  {
  }

  /** Second loop: score every client, in whatever order the month map hands
      them out. */
  method ScoreClients(clientMonths: map<string, seq<nat>>, clientData: map<string, real>)
    returns (decisions: seq<LoanDecision>)
    ensures DecidedFor(decisions, clientMonths.Keys, clientMonths, clientData)
  {
    decisions := [];
    var pending := clientMonths.Keys;
    ghost var done: set<string> := {};
    while pending != {}
      invariant pending !! done && pending + done == clientMonths.Keys
      invariant DecidedFor(decisions, done, clientMonths, clientData)
      decreases |pending|
    {
      var clientId :| clientId in pending;
      var totalMrr := if clientId in clientData then clientData[clientId] else 0.0;
      var d := ScoreClient(clientId, clientMonths[clientId], totalMrr);
      assert d == Owed(clientMonths, clientData, clientId);
      DecidedStep(decisions, done, clientMonths, clientData, clientId);
      MoveKey(pending, done, clientId);
      decisions := decisions + [d];
      done := done + {clientId};
      pending := pending - {clientId};
    }
  }

  /** `POST /portfolio`: the decoded upload in, the reply out. */
  method PostPortfolio(upload: Decoded) returns (r: Reply<seq<LoanDecision>>)
    ensures upload.DecodeError? ==> r == Rejected(FileErrorPrefix + upload.reason)
    ensures upload.NoSheet? || upload.SheetUnreadable? ==> r == BadRequest(InvalidWorksheet)
    ensures upload.Sheet? && !HeaderOk(upload.rows) ==> r == BadRequest(InvalidFormat)
    ensures upload.Sheet? && HeaderOk(upload.rows) ==> r.Ok? && ScoredPortfolio(r.body, DataRows(upload.rows))
  {
    match upload
    case DecodeError(reason) =>
      return Rejected(FileErrorPrefix + reason);
    case NoSheet =>
      return BadRequest(InvalidWorksheet);
    case SheetUnreadable(_) =>
      return BadRequest(InvalidWorksheet);
    case Sheet(rows) =>
      if HeaderNames(rows) != ExpectedHeader {
        return BadRequest(InvalidFormat);
      }
      var data := DataRows(rows);
      var clientMonths, clientData := Aggregate(data);
      var decisions := ScoreClients(clientMonths, clientData);
      forall k | 0 <= k < |decisions|
        ensures decisions[k] == Evaluate(data, decisions[k].client_id)
      {
      }
      return Ok(decisions);
  }

  /** What a caller can conclude from the contract of `PostPortfolio` alone. */
  method PortfolioExamples() {
    var header := [Str("ID_CLIENTE"), Str("MONTO (USD)"), Str("AÑO"), Str("MES")];
    HeaderOkIff([]);
    var r := PostPortfolio(Sheet([]));
    assert r == BadRequest(InvalidFormat);
    HeaderOkIff([header[..3]]);
    r := PostPortfolio(Sheet([header[..3]]));
    assert r == BadRequest(InvalidFormat);
    r := PostPortfolio(NoSheet);
    assert r == BadRequest(InvalidWorksheet);
    var rows := [header, [Str("CLIENT009"), Num(80000.0), Num(2024.0), Num(5.0)]];
    HeaderOkIff(rows);
    r := PostPortfolio(Sheet(rows));
    assert DataRows(rows) == [[Str("CLIENT009"), Num(80000.0), Num(2024.0), Num(5.0)]];
    SingleRowExample(r.body);
    assert r.body[0].decision == "Approved";
  }
}

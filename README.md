# Credit-decisioning service: a verified model of its handlers

The service scores a portfolio of clients from an uploaded spreadsheet and
answers two lookups against in-memory registries. This project models its
three request handlers (`src/handlers.rs`) in Dafny and proves what they
compute.

- **Portfolio upload** (`POST /portfolio`), in `portfolio.dfy`, `months.dfy`,
  `workbook.dfy` and `scoring.dfy`. The first worksheet is a `seq<seq<Cell>>`. A cell is
  `Str`, `Num` or `Empty`. The header row must be exactly
  `ID_CLIENTE`, `MONTO (USD)`, `AÑO`, `MES`. Then a loop folds the data rows
  into two maps. One holds each client's list of months. The other holds each
  client's running revenue total. Each month list is copied into an array,
  sorted in place and deduplicated in place. Finally each client gets a churn
  rate over a 12-month period, a score `total/1000 - churn*10`, and the label
  "Approved" when the score is strictly above 70, else "Rejected".
  - `Aggregate` is proved against specification functions over the data
    rows: `ClientIds`, `Total` and `Months`. `ScoreClients` is proved against
    the two maps it reads: one decision per key, computed from that key's
    total and distinct months. `PostPortfolio` joins the two and is proved
    against `Evaluate`, the decision owed to each client of the data rows.
  - The lemmas prove that the set of clients, each client's total, its set
    of distinct months and its row count do not depend on row order. The
    month list itself does: it keeps the rows' order.
  - They prove that a duplicate row does not change a client's number of
    active months.
  - They prove that a client has no more active months than rows.
  - They prove that the decision list is determined up to order.
- **Loan application** (`POST /apply-loan`), in `loans.dfy`: the amount check
  comes first, then the registry lookup, then the limit check. An approved
  loan carries a 12-entry schedule whose payments add up to the amount.
- **Loan status** (`GET /loan-status/{id}`), in `loans.dfy`: a blank id is
  refused, an absent id is not found, and a present id returns the stored
  record unchanged. "Blank" means empty after Rust's `trim`, which removes
  Unicode white space.

The registries are passed in as immutable maps. Both lookups are functions of
them, so a handler cannot change a registry. Amounts, churn and scores are
`real`, so the arithmetic is exact.

The message "Invalid or empty worksheet" suggests that an empty sheet gets it,
but it does not. A present worksheet with no rows yields an empty header
(src/handlers.rs:44), fails the header comparison, and gets "Invalid Excel
format". Only a missing or unreadable worksheet 0 gets "Invalid or empty
worksheet" (src/handlers.rs:42, 88-89). `PortfolioExamples` shows both cases.

## Model

| member | source | states |
|---|---|---|
| Workbook.HeaderOkIff | src/handlers.rs:44-49 | the header check passes exactly when the sheet has a first row equal to the four string cells `ID_CLIENTE`, `MONTO (USD)`, `AÑO`, `MES` in this order; an empty sheet, a wider or narrower row, and a non-string cell all fail |
| Workbook.TruncateToU32 | src/handlers.rs:57 | `f as u32` is truncation toward zero saturating at 0 and 4294967295: the result is at most 4294967295, the floor of the value in range, 0 below 1, 4294967295 above the range |
| Workbook.CellFallbacks | src/handlers.rs:55-57 | a missing or non-string id reads as "", a missing or non-numeric amount as 0, a missing or non-numeric month as 0; the year column is never read |
| Scoring.ChurnRate | src/handlers.rs:69-75 | churn lies in [0, 1], is 0 exactly when the client has at least 12 active months, and otherwise times 12 equals the number of missing months |
| Scoring.Label | src/handlers.rs:78 | the label is "Approved" or "Rejected", and "Approved" exactly when the score is strictly above 70 |
| Scoring.Decide | src/handlers.rs:77-84 | a decision keeps the client id and total, its score is total/1000 - churn*10, so it lies between total/1000 - 10 and total/1000 (equal to total/1000 from 12 active months on), and it is approved exactly when the score exceeds 70 |
| Scoring.ThresholdIsStrict | src/handlers.rs:78 | a score of exactly 70 is rejected and a score of 70.0001 is approved |
| Scoring.DecisionMonotone | src/handlers.rs:69-78 | more revenue or more active months never lowers the score, so it never turns an approval into a rejection |
| Portfolio.AbsentClient | src/handlers.rs:59-60 | a client without rows has total 0, no months and no rows, the values `or_insert` starts from |
| Portfolio.AppendRows | src/handlers.rs:54-61 | splitting the rows in two splits every client's total (a sum), month list (a concatenation) and row count |
| Portfolio.RemoveRow | src/handlers.rs:54-61 | taking one row out of any position removes exactly its amount from its client's total, at most its month from the month set, and one row from the count |
| Portfolio.IdsByCount | src/handlers.rs:59 | a client has an entry exactly when it has at least one row |
| Portfolio.PermutedClientIds | src/handlers.rs:59 | the set of clients is the same for every ordering of the rows |
| Portfolio.PermutedRows | src/handlers.rs:54-67 | for every permutation of the rows, each client's total, its set of months and its row count are unchanged |
| Portfolio.PermutedRowsSameDecisions | src/handlers.rs:54-85 | for every permutation of the rows each client's decision is unchanged, and a decision list is correct for one ordering exactly when it is correct for the other |
| Portfolio.MonthSeen | src/handlers.rs:57-59 | the client of every row is among the client ids, and the row's month is in that client's month list |
| MonthLists.ElemsMember | src/handlers.rs:66-70 | a value is among the distinct months of a list exactly when it occurs in the list |
| MonthLists.ElemsSnocSeen | src/handlers.rs:66-70 | appending a month the list already holds adds no distinct month |
| Portfolio.DuplicateRow | src/handlers.rs:57-67 | appending a copy of any row leaves the set of clients and every client's number of active months unchanged |
| Portfolio.ActiveAtMostRows | src/handlers.rs:66-70 | a client's number of distinct active months never exceeds its number of rows |
| MonthLists.StrictlyIncreasingDistinct | src/handlers.rs:66-70 | a sorted, deduplicated month list has as many entries as distinct values, so its length is the number of active months |
| Portfolio.ScoredPortfolioUnique | src/handlers.rs:63-85 | any two decision lists that meet the upload's contract hold the same decisions, so only their order is left open |
| Portfolio.SingleRowExample | src/handlers.rs:54-85 | one row for CLIENT009 with 80000 in month 5 gives exactly one decision: total 80000, score 80 - 110/12, "Approved" |
| Portfolio.PushMonth | src/handlers.rs:59 | pushing a month appends it to the client's list, starting from an empty list for a new client; every other client's list is unchanged and no other key is added |
| Portfolio.AddAmount | src/handlers.rs:60 | adding an amount raises the client's total by it, starting from 0 for a new client; every other total is unchanged and no other key is added |
| Portfolio.AddAmountStep | src/handlers.rs:60 | if the totals map has exactly the clients read so far, each with the sum of its amounts, it still does after adding one more row's amount |
| Portfolio.PushMonthStep | src/handlers.rs:59 | if the month map has exactly the clients read so far, each with its months in row order, it still does after pushing one more row's month |
| Portfolio.Aggregate | src/handlers.rs:51-61 | after the first loop both maps have exactly the clients of the data rows as keys; each total is the sum of that client's amounts, and each month list is that client's months in row order |
| MonthLists.SwapStep | src/handlers.rs:66 | while one value is inserted, swapping it with a larger left neighbour keeps the rest of the prefix in order and the value below everything to its right |
| MonthLists.InsertDone | src/handlers.rs:66 | once the inserted value is no smaller than its left neighbour, the prefix is sorted |
| MonthLists.SortUnstable | src/handlers.rs:66 | the month array ends sorted ascending and is a permutation of what it held |
| MonthLists.DedupStep | src/handlers.rs:67 | on a sorted list, the next value is kept exactly when it differs from the last kept one, and either way the kept values stay strictly increasing and have the same distinct values as the values read |
| MonthLists.Dedup | src/handlers.rs:67 | on a sorted array, the kept prefix is strictly increasing and holds exactly the distinct values the array held |
| Portfolio.ScoreClient | src/handlers.rs:65-84 | sorting, deduplicating and scoring one client's months gives the decision for its total and its number of distinct months |
| Portfolio.DecidedStep | src/handlers.rs:63-84 | pushing the decision of one more client, not yet decided, keeps the list holding one correct decision per decided client, with no id twice |
| Portfolio.ScoreClients | src/handlers.rs:63-85 | the second loop outputs one decision per key of the month map, in any order, with no id twice, each computed from that client's total (0 if absent) and distinct months |
| Portfolio.PostPortfolio | src/handlers.rs:38-91 | an undecodable file is rejected with a `FileError` (its Display text is "Failed to read XLSX file: …"); a missing or unreadable worksheet gives 400 "Invalid or empty worksheet"; a wrong header, including an empty sheet, gives 400 "Invalid Excel format"; otherwise the reply holds exactly one correct decision per client id of the data rows |
| Loans.EqualPaymentsSum | src/handlers.rs:106-109 | n equal payments of x add up to n times x |
| Loans.PaymentTable | src/handlers.rs:106-109 | the schedule has 12 entries, months 1 to 12 in order, all payments equal, and the payments add up to the amount |
| Loans.ApplyLoan | src/handlers.rs:93-123 | a non-positive amount gets 400 whatever the registry holds; then an unknown client gets 404 "Client ID not found"; then an amount above the limit gets 400 "Loan amount exceeds credit limit"; the loan is approved exactly when 0 < amount <= limit, with the requested amount and a 12-payment schedule of amount/12 that adds up to it |
| Loans.TrimStart | src/handlers.rs:127 | the result is a suffix of the input; every dropped character is white space, and the result does not start with white space |
| Loans.TrimEnd | src/handlers.rs:127 | the result is a prefix of the input; every dropped character is white space, and the result does not end with white space |
| Loans.TrimEmptyIffBlank | src/handlers.rs:127 | trimming leaves nothing exactly when every character is white space |
| Loans.GetLoanStatus | src/handlers.rs:126-142 | a blank id gets 400 "Client ID cannot be empty"; otherwise an id absent from the registry gets 404 "Loan status not found"; otherwise the stored record is returned unchanged; the lookup uses the id untrimmed |
| Loans.SeedLoanExamples | src/main.rs:14-18 | against the demo limits, 60000 for CLIENT001 exceeds the limit, 0 is refused, an unknown client is not found, and 40000 is approved with payments adding up to 40000 |
| Loans.SeedStatusExamples | src/main.rs:20-32 | against the demo statuses, "GHOST" and " CLIENT001" are not found, "" and white space are refused, and CLIENT002's record is returned as stored |

## Left out

- Decoding the upload with the spreadsheet reader is a foreign library (src/handlers.rs:39-42). Its outcome is the input `Decoded`: `DecodeError`, `NoSheet`, `SheetUnreadable` or `Sheet(rows)`.
- The reader's other cell kinds (integer, boolean, date, error) are represented by `Empty`. The handler reads cells only with `get_string` and `get_float`, and neither getter returns a value for these kinds.
- Locking the registries and the "Failed to acquire lock" rejection (src/handlers.rs:100, 133) are concurrency. The registries are immutable maps passed in.
- JSON serialization and HTTP status codes are represented by the `Reply` constructors: `Ok` is 200, `BadRequest` is 400, `NotFound` is 404, and `Rejected` is a rejection. No route installs a `recover` handler (src/routes.rs), so the framework answers such a rejection with status 500, and the caller does not see its Display text.
- IEEE-754 rounding of `f64` is not modelled, because amounts, churn and score are `real`. So the 12 payments add up to the amount exactly, where the service's floats agree only within rounding. NaN and infinite amounts are not modelled either. Row-order independence of the totals holds only over reals: the `f64` sum at src/handlers.rs:60 is built up in row order, so a reordered upload can round to a different total.
- Portfolio.ScoreClient: `months.len() as u32` is modelled without 32-bit wrap-around. Wrap-around needs 2^32 distinct months, and a worksheet holds at most 1,048,576 rows.
- HashMap iteration order in the second loop is modelled as an arbitrary choice of the next client. The contracts therefore speak of the decisions up to order.
- Route wiring (src/routes.rs), process start-up, CORS and the server (src/main.rs) are framework plumbing. The demo registry entries appear only in the two seed example lemmas.

/** The read-only reports of the payment controller: the per-level matrix
    summary, the five income totals and the page arithmetic of the PMF list. */
module PaymentReports {
  import opened Base
  import opened TransactionModel

  const SummaryLevels: nat := 10

  // ---------------------------------------------------------------------------
  // getMatrixSummary.

  /** One level of the summary: records at that level received by the user,
      how many of them are paid and open, and whether the level is unlocked. */
  datatype LevelSummary = LevelSummary(totalPeople: nat, paidPeople: nat, openPeople: nat, unlocked: bool)

  const EmptyLevel: LevelSummary := LevelSummary(0, 0, 0, false)

  /** A record takes part in the user's summary when the user pays or receives it. */
  predicate Involves(t: Txn, u: UserId)
  {
    t.receiverId == Some(u) || t.payerId == u
  }

  /** The positions of the records at `level` received by `u`, of the given
      status when one is given. */
  ghost function ReceivedAt(txns: seq<Txn>, u: UserId, level: int, status: Option<Status>): set<nat>
  {
    set k: nat | k < |txns| && txns[k].level == level && txns[k].receiverId == Some(u)
                 && (status.None? || txns[k].status == status.value)
  }

  /** The received positions of a ledger are those of all but its last record,
      plus the last position when that record is received at the level. */
  lemma ReceivedAtSplit(txns: seq<Txn>, u: UserId, level: int, status: Option<Status>)
    requires txns != []
    ensures var init, last := txns[..|txns| - 1], |txns| - 1;
      var t := txns[last];
      && last !in ReceivedAt(init, u, level, status)
      && ReceivedAt(txns, u, level, status)
         == ReceivedAt(init, u, level, status)
            + (if t.level == level && t.receiverId == Some(u) && (status.None? || t.status == status.value)
               then {last} else {})
  {
    var init := txns[..|txns| - 1];
    assert forall k :: 0 <= k < |init| ==> init[k] == txns[k];
  }

  /** The two group stages for one level, as a fold over the ledger: counts of
      records received by `u` (all, paid, open), and whether `u` paid any. */
  function LevelStats(txns: seq<Txn>, u: UserId, level: int): LevelSummary
  {
    if txns == [] then EmptyLevel
    else
      var s := LevelStats(txns[..|txns| - 1], u, level);
      var t := txns[|txns| - 1];
      if t.level != level then s
      else
        var received := t.receiverId == Some(u);
        LevelSummary(
          s.totalPeople + (if received then 1 else 0),
          s.paidPeople + (if received && t.status == Paid then 1 else 0),
          s.openPeople + (if received && t.status == Open then 1 else 0),
          s.unlocked || (t.payerId == u && t.status == Paid))
  }

  /** The three counts of a level are the numbers of records at that level
      received by the user: all of them, the paid ones and the open ones. */
  lemma {:induction false} LevelStatsCounts(txns: seq<Txn>, u: UserId, level: int)
    ensures LevelStats(txns, u, level).totalPeople == |ReceivedAt(txns, u, level, None)|
    ensures LevelStats(txns, u, level).paidPeople == |ReceivedAt(txns, u, level, Some(Paid))|
    ensures LevelStats(txns, u, level).openPeople == |ReceivedAt(txns, u, level, Some(Open))|
  {
    if txns != [] {
      LevelStatsCounts(txns[..|txns| - 1], u, level);
      ReceivedAtSplit(txns, u, level, None);
      ReceivedAtSplit(txns, u, level, Some(Paid));
      ReceivedAtSplit(txns, u, level, Some(Open));
    }
  }

  /** Paid and open records are disjoint parts of the received ones. */
  lemma {:induction false} LevelStatsBounds(txns: seq<Txn>, u: UserId, level: int)
    ensures LevelStats(txns, u, level).paidPeople + LevelStats(txns, u, level).openPeople
         <= LevelStats(txns, u, level).totalPeople
  {
    if txns != [] {
      LevelStatsBounds(txns[..|txns| - 1], u, level);
    }
  }

  /** A level is unlocked exactly when the user paid some record at that level. */
  lemma {:induction false} UnlockedIff(txns: seq<Txn>, u: UserId, level: int)
    ensures LevelStats(txns, u, level).unlocked <==>
      exists k :: 0 <= k < |txns| && txns[k].payerId == u && txns[k].status == Paid && txns[k].level == level
  {
    if txns != [] {
      var prefix := txns[..|txns| - 1];
      UnlockedIff(prefix, u, level);
      if exists k :: 0 <= k < |prefix| && prefix[k].payerId == u && prefix[k].status == Paid && prefix[k].level == level {
        var k :| 0 <= k < |prefix| && prefix[k].payerId == u && prefix[k].status == Paid && prefix[k].level == level;
        assert txns[k] == prefix[k];
      }
      if exists k :: 0 <= k < |txns| && txns[k].payerId == u && txns[k].status == Paid && txns[k].level == level {
        var k :| 0 <= k < |txns| && txns[k].payerId == u && txns[k].status == Paid && txns[k].level == level;
        if k < |prefix| {
          assert prefix[k] == txns[k];
        }
      }
    }
  }

  /** A level where no record involves the user is all zeros and locked. */
  lemma {:induction false} UninvolvedLevel(txns: seq<Txn>, u: UserId, level: int)
    requires forall k :: 0 <= k < |txns| && txns[k].level == level ==> !Involves(txns[k], u)
    ensures LevelStats(txns, u, level) == EmptyLevel
  {
    if txns != [] {
      var prefix := txns[..|txns| - 1];
      assert forall k :: 0 <= k < |prefix| ==> prefix[k] == txns[k];
      UninvolvedLevel(prefix, u, level);
    }
  }

  /** One output row of the aggregation pipeline. */
  datatype LevelRow = LevelRow(level: int, summary: LevelSummary)

  /** The levels of the records the $match stage keeps, once each. */
  function InvolvedLevels(txns: seq<Txn>, u: UserId): (ls: seq<int>)
    ensures forall l :: l in ls <==> exists k :: 0 <= k < |txns| && txns[k].level == l && Involves(txns[k], u)
  {
    if txns == [] then []
    else
      var prefix := txns[..|txns| - 1];
      var t := txns[|txns| - 1];
      var ls := InvolvedLevels(prefix, u);
      assert forall k :: 0 <= k < |prefix| ==> prefix[k] == txns[k];
      if Involves(t, u) && t.level !in ls then ls + [t.level] else ls
  }

  /** The pipeline's result: one row per level that some involved record has. */
  function MatrixRows(txns: seq<Txn>, u: UserId): (rows: seq<LevelRow>)
    ensures |rows| == |InvolvedLevels(txns, u)|
    ensures forall i :: 0 <= i < |rows| ==>
      rows[i] == LevelRow(InvolvedLevels(txns, u)[i], LevelStats(txns, u, InvolvedLevels(txns, u)[i]))
  {
    var ls := InvolvedLevels(txns, u);
    seq(|ls|, i requires 0 <= i < |ls| => LevelRow(ls[i], LevelStats(txns, u, ls[i])))
  }

  /** `results.find(r => r.level === level)`. */
  function FindRow(rows: seq<LevelRow>, level: int): (r: Option<LevelSummary>)
    ensures r.Some? <==> exists i :: 0 <= i < |rows| && rows[i].level == level
    ensures r.Some? ==> exists i :: 0 <= i < |rows| && rows[i].level == level && rows[i].summary == r.value
  {
    if rows == [] then None
    else if rows[0].level == level then Some(rows[0].summary)
    else
      var r := FindRow(rows[1..], level);
      assert forall i :: 1 <= i < |rows| ==> rows[i] == rows[1..][i - 1];
      r
  }

  /** Every level at which the user pays or receives a record has a pipeline row. */
  lemma InvolvedLevelHasRow(txns: seq<Txn>, u: UserId, k: nat)
    requires k < |txns| && Involves(txns[k], u)
    ensures FindRow(MatrixRows(txns, u), txns[k].level).Some?
  {
    var ls := InvolvedLevels(txns, u);
    assert txns[k].level in ls;
    var i :| 0 <= i < |ls| && ls[i] == txns[k].level;
    assert MatrixRows(txns, u)[i].level == txns[k].level;
  }

  /** The summary entry of a level: the pipeline row for it when there is one,
      zeros and locked otherwise; either way the level's statistics. */
  lemma RowOrDefault(txns: seq<Txn>, u: UserId, level: int)
    ensures var row := FindRow(MatrixRows(txns, u), level);
      (if row.Some? then row.value else EmptyLevel) == LevelStats(txns, u, level)
  {
    var rows := MatrixRows(txns, u);
    if FindRow(rows, level).None? {
      forall k | 0 <= k < |txns| && txns[k].level == level
        ensures !Involves(txns[k], u)
      {
        if Involves(txns[k], u) {
          InvolvedLevelHasRow(txns, u, k);
        }
      }
      UninvolvedLevel(txns, u, level);
    }
  }

  /** `getMatrixSummary`: the loop over levels 1 .. 10 that fills the summary,
      keyed by level number, from the pipeline rows. */
  method GetMatrixSummary(txns: seq<Txn>, u: UserId) returns (summary: map<int, LevelSummary>)
    ensures forall l :: l in summary <==> 1 <= l <= SummaryLevels
    ensures forall l :: 1 <= l <= SummaryLevels ==> summary[l] == LevelStats(txns, u, l)
  {
    var rows := MatrixRows(txns, u);
    summary := map[];
    for level := 1 to SummaryLevels + 1
      invariant forall l :: l in summary <==> 1 <= l < level
      invariant forall l :: 1 <= l < level ==> summary[l] == LevelStats(txns, u, l)
    {
      var found := FindRow(rows, level);
      var levelData := if found.Some? then found.value else EmptyLevel;
      RowOrDefault(txns, u, level);
      summary := summary[level := levelData];
    }
  }

  // ---------------------------------------------------------------------------
  // gettotals.

  /** The five $match filters of the totals report. */
  datatype Filter = GivenPaid | GivenUnsettled | ReceivedUnsettled | ReceivedPaid | DirectIncome

  predicate Unsettled(s: Status)
  {
    s == Open || s == Pending
  }

  /** Whether filter `f` for user `u` keeps record `t`. */
  predicate Selects(f: Filter, u: UserId, t: Txn)
  {
    match f
    case GivenPaid => t.payerId == u && t.status == Paid
    case GivenUnsettled => t.payerId == u && Unsettled(t.status)
    case ReceivedUnsettled => t.receiverId == Some(u) && Unsettled(t.status)
    case ReceivedPaid => t.receiverId == Some(u) && t.status == Paid
    case DirectIncome => t.receiverId == Some(u) && t.status == Paid && t.level == 1
  }

  /** The $sum of the amounts of the records the filter keeps; 0 when none. */
  function SumAmounts(txns: seq<Txn>, f: Filter, u: UserId): (sum: int)
    ensures (forall k :: 0 <= k < |txns| ==> txns[k].amount >= 0) ==> sum >= 0
  {
    if txns == [] then 0
    else
      var init := txns[..|txns| - 1];
      assert forall k :: 0 <= k < |init| ==> init[k] == txns[k];
      SumAmounts(init, f, u) + (if Selects(f, u, txns[|txns| - 1]) then txns[|txns| - 1].amount else 0)
  }

  datatype Totals = Totals(
    helpGiven: int,
    helpGivenPending: int,
    helpReceivedPending: int,
    helpReceived: int,
    directIncome: int)

  /** `gettotals` for user `u`: paid and unsettled (open or pending) amounts the
      user pays and receives, and the paid level-1 amounts received. */
  function GetTotals(txns: seq<Txn>, u: UserId): (t: Totals)
    ensures t.helpReceived == PaidTotal(txns, Some(u))
    ensures (forall k :: 0 <= k < |txns| ==> txns[k].amount >= 0) ==>
      t.helpGiven >= 0 && t.helpGivenPending >= 0 && t.helpReceivedPending >= 0 && t.directIncome >= 0
  {
    ReceivedIsPaidTotal(txns, u);
    Totals(
      SumAmounts(txns, GivenPaid, u),
      SumAmounts(txns, GivenUnsettled, u),
      SumAmounts(txns, ReceivedUnsettled, u),
      SumAmounts(txns, ReceivedPaid, u),
      SumAmounts(txns, DirectIncome, u))
  }

  /** A filter that keeps nothing sums to 0. */
  lemma {:induction false} SumOfNothing(txns: seq<Txn>, f: Filter, u: UserId)
    requires forall k :: 0 <= k < |txns| ==> !Selects(f, u, txns[k])
    ensures SumAmounts(txns, f, u) == 0
  {
    if txns != [] {
      assert forall k :: 0 <= k < |txns| - 1 ==> txns[..|txns| - 1][k] == txns[k];
      SumOfNothing(txns[..|txns| - 1], f, u);
    }
  }

  /** With non-negative amounts, a narrower filter never sums to more. */
  lemma {:induction false} SumNarrower(txns: seq<Txn>, narrow: Filter, wide: Filter, u: UserId)
    requires forall k :: 0 <= k < |txns| ==> txns[k].amount >= 0
    requires forall t :: Selects(narrow, u, t) ==> Selects(wide, u, t)
    ensures SumAmounts(txns, narrow, u) <= SumAmounts(txns, wide, u)
  {
    if txns != [] {
      assert forall k :: 0 <= k < |txns| - 1 ==> txns[..|txns| - 1][k] == txns[k];
      SumNarrower(txns[..|txns| - 1], narrow, wide, u);
    }
  }

  /** The paid total a user receives is their group total in the ranking. */
  lemma {:induction false} ReceivedIsPaidTotal(txns: seq<Txn>, u: UserId)
    ensures SumAmounts(txns, ReceivedPaid, u) == PaidTotal(txns, Some(u))
  {
    if txns != [] {
      ReceivedIsPaidTotal(txns[..|txns| - 1], u);
    }
  }

  /** Direct income is part of the help received; a user who neither pays nor
      receives anything has all totals 0. */
  lemma TotalsFacts(txns: seq<Txn>, u: UserId)
    requires forall k :: 0 <= k < |txns| ==> txns[k].amount >= 0
    ensures GetTotals(txns, u).directIncome <= GetTotals(txns, u).helpReceived
    ensures (forall k :: 0 <= k < |txns| ==> !Involves(txns[k], u)) ==> GetTotals(txns, u) == Totals(0, 0, 0, 0, 0)
  {
    SumNarrower(txns, DirectIncome, ReceivedPaid, u);
    if forall k :: 0 <= k < |txns| ==> !Involves(txns[k], u) {
      SumOfNothing(txns, GivenPaid, u);
      SumOfNothing(txns, GivenUnsettled, u);
      SumOfNothing(txns, ReceivedUnsettled, u);
      SumOfNothing(txns, ReceivedPaid, u);
      SumOfNothing(txns, DirectIncome, u);
    }
  }

  // ---------------------------------------------------------------------------
  // getTransactionsPMF: page arithmetic.

  /** `parseInt(x) || fallback`: None stands for an absent or non-numeric
      parameter (NaN); 0 is falsy too. */
  function ParamOr(x: Option<int>, fallback: int): (r: int)
    ensures x.Some? && x.value != 0 ==> r == x.value
    ensures x.None? || x.value == 0 ==> r == fallback
    ensures r == fallback || (x.Some? && r == x.value)
    ensures r == 0 ==> fallback == 0
  {
    if x.None? || x.value == 0 then fallback else x.value
  }

  /** `Math.ceil(total / limit)` for a non-zero limit. */
  function CeilDiv(total: nat, limit: int): int
    requires limit != 0
  {
    if limit > 0 then (total + limit - 1) / limit else -(total / -limit)
  }

  /** For a positive limit, the page count is the smallest number of pages
      that hold every record; for a negative one, the magnitude's floor
      quotient, negated. */
  lemma CeilDivBounds(total: nat, limit: int)
    requires limit != 0
    ensures var r := CeilDiv(total, limit);
      && (limit > 0 ==> (r - 1) * limit < total <= r * limit || (total == 0 && r == 0))
      && (limit < 0 ==> r == -(total / -limit))
  {
  }

  /** The payer's PMF records, in store order (`find({ payerId, type: 'PMF' })`). */
  function PmfRecords(txns: seq<Txn>, payer: UserId): (r: seq<Txn>)
    ensures |r| <= |txns|
    ensures forall k :: 0 <= k < |r| ==> r[k].payerId == payer && r[k].kind == PmfKind
  {
    if txns == [] then []
    else
      var rest := PmfRecords(txns[1..], payer);
      if txns[0].payerId == payer && txns[0].kind == PmfKind then [txns[0]] + rest else rest
  }

  /** The PMF records are exactly the payer's records of type PMF: each one is
      a stored record, and every such stored record is among them. */
  lemma {:induction false} PmfRecordsExact(txns: seq<Txn>, payer: UserId)
    ensures forall k :: 0 <= k < |PmfRecords(txns, payer)| ==> PmfRecords(txns, payer)[k] in txns
    ensures forall k :: 0 <= k < |txns| && txns[k].payerId == payer && txns[k].kind == PmfKind ==>
      txns[k] in PmfRecords(txns, payer)
  {
    if txns != [] {
      var tail := txns[1..];
      PmfRecordsExact(tail, payer);
      var rest := PmfRecords(tail, payer);
      var r := PmfRecords(txns, payer);
      var taken := txns[0].payerId == payer && txns[0].kind == PmfKind;
      assert r == if taken then [txns[0]] + rest else rest;
      forall k | 0 <= k < |r|
        ensures r[k] in txns
      {
        if taken && k == 0 {
          assert r[k] == txns[0];
        } else {
          var m := if taken then k - 1 else k;
          assert r[k] == rest[m];
          var i :| 0 <= i < |tail| && tail[i] == rest[m];
          assert txns[i + 1] == r[k];
        }
      }
      forall k | 0 <= k < |txns| && txns[k].payerId == payer && txns[k].kind == PmfKind
        ensures txns[k] in r
      {
        if k == 0 {
          assert r[0] == txns[0];
        } else {
          assert tail[k - 1] == txns[k];
          var i :| 0 <= i < |rest| && rest[i] == txns[k];
          assert r[if taken then i + 1 else i] == txns[k];
        }
      }
    }
  }

  /** `(page - 1) * limit`. */
  function PageSkip(page: int, limit: int): int
  {
    Times(page - 1, limit)
  }

  /** The product `a * b` as repeated addition, so that only the lemmas that
      relate it to `*` reason about a product of two variables. */
  function Times(a: int, b: int): int
    decreases Magnitude(a)
  {
    if a == 0 then 0 else if a > 0 then Times(a - 1, b) + b else Times(a + 1, b) - b
  }

  lemma {:induction false} TimesIsProduct(a: int, b: int)
    ensures Times(a, b) == a * b
    decreases Magnitude(a)
  {
    if a > 0 {
      TimesIsProduct(a - 1, b);
      assert (a - 1) * b + b == a * b;
    } else if a < 0 {
      TimesIsProduct(a + 1, b);
      assert (a + 1) * b - b == a * b;
    }
  }

  function Magnitude(x: int): nat
  {
    if x < 0 then -x else x
  }

  datatype PmfPage = PmfPage(records: seq<Txn>, totalPages: int, currentPage: int)

  /** `getTransactionsPMF`: page and limit default to 1 and 10; a negative
      skip makes the query throw; a negative limit returns at most its
      magnitude, so a negative page with a negative limit is answered; an
      empty page is not found. */
  function GetTransactionsPmf(txns: seq<Txn>, payer: UserId, pageParam: Option<int>, limitParam: Option<int>)
    : (r: Result<PmfPage>)
    ensures var page := ParamOr(pageParam, 1);
      var limit := ParamOr(limitParam, 10);
      var skip := PageSkip(page, limit);
      var all := PmfRecords(txns, payer);
      && (r.Err? <==> skip < 0 || skip >= |all|)
      && (r.Err? ==> r.error == if skip < 0 then ServerError else NotFound)
  {
    var page := ParamOr(pageParam, 1);
    var limit := ParamOr(limitParam, 10);
    var skip := PageSkip(page, limit);
    var all := PmfRecords(txns, payer);
    if skip < 0 then Err(ServerError)
    else
      var window := Window(all, skip, Magnitude(limit));
      if window == [] then Err(NotFound)
      else Ok(PmfPage(window, CeilDiv(|all|, limit), page))
  }

  /** An answered page holds between one record and the limit's magnitude of
      them, taken in order from position `skip`. */
  lemma PmfPageRecords(txns: seq<Txn>, payer: UserId, pageParam: Option<int>, limitParam: Option<int>)
    requires GetTransactionsPmf(txns, payer, pageParam, limitParam).Ok?
    ensures var r := GetTransactionsPmf(txns, payer, pageParam, limitParam).value;
      var skip := PageSkip(ParamOr(pageParam, 1), ParamOr(limitParam, 10));
      var all := PmfRecords(txns, payer);
      && skip >= 0
      && 1 <= |r.records| <= Magnitude(ParamOr(limitParam, 10))
      && (forall k :: 0 <= k < |r.records| ==> skip + k < |all| && r.records[k] == all[skip + k])
  {
    PmfAnswer(txns, payer, pageParam, limitParam);
  }

  /** An answered page is the window of the payer's PMF records at the skip. */
  lemma PmfAnswer(txns: seq<Txn>, payer: UserId, pageParam: Option<int>, limitParam: Option<int>)
    requires GetTransactionsPmf(txns, payer, pageParam, limitParam).Ok?
    ensures var limit := ParamOr(limitParam, 10);
      var skip := PageSkip(ParamOr(pageParam, 1), limit);
      && skip >= 0
      && GetTransactionsPmf(txns, payer, pageParam, limitParam).value.records
         == Window(PmfRecords(txns, payer), skip, Magnitude(limit))
  {
  }

  /** An answered page reports the requested page number and the page count. */
  lemma PmfPageNumbers(txns: seq<Txn>, payer: UserId, pageParam: Option<int>, limitParam: Option<int>)
    requires GetTransactionsPmf(txns, payer, pageParam, limitParam).Ok?
    ensures var r := GetTransactionsPmf(txns, payer, pageParam, limitParam).value;
      && r.currentPage == ParamOr(pageParam, 1)
      && r.totalPages == CeilDiv(|PmfRecords(txns, payer)|, ParamOr(limitParam, 10))
  {
  }

  lemma MulMonotone(a: int, b: int, m: nat)
    requires a <= b
    ensures a * m <= b * m
  {
    assert b * m - a * m == (b - a) * m;
  }

  /** For a positive limit, a page number from 1 is answered exactly when it
      is at most the reported page count. */
  lemma PageIff(txns: seq<Txn>, payer: UserId, page: int, limit: int)
    requires page >= 1 && limit >= 1
    ensures GetTransactionsPmf(txns, payer, Some(page), Some(limit)).Ok?
        <==> page <= CeilDiv(|PmfRecords(txns, payer)|, limit)
  {
    var total := |PmfRecords(txns, payer)|;
    var c := CeilDiv(total, limit);
    CeilDivBounds(total, limit);
    var skip := PageSkip(page, limit);
    assert ParamOr(Some(page), 1) == page && ParamOr(Some(limit), 10) == limit;
    TimesIsProduct(page - 1, limit);
    MulMonotone(0, page - 1, limit);
    if page > c {
      MulMonotone(c, page - 1, limit);
      assert skip >= total;
    } else {
      MulMonotone(page - 1, c - 1, limit);
      assert skip < total;
    }
  }

  /** Every record is on the page its position says: entry i of page p is the
      record at position (p - 1) x limit + i. */
  lemma PageCovers(txns: seq<Txn>, payer: UserId, page: int, limit: int, i: nat)
    requires page >= 1 && limit >= 1 && i < limit
    requires PageSkip(page, limit) + i < |PmfRecords(txns, payer)|
    ensures page <= CeilDiv(|PmfRecords(txns, payer)|, limit)
    ensures var r := GetTransactionsPmf(txns, payer, Some(page), Some(limit));
      && r.Ok? && i < |r.value.records|
      && r.value.records[i] == PmfRecords(txns, payer)[PageSkip(page, limit) + i]
  {
    var all := PmfRecords(txns, payer);
    var skip := PageSkip(page, limit);
    PageAt(txns, payer, page, limit);
    var w := Window(all, skip, limit);
    assert i < |w|;
    PageIff(txns, payer, page, limit);
  }

  /** A page from 1 whose first position holds a record is answered with the
      window from that position. */
  lemma PageAt(txns: seq<Txn>, payer: UserId, page: int, limit: int)
    requires page >= 1 && limit >= 1
    requires PageSkip(page, limit) < |PmfRecords(txns, payer)|
    ensures PageSkip(page, limit) >= 0
    ensures GetTransactionsPmf(txns, payer, Some(page), Some(limit))
         == Ok(PmfPage(Window(PmfRecords(txns, payer), PageSkip(page, limit), limit),
                       CeilDiv(|PmfRecords(txns, payer)|, limit), page))
  {
    assert ParamOr(Some(page), 1) == page && ParamOr(Some(limit), 10) == limit;
    TimesIsProduct(page - 1, limit);
    MulMonotone(0, page - 1, limit);
    assert Magnitude(limit) == limit;
  }
}

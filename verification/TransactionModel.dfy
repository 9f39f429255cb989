/** The ledger record ("Transaction") document and the top-receivers ranking. */
module TransactionModel {
  import opened Base
  import opened UserModel

  /** The status enum of the schema; `open` is its default. */
  datatype Status = Paid | Unpaid | Open | Pending

  /** One ledger record. Its own id is its position in the ledger. `kind` is the
      schema's `type` ("commission", "PMF", ...). */
  datatype Txn = Txn(
    payerId: UserId,
    receiverId: Option<UserId>,
    status: Status,
    amount: int,
    kind: string,
    level: int,
    date: Time,
    paidDate: Option<Time>,
    utrNumber: Option<string>)

  /** The fields a caller supplies when creating a record; a missing field is None. */
  datatype TxnDraft = TxnDraft(
    payerId: Option<UserId>,
    receiverId: Option<UserId>,
    amount: Option<int>,
    kind: string,
    level: Option<int>)

  const CommissionKind: string := "commission"
  const PmfKind: string := "PMF"

  /** Creating a record: `payerId`, `amount`, `type` and `level` are required
      (a required string may not be empty); `receiverId` is optional; the status
      defaults to `open`, `date` to now, `paidDate` and `utrNumber` to null. */
  function CreateTxn(d: TxnDraft, now: Time): (r: Result<Txn>)
    ensures r.Ok? <==> d.payerId.Some? && d.amount.Some? && d.kind != "" && d.level.Some?
    ensures r.Err? ==> r.error == ValidationFailed
    ensures r.Ok? ==> && r.value.status == Open && r.value.paidDate.None? && r.value.utrNumber.None?
                      && r.value.date == now
                      && Some(r.value.payerId) == d.payerId && r.value.receiverId == d.receiverId
                      && Some(r.value.amount) == d.amount && r.value.kind == d.kind
                      && Some(r.value.level) == d.level
  {
    if d.payerId.None? then Err(ValidationFailed)
    else if d.amount.None? then Err(ValidationFailed)
    else if d.kind == "" then Err(ValidationFailed)
    else if d.level.None? then Err(ValidationFailed)
    else Ok(Txn(d.payerId.value, d.receiverId, Open, d.amount.value, d.kind, d.level.value, now, None, None))
  }

  /** `insertMany` of drafts that all validate: the records in order, all created now. */
  function CreateAll(ds: seq<TxnDraft>, now: Time): (r: Result<seq<Txn>>)
    ensures r.Ok? <==> forall k :: 0 <= k < |ds| ==> CreateTxn(ds[k], now).Ok?
    ensures r.Ok? ==> |r.value| == |ds|
    ensures r.Ok? ==> forall k :: 0 <= k < |ds| ==> Ok(r.value[k]) == CreateTxn(ds[k], now)
  {
    if ds == [] then Ok([])
    else match CreateTxn(ds[0], now)
      case Err(e) => Err(e)
      case Ok(t) =>
        match CreateAll(ds[1..], now)
        case Err(e) => Err(e)
        case Ok(ts) =>
          assert forall k :: 1 <= k < |ds| ==> ds[k] == ds[1..][k - 1];
          Ok([t] + ts)
  }

  // ---------------------------------------------------------------------------
  // getTopReceivers: match paid, group by receiver, sort by total descending,
  // skip, limit, join with the users collection.

  /** What one record adds to receiver `r`'s paid total. */
  function Contribution(t: Txn, r: Option<UserId>): int
  {
    if t.status == Paid && t.receiverId == r then t.amount else 0
  }

  /** The $group stage for one receiver: the sum of the amounts of its paid records. */
  function PaidTotal(txns: seq<Txn>, r: Option<UserId>): (total: int)
    ensures !PaidTo(txns, r) ==> total == 0
    ensures (forall k :: 0 <= k < |txns| ==> txns[k].amount >= 0) ==> total >= 0
  {
    if txns == [] then 0
    else
      var init := txns[..|txns| - 1];
      assert forall k :: 0 <= k < |init| ==> init[k] == txns[k];
      PaidTotal(init, r) + Contribution(txns[|txns| - 1], r)
  }

  /** Replacing one record changes a receiver's paid total by the difference of
      the two records' contributions, and by nothing else. */
  lemma {:induction false} PaidTotalUpdate(txns: seq<Txn>, k: nat, t: Txn, r: Option<UserId>)
    requires k < |txns|
    ensures PaidTotal(txns[k := t], r) == PaidTotal(txns, r) - Contribution(txns[k], r) + Contribution(t, r)
  {
    var n := |txns|;
    var upd := txns[k := t];
    assert upd[..n - 1] == if k < n - 1 then txns[..n - 1][k := t] else txns[..n - 1];
    if k < n - 1 {
      PaidTotalUpdate(txns[..n - 1], k, t, r);
    }
  }

  predicate PaidTo(txns: seq<Txn>, r: Option<UserId>)
  {
    exists k :: 0 <= k < |txns| && txns[k].status == Paid && txns[k].receiverId == r
  }

  predicate Distinct<T(==)>(s: seq<T>)
  {
    forall i, j :: 0 <= i < j < |s| ==> s[i] != s[j]
  }

  /** The group keys: every receiver of a paid record, once each, in first-seen order. */
  function PaidReceivers(txns: seq<Txn>): (rs: seq<Option<UserId>>)
    ensures Distinct(rs)
    ensures forall r :: r in rs <==> PaidTo(txns, r)
  {
    if txns == [] then []
    else
      var prefix := txns[..|txns| - 1];
      var t := txns[|txns| - 1];
      var rs := PaidReceivers(prefix);
      assert forall r :: PaidTo(txns, r) <==> PaidTo(prefix, r) || (t.status == Paid && t.receiverId == r) by {
        forall r ensures PaidTo(txns, r) <==> PaidTo(prefix, r) || (t.status == Paid && t.receiverId == r) {
          if PaidTo(txns, r) {
            var k :| 0 <= k < |txns| && txns[k].status == Paid && txns[k].receiverId == r;
            if k < |prefix| { assert prefix[k] == txns[k]; }
          }
          if PaidTo(prefix, r) {
            var k :| 0 <= k < |prefix| && prefix[k].status == Paid && prefix[k].receiverId == r;
            assert txns[k] == prefix[k];
          }
        }
      }
      if t.status == Paid && t.receiverId !in rs then rs + [t.receiverId] else rs
  }

  datatype ReceiverTotal = ReceiverTotal(receiverId: Option<UserId>, totalAmount: int)

  /** The output of the $group stage. */
  function Groups(txns: seq<Txn>): (g: seq<ReceiverTotal>)
    ensures |g| == |PaidReceivers(txns)|
    ensures forall k :: 0 <= k < |g| ==> g[k] == ReceiverTotal(PaidReceivers(txns)[k], PaidTotal(txns, PaidReceivers(txns)[k]))
  {
    var rs := PaidReceivers(txns);
    seq(|rs|, k requires 0 <= k < |rs| => ReceiverTotal(rs[k], PaidTotal(txns, rs[k])))
  }

  predicate SortedByTotal(s: seq<ReceiverTotal>)
  {
    forall i, j :: 0 <= i < j < |s| ==> s[i].totalAmount >= s[j].totalAmount
  }

  function Insert(x: ReceiverTotal, s: seq<ReceiverTotal>): (r: seq<ReceiverTotal>)
    requires SortedByTotal(s)
    ensures SortedByTotal(r)
    ensures multiset(r) == multiset(s) + multiset{x}
  {
    if s == [] then [x]
    else if x.totalAmount >= s[0].totalAmount then [x] + s
    else
      var rest := Insert(x, s[1..]);
      assert s == [s[0]] + s[1..];
      HeadStaysFirst(x, s, rest);
      [s[0]] + rest
  }

  /** Behind a head that outranks `x`, the insertion into the tail stays sorted. */
  lemma HeadStaysFirst(x: ReceiverTotal, s: seq<ReceiverTotal>, rest: seq<ReceiverTotal>)
    requires s != [] && SortedByTotal(s) && x.totalAmount < s[0].totalAmount
    requires SortedByTotal(rest) && multiset(rest) == multiset(s[1..]) + multiset{x}
    ensures SortedByTotal([s[0]] + rest)
  {
    forall k | 0 <= k < |rest|
      ensures rest[k].totalAmount <= s[0].totalAmount
    {
      assert rest[k] in multiset(rest);
      if rest[k] != x {
        assert rest[k] in multiset(s[1..]);
        var j :| 0 <= j < |s[1..]| && s[1..][j] == rest[k];
        assert s[j + 1] == rest[k];
      }
    }
    var r := [s[0]] + rest;
    forall i, j | 0 <= i < j < |r|
      ensures r[i].totalAmount >= r[j].totalAmount
    {
      if i > 0 {
        assert r[i] == rest[i - 1] && r[j] == rest[j - 1];
      } else {
        assert r[j] == rest[j - 1];
      }
    }
  }

  /** The $sort stage: totals in descending order, a permutation of the groups. */
  function SortByTotal(s: seq<ReceiverTotal>): (r: seq<ReceiverTotal>)
    ensures SortedByTotal(r)
    ensures multiset(r) == multiset(s)
  {
    if s == [] then []
    else
      assert s == [s[0]] + s[1..];
      Insert(s[0], SortByTotal(s[1..]))
  }

  /** Every ranked entry is a group: its total is its receiver's paid total. */
  lemma RankedEntry(txns: seq<Txn>, x: ReceiverTotal)
    requires x in SortByTotal(Groups(txns))
    ensures x.totalAmount == PaidTotal(txns, x.receiverId) && PaidTo(txns, x.receiverId)
  {
    var g := Groups(txns);
    assert x in multiset(SortByTotal(g));
    assert x in multiset(g);
    var k :| 0 <= k < |g| && g[k] == x;
    assert PaidReceivers(txns)[k] in PaidReceivers(txns);
  }

  /** The $skip and $limit stages. */
  function Window<T>(s: seq<T>, skip: nat, limit: nat): (w: seq<T>)
    ensures |w| <= limit
    ensures forall k :: 0 <= k < |w| ==> skip + k < |s| && w[k] == s[skip + k]
    ensures |w| == if skip >= |s| then 0 else if |s| - skip < limit then |s| - skip else limit
  {
    if skip >= |s| then []
    else if |s| - skip < limit then s[skip..]
    else s[skip..skip + limit]
  }

  datatype TopReceiver = TopReceiver(receiverId: UserId, totalAmount: int, name: string, username: string)

  /** The $lookup and $unwind stages: a group whose receiver is no user is dropped. */
  function JoinUsers(g: seq<ReceiverTotal>, users: seq<User>): (r: seq<TopReceiver>)
    ensures |r| <= |g|
    ensures forall k :: 0 <= k < |r| ==>
              && r[k].receiverId < |users|
              && r[k].name == users[r[k].receiverId].name
              && r[k].username == users[r[k].receiverId].username
              && ReceiverTotal(Some(r[k].receiverId), r[k].totalAmount) in g
    ensures SortedByTotal(g) ==> forall i, j :: 0 <= i < j < |r| ==> r[i].totalAmount >= r[j].totalAmount
  {
    if g == [] then []
    else
      var rest := JoinUsers(g[1..], users);
      JoinTail(g, rest);
      match g[0].receiverId
      case Some(id) =>
        if id < |users| then
          var head := TopReceiver(id, g[0].totalAmount, users[id].name, users[id].username);
          JoinHead(g, head, rest);
          [head] + rest
        else rest
      case None => rest
  }

  /** Joining is done group by group: the join of two runs of groups is the
      join of the first followed by the join of the second. */
  lemma {:induction false} JoinUsersAppend(g1: seq<ReceiverTotal>, g2: seq<ReceiverTotal>, users: seq<User>)
    ensures JoinUsers(g1 + g2, users) == JoinUsers(g1, users) + JoinUsers(g2, users)
  {
    if g1 == [] {
      assert g1 + g2 == g2;
    } else {
      var x := g1[0];
      assert (g1 + g2)[0] == x;
      assert (g1 + g2)[1..] == g1[1..] + g2;
      JoinUsersAppend(g1[1..], g2, users);
      var rest1, rest2 := JoinUsers(g1[1..], users), JoinUsers(g2, users);
      if x.receiverId.Some? && x.receiverId.value < |users| {
        var head := TopReceiver(x.receiverId.value, x.totalAmount, users[x.receiverId.value].name,
                                users[x.receiverId.value].username);
        assert JoinUsers(g1, users) == [head] + rest1;
        assert JoinUsers(g1 + g2, users) == [head] + (rest1 + rest2);
        ConsAppend(head, rest1, rest2);
      } else {
        assert JoinUsers(g1, users) == rest1;
      }
    }
  }

  lemma ConsAppend<T>(h: T, a: seq<T>, b: seq<T>)
    ensures [h] + (a + b) == ([h] + a) + b
  {
  }

  /** The entry of a group whose receiver is a stored user, with that user's
      name and username. */
  function JoinedEntry(x: ReceiverTotal, users: seq<User>): (e: TopReceiver)
    requires x.receiverId.Some? && x.receiverId.value < |users|
  {
    TopReceiver(x.receiverId.value, x.totalAmount, users[x.receiverId.value].name, users[x.receiverId.value].username)
  }

  /** A single group yields its entry when its receiver is a stored user and
      nothing otherwise; with `JoinUsersAppend` this fixes the join as the
      in-order run of the joinable groups' entries. */
  lemma JoinUsersSingle(x: ReceiverTotal, users: seq<User>)
    ensures x.receiverId.Some? && x.receiverId.value < |users| ==> JoinUsers([x], users) == [JoinedEntry(x, users)]
    ensures !(x.receiverId.Some? && x.receiverId.value < |users|) ==> JoinUsers([x], users) == []
  {
    assert [x][1..] == [];
  }

  /** No group of a stored user is lost: every such group's entry is in the
      join. */
  lemma JoinUsersComplete(g: seq<ReceiverTotal>, users: seq<User>, k: nat)
    requires k < |g| && g[k].receiverId.Some? && g[k].receiverId.value < |users|
    ensures JoinedEntry(g[k], users) in JoinUsers(g, users)
  {
    assert g == g[..k] + ([g[k]] + g[k + 1..]);
    JoinUsersAppend(g[..k], [g[k]] + g[k + 1..], users);
    JoinUsersAppend([g[k]], g[k + 1..], users);
    JoinUsersSingle(g[k], users);
    var r := JoinUsers(g, users);
    assert r[|JoinUsers(g[..k], users)|] == JoinedEntry(g[k], users);
  }

  /** The groups a joined tail comes from are groups of the whole input. */
  lemma JoinTail(g: seq<ReceiverTotal>, rest: seq<TopReceiver>)
    requires g != []
    requires forall k :: 0 <= k < |rest| ==> ReceiverTotal(Some(rest[k].receiverId), rest[k].totalAmount) in g[1..]
    ensures forall k :: 0 <= k < |rest| ==> ReceiverTotal(Some(rest[k].receiverId), rest[k].totalAmount) in g
  {
    forall k | 0 <= k < |rest|
      ensures ReceiverTotal(Some(rest[k].receiverId), rest[k].totalAmount) in g
    {
      var x := ReceiverTotal(Some(rest[k].receiverId), rest[k].totalAmount);
      var i :| 0 <= i < |g[1..]| && g[1..][i] == x;
      assert g[i + 1] == x;
    }
  }

  /** The head group's entry outranks every entry joined from the later groups. */
  lemma JoinHead(g: seq<ReceiverTotal>, head: TopReceiver, rest: seq<TopReceiver>)
    requires g != [] && head.totalAmount == g[0].totalAmount
    requires forall k :: 0 <= k < |rest| ==> ReceiverTotal(Some(rest[k].receiverId), rest[k].totalAmount) in g[1..]
    requires SortedByTotal(g) ==> forall i, j :: 0 <= i < j < |rest| ==> rest[i].totalAmount >= rest[j].totalAmount
    ensures SortedByTotal(g) ==>
      var r := [head] + rest;
      forall i, j :: 0 <= i < j < |r| ==> r[i].totalAmount >= r[j].totalAmount
  {
    if SortedByTotal(g) {
      var r := [head] + rest;
      forall i, j | 0 <= i < j < |r|
        ensures r[i].totalAmount >= r[j].totalAmount
      {
        assert r[j] == rest[j - 1];
        if i == 0 {
          var x := ReceiverTotal(Some(rest[j - 1].receiverId), rest[j - 1].totalAmount);
          var m :| 0 <= m < |g[1..]| && g[1..][m] == x;
          assert g[m + 1] == x;
        } else {
          assert r[i] == rest[i - 1];
        }
      }
    }
  }

  /** A parameter with a JavaScript default: the default applies only when the
      argument is left out. */
  function WithDefault(x: Option<int>, default: int): (r: int)
    ensures x.Some? ==> r == x.value
    ensures x.None? ==> r == default
  {
    if x.Some? then x.value else default
  }

  /** The number of entries before page `page`: `(page - 1) * limit`. */
  function PageStart(page: int, limit: int): (skip: int)
    ensures page >= 1 && limit >= 0 ==> skip >= 0
  {
    (page - 1) * limit
  }

  /** `getTopReceivers(page = 1, limit = 10)`: the receivers of paid records
      ranked by their paid total, page `page` of size `limit`, each joined with
      its user. A negative skip or a non-positive limit makes the pipeline
      throw. */
  function TopReceivers(txns: seq<Txn>, users: seq<User>, pageArg: Option<int>, limitArg: Option<int>)
    : (r: Result<seq<TopReceiver>>)
    ensures var page, limit := WithDefault(pageArg, 1), WithDefault(limitArg, 10);
      && (r.Ok? <==> page >= 1 && limit >= 1)
      && (r.Err? ==> r.error == ServerError)
      && (r.Ok? ==> r.value == JoinUsers(Window(SortByTotal(Groups(txns)), PageStart(page, limit), limit), users))
      && (r.Ok? ==> |r.value| <= limit)
    ensures r.Ok? ==> forall i, j :: 0 <= i < j < |r.value| ==> r.value[i].totalAmount >= r.value[j].totalAmount
    ensures r.Ok? ==> forall k :: 0 <= k < |r.value| ==>
      && r.value[k].totalAmount == PaidTotal(txns, Some(r.value[k].receiverId))
      && PaidTo(txns, Some(r.value[k].receiverId))
      && r.value[k].receiverId < |users|
  {
    var page, limit := WithDefault(pageArg, 1), WithDefault(limitArg, 10);
    if page < 1 || limit < 1 then Err(ServerError)
    else
      var skip: nat := PageStart(page, limit);
      var window := Window(SortByTotal(Groups(txns)), skip, limit);
      var result := JoinUsers(window, users);
      RankedWindow(txns, users, window, skip, limit, result);
      Ok(result)
  }

  /** A window of the ranking, joined with the users, is still ranked, and each
      of its entries carries its receiver's paid total. */
  lemma RankedWindow(txns: seq<Txn>, users: seq<User>, window: seq<ReceiverTotal>, skip: nat, limit: nat,
                     r: seq<TopReceiver>)
    requires window == Window(SortByTotal(Groups(txns)), skip, limit)
    requires r == JoinUsers(window, users)
    ensures |r| <= limit
    ensures forall i, j :: 0 <= i < j < |r| ==> r[i].totalAmount >= r[j].totalAmount
    ensures forall k :: 0 <= k < |r| ==>
      && r[k].totalAmount == PaidTotal(txns, Some(r[k].receiverId))
      && PaidTo(txns, Some(r[k].receiverId))
      && r[k].receiverId < |users|
  {
    var ranked := SortByTotal(Groups(txns));
    assert SortedByTotal(window) by {
      forall i, j | 0 <= i < j < |window|
        ensures window[i].totalAmount >= window[j].totalAmount
      {
        assert window[i] == ranked[skip + i] && window[j] == ranked[skip + j];
      }
    }
    forall k | 0 <= k < |r|
      ensures r[k].totalAmount == PaidTotal(txns, Some(r[k].receiverId))
      ensures PaidTo(txns, Some(r[k].receiverId))
    {
      var x := ReceiverTotal(Some(r[k].receiverId), r[k].totalAmount);
      var i :| 0 <= i < |window| && window[i] == x;
      assert x == ranked[skip + i];
      RankedEntry(txns, x);
    }
  }
}

/** The ledger transitions of the payment controller: UTR submission, admin
    confirmation and paying a platform fee ("PMF") record with an E-pin, plus
    the decision behind the upgrade reminder. */
module PaymentController {
  import opened Base
  import opened UserModel
  import opened TransactionModel
  import opened Store

  /** The fields of a record that no transition touches: who pays whom, how
      much, for what and when it was created. */
  predicate SameTerms(a: Txn, b: Txn)
  {
    && a.payerId == b.payerId && a.receiverId == b.receiverId && a.amount == b.amount
    && a.kind == b.kind && a.level == b.level && a.date == b.date
  }

  /** The payer reports a bank transfer: the UTR is recorded and the record
      becomes pending, dated now, whatever its status was. */
  function SubmitUtr(t: Txn, utr: Option<string>, now: Time): (r: Txn)
    ensures SameTerms(t, r)
    ensures r.status == Pending && r.paidDate == Some(now) && r.utrNumber == utr
  {
    t.(utrNumber := utr, status := Pending, paidDate := Some(now))
  }

  /** The record is marked paid, dated now; its UTR is kept. */
  function ConfirmPaid(t: Txn, now: Time): (r: Txn)
    ensures SameTerms(t, r)
    ensures r.status == Paid && r.paidDate == Some(now) && r.utrNumber == t.utrNumber
  {
    t.(status := Paid, paidDate := Some(now))
  }

  /** Status does not only move forward: a UTR submitted for a record that is
      already paid takes it back to pending, and out of its receiver's paid
      total. */
  lemma ResubmitLeavesPaid(txns: seq<Txn>, k: nat, utr: Option<string>, now: Time)
    requires k < |txns| && txns[k].status == Paid
    ensures SubmitUtr(txns[k], utr, now).status == Pending
    ensures PaidTotal(txns[k := SubmitUtr(txns[k], utr, now)], txns[k].receiverId)
         == PaidTotal(txns, txns[k].receiverId) - txns[k].amount
  {
    PaidTotalUpdate(txns, k, SubmitUtr(txns[k], utr, now), txns[k].receiverId);
  }

  /** Confirming a record that was not yet paid raises its receiver's paid
      total by exactly its amount and leaves every other receiver's as it was. */
  lemma ConfirmRaisesPaidTotal(txns: seq<Txn>, k: nat, now: Time, r: Option<UserId>)
    requires k < |txns| && txns[k].status != Paid
    ensures PaidTotal(txns[k := ConfirmPaid(txns[k], now)], r)
         == PaidTotal(txns, r) + (if r == txns[k].receiverId then txns[k].amount else 0)
  {
    PaidTotalUpdate(txns, k, ConfirmPaid(txns[k], now), r);
  }

  /** `updateTransactionUtrAndDate`: an unknown id is not found and nothing
      changes; otherwise the record takes the UTR, the pending status and the
      current date. */
  method UpdateTransactionUtrAndDate(db: Db, id: TxnId, utr: Option<string>, now: Time) returns (res: Result<TxnId>)
    modifies db
    ensures db.users == old(db.users) && db.structures == old(db.structures) && db.epins == old(db.epins)
    ensures id >= |old(db.txns)| ==> res == Err(NotFound) && db.txns == old(db.txns)
    ensures id < |old(db.txns)| ==>
      && res == Ok(id)
      && db.txns == old(db.txns)[id := SubmitUtr(old(db.txns)[id], utr, now)]
  {
    if id >= |db.txns| {
      return Err(NotFound);
    }
    db.txns := db.txns[id := SubmitUtr(db.txns[id], utr, now)];
    res := Ok(id);
  }

  /** `updateTransactionDone`: an unknown id is not found and nothing changes.
      A found record is saved as paid, dated now; the handler then calls a
      model function that does not exist, so the request fails with a server
      error after the save has committed. */
  method UpdateTransactionDone(db: Db, id: TxnId, now: Time) returns (res: Result<TxnId>)
    modifies db
    ensures db.users == old(db.users) && db.structures == old(db.structures) && db.epins == old(db.epins)
    ensures id >= |old(db.txns)| ==> res == Err(NotFound) && db.txns == old(db.txns)
    ensures id < |old(db.txns)| ==>
      && res == Err(ServerError)
      && db.txns == old(db.txns)[id := ConfirmPaid(old(db.txns)[id], now)]
  {
    if id >= |db.txns| {
      return Err(NotFound);
    }
    db.txns := db.txns[id := ConfirmPaid(db.txns[id], now)];
    res := Err(ServerError);
  }

  /** The record `payPMF` may settle: an open record of type PMF. */
  predicate PayablePmf(txns: seq<Txn>, id: TxnId)
  {
    id < |txns| && txns[id].kind == PmfKind && txns[id].status == Open
  }

  /** `payPMF`: the record must be an open PMF record (else not found) and an
      unused E-pin of type PMF must carry the code (else rejected); both checks
      come before any write. On success the record is paid, dated now, and the
      E-pin is used and assigned to the record's payer. */
  method PayPmf(db: Db, id: TxnId, code: string, now: Time) returns (res: Result<TxnId>)
    requires db.Valid()
    modifies db
    ensures db.Valid()
    ensures db.users == old(db.users) && db.structures == old(db.structures)
    ensures res.Ok? <==> PayablePmf(old(db.txns), id) && FindUnusedEpin(old(db.epins), Some(code), Some(PmfKind)).Some?
    ensures !PayablePmf(old(db.txns), id) ==> res == Err(NotFound)
    ensures PayablePmf(old(db.txns), id) && FindUnusedEpin(old(db.epins), Some(code), Some(PmfKind)).None?
            ==> res == Err(InvalidEpin)
    ensures res.Err? ==> db.txns == old(db.txns) && db.epins == old(db.epins)
    ensures res.Ok? ==>
      var k := FindUnusedEpin(old(db.epins), Some(code), Some(PmfKind)).value;
      && res.value == id
      && db.txns == old(db.txns)[id := ConfirmPaid(old(db.txns)[id], now)]
      && db.epins == old(db.epins)[k := old(db.epins)[k].(status := Used, assignedTo := Some(old(db.txns)[id].payerId))]
  {
    if !(id < |db.txns| && db.txns[id].kind == PmfKind && db.txns[id].status == Open) {
      return Err(NotFound);
    }
    var pin := FindUnusedEpin(db.epins, Some(code), Some(PmfKind));
    if pin.None? {
      return Err(InvalidEpin);
    }
    var payer := db.txns[id].payerId;
    db.txns := db.txns[id := ConfirmPaid(db.txns[id], now)];
    var k := pin.value;
    db.epins := db.epins[k := db.epins[k].(status := Used, assignedTo := Some(payer))];
    res := Ok(id);
  }

  /** A paid PMF record can never be paid again, so no E-pin is spent twice
      on the same record. */
  lemma PmfPaidOnce(txns: seq<Txn>, id: TxnId, now: Time)
    requires PayablePmf(txns, id)
    ensures !PayablePmf(txns[id := ConfirmPaid(txns[id], now)], id)
  {
  }

  /** `getPaymentToPiadOrNot`: whether the user `username` must be reminded to
      upgrade, i.e. has no paid commission record of `amount` as payer. An
      unknown username makes the handler fail. A field the body leaves out
      drops its filter key: without a username the first stored user is the
      one checked, and without an amount any paid commission record counts. */
  function NeedsReminder(users: seq<User>, txns: seq<Txn>, username: Option<string>, amount: Option<int>)
    : (r: Result<bool>)
    ensures r.Err? <==> FindOneByUsername(users, username).None?
    ensures r.Err? ==> r.error == ServerError
    ensures r.Ok? ==>
      (r.value <==> forall k :: 0 <= k < |txns| ==>
        !(txns[k].payerId == FindOneByUsername(users, username).value && AmountMatches(txns[k], amount)
          && txns[k].status == Paid && txns[k].kind == CommissionKind))
  {
    match FindOneByUsername(users, username)
    case None => Err(ServerError)
    case Some(u) => Ok(FirstUpgrade(txns, u, amount).None?)
  }

  /** Whether a record matches an optional `amount` filter. */
  predicate AmountMatches(t: Txn, amount: Option<int>)
  {
    amount.None? || t.amount == amount.value
  }

  /** `findOne({ payerId, amount, status: 'paid', type: 'commission' })`. */
  function FirstUpgrade(txns: seq<Txn>, u: UserId, amount: Option<int>): (r: Option<TxnId>)
    ensures r.Some? ==> r.value < |txns| && txns[r.value].payerId == u && AmountMatches(txns[r.value], amount)
                        && txns[r.value].status == Paid && txns[r.value].kind == CommissionKind
    ensures r.None? ==> forall k :: 0 <= k < |txns| ==>
      !(txns[k].payerId == u && AmountMatches(txns[k], amount) && txns[k].status == Paid && txns[k].kind == CommissionKind)
  {
    if txns == [] then None
    else
      var t := txns[0];
      if t.payerId == u && AmountMatches(t, amount) && t.status == Paid && t.kind == CommissionKind then Some(0)
      else match FirstUpgrade(txns[1..], u, amount)
        case None =>
          assert forall k :: 1 <= k < |txns| ==> txns[k] == txns[1..][k - 1];
          None
        case Some(k) => Some(k + 1)
  }
}

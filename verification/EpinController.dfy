/** E-pin (voucher) batches and their one-way use. */
module EpinController {
  import opened Base
  import opened UserModel
  import opened Store

  // ---------------------------------------------------------------------------
  // Decimal rendering of the numbers in an E-pin id.

  function DigitChar(d: nat): char
    requires d < 10
  {
    "0123456789"[d]
  }

  function DigitValue(c: char): nat
  {
    if '0' <= c <= '9' then (c as int - '0' as int) as nat else 0
  }

  /** The decimal rendering of `n`, as a template literal prints a number. */
  function Decimal(n: nat): (s: string)
    ensures |s| >= 1
    ensures forall i :: 0 <= i < |s| ==> IsDigit(s[i])
  {
    if n < 10 then [DigitChar(n)] else Decimal(n / 10) + [DigitChar(n % 10)]
  }

  /** Reading a string of decimal digits as a number. */
  function ParseDecimal(s: string): nat
  {
    if s == [] then 0 else ParseDecimal(s[..|s| - 1]) * 10 + DigitValue(s[|s| - 1])
  }

  /** Parsing a rendered number gives the number back. */
  lemma {:induction false} DecimalRoundTrip(n: nat)
    ensures ParseDecimal(Decimal(n)) == n
  {
    if n >= 10 {
      var q, d := n / 10, n % 10;
      DecimalRoundTrip(q);
      var s := Decimal(n);
      assert s == Decimal(q) + [DigitChar(d)];
      assert s[..|s| - 1] == Decimal(q);
      DigitRoundTrip(d);
      assert ParseDecimal(s) == q * 10 + d;
    } else {
      DigitRoundTrip(n);
    }
  }

  lemma DigitRoundTrip(d: nat)
    requires d < 10
    ensures DigitValue(DigitChar(d)) == d
  {
  }

  lemma DecimalInjective(a: nat, b: nat)
    requires Decimal(a) == Decimal(b)
    ensures a == b
  {
    DecimalRoundTrip(a);
    DecimalRoundTrip(b);
  }

  /** The id of the `i`-th pin of a batch whose clock read `stamp`. */
  function EpinCode(stamp: Time, i: nat): string
  {
    "EPIN-" + Decimal(stamp) + "-" + Decimal(i)
  }

  /** Two ids are equal only when both their stamp and their index are: the
      digits of the stamp cannot run into the separator. */
  lemma EpinCodeInjective(s1: Time, i1: nat, s2: Time, i2: nat)
    requires EpinCode(s1, i1) == EpinCode(s2, i2)
    ensures s1 == s2 && i1 == i2
  {
    var x, y := Decimal(s1), Decimal(s2);
    var c1, c2 := EpinCode(s1, i1), EpinCode(s2, i2);
    assert forall k :: 0 <= k < |x| ==> c1[5 + k] == x[k];
    assert forall k :: 0 <= k < |y| ==> c2[5 + k] == y[k];
    assert c1[5 + |x|] == '-' && c2[5 + |y|] == '-';
    assert |x| == |y| by {
      if |x| < |y| {
        assert false;
      } else if |y| < |x| {
        assert false;
      }
    }
    assert x == c1[5..5 + |x|] == c2[5..5 + |y|] == y;
    DecimalInjective(s1, s2);
    assert Decimal(i1) == c1[6 + |x|..] == c2[6 + |y|..] == Decimal(i2);
    DecimalInjective(i1, i2);
  }

  // ---------------------------------------------------------------------------
  // generateEpin.

  /** Some stored pin already has this id. */
  predicate IdTaken(epins: seq<Epin>, id: string)
  {
    exists j :: 0 <= j < |epins| && epins[j].ePinId == id
  }

  /** The pin built in round `i`: the id from that round's clock reading, the
      request's type, amount and resolved assignee, unused. */
  function BatchPin(kind: string, amount: int, assignee: Option<UserId>, clock: nat -> Time, i: nat, now: Time): Epin
  {
    Epin(EpinCode(clock(i), i), kind, amount, Unused, assignee, now)
  }

  /** The pins of a batch of `n`, in the order the loop builds them. */
  function Batch(kind: string, amount: int, assignee: Option<UserId>, clock: nat -> Time, n: nat, now: Time): seq<Epin>
  {
    seq(n, i requires 0 <= i => BatchPin(kind, amount, assignee, clock, i, now))
  }

  /** The assignee a request resolves to: nobody without a username, otherwise
      the user who owns it (None when nobody does). */
  function Assignee(users: seq<User>, assignedTo: Option<string>): Option<UserId>
  {
    if Truthy(assignedTo) then FindByUsername(users, assignedTo.value) else None
  }

  /** `insertMany` of an ordered batch: the length of the prefix stored before
      the first pin whose id is already taken. */
  function StoredPrefix(epins: seq<Epin>, batch: seq<Epin>): (k: nat)
    ensures k <= |batch|
    ensures forall j :: 0 <= j < k ==> !IdTaken(epins, batch[j].ePinId)
    ensures k < |batch| ==> IdTaken(epins, batch[k].ePinId)
  {
    if batch == [] then 0
    else if IdTaken(epins, batch[0].ePinId) then 0
    else 1 + StoredPrefix(epins, batch[1..])
  }

  /** The pins of one batch have pairwise distinct ids, because their indices differ. */
  lemma BatchIdsDistinct(kind: string, amount: int, assignee: Option<UserId>, clock: nat -> Time, now: Time, i: nat, j: nat)
    requires i != j
    ensures BatchPin(kind, amount, assignee, clock, i, now).ePinId != BatchPin(kind, amount, assignee, clock, j, now).ePinId
  {
    if EpinCode(clock(i), i) == EpinCode(clock(j), j) {
      EpinCodeInjective(clock(i), i, clock(j), j);
    }
  }

  /** `generateEpin`. `clock(i)` is the time read in round `i`, `now` the
      creation time of the stored pins. A missing or non-positive count and an
      assignee username that names nobody are rejected; a batch without a type
      or an amount fails validation; otherwise the batch is inserted in order
      and a pin whose id is already taken stops the insert after the pins
      before it. Nothing else changes. */
  method GenerateEpin(db: Db, kind: string, amount: Option<int>, count: Option<int>, assignedTo: Option<string>,
                      clock: nat -> Time, now: Time)
    returns (res: Result<nat>)
    requires db.Valid()
    modifies db
    ensures db.Valid()
    ensures db.users == old(db.users) && db.txns == old(db.txns) && db.structures == old(db.structures)
    ensures count.None? || count.value <= 0 ==> res == Err(BadRequest)
    ensures Truthy(assignedTo) && FindByUsername(old(db.users), assignedTo.value).None? ==> res == Err(BadRequest)
    ensures res.Err? && res.error in {BadRequest, ValidationFailed} ==> db.epins == old(db.epins)
    ensures res.Ok? ==> count.Some? && res.value == count.value && kind != "" && amount.Some?
    ensures count.Some? && count.value > 0 && (Truthy(assignedTo) ==> Assignee(old(db.users), assignedTo).Some?)
            ==> if kind == "" || amount.None? then res == Err(ValidationFailed)
                else
                  var batch := Batch(kind, amount.value, Assignee(old(db.users), assignedTo), clock, count.value, now);
                  && db.epins == old(db.epins) + batch[..StoredPrefix(old(db.epins), batch)]
                  && (res.Ok? || res == Err(DuplicateKey))
                  && (res.Ok? <==> forall j :: 0 <= j < count.value ==> !IdTaken(old(db.epins), batch[j].ePinId))
    ensures |old(db.epins)| <= |db.epins| && db.epins[..|old(db.epins)|] == old(db.epins)
    ensures res.Ok? || res == Err(DuplicateKey) ==>
      var assignee := if Truthy(assignedTo) then FindByUsername(old(db.users), assignedTo.value) else None;
      && count.Some? && amount.Some?
      && |db.epins| - |old(db.epins)| <= count.value
      && (res.Ok? <==> |db.epins| - |old(db.epins)| == count.value)
      && forall i :: 0 <= i < |db.epins| - |old(db.epins)| ==>
           db.epins[|old(db.epins)| + i] == BatchPin(kind, amount.value, assignee, clock, i, now)
  {
    if count.None? || count.value <= 0 {
      return Err(BadRequest);
    }
    var assignee: Option<UserId> := None;
    if Truthy(assignedTo) {
      var found := FindByUsername(db.users, assignedTo.value);
      if found.None? {
        return Err(BadRequest);
      }
      assignee := found;
    }
    if kind == "" || amount.None? {
      return Err(ValidationFailed);
    }
    var n: nat := count.value;
    var batch := BuildBatch(kind, amount.value, assignee, clock, n, now);
    var k := InsertBatch(db, batch);
    res := if k < n then Err(DuplicateKey) else Ok(n);
  }

  /** The loop of `generateEpin`: pin `i` takes its id from round `i`'s clock
      reading. The ids of a batch are pairwise distinct. */
  method BuildBatch(kind: string, amount: int, assignee: Option<UserId>, clock: nat -> Time, n: nat, now: Time)
    returns (batch: seq<Epin>)
    ensures batch == Batch(kind, amount, assignee, clock, n, now)
    ensures |batch| == n
    ensures forall j :: 0 <= j < n ==> batch[j] == BatchPin(kind, amount, assignee, clock, j, now)
    ensures forall i, j :: 0 <= i < j < n ==> batch[i].ePinId != batch[j].ePinId
  {
    batch := [];
    for i := 0 to n
      invariant |batch| == i
      invariant forall j :: 0 <= j < i ==> batch[j] == BatchPin(kind, amount, assignee, clock, j, now)
    {
      batch := batch + [Epin(EpinCode(clock(i), i), kind, amount, Unused, assignee, now)];
    }
    forall i, j | 0 <= i < j < n
      ensures batch[i].ePinId != batch[j].ePinId
    {
      BatchIdsDistinct(kind, amount, assignee, clock, now, i, j);
    }
  }

  /** `insertMany` of an ordered batch with distinct ids: the pins before the
      first one whose id is taken are stored, and ids stay unique. */
  method InsertBatch(db: Db, batch: seq<Epin>) returns (k: nat)
    requires db.Valid()
    requires forall i, j :: 0 <= i < j < |batch| ==> batch[i].ePinId != batch[j].ePinId
    modifies db
    ensures db.Valid()
    ensures db.users == old(db.users) && db.txns == old(db.txns) && db.structures == old(db.structures)
    ensures k == StoredPrefix(old(db.epins), batch)
    ensures db.epins == old(db.epins) + batch[..k]
  {
    k := StoredPrefix(db.epins, batch);
    InsertKeepsUnique(db.epins, batch, k);
    db.epins := db.epins + batch[..k];
  }

  /** Inserting a prefix of a batch whose ids are fresh and pairwise distinct
      keeps the ids of the store unique. */
  lemma InsertKeepsUnique(epins: seq<Epin>, batch: seq<Epin>, k: nat)
    requires UniqueEpinIds(epins)
    requires k <= |batch|
    requires forall j :: 0 <= j < k ==> !IdTaken(epins, batch[j].ePinId)
    requires forall i, j :: 0 <= i < j < k ==> batch[i].ePinId != batch[j].ePinId
    ensures UniqueEpinIds(epins + batch[..k])
  {
    var all := epins + batch[..k];
    forall i, j | 0 <= i < j < |all|
      ensures all[i].ePinId != all[j].ePinId
    {
      if i >= |epins| {
        assert all[i] == batch[i - |epins|] && all[j] == batch[j - |epins|];
      } else if j >= |epins| {
        assert all[j] == batch[j - |epins|];
        assert all[i] == epins[i];
      }
    }
  }

  // ---------------------------------------------------------------------------
  // useEpin.

  /** `useEpin`: the first unused pin matching the request's id becomes used;
      when there is none (unknown id, or already used) the answer is not found
      and nothing changes. A request without an id matches any unused pin. */
  method UseEpin(db: Db, code: Option<string>) returns (res: Result<nat>)
    requires db.Valid()
    modifies db
    ensures db.Valid()
    ensures db.users == old(db.users) && db.txns == old(db.txns) && db.structures == old(db.structures)
    ensures FindUnusedEpin(old(db.epins), code, None).None? ==> res == Err(NotFound) && db.epins == old(db.epins)
    ensures FindUnusedEpin(old(db.epins), code, None).Some? ==>
      var k := FindUnusedEpin(old(db.epins), code, None).value;
      && res == Ok(k)
      && db.epins == old(db.epins)[k := old(db.epins)[k].(status := Used)]
  {
    var pin := FindUnusedEpin(db.epins, code, None);
    if pin.None? {
      return Err(NotFound);
    }
    var k := pin.value;
    db.epins := db.epins[k := db.epins[k].(status := Used)];
    res := Ok(k);
  }

  /** A pin is used at most once: after a successful use, the same id is
      never found unused again. */
  lemma UsedOnce(epins: seq<Epin>, code: string)
    requires UniqueEpinIds(epins)
    requires FindUnusedEpin(epins, Some(code), None).Some?
    ensures var k := FindUnusedEpin(epins, Some(code), None).value;
      FindUnusedEpin(epins[k := epins[k].(status := Used)], Some(code), None).None?
  {
    var k := FindUnusedEpin(epins, Some(code), None).value;
    var after := epins[k := epins[k].(status := Used)];
    forall j | 0 <= j < |after|
      ensures !(after[j].ePinId == code && after[j].status == Unused)
    {
      if j != k {
        assert epins[j].ePinId != epins[k].ePinId;
      }
    }
  }
}

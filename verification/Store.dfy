/** The database the controllers share: the users, ledger, structure and E-pin
    collections, each a sequence in insertion (natural) order. */
module Store {
  import opened Base
  import opened UserModel
  import opened TransactionModel

  datatype EpinStatus = Unused | Used

  /** An E-pin (prepaid voucher). `kind` is the schema's `type` ("login", "PMF");
      the schema has no field recording who used the pin. */
  datatype Epin = Epin(
    ePinId: string,
    kind: string,
    amount: int,
    status: EpinStatus,
    assignedTo: Option<UserId>,
    createdAt: Time)

  /** One materialised link of a user's sponsor chain. */
  datatype MlmStructure = MlmStructure(userId: UserId, level: nat, uplineId: UserId)

  /** The unique index on `ePinId`. */
  ghost predicate UniqueEpinIds(epins: seq<Epin>)
  {
    forall i, j :: 0 <= i < j < |epins| ==> epins[i].ePinId != epins[j].ePinId
  }

  /** Whether a pin matches an optional `type` filter. */
  predicate KindMatches(e: Epin, kind: Option<string>)
  {
    kind.None? || e.kind == kind.value
  }

  /** Whether a pin matches the `ePinId` filter of a request whose id field may
      be absent: Mongoose drops a filter key whose value is undefined, so an
      absent id matches every pin. */
  predicate IdMatches(e: Epin, code: Option<string>)
  {
    code.None? || e.ePinId == code.value
  }

  /** `findOne({ ePinId, status: 'unused' [, type] })`: the first matching pin. */
  function FindUnusedEpin(epins: seq<Epin>, code: Option<string>, kind: Option<string>): (r: Option<nat>)
    ensures r.Some? ==> r.value < |epins|
    ensures r.Some? ==> IdMatches(epins[r.value], code) && epins[r.value].status == Unused
    ensures r.Some? ==> KindMatches(epins[r.value], kind)
    ensures r.Some? ==> forall j :: 0 <= j < r.value ==>
      !(IdMatches(epins[j], code) && epins[j].status == Unused && KindMatches(epins[j], kind))
    ensures r.None? <==> forall j :: 0 <= j < |epins| ==>
      !(IdMatches(epins[j], code) && epins[j].status == Unused && KindMatches(epins[j], kind))
  {
    if epins == [] then None
    else if IdMatches(epins[0], code) && epins[0].status == Unused && KindMatches(epins[0], kind) then Some(0)
    else match FindUnusedEpin(epins[1..], code, kind)
      case None =>
        assert forall j :: 1 <= j < |epins| ==> epins[j] == epins[1..][j - 1];
        None
      case Some(k) =>
        assert forall j :: 1 <= j < k + 1 ==> epins[j] == epins[1..][j - 1];
        Some(k + 1)
  }

  /** As written, a request without an E-pin id finds the first unused pin of
      the requested type, whatever its id. */
  lemma MissingIdMatchesAny(epins: seq<Epin>, kind: Option<string>, k: nat)
    requires k < |epins| && epins[k].status == Unused && KindMatches(epins[k], kind)
    ensures FindUnusedEpin(epins, None, kind).Some?
    ensures FindUnusedEpin(epins, None, kind).value <= k
  {
  }

  /** The lookup the handlers evidently intend: a request that names no E-pin
      finds none, and one that names a pin finds the first unused pin with
      exactly that id. */
  function FindNamedEpin(epins: seq<Epin>, code: Option<string>, kind: Option<string>): (r: Option<nat>)
    ensures code.None? ==> r.None?
    ensures r.Some? ==> r.value < |epins| && code.Some? && epins[r.value].ePinId == code.value
    ensures r.Some? ==> epins[r.value].status == Unused && KindMatches(epins[r.value], kind)
    ensures code.Some? ==> (r.None? <==> forall j :: 0 <= j < |epins| ==>
      !(epins[j].ePinId == code.value && epins[j].status == Unused && KindMatches(epins[j], kind)))
  {
    if code.None? then None else FindUnusedEpin(epins, code, kind)
  }

  class Db {
    var users: seq<User>
    var txns: seq<Txn>
    var structures: seq<MlmStructure>
    var epins: seq<Epin>

    /** What the unique indexes keep true of the collections. */
    ghost predicate Valid()
      reads this
    {
      && UniqueUsernames(users)
      && UniqueEpinIds(epins)
    }

    /** The referral graph is a forest: every sponsor was created before the
        users it sponsors. Signups keep this; a profile update may not. */
    ghost predicate Forest()
      reads this
    {
      SponsorsPrecede(users)
    }

    constructor Empty()
      ensures Valid() && Forest()
      ensures users == [] && txns == [] && structures == [] && epins == []
    {
      users, txns, structures, epins := [], [], [], [];
    }
  }
}

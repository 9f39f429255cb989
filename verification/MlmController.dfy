/** The older commission walk of the MLM controller: up to ten levels up the
    sponsor chain of an existing user, one ledger record per level reached. */
module MlmController {
  import opened Base
  import opened UserModel
  import opened TransactionModel
  import opened Store
  import opened Commission
  import opened AuthController

  /** How the handler names the party fields of the record it creates. */
  datatype FieldNaming =
    | AsWritten    // the code as it stands: a single `userId` field
    | AsDeclared   // the fields the ledger schema declares: `payerId` and `receiverId`

  /** The record built for level `level` with upline `upline`. As written,
      the only party field is `userId`, which the ledger schema does not
      declare, so the stored draft has neither payer nor receiver. As declared,
      the user pays the upline. */
  function ChainDraft(naming: FieldNaming, userId: UserId, upline: UserId, amount: int, level: nat): TxnDraft
  {
    match naming
    case AsWritten => TxnDraft(None, None, Some(amount * level), CommissionKind, Some(level))
    case AsDeclared => TxnDraft(Some(userId), Some(upline), Some(amount * level), CommissionKind, Some(level))
  }

  /** The as-written draft never passes validation, since the payer is
      required; the declared one always does. */
  lemma DraftValidity(userId: UserId, upline: UserId, amount: int, level: nat, now: Time)
    ensures CreateTxn(ChainDraft(AsWritten, userId, upline, amount, level), now) == Err(ValidationFailed)
    ensures CreateTxn(ChainDraft(AsDeclared, userId, upline, amount, level), now).Ok?
  {
  }

  /** The records of the walk with declared field names: one per reached level,
      paying the level-k upline of the user's sponsor `amount` x k. No fallback
      records. */
  function ChainRecords(users: seq<User>, userId: UserId, start: Option<UserId>, amount: int, now: Time): seq<Txn>
  {
    ChainUpTo(users, userId, start, amount, now, Reached(users, start))
  }

  /** The record of reached level `level`. */
  function LevelRecord(userId: UserId, upline: UserId, amount: int, level: nat, now: Time): Txn
  {
    Txn(userId, Some(upline), Open, amount * level, CommissionKind, level, now, None, None)
  }

  /** The records of levels 1 .. n, all of them reached. */
  function ChainUpTo(users: seq<User>, userId: UserId, start: Option<UserId>, amount: int, now: Time, n: nat)
    : (recs: seq<Txn>)
    requires n <= Reached(users, start)
    ensures |recs| == n
    ensures forall i :: 0 <= i < n ==>
      Upline(users, start, i + 1).Some? && recs[i] == LevelRecord(userId, Upline(users, start, i + 1).value, amount, i + 1, now)
  {
    if n == 0 then []
    else
      ReachedIff(users, start, n);
      ChainUpTo(users, userId, start, amount, now, n - 1) + [LevelRecord(userId, Upline(users, start, n).value, amount, n, now)]
  }

  /** A reached level adds its record, the one the declared draft creates. */
  lemma ChainStep(users: seq<User>, userId: UserId, start: Option<UserId>, amount: int, now: Time, level: nat, t: Txn)
    requires 1 <= level <= MaxLevel && Upline(users, start, level).Some?
    requires CreateTxn(ChainDraft(AsDeclared, userId, Upline(users, start, level).value, amount, level), now) == Ok(t)
    ensures level <= Reached(users, start)
    ensures ChainUpTo(users, userId, start, amount, now, level)
         == ChainUpTo(users, userId, start, amount, now, level - 1) + [t]
  {
    ReachedIff(users, start, level);
  }

  /** `calculateCommissions`: an unknown user is not found and nothing is
      created. Otherwise the walk creates one record per level, moving the
      cursor to each upline's sponsor, until the chain ends or ten levels are
      done; a record that fails validation ends the request with that error.
      As written, the first record already fails, so a user with a sponsor
      gets an error and nothing is stored; with the declared field names one
      record per reached level is stored and their number returned. */
  method CalculateCommissions(db: Db, userId: UserId, amount: int, now: Time, naming: FieldNaming)
    returns (res: Result<nat>)
    modifies db
    ensures db.users == old(db.users)
    ensures db.structures == old(db.structures) && db.epins == old(db.epins)
    ensures userId >= |db.users| ==> res == Err(NotFound) && db.txns == old(db.txns)
    ensures userId < |db.users| && naming == AsWritten ==>
      && db.txns == old(db.txns)
      && res == if Reached(db.users, db.users[userId].sponsorId) == 0 then Ok(0) else Err(ValidationFailed)
    ensures userId < |db.users| && naming == AsDeclared ==>
      var start := db.users[userId].sponsorId;
      && res == Ok(Reached(db.users, start))
      && db.txns == old(db.txns) + ChainRecords(db.users, userId, start, amount, now)
  {
    if userId >= |db.users| {
      return Err(NotFound);
    }
    var users := db.users;
    var start := users[userId].sponsorId;
    var level: nat := 1;
    var cursor := start;
    while level <= MaxLevel && cursor.Some?
      invariant db.users == users && db.structures == old(db.structures) && db.epins == old(db.epins)
      invariant 1 <= level <= MaxLevel + 1
      invariant level <= MaxLevel ==> Lookup(users, cursor) == Upline(users, start, level)
      invariant level - 1 <= Reached(users, start)
      invariant db.txns == old(db.txns) + ChainUpTo(users, userId, start, amount, now, level - 1)
      invariant naming == AsWritten ==> level == 1
      decreases MaxLevel + 1 - level
    {
      var sponsor := Lookup(users, cursor);
      if sponsor.None? {
        break;
      }
      var created := CreateTxn(ChainDraft(naming, userId, sponsor.value, amount, level), now);
      if created.Err? {
        ReachedIff(users, start, level);
        return Err(created.error);
      }
      ChainStep(users, userId, start, amount, now, level, created.value);
      db.txns := db.txns + [created.value];
      cursor := users[sponsor.value].sponsorId;
      level := level + 1;
    }
    ChainEnds(users, start, level);
    res := Ok(level - 1);
  }

  /** Where the loop stops: at level 11, or at the first level with no upline. */
  lemma ChainEnds(users: seq<User>, start: Option<UserId>, level: nat)
    requires 1 <= level <= MaxLevel + 1 && level - 1 <= Reached(users, start)
    requires level > MaxLevel || Upline(users, start, level).None?
    ensures Reached(users, start) == level - 1
  {
    if level <= MaxLevel {
      ReachedIff(users, start, level);
    }
  }

  /** At most ten records; the level-k record pays `amount` x k to the k-th
      ancestor of the user (the k-th upline from their sponsor). */
  lemma ChainRecordsShape(users: seq<User>, userId: UserId, amount: int, now: Time)
    requires userId < |users|
    ensures var recs := ChainRecords(users, userId, users[userId].sponsorId, amount, now);
      && |recs| <= MaxLevel
      && forall i :: 0 <= i < |recs| ==>
           && Upline(users, users[userId].sponsorId, i + 1).Some?
           && recs[i].receiverId == Upline(users, users[userId].sponsorId, i + 1)
           && recs[i].amount == amount * (i + 1) && recs[i].level == i + 1 && recs[i].payerId == userId
  {
  }

  /** The walk pays exactly the uplines that the user's own signup recorded as
      its structure records, level by level: those records were computed over
      the store as it stood right after the signup, the first `userId + 1`
      users, and in a forest that prefix holds the user's whole chain. */
  lemma ChainFollowsStructure(users: seq<User>, userId: UserId, amount: int, now: Time)
    requires SponsorsPrecede(users) && userId < |users|
    ensures var start := users[userId].sponsorId;
      var recs := ChainRecords(users, userId, start, amount, now);
      var links := SignupLinks(users[..userId + 1], userId, start);
      && |recs| == |links|
      && forall i :: 0 <= i < |recs| ==>
           && links[i].userId == userId
           && recs[i].receiverId == Some(links[i].uplineId)
           && recs[i].level == links[i].level
  {
    LinksPrefix(users, userId + 1, userId, users[userId].sponsorId);
  }
}

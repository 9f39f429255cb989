/** Signup and profile update: the checks that guard a signup, the placement of
    the new user, the ledger and structure records it queues, the E-pin claim,
    and the field merge of a profile update. */
module AuthController {
  import opened Base
  import opened UserModel
  import opened TransactionModel
  import opened Store
  import opened Placement
  import opened Commission

  /** The signup request body; a field the client leaves out is None. */
  datatype SignupRequest = SignupRequest(
    email: Option<string>,
    password: Option<string>,
    mobileNumber: Option<string>,
    bankDetails: Option<BankDetails>,
    upiNumber: Option<string>,
    sponsorUsername: Option<string>,
    ePinId: Option<string>,
    name: Option<string>)

  /** A document field set from an optional request field. Every such field is
      required by the user schema, which rejects a missing value and "" alike,
      so both become "". */
  function OrEmpty(s: Option<string>): (r: string)
    ensures r == "" <==> !Truthy(s)
  {
    if s.Some? then s.value else ""
  }

  /** The E-pin type a signup consumes. */
  const LoginEpin: string := "login"

  // ---------------------------------------------------------------------------
  // Placement under the requested referral username.

  /** `findAvailableSponsor`: the first free user, in breadth-first order, of the
      subtree of the user who owns `referral`; None when nobody owns it. */
  function PlacementFor(users: seq<User>, referral: string): (r: Option<UserId>)
    requires SponsorsPrecede(users)
    ensures r.Some? ==> FindByUsername(users, referral).Some?
    ensures r.Some? ==> r.value in BfsOrder(users, FindByUsername(users, referral).value)
    ensures r.Some? ==> CanAccept(users, r.value)
  {
    match FindByUsername(users, referral)
    case None => None
    case Some(owner) => FirstAvailable(users, BfsOrder(users, owner))
  }

  /** A placement exists exactly when the referral username names a user, and
      it is a user of that owner's subtree with a free slot. */
  lemma PlacementIff(users: seq<User>, referral: string)
    requires SponsorsPrecede(users)
    ensures PlacementFor(users, referral).Some? <==> FindByUsername(users, referral).Some?
    ensures PlacementFor(users, referral).Some? ==>
      && PlacementFor(users, referral).value < |users|
      && PlacementFor(users, referral).value in BfsOrder(users, FindByUsername(users, referral).value)
      && CanAccept(users, PlacementFor(users, referral).value)
  {
    match FindByUsername(users, referral)
    case None =>
    case Some(owner) =>
      SubtreeHasFreeSlot(users, owner);
      var order := BfsOrder(users, owner);
      assert InStore(users, order);
  }

  method FindAvailableSponsor(users: seq<User>, referral: string) returns (r: Option<UserId>)
    requires SponsorsPrecede(users)
    ensures r == PlacementFor(users, referral)
  {
    var owner := FindByUsername(users, referral);
    if owner.None? {
      return None;
    }
    r := FindNextAvailableSponsor(users, owner.value);
  }

  // ---------------------------------------------------------------------------
  // registerUser.

  /** The document created for a signup, before the pre-save hook hashes the
      password: the referral code is the requested sponsor username. */
  function NewUserDoc(req: SignupRequest, username: string, sponsor: Option<UserId>, now: Time): User
  {
    User(username, OrEmpty(req.name), OrEmpty(req.email), OrEmpty(req.password), OrEmpty(req.mobileNumber),
         req.bankDetails, OrEmpty(req.upiNumber), OrEmpty(req.sponsorUsername), sponsor, now)
  }

  /** The lookups that precede the document checks all succeed: no user has
      the email, an unused login E-pin matches, and a referral username, when
      given, belongs to a user. */
  predicate LookupsPass(users: seq<User>, epins: seq<Epin>, req: SignupRequest)
  {
    && !EmailTaken(users, req.email)
    && FindUnusedEpin(epins, req.ePinId, Some(LoginEpin)).Some?
    && (Truthy(req.sponsorUsername) ==> FindByUsername(users, req.sponsorUsername.value).Some?)
  }

  /** The sponsor a signup is placed under: nobody without a referral username,
      otherwise the placement under its owner. */
  function Placed(users: seq<User>, req: SignupRequest): Option<UserId>
    requires SponsorsPrecede(users)
  {
    if Truthy(req.sponsorUsername) then PlacementFor(users, req.sponsorUsername.value) else None
  }

  /** The outcome of the checks that precede every write, in the order the
      handler makes them; on success, the placed sponsor (if any). */
  function SignupCheck(users: seq<User>, epins: seq<Epin>, req: SignupRequest, username: string, now: Time)
    : (r: Result<Option<UserId>>)
    requires SponsorsPrecede(users)
    ensures r.Err? ==> r.error in {UserExists, InvalidEpin, NoSponsor, ValidationFailed, DuplicateKey}
    ensures EmailTaken(users, req.email) ==> r == Err(UserExists)
    ensures !EmailTaken(users, req.email) && FindUnusedEpin(epins, req.ePinId, Some(LoginEpin)).None?
            ==> r == Err(InvalidEpin)
    ensures !EmailTaken(users, req.email) && FindUnusedEpin(epins, req.ePinId, Some(LoginEpin)).Some?
            && Truthy(req.sponsorUsername) && FindByUsername(users, req.sponsorUsername.value).None?
            ==> r == Err(NoSponsor)
    ensures LookupsPass(users, epins, req) ==>
      var doc := NewUserDoc(req, username, Placed(users, req), now);
      && (!Validate(doc) ==> r == Err(ValidationFailed))
      && (Validate(doc) && FindByUsername(users, username).Some? ==> r == Err(DuplicateKey))
      && (Validate(doc) && FindByUsername(users, username).None? ==> r == Ok(Placed(users, req)))
    ensures r.Ok? ==> && LookupsPass(users, epins, req)
                      && Truthy(req.sponsorUsername)
                      && r.value == PlacementFor(users, req.sponsorUsername.value)
                      && r.value.Some?
                      && FindByUsername(users, username).None?
                      && Validate(NewUserDoc(req, username, r.value, now))
  {
    if EmailTaken(users, req.email) then Err(UserExists)
    else if FindUnusedEpin(epins, req.ePinId, Some(LoginEpin)).None? then Err(InvalidEpin)
    else
      var sponsor :=
        if !Truthy(req.sponsorUsername) then Ok(None)
        else match PlacementFor(users, req.sponsorUsername.value)
          case None => Err(NoSponsor)
          case Some(s) => Ok(Some(s));
      PlacementIff(users, OrEmpty(req.sponsorUsername));
      if sponsor.Err? then Err(sponsor.error)
      else if !Validate(NewUserDoc(req, username, sponsor.value, now)) then Err(ValidationFailed)
      else if FindByUsername(users, username).Some? then Err(DuplicateKey)
      else Ok(sponsor.value)
  }

  /** As written, a signup that names no E-pin gets past the E-pin check as
      soon as any unused login E-pin exists; that pin is the one marked used. */
  lemma SignupWithoutVoucher(users: seq<User>, epins: seq<Epin>, req: SignupRequest, username: string, now: Time, k: nat)
    requires SponsorsPrecede(users)
    requires req.ePinId.None? && !EmailTaken(users, req.email)
    requires k < |epins| && epins[k].status == Unused && epins[k].kind == LoginEpin
    ensures SignupCheck(users, epins, req, username, now) != Err(InvalidEpin)
    ensures FindUnusedEpin(epins, req.ePinId, Some(LoginEpin)).Some?
  {
    MissingIdMatchesAny(epins, Some(LoginEpin), k);
  }

  /** The ten ledger records a signup queues: level k is paid by the new user to
      the level-k receiver, for 1000 x k, open and created now. */
  function SignupRecords(users: seq<User>, newUser: UserId, sponsor: Option<UserId>, owner: Option<UserId>, now: Time)
    : seq<Txn>
    requires sponsor.Some? ==> owner.Some?
  {
    seq(MaxLevel, i requires 0 <= i < MaxLevel =>
      Txn(newUser, Some(ExpectedReceiver(users, sponsor, owner, i + 1)), Open, JoiningAmount * (i + 1),
          CommissionKind, i + 1, now, None, None))
  }

  /** The structure records of a signup: one per reached level, naming the upline. */
  function SignupLinks(users: seq<User>, newUser: UserId, sponsor: Option<UserId>): seq<MlmStructure>
  {
    LinksUpTo(users, newUser, sponsor, Reached(users, sponsor))
  }

  /** Marking the claimed pin used; nothing else about it is stored. */
  function MarkUsed(epins: seq<Epin>, k: nat): (r: seq<Epin>)
    requires k < |epins|
    ensures |r| == |epins| && r[k].status == Used
    ensures forall j :: 0 <= j < |epins| && j != k ==> r[j] == epins[j]
    ensures r[k] == epins[k].(status := Used)
  {
    epins[k := epins[k].(status := Used)]
  }

  /** The ledger a signup queues is exactly ten commission records, one per
      level 1 .. 10, all paid by the new user, level k for 1000 x k; every level
      above the reached chain length pays the fallback account. */
  lemma SignupRecordsShape(users: seq<User>, newUser: UserId, sponsor: Option<UserId>, owner: Option<UserId>, now: Time)
    requires sponsor.Some? ==> owner.Some?
    ensures var recs := SignupRecords(users, newUser, sponsor, owner, now);
      && |recs| == 10
      && (forall i :: 0 <= i < 10 ==>
            && recs[i].level == i + 1 && recs[i].amount == 1000 * (i + 1) && recs[i].payerId == newUser
            && recs[i].kind == CommissionKind && recs[i].status == Open && recs[i].receiverId.Some?)
      && (forall i :: Reached(users, sponsor) <= i < 10 ==> recs[i].receiverId == Some(FallbackReceiver))
  {
    var recs := SignupRecords(users, newUser, sponsor, owner, now);
    forall i | Reached(users, sponsor) <= i < 10
      ensures recs[i].receiverId == Some(FallbackReceiver)
    {
      ReachedIff(users, sponsor, i + 1);
    }
  }

  /** The writes of a successful signup, in order: the user document, the ten
      ledger records and the structure records (computed over the store that
      now holds the new user), and last the E-pin flag. */
  method CommitSignup(db: Db, stored: User, sponsor: Option<UserId>, owner: Option<UserId>, pin: nat, now: Time)
    returns (id: UserId)
    requires db.Valid() && db.Forest()
    requires pin < |db.epins|
    requires stored.sponsorId == sponsor
    requires sponsor.Some? ==> owner.Some? && sponsor.value < |db.users|
    requires FindByUsername(db.users, stored.username).None?
    modifies db
    ensures db.Valid() && db.Forest()
    ensures id == |old(db.users)| && db.users == old(db.users) + [stored]
    ensures db.txns == old(db.txns) + SignupRecords(db.users, id, sponsor, owner, now)
    ensures db.structures == old(db.structures) + SignupLinks(db.users, id, sponsor)
    ensures db.epins == MarkUsed(old(db.epins), pin)
  {
    id := |db.users|;
    var users := db.users + [stored];
    AppendKeepsStore(db.users, stored);
    var epins := MarkUsed(db.epins, pin);
    MarkUsedKeepsUnique(db.epins, pin);

    var recs, links := SignupWrites(users, id, sponsor, owner, now);
    db.users, db.txns, db.structures, db.epins := users, db.txns + recs, db.structures + links, epins;
  }

  /** The loop of the signup and the bulk insert of its drafts: the records
      and structure records to store. */
  method SignupWrites(users: seq<User>, id: UserId, sponsor: Option<UserId>, owner: Option<UserId>, now: Time)
    returns (recs: seq<Txn>, links: seq<MlmStructure>)
    requires sponsor.Some? ==> owner.Some?
    ensures recs == SignupRecords(users, id, sponsor, owner, now)
    ensures links == SignupLinks(users, id, sponsor)
  {
    var drafts;
    drafts, links := Distribute(users, id, sponsor, owner);
    SignupCreated(users, id, sponsor, owner, drafts, now);
    var created := CreateAll(drafts, now);
    recs := created.value;
  }

  /** A user with a fresh username whose sponsor is stored keeps usernames
      unique and the store a forest. */
  lemma AppendKeepsStore(users: seq<User>, u: User)
    requires UniqueUsernames(users) && SponsorsPrecede(users)
    requires FindByUsername(users, u.username).None?
    requires u.sponsorId.Some? ==> u.sponsorId.value < |users|
    ensures UniqueUsernames(users + [u]) && SponsorsPrecede(users + [u])
  {
    var all := users + [u];
    forall i | 0 <= i < |all| && all[i].sponsorId.Some?
      ensures all[i].sponsorId.value < i
    {
      if i < |users| { assert all[i] == users[i]; }
    }
    forall i, j | 0 <= i < j < |all|
      ensures all[i].username != all[j].username
    {
      assert all[i] == users[i];
      if j < |users| { assert all[j] == users[j]; }
    }
  }

  /** Flagging a pin used keeps E-pin ids unique. */
  lemma MarkUsedKeepsUnique(epins: seq<Epin>, k: nat)
    requires UniqueEpinIds(epins) && k < |epins|
    ensures UniqueEpinIds(MarkUsed(epins, k))
  {
    var r := MarkUsed(epins, k);
    assert forall j :: 0 <= j < |epins| ==> r[j].ePinId == epins[j].ePinId;
  }

  /** The drafts of the signup walk all pass validation, and become exactly
      the signup's ledger records. */
  lemma {:induction false} SignupCreated(users: seq<User>, id: UserId, sponsor: Option<UserId>, owner: Option<UserId>,
                      drafts: seq<TxnDraft>, now: Time)
    requires sponsor.Some? ==> owner.Some?
    requires |drafts| == MaxLevel
    requires forall i :: 0 <= i < MaxLevel ==>
      drafts[i] == CommissionDraft(id, ExpectedReceiver(users, sponsor, owner, i + 1), i + 1)
    ensures CreateAll(drafts, now) == Ok(SignupRecords(users, id, sponsor, owner, now))
  {
    var recs := SignupRecords(users, id, sponsor, owner, now);
    forall k | 0 <= k < MaxLevel
      ensures CreateTxn(drafts[k], now) == Ok(recs[k])
    {
    }
    var created := CreateAll(drafts, now);
    assert created.Ok? && |created.value| == |recs|;
    assert forall k :: 0 <= k < MaxLevel ==> Ok(created.value[k]) == Ok(recs[k]);
    assert created.value == recs;
  }

  /** `registerUser`. `username` is the value the username generator returns,
      `hash` the bcrypt salt-and-hash, `now` the clock. The checks (duplicate
      email, unused login E-pin, placement, document validation, unique
      username) all come before the first write; on success the user is
      stored with a hashed password, the ten ledger records and the structure
      records are appended, and only then is the E-pin marked used. */
  method RegisterUser(db: Db, req: SignupRequest, username: string, hash: string -> string, now: Time)
    returns (res: Result<UserId>)
    requires db.Valid() && db.Forest()
    modifies db
    ensures db.Valid() && db.Forest()
    ensures var check := SignupCheck(old(db.users), old(db.epins), req, username, now);
      && (res.Err? <==> check.Err?)
      && (res.Err? ==> res.error == check.error)
    ensures res.Err? ==>
      && db.users == old(db.users) && db.txns == old(db.txns)
      && db.structures == old(db.structures) && db.epins == old(db.epins)
    ensures res.Ok? ==>
      var sponsor := SignupCheck(old(db.users), old(db.epins), req, username, now).value;
      var owner := FindOneByUsername(old(db.users), req.sponsorUsername);
      var id := |old(db.users)|;
      && res.value == id
      && db.users == old(db.users) + [NewUserDoc(req, username, sponsor, now).(password := hash(OrEmpty(req.password)))]
      && db.txns == old(db.txns) + SignupRecords(db.users, id, sponsor, owner, now)
      && db.structures == old(db.structures) + SignupLinks(db.users, id, sponsor)
      && db.epins == MarkUsed(old(db.epins), FindUnusedEpin(old(db.epins), req.ePinId, Some(LoginEpin)).value)
  {
    if EmailTaken(db.users, req.email) {
      return Err(UserExists);
    }
    var pin := FindUnusedEpin(db.epins, req.ePinId, Some(LoginEpin));
    if pin.None? {
      return Err(InvalidEpin);
    }
    var sponsor: Option<UserId> := None;
    if Truthy(req.sponsorUsername) {
      var placed := FindAvailableSponsor(db.users, req.sponsorUsername.value);
      if placed.None? {
        return Err(NoSponsor);
      }
      sponsor := placed;
    }
    var owner := FindOneByUsername(db.users, req.sponsorUsername);

    // User.create: validation, the unique index, then the pre-save hook.
    var doc := new UserDocument.Create(NewUserDoc(req, username, sponsor, now));
    if !Validate(doc.data) {
      return Err(ValidationFailed);
    }
    if FindByUsername(db.users, username).Some? {
      return Err(DuplicateKey);
    }
    if Truthy(req.sponsorUsername) {
      PlacementIff(db.users, req.sponsorUsername.value);
    }
    doc.PreSave(hash);
    var id := CommitSignup(db, doc.data, sponsor, owner, pin.value, now);
    res := Ok(id);
  }

  /** A signup keeps the fan-out cap: the placed sponsor had a free slot, so
      afterwards nobody has more direct referrals than the cap allows unless
      they already had before. */
  lemma SignupKeepsCap(users: seq<User>, u: User, p: UserId)
    requires u.sponsorId.Some? ==> CanAccept(users, u.sponsorId.value)
    requires |Children(users, p)| <= FanOutCap
    ensures |Children(users + [u], p)| <= FanOutCap
  {
    ChildrenAppend(users, u, p);
  }

  // ---------------------------------------------------------------------------
  // updateUserProfile.

  /** The update request body; an absent field is None (an empty string is as
      good as absent, since the merge uses `||`). */
  datatype ProfileRequest = ProfileRequest(
    username: Option<string>,
    email: Option<string>,
    mobileNumber: Option<string>,
    bankDetails: Option<BankDetails>,
    upiNumber: Option<string>,
    referralCode: Option<string>,
    sponsorId: Option<UserId>,
    password: Option<string>)

  /** `req || current` for a string field. */
  function OrElse(given: Option<string>, current: string): (r: string)
    ensures Truthy(given) ==> r == given.value
    ensures !Truthy(given) ==> r == current
  {
    if Truthy(given) then given.value else current
  }

  /** The merge of the request into the stored user, before the password. */
  function MergeProfile(u: User, req: ProfileRequest): (m: User)
    ensures m.name == u.name && m.password == u.password && m.createdAt == u.createdAt
    ensures m.username == OrElse(req.username, u.username)
    ensures m.email == OrElse(req.email, u.email)
    ensures m.mobileNumber == OrElse(req.mobileNumber, u.mobileNumber)
    ensures m.upiNumber == OrElse(req.upiNumber, u.upiNumber)
    ensures m.referralCode == OrElse(req.referralCode, u.referralCode)
    ensures m.bankDetails == (if req.bankDetails.Some? then req.bankDetails else u.bankDetails)
    ensures m.sponsorId == (if req.sponsorId.Some? then req.sponsorId else u.sponsorId)
  {
    u.(username := OrElse(req.username, u.username),
       email := OrElse(req.email, u.email),
       mobileNumber := OrElse(req.mobileNumber, u.mobileNumber),
       bankDetails := if req.bankDetails.Some? then req.bankDetails else u.bankDetails,
       upiNumber := OrElse(req.upiNumber, u.upiNumber),
       referralCode := OrElse(req.referralCode, u.referralCode),
       sponsorId := if req.sponsorId.Some? then req.sponsorId else u.sponsorId)
  }

  /** A request that supplies nothing leaves the user as it was. */
  lemma EmptyRequestKeepsUser(u: User)
    ensures MergeProfile(u, ProfileRequest(None, None, None, None, None, None, None, None)) == u
  {
  }

  /** Sending the same update twice has the effect of sending it once. */
  lemma MergeIdempotent(u: User, req: ProfileRequest)
    ensures MergeProfile(MergeProfile(u, req), req) == MergeProfile(u, req)
  {
  }

  /** A merge never empties a non-empty field and never breaks the mobile
      pattern: a stored user that validated still validates after the merge
      when the supplied mobile number (if any) matches the pattern. */
  lemma MergeKeepsValid(u: User, req: ProfileRequest)
    requires Validate(u)
    requires Truthy(req.mobileNumber) ==> IsMobileNumber(req.mobileNumber.value)
    ensures Validate(MergeProfile(u, req))
  {
  }

  /** The update keeps the referral forest unless it names a sponsor that was
      not created before the user. */
  lemma UpdateKeepsForest(users: seq<User>, id: UserId, req: ProfileRequest)
    requires SponsorsPrecede(users) && id < |users|
    requires req.sponsorId.Some? ==> req.sponsorId.value < id
    ensures SponsorsPrecede(users[id := MergeProfile(users[id], req)])
  {
  }

  /** `updateUserProfile` for the authenticated user `id`: the merged document
      is saved, with the password replaced and re-hashed by the pre-save hook
      only when one is supplied that differs from the stored (hashed) value;
      supplying exactly the stored hash leaves it as it is. A document that fails validation or
      collides with another username is not saved. */
  method UpdateUserProfile(db: Db, id: UserId, req: ProfileRequest, hash: string -> string)
    returns (res: Result<UserId>)
    requires db.Valid()
    modifies db
    ensures db.Valid()
    ensures db.txns == old(db.txns) && db.structures == old(db.structures) && db.epins == old(db.epins)
    ensures id >= |old(db.users)| ==> res == Err(NotFound) && db.users == old(db.users)
    ensures id < |old(db.users)| ==>
      var merged := MergeProfile(old(db.users)[id], req);
      var candidate := if Truthy(req.password) then merged.(password := req.password.value) else merged;
      if !Validate(candidate) then res == Err(ValidationFailed) && db.users == old(db.users)
      else if exists j :: 0 <= j < |old(db.users)| && j != id && old(db.users)[j].username == candidate.username
      then res == Err(DuplicateKey) && db.users == old(db.users)
      else
        && res == Ok(id)
        && db.users == old(db.users)[id := if Truthy(req.password) && req.password.value != merged.password
                                           then merged.(password := hash(req.password.value)) else merged]
  {
    if id >= |db.users| {
      return Err(NotFound);
    }
    var doc := new UserDocument.Load(db.users[id]);
    doc.data := MergeProfile(doc.data, req);
    if Truthy(req.password) {
      doc.SetPassword(req.password.value);
    }
    if !Validate(doc.data) {
      return Err(ValidationFailed);
    }
    if exists j :: 0 <= j < |db.users| && j != id && db.users[j].username == doc.data.username {
      return Err(DuplicateKey);
    }
    doc.PreSave(hash);
    db.users := db.users[id := doc.data];
    res := Ok(id);
  }
}

/** Commission distribution at signup: the ten-level walk up the sponsor chain
    that produces the new user's ledger records and structure records. */
module Commission {
  import opened Base
  import opened UserModel
  import opened TransactionModel
  import opened Store

  /** The joining amount; level `k` pays `k` times it. */
  const JoiningAmount: int := 1000

  /** Number of levels every signup pays. */
  const MaxLevel: nat := 10

  /** The house account that receives every level above the end of the chain
      (the ObjectId 66973cc83079a2d915bce430 read as a 96-bit number). */
  const FallbackReceiver: UserId := 0x66973cc83079a2d915bce430

  /** `User.findById(id)`: the id itself when it names a user; None for null or unknown. */
  function Lookup(users: seq<User>, id: Option<UserId>): (r: Option<UserId>)
    ensures r.Some? <==> id.Some? && id.value < |users|
    ensures r.Some? ==> r == id
  {
    if id.Some? && id.value < |users| then id else None
  }

  /** The upline at `level` of a chain that starts at `start`: level 1 is `start`
      itself, level k+1 the sponsor of level k's upline. None once the chain has
      ended (a null sponsor or an unknown id). */
  function Upline(users: seq<User>, start: Option<UserId>, level: nat): (r: Option<UserId>)
    requires level >= 1
    ensures r.Some? ==> r.value < |users|
  {
    if level == 1 then Lookup(users, start)
    else match Upline(users, start, level - 1)
      case None => None
      case Some(u) => Lookup(users, users[u].sponsorId)
  }

  /** The chain never resumes once it has ended. */
  lemma {:induction false} UplineEnded(users: seq<User>, start: Option<UserId>, j: nat, k: nat)
    requires 1 <= j <= k && Upline(users, start, j).None?
    ensures Upline(users, start, k).None?
    decreases k - j
  {
    if j < k {
      UplineEnded(users, start, j, k - 1);
    }
  }

  function ReachedFrom(users: seq<User>, start: Option<UserId>, level: nat): (n: nat)
    requires level >= 1
    ensures level - 1 <= n <= MaxLevel || (level > MaxLevel && n == MaxLevel)
    decreases MaxLevel + 1 - level
  {
    if level > MaxLevel then MaxLevel
    else if Upline(users, start, level).None? then level - 1
    else ReachedFrom(users, start, level + 1)
  }

  /** The number of levels, out of ten, for which an upline exists. */
  function Reached(users: seq<User>, start: Option<UserId>): nat
  {
    ReachedFrom(users, start, 1)
  }

  lemma {:induction false} ReachedFromIff(users: seq<User>, start: Option<UserId>, from: nat, level: nat)
    requires 1 <= from <= level <= MaxLevel
    requires forall j :: 1 <= j < from ==> Upline(users, start, j).Some?
    ensures Upline(users, start, level).Some? <==> level <= ReachedFrom(users, start, from)
    decreases MaxLevel + 1 - from
  {
    if Upline(users, start, from).None? {
      UplineEnded(users, start, from, level);
    } else if from < level {
      ReachedFromIff(users, start, from + 1, level);
    } else {
      if from < MaxLevel {
        assert ReachedFrom(users, start, from + 1) >= from;
      }
    }
  }

  /** The levels with an upline are exactly 1 .. Reached: a prefix of the ten. */
  lemma ReachedIff(users: seq<User>, start: Option<UserId>, level: nat)
    requires 1 <= level <= MaxLevel
    ensures Upline(users, start, level).Some? <==> level <= Reached(users, start)
  {
    ReachedFromIff(users, start, 1, level);
  }

  /** Who is paid at `level`: the fallback account once the chain has ended;
      otherwise the upline, except that level 1 always goes to the owner of the
      requested referral username (who is the upline itself unless placement was
      redirected below them). */
  function ExpectedReceiver(users: seq<User>, sponsor: Option<UserId>, owner: Option<UserId>, level: nat): UserId
    requires 1 <= level
    requires sponsor.Some? ==> owner.Some?
  {
    match Upline(users, sponsor, level)
    case None => FallbackReceiver
    case Some(u) => if level == 1 then owner.value else u
  }

  /** The receiver chosen by the two branches of the signup loop when an
      upline exists: `sameSponsor` is the outcome of comparing the placed
      sponsor with the referral owner. */
  function BranchReceiver(sameSponsor: bool, level: nat, upline: UserId, owner: Option<UserId>): UserId
    requires !sameSponsor && level == 1 ==> owner.Some?
  {
    if sameSponsor then upline
    else if level == 1 then owner.value
    else upline
  }

  /** The comparison compares two ObjectId objects by reference, so it is false
      even when both name the same user. When placement was not redirected
      (the placed sponsor is the owner) both branches pick the same receiver. */
  lemma BranchesAgree(users: seq<User>, sponsor: Option<UserId>, owner: Option<UserId>, level: nat)
    requires 1 <= level && sponsor.Some? && sponsor == owner
    requires Upline(users, sponsor, level).Some?
    ensures BranchReceiver(true, level, Upline(users, sponsor, level).value, owner)
         == BranchReceiver(false, level, Upline(users, sponsor, level).value, owner)
         == ExpectedReceiver(users, sponsor, owner, level)
  {
  }

  /** The ledger record for one level: the new user pays 1000 x level. */
  function CommissionDraft(payer: UserId, receiver: UserId, level: nat): TxnDraft
  {
    TxnDraft(Some(payer), Some(receiver), Some(JoiningAmount * level), CommissionKind, Some(level))
  }

  /** The loop of `registerUser`: ten rounds, each looking up the cursor; a found
      upline yields a ledger record and a structure record and moves the cursor
      to its sponsor, a missing one yields a fallback ledger record and clears
      the cursor. Receivers follow the by-value comparison of the placed sponsor
      with the referral owner. */
  method Distribute(users: seq<User>, newUser: UserId, sponsor: Option<UserId>, owner: Option<UserId>)
    returns (drafts: seq<TxnDraft>, links: seq<MlmStructure>)
    requires sponsor.Some? ==> owner.Some?
    ensures drafts == DraftsUpTo(users, newUser, sponsor, owner, MaxLevel)
    ensures links == LinksUpTo(users, newUser, sponsor, Reached(users, sponsor))
  {
    var level: nat := 1;
    var cursor := sponsor;
    drafts, links := [], [];
    while level <= MaxLevel
      invariant 1 <= level <= MaxLevel + 1
      invariant level <= MaxLevel ==> Lookup(users, cursor) == Upline(users, sponsor, level)
      invariant drafts == DraftsUpTo(users, newUser, sponsor, owner, level - 1)
      invariant links == LinksUpTo(users, newUser, sponsor, Seen(users, sponsor, level - 1))
    {
      drafts, links, cursor := Round(users, newUser, sponsor, owner, level, cursor, drafts, links);
      level := level + 1;
    }
    assert Seen(users, sponsor, MaxLevel) == Reached(users, sponsor);
  }

  /** How many of the levels 1 .. n are reached. */
  function Seen(users: seq<User>, sponsor: Option<UserId>, n: nat): (m: nat)
    ensures m <= n && m <= Reached(users, sponsor)
    ensures m == n || m == Reached(users, sponsor)
  {
    if n <= Reached(users, sponsor) then n else Reached(users, sponsor)
  }

  /** What one round yields extends the drafts by one and the structure
      records by the level's link, if any. */
  lemma RoundExtends(users: seq<User>, newUser: UserId, sponsor: Option<UserId>, owner: Option<UserId>, level: nat,
                     draft: TxnDraft, link: Option<MlmStructure>)
    requires sponsor.Some? ==> owner.Some?
    requires 1 <= level <= MaxLevel
    requires draft == CommissionDraft(newUser, ExpectedReceiver(users, sponsor, owner, level), level)
    requires link.Some? <==> Upline(users, sponsor, level).Some?
    requires link.Some? ==> link.value == MlmStructure(newUser, level, Upline(users, sponsor, level).value)
    ensures DraftsUpTo(users, newUser, sponsor, owner, level) == DraftsUpTo(users, newUser, sponsor, owner, level - 1) + [draft]
    ensures LinksUpTo(users, newUser, sponsor, Seen(users, sponsor, level))
         == LinksUpTo(users, newUser, sponsor, Seen(users, sponsor, level - 1)) + (if link.Some? then [link.value] else [])
  {
    ReachedIff(users, sponsor, level);
    if link.Some? {
      LinksStep(users, newUser, sponsor, level);
    } else {
      assert Seen(users, sponsor, level) == Seen(users, sponsor, level - 1);
    }
  }

  /** One round of the loop at `level`: look the cursor up; a found upline
      adds a record paying the level's receiver and a structure record, and
      moves the cursor to the upline's sponsor; a missing one adds a fallback
      record and clears the cursor. */
  method Round(users: seq<User>, newUser: UserId, sponsor: Option<UserId>, owner: Option<UserId>, level: nat,
               cursor: Option<UserId>, drafts: seq<TxnDraft>, links: seq<MlmStructure>)
    returns (drafts': seq<TxnDraft>, links': seq<MlmStructure>, next: Option<UserId>)
    requires sponsor.Some? ==> owner.Some?
    requires 1 <= level <= MaxLevel
    requires Lookup(users, cursor) == Upline(users, sponsor, level)
    requires drafts == DraftsUpTo(users, newUser, sponsor, owner, level - 1)
    requires links == LinksUpTo(users, newUser, sponsor, Seen(users, sponsor, level - 1))
    ensures drafts' == DraftsUpTo(users, newUser, sponsor, owner, level)
    ensures links' == LinksUpTo(users, newUser, sponsor, Seen(users, sponsor, level))
    ensures level < MaxLevel ==> Lookup(users, next) == Upline(users, sponsor, level + 1)
  {
    var found := Lookup(users, cursor);
    ReceiverAtLevel(users, sponsor, owner, level, found);
    var draft, link;
    if found.Some? {
      var upline := found.value;
      draft := CommissionDraft(newUser, BranchReceiver(sponsor == owner, level, upline, owner), level);
      link := Some(MlmStructure(newUser, level, upline));
      next := users[upline].sponsorId;
    } else {
      draft := CommissionDraft(newUser, FallbackReceiver, level);
      link := None;
      next := None;
      if level < MaxLevel {
        UplineEnded(users, sponsor, level, level + 1);
      }
    }
    RoundExtends(users, newUser, sponsor, owner, level, draft, link);
    drafts' := drafts + [draft];
    links' := if link.Some? then links + [link.value] else links;
  }

  /** The drafts of levels 1 .. n. */
  function DraftsUpTo(users: seq<User>, newUser: UserId, sponsor: Option<UserId>, owner: Option<UserId>, n: nat)
    : (d: seq<TxnDraft>)
    requires sponsor.Some? ==> owner.Some?
    ensures |d| == n
    ensures forall i :: 0 <= i < n ==> d[i] == CommissionDraft(newUser, ExpectedReceiver(users, sponsor, owner, i + 1), i + 1)
  {
    if n == 0 then []
    else DraftsUpTo(users, newUser, sponsor, owner, n - 1) + [CommissionDraft(newUser, ExpectedReceiver(users, sponsor, owner, n), n)]
  }

  /** The structure records of levels 1 .. n, all of them reached. */
  function LinksUpTo(users: seq<User>, newUser: UserId, sponsor: Option<UserId>, n: nat): (l: seq<MlmStructure>)
    requires n <= Reached(users, sponsor)
    ensures |l| == n
    ensures forall i :: 0 <= i < n ==>
      Upline(users, sponsor, i + 1).Some? && l[i] == MlmStructure(newUser, i + 1, Upline(users, sponsor, i + 1).value)
  {
    if n == 0 then []
    else
      ReachedIff(users, sponsor, n);
      LinksUpTo(users, newUser, sponsor, n - 1) + [MlmStructure(newUser, n, Upline(users, sponsor, n).value)]
  }

  /** A reached level extends the structure records by its upline. */
  lemma LinksStep(users: seq<User>, newUser: UserId, sponsor: Option<UserId>, level: nat)
    requires 1 <= level <= MaxLevel && Upline(users, sponsor, level).Some?
    ensures level <= Reached(users, sponsor)
    ensures LinksUpTo(users, newUser, sponsor, level)
         == LinksUpTo(users, newUser, sponsor, level - 1) + [MlmStructure(newUser, level, Upline(users, sponsor, level).value)]
  {
    ReachedIff(users, sponsor, level);
  }

  /** The receiver the loop picks at `level`, from the cursor's lookup, is the
      receiver of that level. */
  lemma ReceiverAtLevel(users: seq<User>, sponsor: Option<UserId>, owner: Option<UserId>, level: nat, found: Option<UserId>)
    requires 1 <= level && (sponsor.Some? ==> owner.Some?)
    requires found == Upline(users, sponsor, level)
    ensures found.Some? ==> BranchReceiver(sponsor == owner, level, found.value, owner) == ExpectedReceiver(users, sponsor, owner, level)
    ensures found.None? ==> ExpectedReceiver(users, sponsor, owner, level) == FallbackReceiver
  {
    if found.Some? && level == 1 && sponsor != owner {
      assert Upline(users, sponsor, 1) == Lookup(users, sponsor);
    }
  }

  /** Once the chain ends at some level, that level and every later one pay the
      fallback account, and no structure record exists for them. */
  lemma FallbackSuffix(users: seq<User>, sponsor: Option<UserId>, owner: Option<UserId>, j: nat, k: nat)
    requires sponsor.Some? ==> owner.Some?
    requires 1 <= j <= k <= MaxLevel && Upline(users, sponsor, j).None?
    ensures ExpectedReceiver(users, sponsor, owner, k) == FallbackReceiver
    ensures Reached(users, sponsor) < j
  {
    UplineEnded(users, sponsor, j, k);
    ReachedIff(users, sponsor, j);
  }

  /** The structure records name the sponsor chain in order: the upline of
      level k+1 is the sponsor of the upline of level k. */
  lemma ChainLinks(users: seq<User>, sponsor: Option<UserId>, k: nat)
    requires 1 <= k < Reached(users, sponsor)
    ensures Upline(users, sponsor, k).Some? && Upline(users, sponsor, k + 1).Some?
    ensures users[Upline(users, sponsor, k).value].sponsorId == Upline(users, sponsor, k + 1)
  {
    ReachedIff(users, sponsor, k);
    ReachedIff(users, sponsor, k + 1);
  }

  /** The sponsor chain of a start that precedes position `m` lies within the
      first `m` users of a forest, so it is the same over that prefix of the
      store as over the whole store. */
  lemma {:induction false} UplinePrefix(users: seq<User>, m: nat, start: Option<UserId>, level: nat)
    requires SponsorsPrecede(users) && m <= |users|
    requires start.Some? ==> start.value < m
    requires level >= 1
    ensures Upline(users[..m], start, level) == Upline(users, start, level)
  {
    if level > 1 {
      UplinePrefix(users, m, start, level - 1);
      match Upline(users[..m], start, level - 1)
      case None =>
      case Some(u) =>
        assert users[..m][u] == users[u];
    }
  }

  lemma {:induction false} ReachedFromPrefix(users: seq<User>, m: nat, start: Option<UserId>, level: nat)
    requires SponsorsPrecede(users) && m <= |users|
    requires start.Some? ==> start.value < m
    requires level >= 1
    ensures ReachedFrom(users[..m], start, level) == ReachedFrom(users, start, level)
    decreases MaxLevel + 1 - level
  {
    if level <= MaxLevel {
      UplinePrefix(users, m, start, level);
      ReachedFromPrefix(users, m, start, level + 1);
    }
  }

  /** The structure records of a chain that starts within the first `m` users
      are the same whether computed over that prefix or over the whole store. */
  lemma LinksPrefix(users: seq<User>, m: nat, newUser: UserId, start: Option<UserId>)
    requires SponsorsPrecede(users) && m <= |users|
    requires start.Some? ==> start.value < m
    ensures Reached(users[..m], start) == Reached(users, start)
    ensures LinksUpTo(users[..m], newUser, start, Reached(users[..m], start))
         == LinksUpTo(users, newUser, start, Reached(users, start))
  {
    ReachedFromPrefix(users, m, start, 1);
    LinksUpToPrefix(users, m, newUser, start, Reached(users, start));
  }

  lemma {:induction false} LinksUpToPrefix(users: seq<User>, m: nat, newUser: UserId, start: Option<UserId>, n: nat)
    requires SponsorsPrecede(users) && m <= |users|
    requires start.Some? ==> start.value < m
    requires n <= Reached(users, start) && n <= Reached(users[..m], start)
    ensures LinksUpTo(users[..m], newUser, start, n) == LinksUpTo(users, newUser, start, n)
  {
    if n > 0 {
      LinksUpToPrefix(users, m, newUser, start, n - 1);
      UplinePrefix(users, m, start, n);
    }
  }
}

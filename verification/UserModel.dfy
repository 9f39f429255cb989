/** The user document: its fields, its schema validators and its pre-save hook. */
module UserModel {
  import opened Base

  datatype BankDetails = BankDetails(accountNumber: string, ifscCode: string)

  /** One user document. The document's own id is its position in the users
      collection; `sponsorId` is the optional reference to the sponsoring user. */
  datatype User = User(
    username: string,
    name: string,
    email: string,
    password: string,
    mobileNumber: string,
    bankDetails: Option<BankDetails>,
    upiNumber: string,
    referralCode: string,
    sponsorId: Option<UserId>,
    createdAt: Time)

  predicate IsDigit(c: char)
  {
    '0' <= c <= '9'
  }

  /** Every character of `s` is an ASCII decimal digit (JavaScript's `\d`). */
  function AllDigits(s: string): (r: bool)
    ensures r <==> forall i :: 0 <= i < |s| ==> IsDigit(s[i])
  {
    if s == [] then true else IsDigit(s[0]) && AllDigits(s[1..])
  }

  /** The mobile number validator `^\d{10}$` (no multiline flag, so `$` is end of input). */
  predicate IsMobileNumber(s: string)
  {
    |s| == 10 && AllDigits(s)
  }

  /** The schema validators: the required string fields must be non-empty
      (Mongoose rejects "" for a required string) and the mobile number must
      match the pattern. `bankDetails`, `sponsorId` and the dates are optional. */
  predicate Validate(u: User)
  {
    && u.username != ""
    && u.name != ""
    && u.email != ""
    && u.password != ""
    && IsMobileNumber(u.mobileNumber)
    && u.upiNumber != ""
    && u.referralCode != ""
  }

  /** A document whose referral code is empty never passes validation, so a
      signup without a sponsor username fails when the user is created. */
  lemma EmptyReferralRejected(u: User)
    requires u.referralCode == ""
    ensures !Validate(u)
  {
  }

  /** A ten-digit number validates; one character more or less never does. */
  lemma MobileNumberLength(s: string)
    requires IsMobileNumber(s)
    ensures forall c :: !IsMobileNumber(s + [c]) && !IsMobileNumber(s[1..])
  {
    forall c ensures !IsMobileNumber(s + [c]) {
      assert |s + [c]| == 11;
    }
    assert |s[1..]| == 9;
  }

  /** Index of the first user whose username is `name` (the query `findOne({ username })`). */
  function FindByUsername(users: seq<User>, name: string): (r: Option<UserId>)
    ensures r.Some? ==> r.value < |users| && users[r.value].username == name
    ensures r.Some? ==> forall j :: 0 <= j < r.value ==> users[j].username != name
    ensures r.None? <==> forall j :: 0 <= j < |users| ==> users[j].username != name
  {
    if users == [] then None
    else if users[0].username == name then Some(0)
    else match FindByUsername(users[1..], name)
      case None => None
      case Some(k) => Some(k + 1)
  }

  /** `findOne({ username })` for a request field that may be absent: Mongoose
      drops a filter key whose value is undefined, so an absent username
      matches every user and the first one is found. */
  function FindOneByUsername(users: seq<User>, name: Option<string>): (r: Option<UserId>)
    ensures name.Some? ==> r == FindByUsername(users, name.value)
    ensures name.None? ==> (r.Some? <==> users != []) && (r.Some? ==> r.value == 0)
  {
    match name
    case None => if users == [] then None else Some(0)
    case Some(n) => FindByUsername(users, n)
  }

  /** Some user matches `findOne({ email })`; an absent email drops the key, so
      any stored user matches. */
  predicate EmailTaken(users: seq<User>, email: Option<string>)
  {
    exists j :: 0 <= j < |users| && (email.None? || users[j].email == email.value)
  }

  /** The unique index on `username`. */
  ghost predicate UniqueUsernames(users: seq<User>)
  {
    forall i, j :: 0 <= i < j < |users| ==> users[i].username != users[j].username
  }

  /** Every sponsor reference names a user created earlier. Signup only ever
      links a new user to an existing one, so this holds of every store built by
      signups; it is what makes the referral graph a forest. */
  predicate SponsorsPrecede(users: seq<User>)
  {
    forall i :: 0 <= i < |users| && users[i].sponsorId.Some? ==> users[i].sponsorId.value < i
  }

  /** The positions of the users created at or after `start`. */
  ghost function JoinedIndices(users: seq<User>, start: Time): set<nat>
  {
    set i: nat | i < |users| && users[i].createdAt >= start
  }

  /** The number of users created at or after `start` (the "joined today" count
      with the start of the day as an input). */
  function JoinedSince(users: seq<User>, start: Time): (n: nat)
    ensures n == |JoinedIndices(users, start)|
    ensures n <= |users|
    ensures n == 0 <== forall i :: 0 <= i < |users| ==> users[i].createdAt < start
  {
    if users == [] then 0
    else
      JoinedIndicesSplit(users, start);
      JoinedSince(users[..|users| - 1], start) + (if users[|users| - 1].createdAt >= start then 1 else 0)
  }

  /** The joined positions of a store are those of all but its last user, plus
      the last position when that user joined in time. */
  lemma JoinedIndicesSplit(users: seq<User>, start: Time)
    requires users != []
    ensures var init, last := users[..|users| - 1], |users| - 1;
      && last !in JoinedIndices(init, start)
      && JoinedIndices(users, start)
         == JoinedIndices(init, start) + (if users[last].createdAt >= start then {last} else {})
  {
    var init, last := users[..|users| - 1], |users| - 1;
    assert forall i :: 0 <= i < |init| ==> init[i] == users[i];
  }

  /** Counting users joined since a later instant never gives more. */
  lemma {:induction false} JoinedSinceMonotonic(users: seq<User>, early: Time, late: Time)
    requires early <= late
    ensures JoinedSince(users, late) <= JoinedSince(users, early)
  {
    if users != [] {
      JoinedSinceMonotonic(users[..|users| - 1], early, late);
    }
  }

  /** A user document being edited: its current field values and whether the
      password path has been modified since the document was loaded. */
  class UserDocument {
    var data: User
    var passwordModified: bool

    /** A document created from request fields: every path counts as modified. */
    constructor Create(fields: User)
      ensures data == fields && passwordModified
    {
      data := fields;
      passwordModified := true;
    }

    /** A document loaded from the store: nothing modified yet. */
    constructor Load(stored: User)
      ensures data == stored && !passwordModified
    {
      data := stored;
      passwordModified := false;
    }

    /** Assigning the password path marks it modified when the new value
        differs from the current one; assigning the same value changes nothing. */
    method SetPassword(p: string)
      modifies this
      ensures data == old(data).(password := p)
      ensures passwordModified == (old(passwordModified) || p != old(data).password)
    {
      passwordModified := passwordModified || p != data.password;
      data := data.(password := p);
    }

    /** The pre-save hook: the password is replaced by its hash only when the
        password path was modified; `hash` stands for the bcrypt salt-and-hash. */
    method PreSave(hash: string -> string)
      modifies this
      ensures passwordModified == old(passwordModified)
      ensures old(passwordModified) ==> data == old(data).(password := hash(old(data).password))
      ensures !old(passwordModified) ==> data == old(data)
    {
      if passwordModified {
        data := data.(password := hash(data.password));
      }
    }
  }
}

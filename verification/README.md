# magicHelpBackend signup and ledger engine, in Dafny

This project models the core of magicHelpBackend, a multi-level-marketing
backend. Members join with a one-time voucher (an E-pin) and a sponsor's
username.

**Placement.** A joiner is placed under the first member who has fewer than
three direct referrals. The search is breadth-first and starts from the owner
of the given username.

**The signup ledger.** Each signup queues ten commission records. The record
for level k is paid by the new member, for 1000 × k, to the k-th upline. Once
the chain of uplines has run out, the remaining levels go to a fixed fallback
account. Level 1 always goes to the owner of the username. The ledger records
then move through their statuses: a UTR (bank transfer reference) is
submitted, an administrator confirms payment, and a "PMF" record is paid
with an E-pin.

**Reports.** Reports fold over the ledger: a per-level matrix summary, five
totals per member, a paged list of PMF records and a top-receivers ranking.

**Modules.** There is one Dafny module per source file, over a shared store:

- `Base`: the `Option`, `Result` and `Error` types, ids and timestamps.
- `UserModel`: the user record. It also holds the 10-digit mobile validator,
  the required fields, the username lookup, the joined-since count and the
  `UserDocument` class with its hash-on-save hook.
- `TransactionModel`: the ledger record, its defaults and required fields,
  the paid total per receiver and `getTopReceivers`.
- `Store`: the E-pin record and the `Db` class. `Db` holds the four
  collections (users, ledger records, structure records, E-pins).
- `Placement`: the breadth-first sponsor search. It is proved against an
  independent level-order definition.
- `Commission`: the sponsor chain walked at signup. It holds the upline of
  each level, the number of levels reached and the receiver of each level.
- `AuthController`: `registerUser` and `updateUserProfile`.
- `PaymentController`: the three ledger transitions and the reminder decision.
- `PaymentReports`: `getMatrixSummary`, `gettotals` and `getTransactionsPMF`.
- `MlmController`: `calculateCommissions`.
- `EpinController`: `generateEpin` and `useEpin`.

**How the store is represented.** A member's id is their position in the
users collection, and a ledger record's id is its position in the ledger. The
store is a forest: every member's sponsor was stored before them (`Db.Forest`).
Signup keeps this property, and the breadth-first search relies on it to
terminate.

**Inputs taken as parameters.** Several things the code obtains from outside
are parameters of the model:

- the clock;
- the password hash, bcrypt in the code;
- the generated username.

**Request fields.** A field the client leaves out of a request body is
`None`. Mongoose drops a query filter key whose value is undefined, so a lookup
keyed by a missing field matches every document and finds the first one in
store order; the model keeps this. A required document field rejects a missing
value and "" alike, and `||` and `if (x)` treat both as false.

## Model

| member | source | states |
|---|---|---|
| UserModel.AllDigits | src/models/User.js:9 | true exactly when every character is a decimal digit |
| UserModel.MobileNumberLength | src/models/User.js:9 | a valid mobile number has exactly ten digits: one more digit or one fewer is rejected |
| UserModel.EmptyReferralRejected | src/models/User.js:15 | a user whose referral code is empty fails validation, so a signup without a sponsor username cannot be created |
| UserModel.FindByUsername | src/models/User.js:5 | finds the first member with that username, and finds none exactly when no member has it |
| UserModel.FindOneByUsername | src/controllers/paymentController.js:208 | with a username, the first member who has it; without one the filter is empty, so the first stored member is found, and nothing only in an empty store |
| UserModel.JoinedSince | src/models/User.js:35-39 | the count is exactly the number of members created at or after the start instant (the size of the set of their positions); hence at most all members, and none when everyone joined before |
| UserModel.JoinedSinceMonotonic | src/models/User.js:35-39 | a later start of day never counts more members |
| UserModel.UserDocument.Create | src/models/User.js:21-22 | a newly created document counts its password as modified |
| UserModel.UserDocument.Load | src/models/User.js:21-22 | a loaded document starts with its password unmodified |
| UserModel.UserDocument.SetPassword | src/models/User.js:21-22 | assigning the password changes only that field; the path is marked modified when it already was or when the new value differs from the current one |
| UserModel.UserDocument.PreSave | src/models/User.js:21-28 | the password is replaced by its hash exactly when it was modified; otherwise the document is unchanged |
| TransactionModel.CreateTxn | src/models/Transaction.js:3-13 | a draft is stored exactly when payer, amount, type and level are present; the stored record is open, with no paid date and no UTR; otherwise validation fails |
| TransactionModel.CreateAll | src/models/Transaction.js:3-13 | a batch is stored exactly when every draft is valid, record for draft |
| TransactionModel.PaidTotal | src/models/Transaction.js:26-28 | a receiver with no paid record has total 0; with non-negative amounts every total is non-negative |
| TransactionModel.PaidTotalUpdate | src/models/Transaction.js:27-28 | replacing one record changes a receiver's paid total by exactly the difference of the two records' contributions |
| TransactionModel.PaidReceivers | src/models/Transaction.js:28 | each receiver of a paid record appears once, and only those appear |
| TransactionModel.Groups | src/models/Transaction.js:27-28 | one group per paid receiver, carrying that receiver's paid total |
| TransactionModel.Insert | src/models/Transaction.js:29 | inserting into a ranking keeps it descending, and the result holds the old entries plus the new one, as a multiset |
| TransactionModel.HeadStaysFirst | src/models/Transaction.js:29 | an entry with a smaller total than the head does not displace it: the head followed by the sorted rest is still descending |
| TransactionModel.SortByTotal | src/models/Transaction.js:29 | the ranking is descending by total and is a permutation of the groups |
| TransactionModel.RankedEntry | src/models/Transaction.js:27-29 | every ranked entry's total is the paid total of a receiver that was paid |
| TransactionModel.Window | src/models/Transaction.js:30-31 | skip then limit: at most `limit` entries, taken in order from position `skip` on |
| TransactionModel.JoinUsers | src/models/Transaction.js:33-40 | every entry comes from a group whose receiver is a member and carries that member's name and username; there are no more entries than groups, and a descending input gives a descending result |
| TransactionModel.JoinUsersAppend | src/models/Transaction.js:33-40 | the join works group by group: joining two runs of groups gives the join of the first followed by the join of the second |
| TransactionModel.JoinUsersSingle | src/models/Transaction.js:33-40 | a single group yields its entry, with the member's name and username, when its receiver is a stored member, and nothing otherwise; with the previous row this fixes the join as the in-order run of the joinable groups' entries |
| TransactionModel.JoinUsersComplete | src/models/Transaction.js:33-40 | no group of a stored member is lost: its entry is in the join |
| TransactionModel.JoinTail | src/models/Transaction.js:33-40 | an entry joined from the tail of the groups comes from a group of the whole list |
| TransactionModel.JoinHead | src/models/Transaction.js:33-40 | joining the head of a descending list in front of the joined rest keeps the result descending |
| TransactionModel.RankedWindow | src/models/Transaction.js:24-40 | the joined window of the ranking has at most `limit` entries, is descending, and each entry is a paid receiver that is a member, with that receiver's paid total |
| TransactionModel.TopReceivers | src/models/Transaction.js:20-57 | page and limit default to 1 and 10 when left out; the answer exists exactly when page ≥ 1 and limit ≥ 1, and otherwise is a server error; it is the join with the users of the window of the ranking at (page − 1) × limit of size limit: at most `limit` entries, descending by total, each the paid total of a receiver that is a member |
| Store.FindUnusedEpin | src/controllers/authController.js:56 | finds the first unused E-pin whose id matches (a missing id matches every E-pin) and whose type matches; finds none exactly when no E-pin matches |
| Store.MissingIdMatchesAny | src/controllers/epinController.js:51 | as written, a request without an E-pin id finds an unused E-pin as soon as one of the requested type exists, at or before it in store order |
| Store.FindNamedEpin | src/controllers/epinController.js:51 | the intended lookup: a request without an id finds no E-pin; one with an id finds an unused E-pin of that type with exactly that id, and none exactly when there is no such E-pin |
| Placement.ChildrenFrom | src/controllers/authController.js:39 | lists direct referrals of `p` only, in store order |
| Placement.ChildrenFromCount | src/controllers/authController.js:27 | the children list holds each referral once: its length is the number of stored members naming p as their sponsor |
| Placement.CanAccept | src/controllers/authController.js:26-29 | a member has room exactly when fewer than three stored members name them as their sponsor |
| Placement.ChildrenFromWeight | src/controllers/authController.js:39-42 | the children found from position j on weigh as much as the subtrees of those children |
| Placement.ChildTaken | src/controllers/authController.js:39-42 | a child at position j adds its own subtree to both sides of that equation |
| Placement.ChildSkipped | src/controllers/authController.js:39-42 | a member at position j that is not a child changes neither side |
| Placement.ChildrenAppend | src/controllers/authController.js:27 | storing a new member adds it to its sponsor's children and changes no one else's |
| Placement.WeightAppend | src/controllers/authController.js:33-43 | the termination measure of a queue adds up over concatenation |
| Placement.ChildrenWeight | src/controllers/authController.js:39-42 | in a forest, the children of a member weigh one less than that member's subtree |
| Placement.ExpandWeight | src/controllers/authController.js:39-42 | replacing a frontier by its children lowers the measure by the frontier's length |
| Placement.LevelsUnfold | src/controllers/authController.js:32-45 | breadth-first order is the start frontier followed by the expansion of the whole order |
| Placement.FirstAvailable | src/controllers/authController.js:26-29 | the answer is in the order and has fewer than three referrals; no answer means no one in the order has room |
| Placement.FirstAvailableIsFirst | src/controllers/authController.js:36-38 | when some member of the order has room, the answer is the earliest member that has room |
| Placement.FirstAvailableAfterFull | src/controllers/authController.js:34-38 | after a run of full members, the next member with room is the answer |
| Placement.HeadIsNext | src/controllers/authController.js:35 | the head of the queue is the next member in breadth-first order |
| Placement.SearchStarts | src/controllers/authController.js:33-34 | the queue holding only the start member, with nothing visited, satisfies the search invariant |
| Placement.HeadIsAnswer | src/controllers/authController.js:36-38 | when the head of the queue has room, it is the first member with room in breadth-first order |
| Placement.SearchStep | src/controllers/authController.js:35-42 | dequeuing a full member and enqueuing its children keeps the queue in breadth-first order |
| Placement.StepInStore | src/controllers/authController.js:35-42 | the visited members and the new queue all name stored members |
| Placement.StepFull | src/controllers/authController.js:36-38 | every visited member is full after visiting one more full member |
| Placement.StepWeight | src/controllers/authController.js:35-42 | each such step lowers the termination measure |
| Placement.ExpandFull | src/controllers/authController.js:26-29 | full members have at least three children each |
| Placement.SearchNeverExhausts | src/controllers/authController.js:34-44 | in a forest the queue never empties before a member with room is found, so the search never gives up |
| Placement.SubtreeHasFreeSlot | src/controllers/authController.js:32-45 | every member's subtree contains a member with room |
| Placement.FindNextAvailableSponsor | src/controllers/authController.js:32-45 | the queue-driven search returns the first member with room in breadth-first order from the start |
| Commission.Lookup | src/controllers/authController.js:96 | `findById` finds the cursor exactly when it names a stored member |
| Commission.UplineEnded | src/controllers/authController.js:136-147 | once the chain has ended at some level it stays ended at every later level |
| Commission.ReachedIff | src/controllers/authController.js:95-150 | level k has an upline exactly when k is at most the number of levels reached |
| Commission.BranchesAgree | src/controllers/authController.js:101-127 | when placement was not redirected, both branches of the by-reference comparison pay the same receiver, the one the model pays |
| Commission.Distribute | src/controllers/authController.js:89-150 | ten drafts, the one for level k paying 1000 × k to that level's receiver; one structure record per reached level, naming the k-th upline |
| Commission.Round | src/controllers/authController.js:96-149 | one round at level k extends the drafts to those of levels 1 .. k and the structure records to those of the reached levels among them, and moves the cursor to the upline of level k+1 |
| Commission.RoundExtends | src/controllers/authController.js:96-149 | the drafts of levels 1 .. k are those of 1 .. k−1 plus level k's; the structure records grow by level k's exactly when it is reached |
| Commission.DraftsUpTo | src/controllers/authController.js:97-147 | n drafts; the one for level k pays 1000 × k to that level's receiver |
| Commission.LinksUpTo | src/controllers/authController.js:129-133 | n structure records for reached levels; the one for level k names the k-th upline |
| Commission.LinksStep | src/controllers/authController.js:129-133 | a level with an upline is reached, and extends the structure records by that upline |
| Commission.ReceiverAtLevel | src/controllers/authController.js:99-147 | the receiver the loop picks from the cursor's lookup is the receiver of that level, and the fallback account once the chain has ended |
| Commission.Seen | src/controllers/authController.js:95-150 | the number of reached levels among 1 .. n: n itself or all reached levels, whichever is fewer |
| Commission.FallbackSuffix | src/controllers/authController.js:136-147 | from the first level without an upline on, every level pays the fallback account, and that level lies beyond the reached ones |
| Commission.ChainLinks | src/controllers/authController.js:135 | consecutive reached uplines are sponsor and sponsored: the cursor moves to the upline's own sponsor |
| Commission.UplinePrefix | src/controllers/authController.js:135 | in a forest, the upline of every level of a chain that starts within the first m members is the same over those m members as over the whole store |
| Commission.LinksPrefix | src/controllers/authController.js:129-133 | in a forest, the structure records of a chain that starts within the first m members are the same computed over those m members as over the whole store |
| AuthController.PlacementIff | src/controllers/authController.js:19-23 | a placement exists exactly when the username has an owner; it lies in the owner's breadth-first order and has room |
| AuthController.PlacementFor | src/controllers/authController.js:19-23 | a placement is found only under an owner of the username; it lies in the owner's breadth-first order and has room |
| AuthController.FindAvailableSponsor | src/controllers/authController.js:19-23 | looks up the owner of the username, then runs the breadth-first search from them |
| AuthController.SignupCheck | src/controllers/authController.js:48-85 | the checks in order, each outcome stated: a matching email (any member when the email is missing) gives user-exists; then no matching unused login E-pin gives invalid E-pin; then a sponsor username with no owner gives no-sponsor; then a document failing validation gives validation-failed; then a taken username gives duplicate-key; when all pass the answer is the placement under the owner; a pass implies every check passed |
| AuthController.SignupWithoutVoucher | src/controllers/authController.js:56 | as written, a signup that names no E-pin passes the E-pin check as soon as any unused login E-pin exists |
| AuthController.MarkUsed | src/controllers/authController.js:157-159 | claiming an E-pin marks it used and changes no other E-pin |
| AuthController.SignupRecordsShape | src/controllers/authController.js:89-150 | exactly ten open commission records, level k paid by the new member for 1000 × k; levels beyond the reached chain go to the fallback account |
| AuthController.SignupCreated | src/controllers/authController.js:153 | the ten drafts of the walk all pass validation and become exactly the signup's ledger records |
| AuthController.SignupWrites | src/controllers/authController.js:89-154 | the loop and the bulk insert yield exactly the signup's ledger records and structure records |
| AuthController.AppendKeepsStore | src/controllers/authController.js:75-85 | storing a user with a fresh username and a stored sponsor keeps usernames unique and the store a forest |
| AuthController.MarkUsedKeepsUnique | src/controllers/authController.js:157-159 | marking an E-pin used keeps E-pin ids unique |
| AuthController.CommitSignup | src/controllers/authController.js:75-159 | the writes of a signup: the user is appended, then the ten records, the structure records and the E-pin claim; uniqueness and the forest property are kept |
| AuthController.RegisterUser | src/controllers/authController.js:48-171 | fails exactly when the checks fail, with the same error and nothing written; on success the user with the hashed password, the ten records, the structure records and the used E-pin (the one the lookup found) are all stored |
| AuthController.SignupKeepsCap | src/controllers/authController.js:26-29 | attaching a member under a sponsor with room keeps every member at three referrals or fewer |
| AuthController.OrElse | src/controllers/authController.js:241-247 | a supplied non-empty value replaces the field; otherwise the old value is kept |
| AuthController.MergeProfile | src/controllers/authController.js:241-247 | each updatable field takes the supplied value or keeps its own; name, password and creation time are untouched |
| AuthController.EmptyRequestKeepsUser | src/controllers/authController.js:241-247 | an update that supplies nothing leaves the user as it was |
| AuthController.MergeIdempotent | src/controllers/authController.js:241-247 | applying the same update twice is the same as applying it once |
| AuthController.MergeKeepsValid | src/controllers/authController.js:241-247 | merging into a valid user with a valid mobile number, if one is given, gives a valid user |
| AuthController.UpdateKeepsForest | src/controllers/authController.js:247 | a new sponsor id that precedes the user keeps the store a forest |
| AuthController.UpdateUserProfile | src/controllers/authController.js:237-264 | an unknown user is not found; an invalid merge or a taken username is rejected with nothing written; otherwise only that user changes, and the password is replaced by the hash of the supplied one exactly when one was supplied that differs from the stored value |
| PaymentController.SubmitUtr | src/controllers/paymentController.js:55-57 | records the UTR and moves any record to pending, dated now; who pays whom and how much are untouched |
| PaymentController.ConfirmPaid | src/controllers/paymentController.js:193-194 | the record becomes paid, dated now; its UTR and terms are kept |
| PaymentController.ResubmitLeavesPaid | src/controllers/paymentController.js:55-57 | status is not monotone: a UTR submitted on a paid record takes it back to pending and out of the receiver's paid total |
| PaymentController.ConfirmRaisesPaidTotal | src/controllers/paymentController.js:193-195 | confirming an unpaid record raises its receiver's paid total by its amount and leaves every other receiver's total unchanged |
| PaymentController.UpdateTransactionUtrAndDate | src/controllers/paymentController.js:45-66 | an unknown id is not found and nothing changes; otherwise exactly that record is resubmitted |
| PaymentController.UpdateTransactionDone | src/controllers/paymentController.js:186-202 | an unknown id is not found and nothing changes; otherwise the record is paid, and the request still fails with a server error after the write |
| PaymentController.PayPmf | src/controllers/paymentController.js:275-297 | succeeds exactly when the record is an open PMF record and an unused PMF E-pin has the code; each failure has its own error and writes nothing; success pays the record and marks the E-pin used and assigned to the payer |
| PaymentController.PmfPaidOnce | src/controllers/paymentController.js:278 | a paid PMF record can never be paid again |
| PaymentController.NeedsReminder | src/controllers/paymentController.js:205-235 | no user matching the username (the first member when it is missing) fails with a server error; otherwise a reminder is due exactly when that user paid no commission record of that amount (of any amount when it is missing) |
| PaymentController.FirstUpgrade | src/controllers/paymentController.js:209 | finds a paid commission record of that payer and amount (any amount when it is missing), or reports that none exists |
| PaymentReports.LevelStatsBounds | src/controllers/paymentController.js:143-145 | at every level, paid plus open records received is at most all records received |
| PaymentReports.LevelStatsCounts | src/controllers/paymentController.js:119-162 | a level's three counts are the numbers of records at that level received by the user: all of them, the paid ones and the open ones |
| PaymentReports.UnlockedIff | src/controllers/paymentController.js:146-156 | a level is unlocked exactly when the user paid a record at that level |
| PaymentReports.UninvolvedLevel | src/controllers/paymentController.js:168-173 | a level with no record involving the user is all zeros and locked |
| PaymentReports.InvolvedLevels | src/controllers/paymentController.js:119-142 | the pipeline has a row exactly for the levels at which some record involves the user |
| PaymentReports.MatrixRows | src/controllers/paymentController.js:119-162 | one row per involved level, holding that level's statistics |
| PaymentReports.FindRow | src/controllers/paymentController.js:168 | finds the row of a level exactly when there is one |
| PaymentReports.InvolvedLevelHasRow | src/controllers/paymentController.js:119-142 | a record involving the user gives its level a row |
| PaymentReports.RowOrDefault | src/controllers/paymentController.js:168-173 | a found row or the zero default is, either way, the level's statistics |
| PaymentReports.GetMatrixSummary | src/controllers/paymentController.js:114-182 | the summary has exactly levels 1 to 10, each holding that level's statistics |
| PaymentReports.SumOfNothing | src/controllers/paymentController.js:334-338 | a total with no matching record is 0 |
| PaymentReports.SumAmounts | src/controllers/paymentController.js:305-328 | with non-negative amounts a filtered sum is never negative |
| PaymentReports.GetTotals | src/controllers/paymentController.js:298-344 | help received is the receiver's paid total, the sum the ranking uses; with non-negative amounts the other totals are non-negative |
| PaymentReports.SumNarrower | src/controllers/paymentController.js:305-331 | with non-negative amounts, a narrower filter never sums to more |
| PaymentReports.ReceivedIsPaidTotal | src/controllers/paymentController.js:322-325 | the sum of the paid amounts a user receives is that receiver's paid total, the same sum the ranking uses |
| PaymentReports.TotalsFacts | src/controllers/paymentController.js:300-344 | direct income is at most help received; a user involved in no record has all five totals 0 |
| PaymentReports.ParamOr | src/controllers/paymentController.js:241-242 | a supplied non-zero value is kept; a missing or zero value gives the default; so never 0 when the default is not 0 |
| PaymentReports.CeilDivBounds | src/controllers/paymentController.js:265 | for a positive limit, the page count is the smallest number of pages that hold every record; for a negative limit, the magnitude's floor quotient, negated |
| PaymentReports.PmfRecords | src/controllers/paymentController.js:245-250 | only records of type PMF paid by the payer, no more than the ledger holds |
| PaymentReports.PmfRecordsExact | src/controllers/paymentController.js:245-250 | each listed record is stored, and every stored PMF record of the payer is listed |
| PaymentReports.TimesIsProduct | src/controllers/paymentController.js:243 | the skip computed by repeated addition is the product (page − 1) × limit |
| PaymentReports.GetTransactionsPmf | src/controllers/paymentController.js:238-272 | fails exactly when the skip (page − 1) × limit is negative, a server error, or is past the last record, not found; a negative page with a negative limit has a non-negative skip and is answered |
| PaymentReports.PmfPageRecords | src/controllers/paymentController.js:243-254 | an answered page holds between 1 and the limit's magnitude records, entry k being the record at position skip + k |
| PaymentReports.PmfPageNumbers | src/controllers/paymentController.js:263-267 | an answered page reports the requested page number and the rounded-up page count |
| PaymentReports.PageIff | src/controllers/paymentController.js:243-265 | for a positive limit, page p ≥ 1 is answered exactly when p is at most the reported page count |
| PaymentReports.PageCovers | src/controllers/paymentController.js:243-248 | entry i of page p is the record at position (p − 1) × limit + i |
| PaymentReports.PageAt | src/controllers/paymentController.js:243-265 | for a positive limit and a skip inside the records, the answer is the window from the skip, with the page count and the page number |
| MlmController.DraftValidity | src/controllers/mlmController.js:22-27 | the record as written fails validation; the record with declared field names passes |
| MlmController.CalculateCommissions | src/controllers/mlmController.js:6-37 | an unknown user is not found and nothing is created; as written, nothing is stored and any reached level fails; with declared names, one record per reached level is stored |
| MlmController.ChainEnds | src/controllers/mlmController.js:17-33 | the walk stops exactly after the reached levels |
| MlmController.ChainUpTo | src/controllers/mlmController.js:17-30 | n records, all for reached levels; the level-k record pays amount × k from the user to the k-th upline |
| MlmController.ChainStep | src/controllers/mlmController.js:20-30 | a level with an upline is reached, and the record created for it extends the records of the levels before it |
| MlmController.ChainRecordsShape | src/controllers/mlmController.js:17-30 | at most ten records; the level-k record pays amount × k to the k-th upline |
| MlmController.ChainFollowsStructure | src/controllers/mlmController.js:18-29 | in a forest, the walk pays, level by level, exactly the uplines named by the structure records the user's signup computed over the store as it stood after that signup (its first userId + 1 members) |
| EpinController.Decimal | src/controllers/epinController.js:23 | renders a number as a non-empty string of decimal digits |
| EpinController.DecimalRoundTrip | src/controllers/epinController.js:23 | parsing a rendered number gives it back |
| EpinController.DigitRoundTrip | src/controllers/epinController.js:23 | reading a rendered digit gives it back |
| EpinController.DecimalInjective | src/controllers/epinController.js:23 | different numbers render differently |
| EpinController.EpinCodeInjective | src/controllers/epinController.js:23 | two E-pin ids are equal only when their time stamps and indices are |
| EpinController.StoredPrefix | src/controllers/epinController.js:36 | an ordered insert stores the batch up to, but not including, the first E-pin whose id is taken |
| EpinController.BatchIdsDistinct | src/controllers/epinController.js:22-23 | the ids within one batch are pairwise distinct |
| EpinController.GenerateEpin | src/controllers/epinController.js:5-39 | a bad count or an unknown assignee is rejected and nothing is created; with both fine, a missing type or amount fails validation and nothing is created; otherwise the store gains exactly the batch up to the first already-taken id, and the answer is success exactly when no id of the batch was taken, else a duplicate key |
| EpinController.BuildBatch | src/controllers/epinController.js:21-34 | `count` unused E-pins in order, pin i carrying the id of round i and the request's type, amount and assignee; their ids are pairwise distinct |
| EpinController.InsertBatch | src/controllers/epinController.js:36 | the ordered insert stores exactly the batch up to the first taken id, keeps E-pin ids unique and changes no other collection |
| EpinController.InsertKeepsUnique | src/controllers/epinController.js:36 | inserting fresh, distinct ids keeps E-pin ids unique |
| EpinController.UseEpin | src/controllers/epinController.js:49-61 | no matching unused E-pin means not found and nothing changes; otherwise exactly the first matching E-pin becomes used; a request without an id matches any unused E-pin |
| EpinController.UsedOnce | src/controllers/epinController.js:51-57 | after an E-pin is used, its id is never found unused again |

## Left out

- JWT signing, bcrypt salting and `generateUsername` are outside the model. The hash and the new username are parameters. The generated username is assumed to be fresh, or the signup fails with a duplicate key.
- The WhatsApp message in `getPaymentToPiadOrNot` is network I/O. Only its decision is modelled (`NeedsReminder`).
- The request's `level` and `payerusername` only shape that message, so they are left out with it.
- Concurrency and atomicity are left out. Each request runs alone, and its writes happen in program order. This covers the count-then-attach race in placement and the non-transactional signup writes.
- Date.now and new Date() are clock inputs: a `Time` parameter, and `clock(i)` for the id built in round i of `generateEpin`.
- `getTotalUsersCount`, `checkUser`, `authUser` and `getUserProfile` are left out. So are the find-all and list endpoints other than `getTransactionsPMF`, since they are routing or unfiltered queries.
- The `MlmStructure` model source is not part of this model. Its records are taken as (user, level, upline) triples.
- The commented-out `createPMFTransactionsIfNeeded` is not modelled. `updateTransactionDone` still calls it, which is modelled as a server error after the save.
- Epin.usedBy is not stored. The E-pin schema declares no such field, so the assignment in `registerUser` is not persisted, and `MarkUsed` only flips the status.
- The `populate`, `sort` and `map` response shaping of the list endpoints is not modelled. `PmfRecords` keeps store order, not newest first.
- `GetMatrixSummary` keys its entries by level number, not by the strings `level1` .. `level10`. A row found in the pipeline also carries its `level` field, which the model does not represent.
- `RegisterUser` requires the store to be a forest in the strict sense of `Db.Forest`: every sponsor id names a member stored earlier. This excludes stores the code handles, namely a member whose sponsor id names a member stored after them (possible through `updateUserProfile`) and a sponsor id that names no stored member, as long as no cycle arises. It also excludes cyclic stores, on which the code's breadth-first search may loop forever. `UpdateKeepsForest` states when an update keeps the forest.
- `FindNextAvailableSponsor` cannot return null. The code's `return null` after the queue empties is unreachable in a forest (`SearchNeverExhausts`).
- The fallback receiver is the id 0x66973cc83079a2d915bce430, far beyond any position a stored member takes. So in the model it is never a stored member: `TopReceivers` always drops the fallback account's group at the join, and no username lookup reaches it. A production database that does hold a user with that ObjectId would list it in the ranking.
- Unhandled promise rejections, such as a failed `User.create` or `insertMany` in `registerUser`, are modelled as `Err` results with no HTTP response body.
- Integer width: amounts and levels are unbounded integers, and JavaScript's double-precision numbers are not modelled.
- `MlmController.CalculateCommissions`: a missing `amount` in the request makes the product NaN in the code. This is not modelled: `amount` is an integer.
- `TransactionModel.TopReceivers`: a page or limit given as a non-integer is not modelled; the defaults apply only when the argument is left out.
- `TransactionModel.TopReceivers`: the order among receivers with equal totals is not specified, because the aggregation's sort is not stable either.

## Findings

| source | as written | input that shows it | evidently intended | confidence | as-written member | corrected member |
|---|---|---|---|---|---|---|
| src/controllers/authController.js:54-59 | the E-pin lookup filters on the body's `ePinId`; a body without it leaves the key undefined, Mongoose drops it, and the query finds any unused login E-pin | a signup body without `ePinId` while an unused login E-pin exists: the signup passes the E-pin check and that E-pin is marked used | a signup that names no E-pin is rejected as an invalid E-pin | not executed | AuthController.SignupWithoutVoucher | Store.FindNamedEpin |
| src/controllers/epinController.js:49-58 | `useEpin` looks up `{ ePinId, status: 'unused' }` with the body's id; without an id the filter matches any unused E-pin | a body without `ePinId` while any unused E-pin exists: that E-pin, of whatever type, is marked used and the answer is 200 | a request that names no E-pin is not found | not executed | Store.MissingIdMatchesAny | Store.FindNamedEpin |
| src/controllers/mlmController.js:22-27 | each level creates a ledger record whose only party field is `userId`, which the ledger schema does not declare; `payerId` is required, so the create is rejected | any user whose sponsor exists: the first `Transaction.create` fails validation and the handler's promise rejects | each level stores a commission record paid by the user to the level-k upline, for amount × k | not executed | MlmController.DraftValidity | MlmController.ChainRecordsShape |

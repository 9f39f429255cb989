/** Sponsor placement: the breadth-first search for the first user, at or below
    the requested sponsor, who still has a free slot under the fan-out cap. */
module Placement {
  import opened Base
  import opened UserModel

  /** Maximum number of direct referrals a user may have. */
  const FanOutCap: nat := 3

  /** The users whose sponsor is `p`, at positions `j` and later, in store order. */
  function ChildrenFrom(users: seq<User>, p: UserId, j: nat): (c: seq<UserId>)
    ensures forall k :: 0 <= k < |c| ==> j <= c[k] < |users| && users[c[k]].sponsorId == Some(p)
    decreases |users| - j
  {
    if j >= |users| then []
    else (if users[j].sponsorId == Some(p) then [j] else []) + ChildrenFrom(users, p, j + 1)
  }

  /** The direct referrals of `p` in store order (`find({ sponsorId })`). */
  function Children(users: seq<User>, p: UserId): seq<UserId>
  {
    ChildrenFrom(users, p, 0)
  }

  /** Appending a user to the store adds it, last, to its sponsor's children and
      leaves every other user's children as they were. */
  lemma {:induction false} ChildrenFromAppend(users: seq<User>, u: User, p: UserId, j: nat)
    requires j <= |users|
    ensures ChildrenFrom(users + [u], p, j)
         == ChildrenFrom(users, p, j) + (if u.sponsorId == Some(p) then [|users|] else [])
    decreases |users| - j
  {
    var ext := users + [u];
    if j < |users| {
      ChildrenFromAppend(users, u, p, j + 1);
      assert ext[j] == users[j];
    } else {
      assert ext[j] == u;
    }
  }

  lemma ChildrenAppend(users: seq<User>, u: User, p: UserId)
    ensures Children(users + [u], p)
         == Children(users, p) + (if u.sponsorId == Some(p) then [|users|] else [])
  {
    ChildrenFromAppend(users, u, p, 0);
  }

  /** The positions, at `j` or later, of the users whose sponsor is `p`. */
  ghost function ReferredFrom(users: seq<User>, p: UserId, j: nat): set<nat>
  {
    set k: nat | j <= k < |users| && users[k].sponsorId == Some(p)
  }

  /** The children list holds each referral once, so its length is the number
      of users naming `p` (from `j` on). */
  lemma {:induction false} ChildrenFromCount(users: seq<User>, p: UserId, j: nat)
    ensures |ChildrenFrom(users, p, j)| == |ReferredFrom(users, p, j)|
    decreases |users| - j
  {
    if j >= |users| {
      assert ReferredFrom(users, p, j) == {};
    } else {
      ChildrenFromCount(users, p, j + 1);
      var here := if users[j].sponsorId == Some(p) then {j} else {};
      assert ReferredFrom(users, p, j) == here + ReferredFrom(users, p, j + 1);
      assert j !in ReferredFrom(users, p, j + 1);
    }
  }

  /** `canAcceptNewReferrals`: fewer than three users name `p` as their sponsor
      (`countDocuments({ sponsorId })`). */
  predicate CanAccept(users: seq<User>, p: UserId)
    ensures CanAccept(users, p) <==> |ReferredFrom(users, p, 0)| < FanOutCap
  {
    ChildrenFromCount(users, p, 0);
    |Children(users, p)| < FanOutCap
  }

  predicate InStore(users: seq<User>, q: seq<UserId>)
  {
    forall k :: 0 <= k < |q| ==> q[k] < |users|
  }

  /** The children of every element of `s`, in order: one BFS expansion step. */
  function Expand(users: seq<User>, s: seq<UserId>): (e: seq<UserId>)
    ensures InStore(users, e)
  {
    if s == [] then [] else Expand(users, s[..|s| - 1]) + Children(users, s[|s| - 1])
  }

  // ---------------------------------------------------------------------------
  // Termination measure: the size of each subtree of the referral forest.

  /** The number of users in the subtree rooted at `i` (1 for an id outside the store). */
  function Subtree(users: seq<User>, i: nat): nat
    decreases |users| - i, 1
  {
    if i < |users| then 1 + ChildSubtrees(users, i, i + 1) else 1
  }

  /** The sizes of the subtrees of `p`'s children at positions `j` and later. */
  function ChildSubtrees(users: seq<User>, p: nat, j: nat): nat
    requires p < j
    decreases |users| - p, 0, |users| - j
  {
    if j >= |users| then 0
    else (if users[j].sponsorId == Some(p) then Subtree(users, j) else 0) + ChildSubtrees(users, p, j + 1)
  }

  /** The total subtree size of a queue of users. */
  function Weight(users: seq<User>, q: seq<UserId>): nat
  {
    if q == [] then 0 else Subtree(users, q[0]) + Weight(users, q[1..])
  }

  lemma {:induction false} WeightAppend(users: seq<User>, a: seq<UserId>, b: seq<UserId>)
    ensures Weight(users, a + b) == Weight(users, a) + Weight(users, b)
  {
    if a == [] {
      assert a + b == b;
    } else {
      assert (a + b)[0] == a[0];
      assert (a + b)[1..] == a[1..] + b;
      WeightAppend(users, a[1..], b);
    }
  }

  lemma {:induction false} ChildrenFromWeight(users: seq<User>, p: nat, j: nat)
    requires p < j
    ensures Weight(users, ChildrenFrom(users, p, j)) == ChildSubtrees(users, p, j)
    decreases |users| - j
  {
    if j < |users| {
      ChildrenFromWeight(users, p, j + 1);
      if users[j].sponsorId == Some(p) {
        ChildTaken(users, p, j);
      } else {
        ChildSkipped(users, p, j);
      }
    }
  }

  /** A child at position `j` adds its subtree to both sides. */
  lemma ChildTaken(users: seq<User>, p: nat, j: nat)
    requires p < j < |users| && users[j].sponsorId == Some(p)
    requires Weight(users, ChildrenFrom(users, p, j + 1)) == ChildSubtrees(users, p, j + 1)
    ensures Weight(users, ChildrenFrom(users, p, j)) == ChildSubtrees(users, p, j)
  {
    var rest := ChildrenFrom(users, p, j + 1);
    assert ChildrenFrom(users, p, j) == [j] + rest;
    WeightAppend(users, [j], rest);
    assert [j][1..] == [];
  }

  /** A non-child at position `j` changes neither side. */
  lemma ChildSkipped(users: seq<User>, p: nat, j: nat)
    requires p < j < |users| && users[j].sponsorId != Some(p)
    requires Weight(users, ChildrenFrom(users, p, j + 1)) == ChildSubtrees(users, p, j + 1)
    ensures Weight(users, ChildrenFrom(users, p, j)) == ChildSubtrees(users, p, j)
  {
    assert ChildrenFrom(users, p, j) == ChildrenFrom(users, p, j + 1);
    assert ChildSubtrees(users, p, j) == ChildSubtrees(users, p, j + 1);
  }

  /** In a forest no user at or before `p`'s position is a child of `p`. */
  lemma {:induction false} ChildrenSkipEarlier(users: seq<User>, p: nat, j: nat)
    requires SponsorsPrecede(users)
    requires j <= p + 1
    ensures ChildrenFrom(users, p, j) == ChildrenFrom(users, p, p + 1)
    decreases p + 1 - j
  {
    if j < p + 1 {
      ChildrenSkipEarlier(users, p, j + 1);
    }
  }

  /** The children of a user weigh exactly one less than the user's subtree. */
  lemma ChildrenWeight(users: seq<User>, p: UserId)
    requires SponsorsPrecede(users) && p < |users|
    ensures Weight(users, Children(users, p)) == Subtree(users, p) - 1
  {
    ChildrenSkipEarlier(users, p, 0);
    ChildrenFromWeight(users, p, p + 1);
  }

  lemma {:induction false} ExpandAppend(users: seq<User>, a: seq<UserId>, b: seq<UserId>)
    ensures Expand(users, a + b) == Expand(users, a) + Expand(users, b)
    decreases |b|
  {
    if b == [] {
      assert a + b == a;
    } else {
      var b' := b[..|b| - 1];
      var last := Children(users, b[|b| - 1]);
      assert (a + b)[..|a + b| - 1] == a + b';
      assert (a + b)[|a + b| - 1] == b[|b| - 1];
      assert Expand(users, a + b) == Expand(users, a + b') + last;
      assert Expand(users, b) == Expand(users, b') + last;
      ExpandAppend(users, a, b');
      assert Expand(users, a) + Expand(users, b') + last == Expand(users, a) + (Expand(users, b') + last);
    }
  }

  /** One expansion step removes exactly one unit of weight per expanded user. */
  lemma {:induction false} ExpandWeight(users: seq<User>, s: seq<UserId>)
    requires SponsorsPrecede(users) && InStore(users, s)
    ensures Weight(users, Expand(users, s)) == Weight(users, s) - |s|
    decreases |s|
  {
    if s != [] {
      var s' := s[..|s| - 1];
      var last := s[|s| - 1];
      assert s == s' + [last];
      assert InStore(users, s') by {
        forall k | 0 <= k < |s'|
          ensures s'[k] < |users|
        {
          assert s'[k] == s[k];
        }
      }
      assert last < |users|;
      assert Expand(users, s) == Expand(users, s') + Children(users, last);
      ExpandWeight(users, s');
      ChildrenWeight(users, last);
      WeightAppend(users, Expand(users, s'), Children(users, last));
      WeightAppend(users, s', [last]);
      assert Weight(users, [last]) == Subtree(users, last);
    }
  }

  // ---------------------------------------------------------------------------
  // The reference definition of breadth-first order: level by level.

  /** The frontier, then the next level down, and so on until a level is empty. */
  function Levels(users: seq<User>, frontier: seq<UserId>): (r: seq<UserId>)
    requires SponsorsPrecede(users) && InStore(users, frontier)
    ensures InStore(users, r)
    decreases Weight(users, frontier)
  {
    if frontier == [] then []
    else
      ExpandWeight(users, frontier);
      frontier + Levels(users, Expand(users, frontier))
  }

  /** The users of `root`'s subtree in breadth-first order. */
  function BfsOrder(users: seq<User>, root: UserId): seq<UserId>
    requires SponsorsPrecede(users) && root < |users|
  {
    Levels(users, [root])
  }

  /** Level order is closed under expansion: it is its frontier followed by the
      children of all its members, in order. */
  lemma {:induction false} LevelsUnfold(users: seq<User>, f: seq<UserId>)
    requires SponsorsPrecede(users) && InStore(users, f)
    ensures Levels(users, f) == f + Expand(users, Levels(users, f))
    decreases Weight(users, f)
  {
    if f != [] {
      ExpandWeight(users, f);
      var next := Expand(users, f);
      LevelsUnfold(users, next);
      ExpandAppend(users, f, Levels(users, next));
    }
  }

  /** A non-empty sequence cannot be its own expansion in a forest. */
  lemma ExpandNoFixpoint(users: seq<User>, s: seq<UserId>)
    requires SponsorsPrecede(users) && InStore(users, s)
    requires Expand(users, s) == s
    ensures s == []
  {
    ExpandWeight(users, s);
  }

  lemma ExpandPrefix(users: seq<User>, a: seq<UserId>, b: seq<UserId>)
    requires a <= b
    ensures Expand(users, a) <= Expand(users, b)
  {
    assert b == a + b[|a|..];
    ExpandAppend(users, a, b[|a|..]);
  }

  // ---------------------------------------------------------------------------
  // What the search returns.

  /** The first user of `order` who can accept a new referral. */
  function FirstAvailable(users: seq<User>, order: seq<UserId>): (r: Option<UserId>)
    ensures r.Some? ==> r.value in order && CanAccept(users, r.value)
    ensures r.None? ==> forall k :: 0 <= k < |order| ==> !CanAccept(users, order[k])
  {
    if order == [] then None
    else if CanAccept(users, order[0]) then Some(order[0])
    else FirstAvailable(users, order[1..])
  }

  /** The result is the FIRST free user: every user before it in the order is full. */
  lemma {:induction false} FirstAvailableIsFirst(users: seq<User>, order: seq<UserId>, k: nat)
    requires k < |order| && CanAccept(users, order[k])
    ensures FirstAvailable(users, order).Some?
    ensures exists j | 0 <= j <= k ::
              order[j] == FirstAvailable(users, order).value &&
              (forall i :: 0 <= i < j ==> !CanAccept(users, order[i]))
  {
    if !CanAccept(users, order[0]) {
      FirstAvailableIsFirst(users, order[1..], k - 1);
      var j :| 0 <= j <= k - 1 && order[1..][j] == FirstAvailable(users, order[1..]).value
        && (forall i :: 0 <= i < j ==> !CanAccept(users, order[1..][i]));
      assert order[j + 1] == FirstAvailable(users, order).value;
      forall i | 0 <= i < j + 1 ensures !CanAccept(users, order[i]) {
        if i > 0 { assert order[i] == order[1..][i - 1]; }
      }
    } else {
      assert order[0] == FirstAvailable(users, order).value;
    }
  }

  lemma {:induction false} FirstAvailableAfterFull(users: seq<User>, full: seq<UserId>, x: UserId, order: seq<UserId>)
    requires full + [x] <= order
    requires forall k :: 0 <= k < |full| ==> !CanAccept(users, full[k])
    requires CanAccept(users, x)
    ensures FirstAvailable(users, order) == Some(x)
    decreases |full|
  {
    if full != [] {
      assert order[0] == full[0];
      assert full[1..] + [x] <= order[1..];
      FirstAvailableAfterFull(users, full[1..], x, order[1..]);
    }
  }

  /** The loop invariant of the search: `visited` (the users already taken
      from the queue, all full) followed by the queue is the root followed by
      the children of every visited user, and `visited` is a prefix of the
      breadth-first order. */
  ghost predicate SearchState(users: seq<User>, root: UserId, visited: seq<UserId>, queue: seq<UserId>)
    requires SponsorsPrecede(users) && root < |users|
  {
    && InStore(users, queue) && InStore(users, visited)
    && visited + queue == [root] + Expand(users, visited)
    && visited <= BfsOrder(users, root)
    && (forall k :: 0 <= k < |visited| ==> !CanAccept(users, visited[k]))
  }

  /** The head of the queue is the next user in breadth-first order. */
  lemma HeadIsNext(users: seq<User>, root: UserId, visited: seq<UserId>, queue: seq<UserId>)
    requires SponsorsPrecede(users) && root < |users|
    requires SearchState(users, root, visited, queue) && queue != []
    ensures visited + [queue[0]] <= BfsOrder(users, root)
  {
    var order := BfsOrder(users, root);
    LevelsUnfold(users, [root]);
    ExpandPrefix(users, visited, order);
    ConsPrefix(visited, queue, root, Expand(users, visited), Expand(users, order));
  }

  /** If `v + q` is `r` followed by a prefix of `big`, then so is `v` extended
      by the head of `q`. */
  lemma ConsPrefix<T>(v: seq<T>, q: seq<T>, r: T, e: seq<T>, big: seq<T>)
    requires q != [] && v + q == [r] + e && e <= big
    ensures v + [q[0]] <= [r] + big
  {
    var next := v + [q[0]];
    forall k | 0 <= k < |next| ensures next[k] == ([r] + big)[k] {
      assert next[k] == (v + q)[k];
    }
  }

  /** The search starts with nothing visited and the root queued. */
  lemma SearchStarts(users: seq<User>, root: UserId)
    requires SponsorsPrecede(users) && root < |users|
    ensures SearchState(users, root, [], [root])
  {
    LevelsUnfold(users, [root]);
  }

  /** A queue head with room is the search's answer: the first user with room
      in breadth-first order. */
  lemma HeadIsAnswer(users: seq<User>, root: UserId, visited: seq<UserId>, queue: seq<UserId>)
    requires SponsorsPrecede(users) && root < |users|
    requires SearchState(users, root, visited, queue) && queue != [] && CanAccept(users, queue[0])
    ensures FirstAvailable(users, BfsOrder(users, root)) == Some(queue[0])
  {
    HeadIsNext(users, root, visited, queue);
    FirstAvailableAfterFull(users, visited, queue[0], BfsOrder(users, root));
  }

  /** Taking a full user off the queue and enqueueing its children keeps the
      invariant. */
  lemma SearchStep(users: seq<User>, root: UserId, visited: seq<UserId>, queue: seq<UserId>)
    requires SponsorsPrecede(users) && root < |users|
    requires SearchState(users, root, visited, queue) && queue != []
    requires !CanAccept(users, queue[0])
    ensures SearchState(users, root, visited + [queue[0]], queue[1..] + Children(users, queue[0]))
  {
    HeadIsNext(users, root, visited, queue);
    StepEquation(users, root, visited, queue);
    StepInStore(users, visited, queue);
    StepFull(users, visited, queue[0]);
  }

  /** Moving the head of the queue to the visited users keeps both in the store. */
  lemma StepInStore(users: seq<User>, visited: seq<UserId>, queue: seq<UserId>)
    requires InStore(users, visited) && InStore(users, queue) && queue != []
    ensures InStore(users, visited + [queue[0]])
    ensures InStore(users, queue[1..] + Children(users, queue[0]))
  {
    var v := visited + [queue[0]];
    forall k | 0 <= k < |v| ensures v[k] < |users| {
      if k < |visited| { assert v[k] == visited[k]; }
    }
    var q := queue[1..] + Children(users, queue[0]);
    forall k | 0 <= k < |q| ensures q[k] < |users| {
      if k < |queue| - 1 { assert q[k] == queue[k + 1]; }
    }
  }

  /** Visiting a user that cannot accept keeps every visited user full. */
  lemma StepFull(users: seq<User>, visited: seq<UserId>, x: UserId)
    requires forall k :: 0 <= k < |visited| ==> !CanAccept(users, visited[k])
    requires !CanAccept(users, x)
    ensures forall k :: 0 <= k < |visited + [x]| ==> !CanAccept(users, (visited + [x])[k])
  {
    var v := visited + [x];
    forall k | 0 <= k < |v| ensures !CanAccept(users, v[k]) {
      if k < |visited| { assert v[k] == visited[k]; }
    }
  }

  /** Replacing the head of the queue by its children lowers the queue's weight. */
  lemma StepWeight(users: seq<User>, queue: seq<UserId>)
    requires SponsorsPrecede(users) && InStore(users, queue) && queue != []
    ensures Weight(users, queue[1..] + Children(users, queue[0])) < Weight(users, queue)
  {
    ChildrenWeight(users, queue[0]);
    WeightAppend(users, queue[1..], Children(users, queue[0]));
  }

  lemma StepEquation(users: seq<User>, root: UserId, visited: seq<UserId>, queue: seq<UserId>)
    requires queue != []
    requires visited + queue == [root] + Expand(users, visited)
    ensures (visited + [queue[0]]) + (queue[1..] + Children(users, queue[0]))
      == [root] + Expand(users, visited + [queue[0]])
  {
    var x := queue[0];
    var v := visited + [x];
    var c := Children(users, x);
    assert v[..|v| - 1] == visited && v[|v| - 1] == x;
    assert Expand(users, v) == Expand(users, visited) + c;
    ShiftHead(visited, queue, root, Expand(users, visited), c);
  }

  /** Moving the head of `q` to the end of `a` and appending `c` to both sides
      of `a + q == [r] + e`. */
  lemma ShiftHead<T>(a: seq<T>, q: seq<T>, r: T, e: seq<T>, c: seq<T>)
    requires q != [] && a + q == [r] + e
    ensures (a + [q[0]]) + (q[1..] + c) == [r] + (e + c)
  {
    assert q == [q[0]] + q[1..];
    assert (a + [q[0]]) + (q[1..] + c) == (a + q) + c;
  }

  /** Every full user has at least three children, so a sequence of full users
      expands to at least three times its length. */
  lemma {:induction false} ExpandFull(users: seq<User>, s: seq<UserId>)
    requires forall k :: 0 <= k < |s| ==> !CanAccept(users, s[k])
    ensures |Expand(users, s)| >= FanOutCap * |s|
    decreases |s|
  {
    if s != [] {
      ExpandFull(users, s[..|s| - 1]);
    }
  }

  /** The queue is never exhausted while every visited user is full: the
      search's `return null` is unreachable in a forest. */
  lemma SearchNeverExhausts(users: seq<User>, root: UserId, visited: seq<UserId>, queue: seq<UserId>)
    requires SponsorsPrecede(users) && root < |users|
    requires SearchState(users, root, visited, queue)
    ensures queue != []
  {
    if queue == [] {
      assert visited + queue == visited;
      ExpandFull(users, visited);
    }
  }

  /** Some user of every subtree (a leaf, at the latest) can accept a referral,
      so the breadth-first search always places the new user. */
  lemma SubtreeHasFreeSlot(users: seq<User>, root: UserId)
    requires SponsorsPrecede(users) && root < |users|
    ensures FirstAvailable(users, BfsOrder(users, root)).Some?
  {
    var order := BfsOrder(users, root);
    LevelsUnfold(users, [root]);
    if FirstAvailable(users, order).None? {
      ExpandFull(users, order);
    }
  }

  /** `findNextAvailableSponsor`: a queue seeded with `root`; each round takes the
      head, returns it if it has a free slot, and otherwise enqueues its children.
      The result is the first user in breadth-first order from `root` with fewer
      than three direct referrals. */
  method FindNextAvailableSponsor(users: seq<User>, root: UserId) returns (r: Option<UserId>)
    requires SponsorsPrecede(users) && root < |users|
    ensures r == FirstAvailable(users, BfsOrder(users, root))
  {
    var queue: seq<UserId> := [root];
    ghost var visited: seq<UserId> := [];
    SearchStarts(users, root);
    while |queue| > 0
      invariant SearchState(users, root, visited, queue)
      decreases Weight(users, queue)
    {
      var current := queue[0];
      if |Children(users, current)| < FanOutCap {
        HeadIsAnswer(users, root, visited, queue);
        return Some(current);
      }
      SearchStep(users, root, visited, queue);
      StepWeight(users, queue);
      visited := visited + [current];
      queue := queue[1..] + Children(users, current);
    }
    SearchNeverExhausts(users, root, visited, queue);
    r := None;
  }
}

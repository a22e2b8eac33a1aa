/** The discovery feed (potentialMatches) and the two toggle-set filter lists
    of the session context. */
module Filters {
  import opened Types
  import Catalog

  /** Some swipe in the log goes from `fromId` to `toId`, whatever its action. */
  predicate HasSwiped(swipes: seq<SwipeAction>, fromId: string, toId: string)
  {
    exists i :: 0 <= i < |swipes| && swipes[i].fromUserId == fromId && swipes[i].toUserId == toId
  }

  /** The candidate shares at least one interest with the active interest filters. */
  predicate SharesInterest(u: User, interestFilters: seq<string>)
  {
    exists i :: 0 <= i < |u.interests| && u.interests[i] in interestFilters
  }

  /** Whether `u` may appear in the feed of `me`: not oneself, never swiped by `me`,
      and passing each non-empty filter list (OR inside a list, AND across the two). */
  predicate Eligible(u: User, me: User, swipes: seq<SwipeAction>,
                     interestFilters: seq<string>, courseFilters: seq<string>)
  {
    && u.id != me.id
    && !HasSwiped(swipes, me.id, u.id)
    && (|interestFilters| > 0 ==> SharesInterest(u, interestFilters))
    && (|courseFilters| > 0 ==> Present(u.course) && u.course.value in courseFilters)
  }

  /** `a` is `b` with some elements dropped and the rest kept in order. */
  predicate Subsequence<T(==)>(a: seq<T>, b: seq<T>)
    decreases |b|
  {
    if a == [] then true
    else if b == [] then false
    else (a[0] == b[0] && Subsequence(a[1..], b[1..])) || Subsequence(a, b[1..])
  }

  /** The catalog filtered by Eligible, in catalog order. */
  function FilterEligible(users: seq<User>, me: User, swipes: seq<SwipeAction>,
                          interestFilters: seq<string>, courseFilters: seq<string>): (r: seq<User>)
    ensures |r| <= |users|
    ensures forall u :: u in r <==> u in users && Eligible(u, me, swipes, interestFilters, courseFilters)
  {
    if users == [] then []
    else
      var rest := FilterEligible(users[1..], me, swipes, interestFilters, courseFilters);
      if Eligible(users[0], me, swipes, interestFilters, courseFilters) then [users[0]] + rest else rest
  }

  /** The feed: empty without a logged-in user, otherwise the eligible catalog entries. */
  function PotentialMatches(users: seq<User>, current: Option<User>, swipes: seq<SwipeAction>,
                            interestFilters: seq<string>, courseFilters: seq<string>): (r: seq<User>)
    ensures current.None? ==> r == []
    ensures current.Some? ==>
              forall u :: u in r <==> u in users && Eligible(u, current.value, swipes, interestFilters, courseFilters)
  {
    if current.None? then [] else FilterEligible(users, current.value, swipes, interestFilters, courseFilters)
  }

  lemma {:induction false} FilterIsSubsequence(users: seq<User>, me: User, swipes: seq<SwipeAction>,
                                              interestFilters: seq<string>, courseFilters: seq<string>)
    ensures Subsequence(FilterEligible(users, me, swipes, interestFilters, courseFilters), users)
    decreases |users|
  {
    if users != [] {
      var rest := FilterEligible(users[1..], me, swipes, interestFilters, courseFilters);
      FilterIsSubsequence(users[1..], me, swipes, interestFilters, courseFilters);
      if Eligible(users[0], me, swipes, interestFilters, courseFilters) {
        assert ([users[0]] + rest)[1..] == rest;
      } else if rest != [] {
        assert Subsequence(rest, users[1..]);
      }
    }
  }

  /** The feed keeps catalog order: it is an order-preserving subsequence of the catalog. */
  lemma FeedIsSubsequence(users: seq<User>, current: Option<User>, swipes: seq<SwipeAction>,
                          interestFilters: seq<string>, courseFilters: seq<string>)
    ensures Subsequence(PotentialMatches(users, current, swipes, interestFilters, courseFilters), users)
  {
    if current.Some? {
      FilterIsSubsequence(users, current.value, swipes, interestFilters, courseFilters);
    }
  }

  /** Nobody in the feed is oneself or someone already swiped, and every active filter is met. */
  lemma FeedExcludesSelfAndSwiped(users: seq<User>, me: User, swipes: seq<SwipeAction>,
                                  interestFilters: seq<string>, courseFilters: seq<string>, u: User)
    requires u in PotentialMatches(users, Some(me), swipes, interestFilters, courseFilters)
    ensures u.id != me.id
    ensures forall i :: 0 <= i < |swipes| && swipes[i].fromUserId == me.id ==> swipes[i].toUserId != u.id
    ensures |interestFilters| > 0 ==> exists t :: t in u.interests && t in interestFilters
    ensures |courseFilters| > 0 ==> u.course.Some? && u.course.value != "" && u.course.value in courseFilters
  {
    if |interestFilters| > 0 {
      var i :| 0 <= i < |u.interests| && u.interests[i] in interestFilters;
      assert u.interests[i] in u.interests;
    }
  }

  /** Recording one more swipe by `me` removes exactly that target from the feed. */
  lemma {:induction false} SwipeRemovesTarget(users: seq<User>, me: User, swipes: seq<SwipeAction>,
                                              interestFilters: seq<string>, courseFilters: seq<string>,
                                              s: SwipeAction)
    requires s.fromUserId == me.id
    ensures FilterEligible(users, me, swipes + [s], interestFilters, courseFilters) ==
            RemoveId(FilterEligible(users, me, swipes, interestFilters, courseFilters), s.toUserId)
    decreases |users|
  {
    if users != [] {
      SwipeRemovesTarget(users[1..], me, swipes, interestFilters, courseFilters, s);
      var u := users[0];
      var swipes' := swipes + [s];
      if u.id == s.toUserId {
        assert swipes'[|swipes|].fromUserId == me.id && swipes'[|swipes|].toUserId == u.id;
      } else {
        if HasSwiped(swipes', me.id, u.id) {
          var i :| 0 <= i < |swipes'| && swipes'[i].fromUserId == me.id && swipes'[i].toUserId == u.id;
          assert i < |swipes| && swipes[i] == swipes'[i];
        }
        if HasSwiped(swipes, me.id, u.id) {
          var i :| 0 <= i < |swipes| && swipes[i].fromUserId == me.id && swipes[i].toUserId == u.id;
          assert swipes'[i] == swipes[i];
        }
      }
    }
  }

  /** When every catalog entry is eligible the filter keeps the whole catalog. */
  lemma {:induction false} FilterKeepsAll(users: seq<User>, me: User, swipes: seq<SwipeAction>,
                                          interestFilters: seq<string>, courseFilters: seq<string>)
    requires forall i :: 0 <= i < |users| ==> Eligible(users[i], me, swipes, interestFilters, courseFilters)
    ensures FilterEligible(users, me, swipes, interestFilters, courseFilters) == users
    decreases |users|
  {
    if users != [] {
      FilterKeepsAll(users[1..], me, swipes, interestFilters, courseFilters);
      assert users == [users[0]] + users[1..];
    }
  }

  /** A fresh session of the default profile (whatever email it logged in with) sees all six
      mock users, in catalog order. */
  lemma InitialFeedIsWholeCatalog(email: string)
    ensures PotentialMatches(Catalog.MockUsers, Some(Catalog.InitialUser.(email := email)), [], [], []) == Catalog.MockUsers
  {
    Catalog.MockIdsDistinctAndNotLocal();
    FilterKeepsAll(Catalog.MockUsers, Catalog.InitialUser.(email := email), [], [], []);
  }

  /** The entries of `s` whose id differs from `id`, in order. */
  function RemoveId(s: seq<User>, id: string): (r: seq<User>)
    ensures forall u :: u in r <==> u in s && u.id != id
  {
    if s == [] then []
    else if s[0].id == id then RemoveId(s[1..], id)
    else [s[0]] + RemoveId(s[1..], id)
  }

  // ----- the toggle-set filter lists -----

  /** The list with every occurrence of `v` dropped, in order. */
  function RemoveAll(list: seq<string>, v: string): (r: seq<string>)
    ensures forall x :: x in r <==> x in list && x != v
    ensures |r| <= |list|
  {
    if list == [] then []
    else if list[0] == v then RemoveAll(list[1..], v)
    else [list[0]] + RemoveAll(list[1..], v)
  }

  /** Selecting an active value removes it (every occurrence); selecting an inactive one appends it. */
  function Toggle(list: seq<string>, v: string): (r: seq<string>)
    ensures v in r <==> v !in list
    ensures forall x :: x != v ==> (x in r <==> x in list)
  {
    if v in list then RemoveAll(list, v) else list + [v]
  }

  /** Toggling a value that is not active, twice, gives back the identical list. */
  lemma {:induction false} ToggleTwice(list: seq<string>, v: string)
    requires v !in list
    ensures Toggle(Toggle(list, v), v) == list
  {
    var once := list + [v];
    assert Toggle(list, v) == once;
    assert v in once;
    RemoveAllAppend(list, v);
  }

  lemma {:induction false} RemoveAllAppend(list: seq<string>, v: string)
    requires v !in list
    ensures RemoveAll(list + [v], v) == list
    decreases |list|
  {
    if list == [] {
      assert [] + [v] == [v];
    } else {
      assert (list + [v])[1..] == list[1..] + [v];
      RemoveAllAppend(list[1..], v);
      assert list == [list[0]] + list[1..];
    }
  }
}

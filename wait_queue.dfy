/**
 * The in-memory waiting line of `battle/queue.py`: a double-ended queue of
 * user ids that players join at the back, leave from anywhere, and that is
 * drained from the front two at a time.
 *
 * User ids are integers; `0` is the only id Python treats as false, which is
 * what decides whether `pop_pair` hands out a pair.
 */
module WaitQueue {
  import opened Wrappers

  type UserId = int

  /** Python truthiness of the optional id that one `popleft` produced. */
  predicate Truthy(o: Option<UserId>) {
    o.Some? && o.value != 0
  }

  /**
   * `deque.remove(x)`: drop the first occurrence of `x`; when `x` is absent
   * the `ValueError` is swallowed and the queue stays as it was.
   */
  function RemoveFirst(s: seq<UserId>, x: UserId): (r: seq<UserId>)
    ensures x !in s ==> r == s
    ensures x in s ==> |r| == |s| - 1 && multiset(r) == multiset(s) - multiset{x}
  {
    if s == [] then []
    else
      assert s == [s[0]] + s[1..];
      if s[0] == x then s[1..] else [s[0]] + RemoveFirst(s[1..], x)
  }

  /** What `pop_pair` hands back, and the queue it leaves behind. */
  datatype PopResult = PopResult(pair: Option<(UserId, UserId)>, rest: seq<UserId>)

  /**
   * `pop_pair` as the source writes it: two guarded `popleft` calls, then the
   * pair only when both popped ids are truthy.
   */
  function TakePair(q: seq<UserId>): (r: PopResult)
    ensures |q| >= 2 ==> r.rest == q[2..]
    ensures |q| < 2 ==> r.rest == []
    ensures r.pair.Some? <==> |q| >= 2 && q[0] != 0 && q[1] != 0
    ensures r.pair.Some? ==> r.pair.value == (q[0], q[1])
  {
    var (a, q1) := if q != [] then (Some(q[0]), q[1..]) else (None, q);
    var (b, q2) := if q1 != [] then (Some(q1[0]), q1[1..]) else (None, q1);
    PopResult(if Truthy(a) && Truthy(b) then Some((a.value, b.value)) else None, q2)
  }

  /** The position of the occurrence `RemoveFirst` takes out, and nothing else moves. */
  lemma {:induction false} RemoveFirstSplit(s: seq<UserId>, x: UserId) returns (k: nat)
    requires x in s
    ensures k < |s| && s[k] == x && x !in s[..k]
    ensures RemoveFirst(s, x) == s[..k] + s[k + 1..]
  {
    if s[0] == x {
      k := 0;
    } else {
      var t := s[1..];
      var k' := RemoveFirstSplit(t, x);
      k := k' + 1;
      ConsSplit(s, k');
    }
  }

  /** Cutting `s` around position `k + 1` is cutting its tail around `k`, behind `s[0]`. */
  lemma ConsSplit(s: seq<UserId>, k: nat)
    requires k + 1 < |s|
    ensures s[..k + 1] == [s[0]] + s[1..][..k]
    ensures s[..k + 1] + s[k + 2..] == [s[0]] + (s[1..][..k] + s[1..][k + 1..])
  {
  }

  /** Joining and then leaving (with no earlier entry for the user) restores the queue. */
  lemma {:induction false} JoinThenLeave(s: seq<UserId>, x: UserId)
    requires x !in s
    ensures RemoveFirst(s + [x], x) == s
  {
    if s != [] {
      assert (s + [x])[1..] == s[1..] + [x];
      JoinThenLeave(s[1..], x);
    }
  }

  /** Leaving takes out the user's earliest entry, so a later duplicate stays. */
  lemma {:induction false} LeaveKeepsLaterEntry(s: seq<UserId>, x: UserId)
    requires x in s
    ensures RemoveFirst(s + [x], x) == RemoveFirst(s, x) + [x]
  {
    if s[0] != x {
      assert (s + [x])[1..] == s[1..] + [x];
      LeaveKeepsLaterEntry(s[1..], x);
    }
  }

  /** Once two users are waiting, a later join does not change who is paired. */
  lemma TakePairJoin(q: seq<UserId>, x: UserId)
    requires |q| >= 2
    ensures TakePair(q + [x]) == PopResult(TakePair(q).pair, TakePair(q).rest + [x])
  {
    assert (q + [x])[2..] == q[2..] + [x];
  }

  /**
   * Popping never reorders: what is left is a suffix of the queue, at most two
   * users are taken off the front, and a returned pair is exactly those two.
   */
  lemma TakePairSuffix(q: seq<UserId>)
    ensures var r := TakePair(q);
      && |q| - |r.rest| == (if |q| < 2 then |q| else 2)
      && q == q[..|q| - |r.rest|] + r.rest
      && (r.pair.Some? ==> q == [r.pair.value.0, r.pair.value.1] + r.rest)
  {
  }

  class Queue {
    var items: seq<UserId>

    constructor()
      ensures items == []
    {
      items := [];
    }

    /** `joinQueue`: append at the back. */
    method Join(user: UserId)
      modifies this
      ensures items == old(items) + [user]
    {
      items := items + [user];
    }

    /** `leaveQueue`: drop the user's first entry, if any. */
    method Leave(user: UserId)
      modifies this
      ensures items == RemoveFirst(old(items), user)
      ensures user !in old(items) ==> items == old(items)
      ensures multiset(items) == multiset(old(items)) - multiset{user}
    {
      items := RemoveFirst(items, user);
    }

    /** `getQueue_size`. */
    method Size() returns (n: nat)
      ensures n == |items|
    {
      n := |items|;
    }

    /**
     * `pop_pair`: up to two users come off the front whatever happens; the
     * pair is returned only when two truthy ids were popped.
     */
    method PopPair() returns (pair: Option<(UserId, UserId)>)
      modifies this
      ensures pair == TakePair(old(items)).pair
      ensures items == TakePair(old(items)).rest
    {
      var userA: Option<UserId> := None;
      if items != [] {
        userA := Some(items[0]);
        items := items[1..];
      }
      var userB: Option<UserId> := None;
      if items != [] {
        userB := Some(items[0]);
        items := items[1..];
      }
      if Truthy(userA) && Truthy(userB) {
        pair := Some((userA.value, userB.value));
      } else {
        pair := None;
      }
    }
  }
}

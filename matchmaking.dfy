/**
 * The matchmaking cycle of clashofcode/battle/tasks.py over the ticket table
 * of clashofcode/battle/models.py.
 *
 * The ticket table is a sequence ordered by `created_at` (ties keep insertion
 * order). One pass of the cycle takes the two oldest waiting tickets, picks a
 * problem, creates a battle for the two users and marks both tickets matched;
 * it makes at most `MaxRounds` passes and stops early when fewer than two
 * tickets wait or when there is no problem. Each pass is one atomic step.
 */
module Matchmaking {
  import opened Wrappers

  type UserId = int
  type ProblemId = int
  /** A battle's id is its position in the battle table (an auto-increment key). */
  type BattleId = nat

  /** `MatchmakingTicket.STATUS_CHOICES`; a new ticket is `Waiting`. */
  datatype Status = Waiting | Matched | Canceled

  datatype Ticket = Ticket(user: UserId, status: Status, battle: Option<BattleId>, createdAt: int)

  datatype Battle = Battle(userA: UserId, userB: UserId, problem: ProblemId)

  /** What one cycle does to the tickets, and the users of each battle it creates, in order. */
  datatype CycleResult = CycleResult(tickets: seq<Ticket>, pairs: seq<(UserId, UserId)>)

  /** `for _ in range(10)`: the most battles one cycle creates. */
  const MaxRounds: nat := 10

  predicate IsWaiting(t: Ticket) {
    t.status == Waiting
  }

  /**
   * The table is ordered by creation time, a ticket refers to a battle exactly
   * when it is matched, and it refers only to a battle that exists.
   */
  ghost predicate WellFormed(ts: seq<Ticket>, battleCount: nat) {
    && (forall i, j :: 0 <= i < j < |ts| ==> ts[i].createdAt <= ts[j].createdAt)
    && (forall i :: 0 <= i < |ts| ==> (ts[i].battle.Some? <==> ts[i].status == Matched))
    && (forall i :: 0 <= i < |ts| && ts[i].battle.Some? ==> ts[i].battle.value < battleCount)
  }

  function CountWaiting(ts: seq<Ticket>): nat {
    if ts == [] then 0 else (if IsWaiting(ts[0]) then 1 else 0) + CountWaiting(ts[1..])
  }

  /** The first waiting ticket at or after position `from`. */
  function FirstWaitingFrom(ts: seq<Ticket>, from: nat): (r: Option<nat>)
    requires from <= |ts|
    ensures r.Some? ==> from <= r.value < |ts| && IsWaiting(ts[r.value])
    ensures r.Some? ==> forall k :: from <= k < r.value ==> !IsWaiting(ts[k])
    ensures r.None? ==> forall k :: from <= k < |ts| ==> !IsWaiting(ts[k])
    decreases |ts| - from
  {
    if from == |ts| then None
    else if IsWaiting(ts[from]) then Some(from)
    else FirstWaitingFrom(ts, from + 1)
  }

  /**
   * `filter(status='waiting').order_by('created_at')[:2]` when it yields two
   * tickets: the positions of the two oldest waiting tickets, older first.
   */
  function OldestTwoWaiting(ts: seq<Ticket>): (r: Option<(nat, nat)>)
    ensures r.Some? ==> r.value.0 < r.value.1 < |ts|
    ensures r.Some? ==> IsWaiting(ts[r.value.0]) && IsWaiting(ts[r.value.1])
    ensures r.Some? ==> forall k :: 0 <= k < r.value.1 && k != r.value.0 ==> !IsWaiting(ts[k])
  {
    match FirstWaitingFrom(ts, 0)
    case None => None
    case Some(i) =>
      match FirstWaitingFrom(ts, i + 1)
      case None => None
      case Some(j) => Some((i, j))
  }

  /** `ticket.status = 'matched'; ticket.battle = battle`. */
  function MarkMatched(t: Ticket, b: BattleId): Ticket {
    t.(status := Matched, battle := Some(b))
  }

  /** Both selected tickets matched to battle `b`, every other ticket as it was. */
  function PairUp(ts: seq<Ticket>, i: nat, j: nat, b: BattleId): (r: seq<Ticket>)
    requires i < |ts| && j < |ts| && i != j
    ensures |r| == |ts|
    ensures r[i] == MarkMatched(ts[i], b) && r[j] == MarkMatched(ts[j], b)
    ensures forall k :: 0 <= k < |ts| && k != i && k != j ==> r[k] == ts[k]
  {
    ts[i := MarkMatched(ts[i], b)][j := MarkMatched(ts[j], b)]
  }

  /**
   * The specification of one matchmaking cycle: up to `rounds` passes, each
   * pairing the two oldest waiting tickets into battle `next`, `next + 1`, ...
   * A pass first looks for two waiting tickets and then for a problem
   * (`haveProblem`); either failing ends the cycle with nothing changed.
   */
  function Cycle(ts: seq<Ticket>, next: BattleId, rounds: nat, haveProblem: bool): (r: CycleResult)
    ensures |r.tickets| == |ts| && |r.pairs| <= rounds
    decreases rounds
  {
    if rounds == 0 then CycleResult(ts, [])
    else
      match OldestTwoWaiting(ts)
      case None => CycleResult(ts, [])
      case Some((i, j)) =>
        if !haveProblem then CycleResult(ts, [])
        else
          var rest := Cycle(PairUp(ts, i, j, next), next + 1, rounds - 1, haveProblem);
          CycleResult(rest.tickets, [(ts[i].user, ts[j].user)] + rest.pairs)
  }

  // ---------------------------------------------------------------------------
  // Counting waiting tickets

  lemma {:induction false} CountWaitingUpdate(ts: seq<Ticket>, i: nat, t: Ticket)
    requires i < |ts|
    ensures CountWaiting(ts[i := t]) + (if IsWaiting(ts[i]) then 1 else 0)
         == CountWaiting(ts) + (if IsWaiting(t) then 1 else 0)
  {
    if i == 0 {
      assert ts[i := t][1..] == ts[1..];
    } else {
      assert ts[i := t][1..] == ts[1..][i - 1 := t];
      CountWaitingUpdate(ts[1..], i - 1, t);
    }
  }

  lemma {:induction false} NoWaitingCount(ts: seq<Ticket>)
    requires forall k :: 0 <= k < |ts| ==> !IsWaiting(ts[k])
    ensures CountWaiting(ts) == 0
  {
    if ts != [] {
      NoWaitingCount(ts[1..]);
    }
  }

  /** A pass lowers the number of waiting tickets by exactly two. */
  lemma PairUpCount(ts: seq<Ticket>, i: nat, j: nat, b: BattleId)
    requires i < |ts| && j < |ts| && i != j
    requires IsWaiting(ts[i]) && IsWaiting(ts[j])
    ensures CountWaiting(PairUp(ts, i, j, b)) + 2 == CountWaiting(ts)
  {
    var once := ts[i := MarkMatched(ts[i], b)];
    CountWaitingUpdate(ts, i, MarkMatched(ts[i], b));
    CountWaitingUpdate(once, j, MarkMatched(ts[j], b));
  }

  /** Two tickets are selected exactly when at least two are waiting. */
  lemma OldestTwoWaitingIff(ts: seq<Ticket>)
    ensures OldestTwoWaiting(ts).Some? <==> CountWaiting(ts) >= 2
  {
    match OldestTwoWaiting(ts)
    case Some((i, j)) =>
      PairUpCount(ts, i, j, 0);
    case None =>
      match FirstWaitingFrom(ts, 0)
      case None =>
        NoWaitingCount(ts);
      case Some(i) =>
        var m := ts[i := MarkMatched(ts[i], 0)];
        assert forall k :: 0 <= k < |m| ==> !IsWaiting(m[k]) by {
          assert FirstWaitingFrom(ts, i + 1).None?;
        }
        NoWaitingCount(m);
        CountWaitingUpdate(ts, i, MarkMatched(ts[i], 0));
  }

  /** The selected tickets are the oldest waiting ones. */
  lemma OldestTwoAreOldest(ts: seq<Ticket>, battleCount: nat)
    requires WellFormed(ts, battleCount) && OldestTwoWaiting(ts).Some?
    ensures var (i, j) := OldestTwoWaiting(ts).value;
      && ts[i].createdAt <= ts[j].createdAt
      && forall k :: 0 <= k < |ts| && k != i && k != j && IsWaiting(ts[k]) ==> ts[j].createdAt <= ts[k].createdAt
  {
    var (i, j) := OldestTwoWaiting(ts).value;
    forall k | 0 <= k < |ts| && k != i && k != j && IsWaiting(ts[k])
      ensures ts[j].createdAt <= ts[k].createdAt
    {
      assert j < k;
    }
  }

  lemma PairUpWellFormed(ts: seq<Ticket>, i: nat, j: nat, b: BattleId)
    requires WellFormed(ts, b)
    requires i < |ts| && j < |ts| && i != j
    ensures WellFormed(PairUp(ts, i, j, b), b + 1)
  {
    var r := PairUp(ts, i, j, b);
    assert forall k :: 0 <= k < |ts| ==> r[k].createdAt == ts[k].createdAt;
  }

  // ---------------------------------------------------------------------------
  // What a cycle does

  /** One pass of a cycle that finds two waiting tickets and a problem. */
  lemma CycleStep(ts: seq<Ticket>, next: BattleId, rounds: nat, haveProblem: bool, i: nat, j: nat)
    requires rounds > 0 && OldestTwoWaiting(ts) == Some((i, j)) && haveProblem
    ensures var rest := Cycle(PairUp(ts, i, j, next), next + 1, rounds - 1, haveProblem);
      Cycle(ts, next, rounds, haveProblem) == CycleResult(rest.tickets, [(ts[i].user, ts[j].user)] + rest.pairs)
  {
  }

  /** A cycle that cannot make a pass changes nothing. */
  lemma CycleStop(ts: seq<Ticket>, next: BattleId, rounds: nat, haveProblem: bool)
    requires rounds == 0 || OldestTwoWaiting(ts).None? || !haveProblem
    ensures Cycle(ts, next, rounds, haveProblem) == CycleResult(ts, [])
  {
  }

  /**
   * `full` is what a whole cycle does, `done` the pairs made so far and `ts`
   * the tickets now: the rest of the cycle, `left` passes from `ts` with the
   * next battle `next`, yields the same tickets and the remaining pairs.
   */
  ghost predicate Tracks(full: CycleResult, ts: seq<Ticket>, next: BattleId, left: nat, haveProblem: bool,
                         done: seq<(UserId, UserId)>)
  {
    var rest := Cycle(ts, next, left, haveProblem);
    full.tickets == rest.tickets && full.pairs == done + rest.pairs
  }

  lemma TracksStart(full: CycleResult, ts: seq<Ticket>, next: BattleId, left: nat, haveProblem: bool,
                    done: seq<(UserId, UserId)>)
    requires full == Cycle(ts, next, left, haveProblem) && done == []
    ensures Tracks(full, ts, next, left, haveProblem, done)
  {
    assert done + full.pairs == full.pairs;
  }

  lemma TracksAdvance(full: CycleResult, done: seq<(UserId, UserId)>, before: seq<Ticket>, after: seq<Ticket>,
                      next: BattleId, left: nat, haveProblem: bool, i: nat, j: nat, nextAfter: BattleId, leftAfter: nat)
    requires left > 0 && haveProblem && OldestTwoWaiting(before) == Some((i, j))
    requires after == PairUp(before, i, j, next) && nextAfter == next + 1 && leftAfter + 1 == left
    requires Tracks(full, before, next, left, haveProblem, done)
    ensures Tracks(full, after, nextAfter, leftAfter, haveProblem, done + [(before[i].user, before[j].user)])
  {
    CycleStep(before, next, left, haveProblem, i, j);
    var rest := Cycle(after, nextAfter, leftAfter, haveProblem);
    assert done + ([(before[i].user, before[j].user)] + rest.pairs)
        == (done + [(before[i].user, before[j].user)]) + rest.pairs;
  }

  lemma TracksStop(full: CycleResult, ts: seq<Ticket>, next: BattleId, left: nat, haveProblem: bool,
                   done: seq<(UserId, UserId)>)
    requires Tracks(full, ts, next, left, haveProblem, done)
    requires left == 0 || OldestTwoWaiting(ts).None? || !haveProblem
    ensures full == CycleResult(ts, done)
  {
    assert done + [] == done;
  }

  /** A cycle with no problem in the database creates nothing and changes nothing. */
  lemma NoProblemNoChange(ts: seq<Ticket>, next: BattleId, rounds: nat)
    ensures Cycle(ts, next, rounds, false) == CycleResult(ts, [])
  {
  }

  /** Each battle created removes exactly two tickets from the waiting set. */
  lemma {:induction false} CycleWaitingCount(ts: seq<Ticket>, next: BattleId, rounds: nat, haveProblem: bool)
    ensures var r := Cycle(ts, next, rounds, haveProblem);
      CountWaiting(r.tickets) + 2 * |r.pairs| == CountWaiting(ts)
    decreases rounds
  {
    if rounds == 0 || OldestTwoWaiting(ts).None? || !haveProblem {
      CycleStop(ts, next, rounds, haveProblem);
    } else {
      var (i, j) := OldestTwoWaiting(ts).value;
      CycleStep(ts, next, rounds, haveProblem, i, j);
      PairUpCount(ts, i, j, next);
      CycleWaitingCount(PairUp(ts, i, j, next), next + 1, rounds - 1, haveProblem);
    }
  }

  /**
   * A cycle ends with all rounds used, fewer than two tickets waiting, or no
   * problem available.
   */
  lemma {:induction false} CycleExit(ts: seq<Ticket>, next: BattleId, rounds: nat, haveProblem: bool)
    ensures var r := Cycle(ts, next, rounds, haveProblem);
      |r.pairs| == rounds || CountWaiting(r.tickets) < 2 || !haveProblem
    decreases rounds
  {
    if rounds == 0 || OldestTwoWaiting(ts).None? || !haveProblem {
      CycleStop(ts, next, rounds, haveProblem);
      OldestTwoWaitingIff(ts);
    } else {
      var (i, j) := OldestTwoWaiting(ts).value;
      CycleStep(ts, next, rounds, haveProblem, i, j);
      CycleExit(PairUp(ts, i, j, next), next + 1, rounds - 1, haveProblem);
    }
  }

  /**
   * A ticket that is not waiting is never touched; a waiting ticket either
   * stays as it was or is matched to one of the battles this cycle created.
   */
  lemma {:induction false} CycleFrame(ts: seq<Ticket>, next: BattleId, rounds: nat, haveProblem: bool)
    ensures var r := Cycle(ts, next, rounds, haveProblem);
      forall k :: 0 <= k < |ts| ==>
        || r.tickets[k] == ts[k]
        || (&& IsWaiting(ts[k])
            && r.tickets[k].battle.Some?
            && next <= r.tickets[k].battle.value < next + |r.pairs|
            && r.tickets[k] == MarkMatched(ts[k], r.tickets[k].battle.value))
    decreases rounds
  {
    if rounds == 0 || OldestTwoWaiting(ts).None? || !haveProblem {
      CycleStop(ts, next, rounds, haveProblem);
    } else {
      var (i, j) := OldestTwoWaiting(ts).value;
      CycleStep(ts, next, rounds, haveProblem, i, j);
      CycleFrame(PairUp(ts, i, j, next), next + 1, rounds - 1, haveProblem);
    }
  }

  /** A cycle keeps the table well formed, counting the battles it created. */
  lemma CycleWellFormed(ts: seq<Ticket>, next: BattleId, rounds: nat, haveProblem: bool)
    requires WellFormed(ts, next)
    ensures var r := Cycle(ts, next, rounds, haveProblem);
      WellFormed(r.tickets, next + |r.pairs|)
  {
    var r := Cycle(ts, next, rounds, haveProblem);
    CycleFrame(ts, next, rounds, haveProblem);
    assert forall k :: 0 <= k < |ts| ==> r.tickets[k].createdAt == ts[k].createdAt;
  }

  /**
   * Tickets `i < j` of `ts` were both waiting, became the two tickets of
   * battle `b` in `after` and no other ticket refers to `b`; user A of `pair`
   * is the older ticket's user and user B the newer one's.
   */
  ghost predicate BattleTickets(ts: seq<Ticket>, after: seq<Ticket>, b: BattleId, pair: (UserId, UserId), i: nat, j: nat)
    requires |after| == |ts|
  {
    && i < j < |ts|
    && IsWaiting(ts[i]) && IsWaiting(ts[j])
    && ts[i].createdAt <= ts[j].createdAt
    && pair == (ts[i].user, ts[j].user)
    && after[i].battle == Some(b) && after[j].battle == Some(b)
    && forall l :: 0 <= l < |ts| && after[l].battle == Some(b) ==> l == i || l == j
  }

  /** A cycle leaves the tickets of battles created before it as they were. */
  lemma CycleKeepsOlderBattles(ts: seq<Ticket>, next: BattleId, rounds: nat, haveProblem: bool, b: BattleId)
    requires WellFormed(ts, next) && b < next
    ensures var r := Cycle(ts, next, rounds, haveProblem);
      forall l :: 0 <= l < |ts| ==> (r.tickets[l].battle == Some(b) <==> ts[l].battle == Some(b))
  {
    CycleFrame(ts, next, rounds, haveProblem);
  }

  /** After a pass, battle `b` is referenced by the two selected tickets and no other. */
  lemma PairUpBattle(ts: seq<Ticket>, i: nat, j: nat, b: BattleId)
    requires WellFormed(ts, b) && i < |ts| && j < |ts| && i != j
    ensures var after := PairUp(ts, i, j, b);
      forall l :: 0 <= l < |ts| ==> (after[l].battle == Some(b) <==> l == i || l == j)
  {
  }

  /**
   * If, after a pass and any later ones, battle `next` is referenced exactly
   * where the pass put it, its tickets are the two the pass selected.
   */
  lemma PassBattleTickets(ts: seq<Ticket>, after: seq<Ticket>, next: BattleId, i: nat, j: nat)
    requires WellFormed(ts, next) && OldestTwoWaiting(ts) == Some((i, j)) && |after| == |ts|
    requires forall l :: 0 <= l < |ts| ==> (after[l].battle == Some(next) <==> PairUp(ts, i, j, next)[l].battle == Some(next))
    ensures BattleTickets(ts, after, next, (ts[i].user, ts[j].user), i, j)
  {
    PairUpBattle(ts, i, j, next);
  }

  /** The rest of the cycle after its first pass leaves that pass's battle to its two tickets. */
  lemma RestKeepsFirstBattle(ts: seq<Ticket>, next: BattleId, rounds: nat, i: nat, j: nat)
    requires WellFormed(ts, next) && rounds > 0
    requires OldestTwoWaiting(ts) == Some((i, j))
    ensures var rest := Cycle(PairUp(ts, i, j, next), next + 1, rounds - 1, true);
      BattleTickets(ts, rest.tickets, next, (ts[i].user, ts[j].user), i, j)
  {
    var ts' := PairUp(ts, i, j, next);
    PairUpWellFormed(ts, i, j, next);
    CycleKeepsOlderBattles(ts', next + 1, rounds - 1, true, next);
    PassBattleTickets(ts, Cycle(ts', next + 1, rounds - 1, true).tickets, next, i, j);
  }

  /** The first battle of a cycle belongs to the two tickets the first pass selected. */
  lemma FirstBattleTickets(ts: seq<Ticket>, next: BattleId, rounds: nat, i: nat, j: nat)
    requires WellFormed(ts, next) && rounds > 0
    requires OldestTwoWaiting(ts) == Some((i, j))
    ensures var r := Cycle(ts, next, rounds, true);
      |r.pairs| > 0 && BattleTickets(ts, r.tickets, next, r.pairs[0], i, j)
  {
    CycleStep(ts, next, rounds, true, i, j);
    RestKeepsFirstBattle(ts, next, rounds, i, j);
  }

  /** Tickets that were still waiting after a pass were waiting, unchanged, before it. */
  lemma PassKeepsBattleTickets(ts: seq<Ticket>, ts': seq<Ticket>, after: seq<Ticket>, next: BattleId, i: nat, j: nat,
                               b: BattleId, pair: (UserId, UserId), i': nat, j': nat)
    requires i < |ts| && j < |ts| && i != j && ts' == PairUp(ts, i, j, next) && |after| == |ts|
    requires BattleTickets(ts', after, b, pair, i', j')
    ensures BattleTickets(ts, after, b, pair, i', j')
  {
    assert ts'[i'] == ts[i'] && ts'[j'] == ts[j'];
  }

  /** A later battle of the cycle after the first pass is one of the whole cycle, with the same tickets. */
  lemma LaterBattleTickets(ts: seq<Ticket>, next: BattleId, rounds: nat, haveProblem: bool, i: nat, j: nat, k: nat,
                           b: BattleId, after: seq<Ticket>, pair: (UserId, UserId), i': nat, j': nat)
    requires rounds > 0 && OldestTwoWaiting(ts) == Some((i, j)) && haveProblem && 0 < k
    requires var rest := Cycle(PairUp(ts, i, j, next), next + 1, rounds - 1, haveProblem);
      k - 1 < |rest.pairs| && after == rest.tickets && pair == rest.pairs[k - 1]
    requires BattleTickets(PairUp(ts, i, j, next), after, b, pair, i', j')
    ensures var r := Cycle(ts, next, rounds, haveProblem);
      k < |r.pairs| && BattleTickets(ts, r.tickets, b, r.pairs[k], i', j')
  {
    var ts' := PairUp(ts, i, j, next);
    var rest := Cycle(ts', next + 1, rounds - 1, haveProblem);
    CycleStep(ts, next, rounds, haveProblem, i, j);
    PassKeepsBattleTickets(ts, ts', after, next, i, j, b, pair, i', j');
    assert ([(ts[i].user, ts[j].user)] + rest.pairs)[k] == pair;
  }

  /**
   * Battle `b`, the `k`-th of the cycle, is referenced by exactly two
   * tickets, `i` and `j`, both waiting when the cycle began; user A comes
   * from the older one and user B from the newer. Nothing makes the two
   * users distinct.
   */
  lemma {:induction false} CycleBattleTickets(ts: seq<Ticket>, next: BattleId, rounds: nat, haveProblem: bool,
                                              k: nat, b: BattleId)
    returns (i: nat, j: nat)
    requires WellFormed(ts, next)
    requires k < |Cycle(ts, next, rounds, haveProblem).pairs| && b == next + k
    ensures var r := Cycle(ts, next, rounds, haveProblem);
      BattleTickets(ts, r.tickets, b, r.pairs[k], i, j)
    decreases rounds
  {
    if rounds == 0 || OldestTwoWaiting(ts).None? || !haveProblem {
      CycleStop(ts, next, rounds, haveProblem);
    } else {
      var (i0, j0) := OldestTwoWaiting(ts).value;
      if k == 0 {
        FirstBattleTickets(ts, next, rounds, i0, j0);
        i, j := i0, j0;
      } else {
        var ts' := PairUp(ts, i0, j0, next);
        var rest := Cycle(ts', next + 1, rounds - 1, haveProblem);
        CycleStep(ts, next, rounds, haveProblem, i0, j0);
        PairUpWellFormed(ts, i0, j0, next);
        i, j := CycleBattleTickets(ts', next + 1, rounds - 1, haveProblem, k - 1, b);
        LaterBattleTickets(ts, next, rounds, haveProblem, i0, j0, k, b, rest.tickets, rest.pairs[k - 1], i, j);
      }
    }
  }

  /**
   * With a problem available and at most `2 * rounds` tickets waiting, one
   * cycle pairs them all off: half as many battles, and one ticket left over
   * exactly when the number was odd.
   */
  lemma CycleDrains(ts: seq<Ticket>, next: BattleId, rounds: nat)
    requires CountWaiting(ts) <= 2 * rounds
    ensures var r := Cycle(ts, next, rounds, true);
      |r.pairs| == CountWaiting(ts) / 2 && CountWaiting(r.tickets) == CountWaiting(ts) % 2
  {
    CycleWaitingCount(ts, next, rounds, true);
    CycleExit(ts, next, rounds, true);
  }

  // ---------------------------------------------------------------------------
  // The ticket and battle tables

  /** The battles `bs` are, in order, between the pairs of `pairs`, each over one of `problems`. */
  ghost predicate Records(bs: seq<Battle>, pairs: seq<(UserId, UserId)>, problems: seq<ProblemId>)
  {
    && |bs| == |pairs|
    && forall k :: 0 <= k < |bs| ==> (bs[k].userA, bs[k].userB) == pairs[k] && bs[k].problem in problems
  }

  lemma RecordsAppend(bs: seq<Battle>, pairs: seq<(UserId, UserId)>, problems: seq<ProblemId>, b: Battle,
                      bsAfter: seq<Battle>, pairsAfter: seq<(UserId, UserId)>)
    requires Records(bs, pairs, problems) && b.problem in problems
    requires bsAfter == bs + [b] && pairsAfter == pairs + [(b.userA, b.userB)]
    ensures Records(bsAfter, pairsAfter, problems)
  {
  }

  lemma RecordsSuffix(base: seq<Battle>, bs: seq<Battle>, created: seq<Battle>, pairs: seq<(UserId, UserId)>,
                      problems: seq<ProblemId>)
    requires bs == base + created && Records(created, pairs, problems)
    ensures |bs| == |base| + |pairs| && bs[..|base|] == base && Records(bs[|base|..], pairs, problems)
  {
    assert bs[|base|..] == created;
  }

  lemma AppendAssoc<T>(a: seq<T>, b: seq<T>, c: seq<T>)
    ensures (a + b) + c == a + (b + c)
  {
  }

  class TicketStore {
    var tickets: seq<Ticket>
    var battles: seq<Battle>

    ghost predicate Valid()
      reads this
    {
      WellFormed(tickets, |battles|)
    }

    constructor ()
      ensures Valid() && tickets == [] && battles == []
    {
      tickets := [];
      battles := [];
    }

    /**
     * A new ticket: status `waiting` by default, no battle, `created_at` the
     * current time, which does not run backwards.
     */
    method OpenTicket(user: UserId, now: int)
      requires Valid()
      requires forall k :: 0 <= k < |tickets| ==> tickets[k].createdAt <= now
      modifies this
      ensures Valid()
      ensures tickets == old(tickets) + [Ticket(user, Waiting, None, now)] && battles == old(battles)
    {
      tickets := tickets + [Ticket(user, Waiting, None, now)];
    }

    /**
     * One pass of `run_matchmaking`, done as one atomic step: when two tickets
     * wait and a problem exists, the two oldest waiting tickets are matched to
     * a new battle of their users over some problem, which is returned;
     * otherwise nothing changes and `None` is returned.
     */
    method MatchOnce(problems: seq<ProblemId>) returns (chosen: Option<ProblemId>)
      requires Valid()
      modifies this
      ensures Valid()
      ensures chosen.Some? <==> OldestTwoWaiting(old(tickets)).Some? && problems != []
      ensures chosen.None? ==> tickets == old(tickets) && battles == old(battles)
      ensures chosen.Some? ==>
        var pick := OldestTwoWaiting(old(tickets)).value;
        && tickets == PairUp(old(tickets), pick.0, pick.1, old(|battles|))
        && chosen.value in problems
        && battles == old(battles) + [Battle(old(tickets)[pick.0].user, old(tickets)[pick.1].user, chosen.value)]
    {
      var pick := OldestTwoWaiting(tickets);
      if pick.None? {
        return None;
      }
      var (i, j) := pick.value;
      if problems == [] {
        return None;
      }
      var pickProblem :| 0 <= pickProblem < |problems|;
      var problem := problems[pickProblem];
      var id := |battles|;
      PairUpWellFormed(tickets, i, j, id);
      battles := battles + [Battle(tickets[i].user, tickets[j].user, problem)];
      tickets := tickets[i := MarkMatched(tickets[i], id)];
      tickets := tickets[j := MarkMatched(tickets[j], id)];
      chosen := Some(problem);
    }

    /**
     * `run_matchmaking`: the tickets end as the cycle specification says, one
     * battle is appended per pair it makes, with that pair's users and a
     * problem from `problems`, and the count of battles is returned.
     */
    method RunMatchmaking(problems: seq<ProblemId>) returns (matchesMade: nat)
      requires Valid()
      modifies this
      ensures Valid()
      ensures var r := Cycle(old(tickets), old(|battles|), MaxRounds, problems != []);
        && tickets == r.tickets
        && matchesMade == |r.pairs| <= MaxRounds
        && |battles| == old(|battles|) + matchesMade && battles[..old(|battles|)] == old(battles)
        && Records(battles[old(|battles|)..], r.pairs, problems)
    {
      ghost var haveProblem := problems != [];
      ghost var created: seq<Battle> := [];
      ghost var done: seq<(UserId, UserId)> := [];
      ghost var full := Cycle(old(tickets), old(|battles|), MaxRounds, problems != []);
      matchesMade := 0;
      var left := MaxRounds;
      TracksStart(full, tickets, |battles|, left, haveProblem, done);
      while left > 0
        invariant matchesMade + left == MaxRounds && matchesMade == |done|
        invariant Valid()
        invariant battles == old(battles) + created
        invariant Records(created, done, problems)
        invariant Tracks(full, tickets, |battles|, left, haveProblem, done)
      {
        ghost var before, next, leftBefore := tickets, |battles|, left;
        var chosen := MatchOnce(problems);
        if chosen.None? {
          break;
        }
        ghost var pick := OldestTwoWaiting(before).value;
        ghost var battle := Battle(before[pick.0].user, before[pick.1].user, chosen.value);
        ghost var pair := (battle.userA, battle.userB);
        ghost var createdBefore, doneBefore := created, done;
        created, done := created + [battle], done + [pair];
        AppendAssoc(old(battles), createdBefore, [battle]);
        RecordsAppend(createdBefore, doneBefore, problems, battle, created, done);
        matchesMade := matchesMade + 1;
        left := left - 1;
        TracksAdvance(full, doneBefore, before, tickets, next, leftBefore, haveProblem, pick.0, pick.1, |battles|, left);
      }
      TracksStop(full, tickets, |battles|, left, haveProblem, done);
      RecordsSuffix(old(battles), battles, created, done, problems);
    }
  }
}

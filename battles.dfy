/**
 * The battle engine: sides of players taking turns. A turn executes every
 * attack queued by the players of the current side, then, if all of them
 * succeeded, empties those queues and passes the turn to the next side.
 */
module Battles {
  import opened Wrappers
  import opened Players

  /** A promise once settled: its value, or the reason it was rejected. */
  datatype Settled<T> = Resolved(value: T) | Rejected(reason: string)

  /**
   * `sequencePromises`: a left fold that waits for each promise after the
   * previous ones; it resolves to all values in input order, or rejects.
   */
  function SequencePromises<T>(promises: seq<Settled<T>>): (r: Settled<seq<T>>)
    ensures r.Resolved? <==> forall i :: 0 <= i < |promises| ==> promises[i].Resolved?
    ensures r.Resolved? ==> |r.value| == |promises|
    ensures r.Resolved? ==> forall i :: 0 <= i < |promises| ==> r.value[i] == promises[i].value
  {
    if promises == [] then Resolved([])
    else
      var init := promises[..|promises| - 1];
      var results := SequencePromises(init);
      assert forall i :: 0 <= i < |init| ==> init[i] == promises[i];
      match results
      case Rejected(reason) => Rejected(reason)
      case Resolved(values) =>
        match promises[|promises| - 1]
        case Rejected(reason) => Rejected(reason)
        case Resolved(v) => Resolved(values + [v])
  }

  /** A rejected sequence carries the reason of its first rejected promise. */
  lemma {:induction false} SequencePromisesFirstRejection<T>(promises: seq<Settled<T>>)
    requires SequencePromises(promises).Rejected?
    ensures exists i :: 0 <= i < |promises| && promises[i] == Rejected(SequencePromises(promises).reason) &&
                        (forall j :: 0 <= j < i ==> promises[j].Resolved?)
  {
    var init := promises[..|promises| - 1];
    assert forall i :: 0 <= i < |init| ==> init[i] == promises[i];
    if SequencePromises(init).Rejected? {
      SequencePromisesFirstRejection(init);
      var i :| 0 <= i < |init| && init[i] == Rejected(SequencePromises(init).reason) &&
        forall j :: 0 <= j < i ==> init[j].Resolved?;
      assert promises[i] == init[i];
    } else {
      var i := |promises| - 1;
      assert forall j :: 0 <= j < i ==> promises[j].Resolved?;
    }
  }

  /** Some execution was rejected. */
  predicate AnyRejected<T>(outcomes: seq<Settled<T>>) {
    exists k :: 0 <= k < |outcomes| && outcomes[k].Rejected?
  }

  /** A run split in two had a rejection iff one of its parts had. */
  lemma AnyRejectedSplit<T>(outcomes: seq<Settled<T>>, done: nat, next: nat)
    requires done <= next <= |outcomes|
    ensures AnyRejected(outcomes[..next]) <==> AnyRejected(outcomes[..done]) || AnyRejected(outcomes[done..next])
  {
    var slice := outcomes[done..next];
    if AnyRejected(slice) {
      var k :| 0 <= k < |slice| && slice[k].Rejected?;
      assert outcomes[..next][done + k] == slice[k];
    }
    if AnyRejected(outcomes[..done]) {
      var k :| 0 <= k < done && outcomes[..done][k].Rejected?;
      assert outcomes[..next][k] == outcomes[..done][k];
    }
    if AnyRejected(outcomes[..next]) {
      var k :| 0 <= k < next && outcomes[..next][k].Rejected?;
      if k < done {
        assert outcomes[..done][k] == outcomes[k];
      } else {
        assert slice[k - done] == outcomes[k];
      }
    }
  }

  /** One more settled execution. */
  lemma AnyRejectedStep<T>(outcomes: seq<Settled<T>>, n: nat)
    requires n < |outcomes|
    ensures AnyRejected(outcomes[..n + 1]) == (AnyRejected(outcomes[..n]) || outcomes[n].Rejected?)
  {
    AnyRejectedSplit(outcomes, n, n + 1);
    assert outcomes[n..n + 1] == [outcomes[n]];
  }

  /** A prefix one longer. */
  lemma PrefixStep<T>(s: seq<T>, n: nat)
    requires n < |s|
    ensures s[..n + 1] == s[..n] + [s[n]]
  {
  }

  /** The queues of the players of a side, in side order. */
  function Queues(side: seq<Player>): (queues: seq<seq<OutgoingAttack>>)
    reads (set p | p in side)`queue
    ensures |queues| == |side| && forall k :: 0 <= k < |side| ==> queues[k] == side[k].queue
  {
    if side == [] then []
    else Queues(side[..|side| - 1]) + [side[|side| - 1].queue]
  }

  /** Queues joined one after another. */
  function Concat(queues: seq<seq<OutgoingAttack>>): seq<OutgoingAttack> {
    if queues == [] then []
    else Concat(queues[..|queues| - 1]) + queues[|queues| - 1]
  }

  /** The attacks queued by the players of a side, player by player, each queue oldest first. */
  function Pending(side: seq<Player>): seq<OutgoingAttack>
    reads (set p | p in side)`queue
  {
    Concat(Queues(side))
  }

  /** The attacks of the first `k` queues come first. */
  lemma {:induction false} ConcatPrefix(queues: seq<seq<OutgoingAttack>>, k: nat)
    requires k <= |queues|
    ensures Concat(queues[..k]) <= Concat(queues)
    decreases |queues| - k
  {
    if k < |queues| {
      var init := queues[..|queues| - 1];
      assert init[..k] == queues[..k];
      ConcatPrefix(init, k);
    } else {
      assert queues[..k] == queues;
    }
  }

  /** Taking one more queue appends it. */
  lemma ConcatStep(queues: seq<seq<OutgoingAttack>>, i: nat)
    requires i < |queues|
    ensures Concat(queues[..i + 1]) == Concat(queues[..i]) + queues[i]
  {
    assert queues[..i + 1][..i] == queues[..i];
  }

  /** Where the attacks of queue `i` sit among all of them. */
  lemma ConcatAdvance(queues: seq<seq<OutgoingAttack>>, i: nat, done: nat)
    requires i < |queues| && done <= |Concat(queues)|
    requires Concat(queues[..i]) == Concat(queues)[..done]
    ensures done + |queues[i]| <= |Concat(queues)|
    ensures Concat(queues[..i + 1]) == Concat(queues)[..done + |queues[i]|]
    ensures forall k :: 0 <= k < |queues[i]| ==> queues[i][k] == Concat(queues)[done + k]
  {
    ConcatStep(queues, i);
    ConcatPrefix(queues, i + 1);
    var whole, longer, queue := Concat(queues), Concat(queues[..i + 1]), queues[i];
    assert |longer| == done + |queue|;
    assert longer == whole[..done + |queue|];
    forall k | 0 <= k < |queue|
      ensures queue[k] == whole[done + k]
    {
      assert longer[done + k] == queue[k];
    }
  }

  /** The players those attacks target. */
  function Targets(attacks: seq<OutgoingAttack>): set<Player> {
    set i | 0 <= i < |attacks| :: attacks[i].target
  }

  /** The draw of the last completed attack on `p`, if any. */
  function LastDraw(attacks: seq<OutgoingAttack>, outcomes: seq<Settled<int>>, p: Player): Option<int>
    requires |outcomes| == |attacks|
  {
    if attacks == [] then None
    else if attacks[|attacks| - 1].target == p && outcomes[|attacks| - 1].Resolved? then
      Some(outcomes[|attacks| - 1].value)
    else LastDraw(attacks[..|attacks| - 1], outcomes[..|attacks| - 1], p)
  }

  /**
   * The hp of `p` after the attacks ran: each completed attack on `p` assigned
   * its draw, capped at the max hp, so the last one wins.
   */
  function HpAfter(attacks: seq<OutgoingAttack>, outcomes: seq<Settled<int>>, p: Player, before: int): int
    requires |outcomes| == |attacks|
    reads p`hpBoost
  {
    match LastDraw(attacks, outcomes, p)
    case Some(draw) => ClampHp(draw, p.MaxHp())
    case None => before
  }

  /** One more attack settles: only a completed attack changes its target's hp. */
  lemma HpAfterStep(attacks: seq<OutgoingAttack>, outcomes: seq<Settled<int>>, n: nat)
    requires n < |attacks| == |outcomes|
    ensures forall p: Player, before: int :: HpAfter(attacks[..n + 1], outcomes[..n + 1], p, before) ==
                                              (if attacks[n].target == p && outcomes[n].Resolved?
                                               then ClampHp(outcomes[n].value, p.MaxHp())
                                               else HpAfter(attacks[..n], outcomes[..n], p, before))
  {
    var longer, longerOutcomes := attacks[..n + 1], outcomes[..n + 1];
    assert longer[..n] == attacks[..n] && longer[n] == attacks[n];
    assert longerOutcomes[..n] == outcomes[..n] && longerOutcomes[n] == outcomes[n];
    forall p: Player, before: int
      ensures HpAfter(longer, longerOutcomes, p, before) ==
                (if attacks[n].target == p && outcomes[n].Resolved?
                 then ClampHp(outcomes[n].value, p.MaxHp())
                 else HpAfter(attacks[..n], outcomes[..n], p, before))
    {
      assert LastDraw(longer, longerOutcomes, p) ==
        if attacks[n].target == p && outcomes[n].Resolved? then Some(outcomes[n].value)
        else LastDraw(attacks[..n], outcomes[..n], p);
    }
  }

  /** Empties the attack queue of every player of `side`. */
  method ClearQueues(side: seq<Player>)
    modifies (set p | p in side)`queue
    ensures forall p :: p in side ==> p.queue == []
  {
    for i := 0 to |side|
      invariant forall k :: 0 <= k < i ==> side[k].queue == []
    {
      side[i].queue := [];
    }
  }

  /** The side after side `turn` of `count`: the next one, wrapping round to the first. */
  function NextTurn(turn: int, count: int): (next: int)
    requires 0 <= turn < count
    ensures next == if turn + 1 < count then turn + 1 else 0
  {
    (turn + 1) % count
  }

  /** The side whose turn it is after `k` successful turns from side `turn`. */
  function TurnAfter(turn: int, k: nat, count: int): (t: int)
    requires 0 <= turn < count
    ensures 0 <= t < count
  {
    if k == 0 then turn else NextTurn(TurnAfter(turn, k - 1, count), count)
  }

  /** Within one round, the turn moves `k` sides on, wrapping round once past the last side. */
  lemma {:induction false} TurnAfterRound(turn: int, k: nat, count: int)
    requires 0 <= turn < count && k <= count
    ensures TurnAfter(turn, k, count) == if turn + k < count then turn + k else turn + k - count
  {
    if k > 0 {
      TurnAfterRound(turn, k - 1, count);
    }
  }

  /** A full round of `count` successful turns comes back to the side it started from. */
  lemma TurnsCycle(turn: int, count: int)
    requires 0 <= turn < count
    ensures TurnAfter(turn, count, count) == turn
  {
    TurnAfterRound(turn, count, count);
  }

  /** Every side gets the turn within one round, whichever side starts. */
  lemma TurnsVisitEverySide(turn: int, count: int, side: int)
    requires 0 <= turn < count && 0 <= side < count
    ensures exists k: nat :: k < count && TurnAfter(turn, k, count) == side
  {
    var k: nat := if side >= turn then side - turn else side - turn + count;
    TurnAfterRound(turn, k, count);
    assert TurnAfter(turn, k, count) == side;
  }

  class Battle {
    const sides: seq<seq<Player>>
    /** Whose turn it is: an index into `sides`. */
    var currentSideTurn: int
    /** Every attack executed so far, in execution order. */
    ghost var executed: seq<OutgoingAttack>

    ghost predicate Valid()
      reads this
    {
      0 <= currentSideTurn && (currentSideTurn < |sides| || currentSideTurn == 0)
    }

    /** A battle starts with side 0 to move. */
    constructor (sides: seq<seq<Player>>)
      ensures this.sides == sides && currentSideTurn == 0 && executed == []
      ensures Valid()
    {
      this.sides := sides;
      currentSideTurn := 0;
      executed := [];
    }

    /**
     * `getCurrentSide()`. With no sides the code reads `undefined`; the model
     * has no players there, and `AdvanceToNextTurn` fails at once.
     */
    function CurrentSide(): seq<Player>
      reads this
      requires Valid()
    {
      if |sides| == 0 then [] else sides[currentSideTurn]
    }

    /** The players of the current side. */
    function SidePlayers(): set<Player>
      reads this
      requires Valid()
    {
      set p | p in CurrentSide()
    }

    /**
     * `execute` of one attack, the `n`-th of the side's `pending` ones: a
     * completed attack assigns its draw to the target's hp, a rejected one
     * changes nothing. The side's running totals (the attacks executed,
     * whether one was rejected, the hp each target holds, from its hp
     * `start` before the turn) move past the attack.
     */
    method Execute(attack: OutgoingAttack, outcome: Settled<int>, n: nat, failedBefore: bool,
                   ghost pending: seq<OutgoingAttack>, ghost outcomes: seq<Settled<int>>,
                   ghost start: map<Player, int>, ghost base: seq<OutgoingAttack>)
      returns (failed: bool)
      requires n < |pending| == |outcomes| && attack == pending[n] && outcome == outcomes[n]
      requires executed == base + pending[..n]
      requires failedBefore == AnyRejected(outcomes[..n])
      requires start.Keys == Targets(pending)
      requires forall p :: p in Targets(pending) ==> p.hp == HpAfter(pending[..n], outcomes[..n], p, start[p])
      modifies this`executed, attack.target`hp
      ensures executed == base + pending[..n + 1]
      ensures failed == AnyRejected(outcomes[..n + 1])
      ensures forall p :: p in Targets(pending) ==> p.hp == HpAfter(pending[..n + 1], outcomes[..n + 1], p, start[p])
    {
      PrefixStep(pending, n);
      HpAfterStep(pending, outcomes, n);
      AnyRejectedStep(outcomes, n);
      match outcome {
        case Resolved(draw) =>
          attack.target.SetHp(draw);
          failed := failedBefore;
        case Rejected(_) =>
          failed := true;
      }
      executed := executed + [attack];
    }

    /**
     * The queue of one player, whose attacks sit at `done` among the side's
     * `pending` ones: each attack is executed in order, every one of them
     * whatever the others do. The side's running totals (the attacks
     * executed, whether one was rejected, the hp each target holds, from
     * its hp `start` before the turn) are carried past the queue.
     */
    method RunQueue(queue: seq<OutgoingAttack>, outcomes: seq<Settled<int>>, done: nat, failedBefore: bool,
                    ghost pending: seq<OutgoingAttack>, ghost start: map<Player, int>, ghost base: seq<OutgoingAttack>)
      returns (failed: bool)
      requires done + |queue| <= |pending| == |outcomes|
      requires forall k :: 0 <= k < |queue| ==> queue[k] == pending[done + k]
      requires executed == base + pending[..done]
      requires failedBefore == AnyRejected(outcomes[..done])
      requires start.Keys == Targets(pending)
      requires forall p :: p in Targets(pending) ==> p.hp == HpAfter(pending[..done], outcomes[..done], p, start[p])
      modifies this`executed, Targets(pending)`hp
      ensures executed == base + pending[..done + |queue|]
      ensures failed == AnyRejected(outcomes[..done + |queue|])
      ensures forall p :: p in Targets(pending) ==>
        p.hp == HpAfter(pending[..done + |queue|], outcomes[..done + |queue|], p, start[p])
    {
      failed := failedBefore;
      for j := 0 to |queue|
        invariant executed == base + pending[..done + j]
        invariant failed == AnyRejected(outcomes[..done + j])
        invariant forall p :: p in Targets(pending) ==>
          p.hp == HpAfter(pending[..done + j], outcomes[..done + j], p, start[p])
      {
        var n := done + j;
        assert pending[n] in pending;
        failed := Execute(queue[j], outcomes[n], n, failed, pending, outcomes, start, base);
      }
    }

    /**
     * The execution half of a turn: every player of `side`, in order, runs
     * every attack in its queue; the result says whether any was rejected.
     */
    method ExecuteSide(side: seq<Player>, outcomes: seq<Settled<int>>) returns (failed: bool)
      requires |outcomes| == |Pending(side)|
      modifies this`executed, Targets(Pending(side))`hp
      ensures executed == old(executed) + Pending(side)
      ensures failed == AnyRejected(outcomes)
      ensures forall p :: p in Targets(Pending(side)) ==> p.hp == HpAfter(Pending(side), outcomes, p, old(p.hp))
    {
      ghost var queues := Queues(side);
      ghost var pending := Concat(queues);
      ghost var start := map p | p in Targets(pending) :: p.hp;
      assert start.Keys == Targets(pending);
      failed := false;
      var done: nat := 0;
      for i := 0 to |side|
        invariant done <= |pending| && Concat(queues[..i]) == pending[..done]
        invariant executed == old(executed) + pending[..done]
        invariant failed == AnyRejected(outcomes[..done])
        invariant forall p :: p in Targets(pending) ==>
          p.hp == HpAfter(pending[..done], outcomes[..done], p, start[p])
        modifies this`executed, Targets(pending)`hp
      {
        ConcatAdvance(queues, i, done);
        var queue := side[i].queue;
        assert queue == queues[i];
        failed := RunQueue(queue, outcomes, done, failed, pending, start, old(executed));
        done := done + |queue|;
      }
      assert queues[..|side|] == queues;
      assert pending[..done] == pending && outcomes[..done] == outcomes;
    }

    /**
     * `advanceToNextTurn`. Every queued attack of the current side is started
     * at once, so each runs exactly once, in side order and queue order, even
     * when another one fails; `outcomes[k]` says how the k-th one settles
     * (the random draw it assigns to its target's hp, or a rejection). Only
     * when all succeed are the side's queues emptied and the turn passed on.
     * With no sides there is no current side and the turn fails at once.
     */
    method AdvanceToNextTurn(outcomes: seq<Settled<int>>) returns (ok: bool)
      requires Valid()
      requires |outcomes| == |Pending(CurrentSide())|
      modifies this`currentSideTurn, this`executed
      modifies Targets(Pending(CurrentSide()))`hp, SidePlayers()`queue
      ensures Valid()
      ensures ok <==> |sides| > 0 && SequencePromises(outcomes).Resolved?
      ensures executed == old(executed) + old(Pending(CurrentSide()))
      ensures ok ==> currentSideTurn == NextTurn(old(currentSideTurn), |sides|)
      ensures ok ==> forall p :: p in old(CurrentSide()) ==> p.queue == []
      ensures !ok ==> currentSideTurn == old(currentSideTurn)
      ensures !ok ==> forall p :: p in old(CurrentSide()) ==> p.queue == old(p.queue)
      ensures forall p :: p in old(Targets(Pending(CurrentSide()))) ==>
        p.hp == HpAfter(old(Pending(CurrentSide())), outcomes, p, old(p.hp))
    {
      if |sides| == 0 {
        ok := false;
        return;
      }
      var side := sides[currentSideTurn];
      ghost var pending := Pending(side);
      ghost var targets := Targets(pending);
      assert side == CurrentSide() && pending == Pending(CurrentSide());
      var failed := ExecuteSide(side, outcomes);
      assert executed == old(executed) + pending;
      assert failed <==> !SequencePromises(outcomes).Resolved?;
      if failed {
        ok := false;
        return;
      }
      ClearQueues(side);
      currentSideTurn := NextTurn(currentSideTurn, |sides|);
      ok := true;
    }
  }
}

/** The union move selector: one move selector drawing from several child move
    selectors, either by draining the children one after the other in declared order
    (ending mode) or by a weighted random pick of a child per move (random mode). Each
    child is an ending selector given by the finite list of moves it yields; each
    lifecycle event the union receives is forwarded to every child. */
module UnionSelection {

  /** A value of nextDouble(), in [0, 1), as the fraction numerator / denominator. */
  datatype Draw = Draw(numerator: nat, denominator: nat)

  predicate ValidDraw(d: Draw) {
    d.numerator < d.denominator
  }

  datatype LifecycleEvent =
    | SolvingStarted | PhaseStarted | StepStarted | StepEnded | PhaseEnded | SolvingEnded

  /** What one solving run with one phase of one step delivers to a selector. */
  const FullCycle: seq<LifecycleEvent> :=
    [SolvingStarted, PhaseStarted, StepStarted, StepEnded, PhaseEnded, SolvingEnded]

  /** The children's moves, child after child. */
  function Concat<M>(children: seq<seq<M>>): seq<M> {
    if children == [] then [] else children[0] + Concat(children[1..])
  }

  function SumSizes<M>(children: seq<seq<M>>): nat {
    if children == [] then 0 else |children[0]| + SumSizes(children[1..])
  }

  /** Child k has yielded its first positions[k] moves. */
  predicate PositionsOk<M>(children: seq<seq<M>>, positions: seq<nat>) {
    |positions| == |children| && forall k :: 0 <= k < |children| ==> positions[k] <= |children[k]|
  }

  /** The moves children from, from + 1, ... have still to yield, child after child. */
  function RestFrom<M>(children: seq<seq<M>>, positions: seq<nat>, from: nat): seq<M>
    requires PositionsOk(children, positions) && from <= |children|
    decreases |children| - from
  {
    if from == |children| then []
    else children[from][positions[from]..] + RestFrom(children, positions, from + 1)
  }

  function Rest<M>(children: seq<seq<M>>, positions: seq<nat>): seq<M>
    requires PositionsOk(children, positions)
  {
    RestFrom(children, positions, 0)
  }

  function Zeros(n: nat): (z: seq<nat>)
    ensures |z| == n && forall k :: 0 <= k < n ==> z[k] == 0
  {
    seq(n, k => 0)
  }

  /** Ending mode's state: the children before some child are drained and those after
      it untouched. */
  predicate InOrder<M>(children: seq<seq<M>>, positions: seq<nat>)
    requires PositionsOk(children, positions)
  {
    forall i, j :: 0 <= i < j < |children| && positions[j] > 0 ==> positions[i] == |children[i]|
  }

  // ---------------------------------------------------------------------------
  // Weighted pick

  /** A child takes part in the weighted pick while it has a positive weight and moves
      left. */
  predicate Active<M>(children: seq<seq<M>>, weights: seq<nat>, positions: seq<nat>, k: nat)
    requires PositionsOk(children, positions) && |weights| == |children| && k < |children|
  {
    weights[k] > 0 && positions[k] < |children[k]|
  }

  /** The total weight of the active children among the first n. */
  function ActiveSum<M>(children: seq<seq<M>>, weights: seq<nat>, positions: seq<nat>, n: nat): nat
    requires PositionsOk(children, positions) && |weights| == |children| && n <= |children|
  {
    if n == 0 then 0
    else ActiveSum(children, weights, positions, n - 1)
         + if Active(children, weights, positions, n - 1) then weights[n - 1] else 0
  }

  function Total<M>(children: seq<seq<M>>, weights: seq<nat>, positions: seq<nat>): nat
    requires PositionsOk(children, positions) && |weights| == |children|
  {
    ActiveSum(children, weights, positions, |children|)
  }

  /** The draw scaled to the total weight, rounded down. */
  function Offset(d: Draw, total: nat): (offset: nat)
    requires ValidDraw(d)
    ensures total > 0 ==> offset < total
  {
    ScaledBelow(d.numerator, d.denominator, total);
    d.numerator * total / d.denominator
  }

  /** A fraction below one of a positive total, rounded down, is below the total. */
  lemma ScaledBelow(n: nat, d: nat, t: nat)
    requires n < d
    ensures t > 0 ==> n * t / d < t
  {
    if t > 0 {
      var q := n * t / d;
      assert q * d <= n * t;
      assert n * t < d * t by {
        assert (d - n) * t > 0;
      }
    }
  }

  /** The child whose slice [ActiveSum(k), ActiveSum(k + 1)) of the active weights holds
      the offset: the floor entry of the offset in the map from each active child's
      cumulative start weight to that child. */
  function Pick<M>(children: seq<seq<M>>, weights: seq<nat>, positions: seq<nat>, offset: nat, from: nat): (k: nat)
    requires PositionsOk(children, positions) && |weights| == |children|
    requires from < |children| && ActiveSum(children, weights, positions, from) <= offset
    requires offset < Total(children, weights, positions)
    ensures from <= k < |children| && Active(children, weights, positions, k)
    ensures ActiveSum(children, weights, positions, k) <= offset < ActiveSum(children, weights, positions, k + 1)
    decreases |children| - from
  {
    if offset < ActiveSum(children, weights, positions, from + 1) then from
    else
      if from + 1 == |children| then assert false; from
      else Pick(children, weights, positions, offset, from + 1)
  }

  /** The moves random mode yields for the given draws, until no child is active. */
  function RandomRun<M>(children: seq<seq<M>>, weights: seq<nat>, positions: seq<nat>, draws: seq<Draw>): seq<M>
    requires PositionsOk(children, positions) && |weights| == |children|
    requires forall i :: 0 <= i < |draws| ==> ValidDraw(draws[i])
    decreases |draws|
  {
    var total := Total(children, weights, positions);
    if draws == [] || total == 0 then []
    else
      var k := Pick(children, weights, positions, Offset(draws[0], total), 0);
      [children[k][positions[k]]]
        + RandomRun(children, weights, positions[k := positions[k] + 1], draws[1..])
  }

  // ---------------------------------------------------------------------------
  // Facts about the remaining moves

  lemma {:induction false} ConcatSize<M>(children: seq<seq<M>>)
    ensures |Concat(children)| == SumSizes(children)
  {
    if children != [] {
      ConcatSize(children[1..]);
    }
  }

  /** Before any move is taken, what remains is every child's moves in declared order. */
  lemma {:induction false} RestOfZeros<M>(children: seq<seq<M>>, from: nat)
    requires from <= |children|
    ensures PositionsOk(children, Zeros(|children|))
    ensures RestFrom(children, Zeros(|children|), from) == Concat(children[from..])
    decreases |children| - from
  {
    var z := Zeros(|children|);
    if from < |children| {
      RestOfZeros(children, from + 1);
      assert children[from..][1..] == children[from + 1..];
      assert children[from][z[from]..] == children[from];
    } else {
      assert children[from..] == [];
    }
  }

  /** Advancing child k leaves the positions within bounds. */
  lemma TakeOk<M>(children: seq<seq<M>>, positions: seq<nat>, k: nat)
    requires PositionsOk(children, positions) && k < |children| && positions[k] < |children[k]|
    ensures PositionsOk(children, positions[k := positions[k] + 1])
  {
  }

  /** Advancing child k does not change what children after k have left. */
  lemma {:induction false} RestTakeAfter<M>(children: seq<seq<M>>, positions: seq<nat>, p: seq<nat>, k: nat, from: nat)
    requires PositionsOk(children, positions) && k < |children| && positions[k] < |children[k]|
    requires p == positions[k := positions[k] + 1] && PositionsOk(children, p)
    requires k < from <= |children|
    ensures RestFrom(children, p, from) == RestFrom(children, positions, from)
    decreases |children| - from
  {
    if from < |children| {
      RestTakeAfter(children, positions, p, k, from + 1);
      assert p[from] == positions[from];
    }
  }

  /** Taking move positions[k] of child k removes exactly that move from what remains. */
  lemma {:induction false} RestTake<M>(children: seq<seq<M>>, positions: seq<nat>, p: seq<nat>, k: nat, from: nat)
    requires PositionsOk(children, positions) && k < |children| && positions[k] < |children[k]|
    requires p == positions[k := positions[k] + 1] && PositionsOk(children, p)
    requires from <= k
    ensures multiset(RestFrom(children, positions, from))
            == multiset(RestFrom(children, p, from)) + multiset{children[k][positions[k]]}
    decreases |children| - from
  {
    var c := children[from];
    var tail := RestFrom(children, positions, from + 1);
    var tail' := RestFrom(children, p, from + 1);
    assert RestFrom(children, positions, from) == c[positions[from]..] + tail;
    assert RestFrom(children, p, from) == c[p[from]..] + tail';
    if from == k {
      RestTakeAfter(children, positions, p, k, k + 1);
      assert c[positions[k]..] == [c[positions[k]]] + c[p[k]..];
    } else {
      RestTake(children, positions, p, k, from + 1);
      assert p[from] == positions[from];
    }
  }

  /** When the children before child k are drained, what remains starts at child k. */
  lemma {:induction false} RestSkipsDrained<M>(children: seq<seq<M>>, positions: seq<nat>, k: nat, from: nat)
    requires PositionsOk(children, positions) && from <= k <= |children|
    requires forall i :: from <= i < k ==> positions[i] == |children[i]|
    ensures RestFrom(children, positions, from) == RestFrom(children, positions, k)
    decreases k - from
  {
    if from < k {
      RestSkipsDrained(children, positions, k, from + 1);
      assert children[from][positions[from]..] == [];
    }
  }

  /** In ending mode the next move is the first move left of the first child not
      drained, and taking it leaves the rest of the sequence. */
  lemma EndingTake<M>(children: seq<seq<M>>, positions: seq<nat>, k: nat)
    requires PositionsOk(children, positions) && k < |children| && positions[k] < |children[k]|
    requires forall i :: 0 <= i < k ==> positions[i] == |children[i]|
    ensures PositionsOk(children, positions[k := positions[k] + 1])
    ensures Rest(children, positions) != []
    ensures Rest(children, positions)[0] == children[k][positions[k]]
    ensures Rest(children, positions[k := positions[k] + 1]) == Rest(children, positions)[1..]
  {
    var p := positions[k := positions[k] + 1];
    TakeOk(children, positions, k);
    RestSkipsDrained(children, positions, k, 0);
    RestSkipsDrained(children, p, k, 0);
    RestTakeHead(children, positions, p, k);
  }

  /** Advancing child k drops the first move of what children k, k + 1, ... have left. */
  lemma RestTakeHead<M>(children: seq<seq<M>>, positions: seq<nat>, p: seq<nat>, k: nat)
    requires PositionsOk(children, positions) && k < |children| && positions[k] < |children[k]|
    requires p == positions[k := positions[k] + 1] && PositionsOk(children, p)
    ensures RestFrom(children, positions, k) != []
    ensures RestFrom(children, positions, k)[0] == children[k][positions[k]]
    ensures RestFrom(children, p, k) == RestFrom(children, positions, k)[1..]
  {
    RestTakeAfter(children, positions, p, k, k + 1);
    var c := children[k];
    var tail := RestFrom(children, positions, k + 1);
    assert RestFrom(children, positions, k) == c[positions[k]..] + tail;
    assert RestFrom(children, p, k) == c[p[k]..] + tail;
    assert c[positions[k]..] == [c[positions[k]]] + c[p[k]..];
    ConsTail(c[positions[k]], c[p[k]..], tail);
  }

  lemma ConsTail<M>(x: M, a: seq<M>, t: seq<M>)
    ensures ([x] + a + t)[0] == x && ([x] + a + t)[1..] == a + t
  {
  }

  /** With nothing left in any child, nothing remains. */
  lemma {:induction false} RestOfDrained<M>(children: seq<seq<M>>, positions: seq<nat>, from: nat)
    requires PositionsOk(children, positions) && from <= |children|
    requires forall i :: from <= i < |children| ==> positions[i] == |children[i]|
    ensures RestFrom(children, positions, from) == []
    decreases |children| - from
  {
    if from < |children| {
      RestOfDrained(children, positions, from + 1);
    }
  }

  /** Some move is left exactly when some child is not drained. */
  lemma {:induction false} RestNonEmpty<M>(children: seq<seq<M>>, positions: seq<nat>, from: nat, k: nat)
    requires PositionsOk(children, positions) && from <= k < |children| && positions[k] < |children[k]|
    ensures RestFrom(children, positions, from) != []
    decreases k - from
  {
    if from < k {
      RestNonEmpty(children, positions, from + 1, k);
    }
  }

  /** Positive active weight means some child is active. */
  lemma {:induction false} ActiveWitness<M>(children: seq<seq<M>>, weights: seq<nat>, positions: seq<nat>, n: nat)
    returns (k: nat)
    requires PositionsOk(children, positions) && |weights| == |children| && n <= |children|
    requires ActiveSum(children, weights, positions, n) > 0
    ensures k < n && Active(children, weights, positions, k)
  {
    if Active(children, weights, positions, n - 1) {
      k := n - 1;
    } else {
      k := ActiveWitness(children, weights, positions, n - 1);
    }
  }

  /** With every weight positive, a child with moves left is active, so the active
      weight is positive. */
  lemma {:induction false} ActiveSumPositive<M>(children: seq<seq<M>>, weights: seq<nat>, positions: seq<nat>, n: nat, k: nat)
    requires PositionsOk(children, positions) && |weights| == |children| && k < n <= |children|
    requires Active(children, weights, positions, k)
    ensures ActiveSum(children, weights, positions, n) > 0
  {
    if k < n - 1 {
      ActiveSumPositive(children, weights, positions, n - 1, k);
    }
  }

  /** With every weight positive and no active child, nothing remains. */
  lemma NoneActiveMeansDrained<M>(children: seq<seq<M>>, weights: seq<nat>, positions: seq<nat>)
    requires PositionsOk(children, positions) && |weights| == |children|
    requires forall k :: 0 <= k < |weights| ==> weights[k] > 0
    requires Total(children, weights, positions) == 0
    ensures Rest(children, positions) == []
  {
    forall i | 0 <= i < |children| ensures positions[i] == |children[i]| {
      if positions[i] < |children[i]| {
        ActiveSumPositive(children, weights, positions, |children|, i);
      }
    }
    RestOfDrained(children, positions, 0);
  }

  /** Random mode yields at most one move per draw, each one a move still left. */
  lemma {:induction false} RandomRunSize<M>(children: seq<seq<M>>, weights: seq<nat>, positions: seq<nat>, draws: seq<Draw>)
    requires PositionsOk(children, positions) && |weights| == |children|
    requires forall i :: 0 <= i < |draws| ==> ValidDraw(draws[i])
    ensures |RandomRun(children, weights, positions, draws)| <= |draws|
    ensures multiset(RandomRun(children, weights, positions, draws)) <= multiset(Rest(children, positions))
    decreases |draws|
  {
    if draws != [] && Total(children, weights, positions) > 0 {
      var p, m := RandomRunStep(children, weights, positions, draws);
      RandomRunSize(children, weights, p, draws[1..]);
    }
  }

  /** A random union of ending children ends: with every weight positive and at least
      as many draws as moves left, it yields every move left exactly once. */
  lemma {:induction false} RandomRunYieldsEachMoveOnce<M>(children: seq<seq<M>>, weights: seq<nat>,
                                                         positions: seq<nat>, draws: seq<Draw>)
    requires PositionsOk(children, positions) && |weights| == |children|
    requires forall k :: 0 <= k < |weights| ==> weights[k] > 0
    requires forall i :: 0 <= i < |draws| ==> ValidDraw(draws[i])
    requires |draws| >= |Rest(children, positions)|
    ensures multiset(RandomRun(children, weights, positions, draws)) == multiset(Rest(children, positions))
    ensures |RandomRun(children, weights, positions, draws)| == |Rest(children, positions)|
    decreases |draws|
  {
    var total := Total(children, weights, positions);
    if total == 0 {
      NoneActiveMeansDrained(children, weights, positions);
    } else if draws == [] {
      var k := ActiveWitness(children, weights, positions, |children|);
      RestNonEmpty(children, positions, 0, k);
    } else {
      var p, m := RandomRunStep(children, weights, positions, draws);
      RandomRunYieldsEachMoveOnce(children, weights, p, draws[1..]);
    }
  }

  /** One draw of random mode: the picked child's next move m, then the run from the
      advanced positions p, which have one move less left. */
  lemma RandomRunStep<M>(children: seq<seq<M>>, weights: seq<nat>, positions: seq<nat>, draws: seq<Draw>)
    returns (p: seq<nat>, m: M)
    requires PositionsOk(children, positions) && |weights| == |children|
    requires forall i :: 0 <= i < |draws| ==> ValidDraw(draws[i])
    requires draws != [] && Total(children, weights, positions) > 0
    ensures PositionsOk(children, p)
    ensures p == AfterDraw(children, weights, positions, draws[0])
    ensures RandomRun(children, weights, positions, draws) == [m] + RandomRun(children, weights, p, draws[1..])
    ensures multiset(Rest(children, positions)) == multiset(Rest(children, p)) + multiset{m}
    ensures |Rest(children, p)| + 1 == |Rest(children, positions)|
  {
    var total := Total(children, weights, positions);
    var k := Pick(children, weights, positions, Offset(draws[0], total), 0);
    p := positions[k := positions[k] + 1];
    m := children[k][positions[k]];
    TakeOk(children, positions, k);
    RestTake(children, positions, p, k, 0);
    assert |multiset(Rest(children, positions))| == |multiset(Rest(children, p))| + 1;
  }

  /** The positions after one draw of random mode. */
  function AfterDraw<M>(children: seq<seq<M>>, weights: seq<nat>, positions: seq<nat>, draw: Draw): seq<nat>
    requires PositionsOk(children, positions) && |weights| == |children| && ValidDraw(draw)
    requires Total(children, weights, positions) > 0
  {
    var k := Pick(children, weights, positions, Offset(draw, Total(children, weights, positions)), 0);
    positions[k := positions[k] + 1]
  }

  // ---------------------------------------------------------------------------
  // The selector

  class UnionMoveSelector<M> {
    const children: seq<seq<M>>
    const randomSelection: bool
    const weights: seq<nat>
    /** How many moves each child has yielded to the current iterator. */
    var positions: seq<nat>
    /** The lifecycle events each child has received, in order. */
    var received: seq<seq<LifecycleEvent>>

    ghost predicate Valid()
      reads this
    {
      && PositionsOk(children, positions)
      && |weights| == |children|
      && |received| == |children|
      && (!randomSelection ==> InOrder(children, positions))
    }

    /** A union in ending mode. */
    constructor Ending(children: seq<seq<M>>)
      ensures Valid() && !randomSelection && this.children == children
      ensures positions == Zeros(|children|)
      ensures received == seq(|children|, k => [])
    {
      this.children := children;
      randomSelection := false;
      weights := Zeros(|children|);
      positions := Zeros(|children|);
      received := seq(|children|, k => []);
    }

    /** A union in random mode with a fixed weight per child. */
    constructor Weighted(children: seq<seq<M>>, weights: seq<nat>)
      requires |weights| == |children|
      ensures Valid() && randomSelection && this.children == children && this.weights == weights
      ensures positions == Zeros(|children|)
      ensures received == seq(|children|, k => [])
    {
      this.children := children;
      randomSelection := true;
      this.weights := weights;
      positions := Zeros(|children|);
      received := seq(|children|, k => []);
    }

    /** The moves the current iterator has still to yield, in ending mode in order. */
    ghost function Remaining(): seq<M>
      reads this
      requires Valid()
    {
      Rest(children, positions)
    }

    /** Forwards one lifecycle event to every child. */
    method Forward(e: LifecycleEvent)
      requires Valid()
      modifies this`received
      ensures Valid()
      ensures |received| == |old(received)|
      ensures forall k :: 0 <= k < |received| ==> received[k] == old(received[k]) + [e]
    {
      var r := received;
      received := seq(|r|, k requires 0 <= k < |r| => r[k] + [e]);
    }

    /** A new iterator: no child has yielded a move yet. */
    method ResetIterator()
      requires Valid()
      modifies this`positions
      ensures Valid() && positions == Zeros(|children|)
      ensures Remaining() == Concat(children)
    {
      positions := Zeros(|children|);
      RestOfZeros(children, 0);
      assert children[0..] == children;
    }

    /** The iterator's hasNext: in ending mode some move is left, in random mode some
        child is active. */
    function HasNext(): (b: bool)
      reads this
      requires Valid()
      ensures !randomSelection ==> (b <==> Remaining() != [])
      ensures randomSelection ==> (b <==> Total(children, weights, positions) > 0)
    {
      if randomSelection then Total(children, weights, positions) > 0
      else NotDrained(0)
    }

    /** Some child from `from` on has moves left. */
    function NotDrained(from: nat): (b: bool)
      reads this
      requires Valid() && from <= |children|
      ensures b <==> RestFrom(children, positions, from) != []
      decreases |children| - from
    {
      if from == |children| then false
      else positions[from] < |children[from]| || NotDrained(from + 1)
    }

    /** Ending mode's next: the next move of the first child with moves left. */
    method NextInOrder() returns (move: M)
      requires Valid() && !randomSelection && Remaining() != []
      modifies this`positions
      ensures Valid()
      ensures move == old(Remaining())[0]
      ensures Remaining() == old(Remaining())[1..]
    {
      var k := 0;
      while positions[k] == |children[k]|
        invariant k < |children|
        invariant forall i :: 0 <= i < k ==> positions[i] == |children[i]|
        invariant RestFrom(children, positions, k) != []
        decreases |children| - k
      {
        k := k + 1;
      }
      EndingTake(children, positions, k);
      move := children[k][positions[k]];
      ghost var before := positions;
      positions := positions[k := positions[k] + 1];
      forall i, j | 0 <= i < j < |children| && positions[j] > 0 ensures positions[i] == |children[i]| {
        if j != k {
          assert before[j] > 0;
        }
      }
    }

    /** Random mode's next: the child picked by the draw yields its next move. */
    method NextWeighted(draw: Draw) returns (move: M, k: nat)
      requires Valid() && randomSelection && ValidDraw(draw)
      requires Total(children, weights, positions) > 0
      modifies this`positions
      ensures Valid()
      ensures k < |children|
      ensures k == Pick(children, weights, old(positions),
                        Offset(draw, Total(children, weights, old(positions))), 0)
      ensures move == children[k][old(positions)[k]]
      ensures positions == old(positions)[k := old(positions)[k] + 1]
      ensures positions == AfterDraw(children, weights, old(positions), draw)
    {
      var total := 0;
      for i := 0 to |children|
        invariant total == ActiveSum(children, weights, positions, i)
      {
        if weights[i] > 0 && positions[i] < |children[i]| {
          total := total + weights[i];
        }
      }
      var offset := Offset(draw, total);
      var acc := if weights[0] > 0 && positions[0] < |children[0]| then weights[0] else 0;
      k := 0;
      while offset >= acc
        invariant k < |children|
        invariant acc == ActiveSum(children, weights, positions, k + 1)
        invariant ActiveSum(children, weights, positions, k) <= offset
        invariant Pick(children, weights, positions, offset, k) == Pick(children, weights, positions, offset, 0)
        decreases |children| - k
      {
        if k + 1 == |children| {
          assert false;
        }
        k := k + 1;
        acc := acc + if weights[k] > 0 && positions[k] < |children[k]| then weights[k] else 0;
      }
      move := children[k][positions[k]];
      positions := positions[k := positions[k] + 1];
    }

    /** Ending mode drained: every remaining move, in order, after which nothing is left. */
    method DrainInOrder() returns (moves: seq<M>)
      requires Valid() && !randomSelection
      modifies this`positions
      ensures Valid()
      ensures moves == old(Remaining())
      ensures !HasNext()
    {
      moves := [];
      while HasNext()
        invariant Valid() && !randomSelection
        invariant moves + Remaining() == old(Remaining())
        decreases |Remaining()|
      {
        ghost var before := Remaining();
        var move := NextInOrder();
        assert before == [move] + Remaining();
        moves := moves + [move];
      }
    }

    /** One draw of the drain: the draw at index i yields the first move of the run from
        there on, and one move less is left. */
    method DrawOne(draws: seq<Draw>, i: nat) returns (move: M)
      requires Valid() && randomSelection && HasNext()
      requires forall j :: 0 <= j < |draws| ==> ValidDraw(draws[j])
      requires i < |draws|
      modifies this`positions
      ensures Valid()
      ensures old(RandomRun(children, weights, positions, draws[i..]))
              == [move] + RandomRun(children, weights, positions, draws[i + 1..])
      ensures |Remaining()| + 1 == old(|Remaining()|)
    {
      assert draws[i..][1..] == draws[i + 1..] && draws[i..][0] == draws[i];
      ghost var p, m := RandomRunStep(children, weights, positions, draws[i..]);
      var picked;
      move, picked := NextWeighted(draws[i]);
    }

    /** Random mode drained with the given draws: one move per draw until no child is
        active. Every remaining move needs at most one draw, so that many draws end it. */
    method DrainWeighted(draws: seq<Draw>) returns (moves: seq<M>)
      requires Valid() && randomSelection
      requires forall i :: 0 <= i < |draws| ==> ValidDraw(draws[i])
      requires |draws| >= |Remaining()|
      modifies this`positions
      ensures Valid()
      ensures moves == old(RandomRun(children, weights, positions, draws))
      ensures !HasNext()
    {
      moves := [];
      var i := 0;
      while HasNext()
        invariant Valid() && randomSelection
        invariant i <= |draws| && i + |Remaining()| <= old(|Remaining()|)
        invariant moves + RandomRun(children, weights, positions, draws[i..])
                  == old(RandomRun(children, weights, positions, draws))
        decreases |Remaining()|
      {
        if i == |draws| {
          var k := ActiveWitness(children, weights, positions, |children|);
          RestNonEmpty(children, positions, 0, k);
        }
        var move := DrawOne(draws, i);
        moves := moves + [move];
        i := i + 1;
      }
      assert RandomRun(children, weights, positions, draws[i..]) == [];
    }
  }

  // ---------------------------------------------------------------------------
  // The two scenarios of the selector's unit test

  const ChildA: seq<string> := ["a1", "a2", "a3"]
  const ChildB: seq<string> := ["b1", "b2"]

  /** The scenario's active weight: 1000 while child a has moves left, plus 20 while
      child b has. */
  lemma ScenarioTotal(p: seq<nat>)
    requires PositionsOk([ChildA, ChildB], p)
    ensures ActiveSum([ChildA, ChildB], [1000, 20], p, 1) == if p[0] < 3 then 1000 else 0
    ensures Total([ChildA, ChildB], [1000, 20], p)
            == (if p[0] < 3 then 1000 else 0) + (if p[1] < 2 then 20 else 0)
  {
    var c := [ChildA, ChildB];
    var w: seq<nat> := [1000, 20];
    assert ActiveSum(c, w, p, 0) == 0;
    assert ActiveSum(c, w, p, 1) == ActiveSum(c, w, p, 0) + if Active(c, w, p, 0) then 1000 else 0;
    assert ActiveSum(c, w, p, 2) == ActiveSum(c, w, p, 1) + if Active(c, w, p, 1) then 20 else 0;
  }

  /** In the scenario, at positions p, the draw picks child a when its offset falls in
      child a's slice [0, 1000) and child b otherwise. */
  lemma ScenarioPick(p: seq<nat>, draw: Draw, offset: nat, k: nat)
    requires PositionsOk([ChildA, ChildB], p) && ValidDraw(draw)
    requires Total([ChildA, ChildB], [1000, 20], p) > 0
    requires offset == Offset(draw, Total([ChildA, ChildB], [1000, 20], p))
    requires k == (if offset < ActiveSum([ChildA, ChildB], [1000, 20], p, 1) then 0 else 1)
    ensures Pick([ChildA, ChildB], [1000, 20], p, offset, 0) == k
  {
    var c := [ChildA, ChildB];
    var w: seq<nat> := [1000, 20];
    if offset >= ActiveSum(c, w, p, 1) {
      assert Pick(c, w, p, offset, 0) == Pick(c, w, p, offset, 1);
    }
  }

  /** originSelection: in ending mode the union yields a1, a2, a3, b1, b2, and each child
      receives one full solving, phase and step cycle. */
  method OriginSelection() returns (codes: seq<string>, received: seq<seq<LifecycleEvent>>)
    ensures codes == ["a1", "a2", "a3", "b1", "b2"]
    ensures |received| == 2 && received[0] == FullCycle && received[1] == FullCycle
  {
    var selector := new UnionMoveSelector<string>.Ending([ChildA, ChildB]);
    selector.Forward(SolvingStarted);
    selector.Forward(PhaseStarted);
    selector.Forward(StepStarted);
    selector.ResetIterator();
    assert Concat([ChildA, ChildB]) == ChildA + ChildB by {
      assert [ChildA, ChildB][1..] == [ChildB];
      assert [ChildB][1..] == [];
      assert Concat([ChildB]) == ChildB;
    }
    codes := selector.DrainInOrder();
    selector.Forward(StepEnded);
    selector.Forward(PhaseEnded);
    selector.Forward(SolvingEnded);
    received := selector.received;
  }

  /** randomSelection: with weights 1000 and 20, and the working random returning
      1/1020, 1019/1020, 1000/1020, 0 and 999/1020, the union yields a1, b1, b2, a2, a3
      and then has no next move; each child receives one full cycle. */
  method RandomSelection() returns (codes: seq<string>, received: seq<seq<LifecycleEvent>>)
    ensures codes == ["a1", "b1", "b2", "a2", "a3"]
    ensures |received| == 2 && received[0] == FullCycle && received[1] == FullCycle
  {
    var selector := new UnionMoveSelector<string>.Weighted([ChildA, ChildB], [1000, 20]);
    selector.Forward(SolvingStarted);
    selector.Forward(PhaseStarted);
    selector.Forward(StepStarted);
    selector.ResetIterator();
    var m1, m2, m3, m4, m5 := RandomScenarioMoves(selector);
    codes := [m1, m2, m3, m4, m5];
    selector.Forward(StepEnded);
    selector.Forward(PhaseEnded);
    selector.Forward(SolvingEnded);
    received := selector.received;
  }

  /** The five moves of the random scenario, drawn one at a time. */
  method RandomScenarioMoves(selector: UnionMoveSelector<string>) returns (m1: string, m2: string, m3: string, m4: string, m5: string)
    requires selector.Valid() && selector.randomSelection
    requires selector.children == [ChildA, ChildB] && selector.weights == [1000, 20]
    requires selector.positions == [0, 0]
    modifies selector`positions
    ensures selector.Valid() && !selector.HasNext()
    ensures [m1, m2, m3, m4, m5] == ["a1", "b1", "b2", "a2", "a3"]
  {
    ScenarioTotal([0, 0]);
    ScenarioPick([0, 0], Draw(1, 1020), 1, 0);
    m1 := RandomScenarioMove(selector, Draw(1, 1020), 0, [1, 0]);
    ScenarioTotal([1, 0]);
    ScenarioPick([1, 0], Draw(1019, 1020), 1019, 1);
    m2 := RandomScenarioMove(selector, Draw(1019, 1020), 1, [1, 1]);
    ScenarioTotal([1, 1]);
    ScenarioPick([1, 1], Draw(1000, 1020), 1000, 1);
    m3 := RandomScenarioMove(selector, Draw(1000, 1020), 1, [1, 2]);
    ScenarioTotal([1, 2]);
    ScenarioPick([1, 2], Draw(0, 1), 0, 0);
    m4 := RandomScenarioMove(selector, Draw(0, 1), 0, [2, 2]);
    ScenarioTotal([2, 2]);
    ScenarioPick([2, 2], Draw(999, 1020), 979, 0);
    m5 := RandomScenarioMove(selector, Draw(999, 1020), 0, [3, 2]);
    ScenarioTotal([3, 2]);
  }

  /** One draw of the random scenario that picks child k and moves to positions q. */
  method RandomScenarioMove(selector: UnionMoveSelector<string>, draw: Draw, k: nat, q: seq<nat>) returns (m: string)
    requires selector.Valid() && selector.randomSelection && ValidDraw(draw)
    requires selector.children == [ChildA, ChildB] && selector.weights == [1000, 20]
    requires Total(selector.children, selector.weights, selector.positions) > 0
    requires k == Pick(selector.children, selector.weights, selector.positions,
                       Offset(draw, Total(selector.children, selector.weights, selector.positions)), 0)
    requires q == selector.positions[k := selector.positions[k] + 1]
    modifies selector`positions
    ensures selector.Valid() && selector.positions == q
    ensures m == [ChildA, ChildB][k][old(selector.positions)[k]]
  {
    var picked;
    m, picked := selector.NextWeighted(draw);
  }
}

/** The sequence of moves the recursive solver makes, and what it achieves. */
module HanoiPlan {
  import opened RodsModel

  /** The stack `n, n-1, ..., 1`, bottom to top. */
  function Desc(n: nat): (r: seq<int>)
    ensures |r| == n
  {
    if n == 0 then [] else [n] + Desc(n - 1)
  }

  /** The starting position: all `n` disks on rod A, rods B and C empty. */
  function Initial(n: nat): State
  {
    [Desc(n), [], []]
  }

  /** The finishing position: all `n` disks on rod C. */
  function Final(n: nat): State
  {
    [[], [], Desc(n)]
  }

  function Pow2(n: nat): (r: nat)
    ensures r >= 1
  {
    if n == 0 then 1 else 2 * Pow2(n - 1)
  }

  /** The moves solving `n` disks from `source` to `target`, in the order
      they are made and reported: the `n-1` smaller disks out of the way
      onto `auxiliary`, disk `n` itself, then the `n-1` disks onto it. */
  function Moves(n: nat, source: Peg, auxiliary: Peg, target: Peg): seq<Move>
  {
    if n == 0 then []
    else
      Moves(n - 1, source, target, auxiliary)
      + [Move(n, source, target)]
      + Moves(n - 1, auxiliary, source, target)
  }

  /** The moves the solver reports when the disks it moves are `stack`,
      listed bottom to top: the moves of `Moves` with each level's disk
      number replaced by the disk actually found at that level. */
  function Plan(stack: seq<int>, source: Peg, auxiliary: Peg, target: Peg): seq<Move>
    decreases |stack|
  {
    if stack == [] then []
    else
      Plan(stack[1..], source, target, auxiliary)
      + [Move(stack[0], source, target)]
      + Plan(stack[1..], auxiliary, source, target)
  }

  /** The three roles are played by three different rods. */
  predicate Distinct(source: Peg, auxiliary: Peg, target: Peg)
  {
    source != target && auxiliary == Third(source, target)
  }

  /** Any of the disks `1 .. n` may be put on this rod: it is empty or its
      top disk is larger than `n`. */
  predicate Clear(s: seq<int>, n: int)
  {
    |s| == 0 || Top(s) > n
  }

  /** The replay succeeded and left these three rods. */
  predicate Leaves(r: Option<State>, source: Peg, auxiliary: Peg, target: Peg,
                   src: seq<int>, aux: seq<int>, tgt: seq<int>)
  {
    r.Some? && r.value[source] == src && r.value[auxiliary] == aux &&
    r.value[target] == tgt
  }

  /** Disk `i` from the bottom of `n, ..., 1` is `n - i`. */
  lemma {:induction false} DescAt(n: nat, i: nat)
    requires i < n
    ensures Desc(n)[i] == n - i
  {
    if i > 0 {
      DescAt(n - 1, i - 1);
    }
  }

  /** The starting stack is correctly stacked. */
  lemma DescDecreasing(n: nat)
    ensures Decreasing(Desc(n))
  {
    forall i, j | 0 <= i < j < n ensures Desc(n)[i] > Desc(n)[j] {
      DescAt(n, i);
      DescAt(n, j);
    }
  }

  /** The stack `n, ..., 1` holds each of the disks `1 .. n` exactly once
      and no other disk. */
  lemma {:induction false} DescOnce(n: nat, d: int)
    ensures multiset(Desc(n))[d] == (if 1 <= d <= n then 1 else 0)
  {
    if n > 0 {
      DescOnce(n - 1, d);
      assert Desc(n) == [n] + Desc(n - 1);
    }
  }

  /** Disk `n` sits directly below disks `n-1, ..., 1`. */
  lemma DescSplit(xs: seq<int>, n: nat)
    requires n >= 1
    ensures xs + Desc(n) == (xs + [n]) + Desc(n - 1)
  {
    assert Desc(n) == [n] + Desc(n - 1);
    assert xs + ([n] + Desc(n - 1)) == (xs + [n]) + Desc(n - 1);
  }

  /** On the stack `n, ..., 1` the disk at each level is the level's own
      number, so the reported moves are exactly `Moves`. */
  lemma {:induction false} PlanOfDesc(n: nat, source: Peg, auxiliary: Peg, target: Peg)
    ensures Plan(Desc(n), source, auxiliary, target) == Moves(n, source, auxiliary, target)
  {
    if n > 0 {
      assert Desc(n)[0] == n && Desc(n)[1..] == Desc(n - 1);
      PlanOfDesc(n - 1, source, target, auxiliary);
      PlanOfDesc(n - 1, auxiliary, source, target);
    }
  }

  /** The solver makes one move per level and recurses twice on `n-1`:
      `2^n - 1` moves in all. */
  lemma {:induction false} MovesCount(n: nat, source: Peg, auxiliary: Peg, target: Peg)
    ensures |Moves(n, source, auxiliary, target)| == Pow2(n) - 1
  {
    if n > 0 {
      MovesCount(n - 1, source, target, auxiliary);
      MovesCount(n - 1, auxiliary, source, target);
    }
  }

  /** However the disks are numbered, the solver reports `2^n - 1` moves for
      `n` disks. */
  lemma {:induction false} PlanCount(stack: seq<int>, source: Peg, auxiliary: Peg, target: Peg)
    ensures |Plan(stack, source, auxiliary, target)| == Pow2(|stack|) - 1
    decreases |stack|
  {
    if stack != [] {
      PlanCount(stack[1..], source, target, auxiliary);
      PlanCount(stack[1..], auxiliary, source, target);
    }
  }

  /** Every disk the solver names is one of `1 .. n`. */
  lemma {:induction false} MovesDisks(n: nat, source: Peg, auxiliary: Peg, target: Peg)
    ensures forall m :: m in Moves(n, source, auxiliary, target) ==> 1 <= m.disk <= n
  {
    if n > 0 {
      MovesDisks(n - 1, source, target, auxiliary);
      MovesDisks(n - 1, auxiliary, source, target);
    }
  }

  /** The middle move of one level: with the smaller disks gone to
      `auxiliary`, disk `n` lies on top of `source` and may go onto
      `target`, after which `source` holds what was below it. */
  lemma MiddleMove(s1: State, base: seq<int>, n: nat, source: Peg, auxiliary: Peg, target: Peg,
                   aux: seq<int>, tgt: seq<int>)
    requires Distinct(source, auxiliary, target) && n >= 1
    requires s1[source] == base + [n] && s1[auxiliary] == aux + Desc(n - 1)
    requires s1[target] == tgt && Clear(tgt, n)
    ensures Legal(s1, Move(n, source, target))
    ensures var s2 := Step(s1, source, target);
      s2[source] == base && s2[auxiliary] == aux + Desc(n - 1) && s2[target] == tgt + [n]
  {
    assert Below(base + [n]) == base;
  }

  /** The solver's moves, played from a position where the top `n` disks of
      `source` are `n, ..., 1` and each rod they will visit is clear for
      them, are all legal and move exactly those disks, in order, onto
      `target`; `source` keeps what was below them and `auxiliary` ends as
      it began. */
  lemma {:induction false} MovesSolve(s: State, base: seq<int>, n: nat,
                                      source: Peg, auxiliary: Peg, target: Peg)
    requires Distinct(source, auxiliary, target)
    requires s[source] == base + Desc(n)
    requires Clear(base, n) && Clear(s[auxiliary], n) && Clear(s[target], n)
    ensures Leaves(Replay(s, Moves(n, source, auxiliary, target)), source, auxiliary, target,
                   base, s[auxiliary], s[target] + Desc(n))
    decreases n, 2
  {
    if n == 0 {
      assert Desc(0) == [] && s[target] + [] == s[target];
    } else {
      MovesSolveLevel(s, base, n, source, auxiliary, target);
    }
  }

  /** The recursive case of MovesSolve: the smaller disks go to
      `auxiliary`, then disk `n` and the smaller disks go to `target`. */
  lemma {:induction false} MovesSolveLevel(s: State, base: seq<int>, n: nat,
                                           source: Peg, auxiliary: Peg, target: Peg)
    requires Distinct(source, auxiliary, target) && n >= 1
    requires s[source] == base + Desc(n)
    requires Clear(base, n) && Clear(s[auxiliary], n) && Clear(s[target], n)
    ensures Leaves(Replay(s, Moves(n, source, auxiliary, target)), source, auxiliary, target,
                   base, s[auxiliary], s[target] + Desc(n))
    decreases n, 1
  {
    var first := Moves(n - 1, source, target, auxiliary);
    var last := Moves(n - 1, auxiliary, source, target);
    ClearSmallerDisks(s, base, n, source, auxiliary, target);
    var s1 := Replay(s, first).value;
    MovesOntoLargest(s1, base, n, source, auxiliary, target, s[auxiliary], s[target]);
    var s3 := Replay(Step(s1, source, target), last).value;
    ReplayAround(s, first, Move(n, source, target), last, s1, s3);
  }

  /** First half of a level: the `n-1` smaller disks go from `source` to
      `auxiliary`, uncovering disk `n`. */
  lemma {:induction false} ClearSmallerDisks(s: State, base: seq<int>, n: nat,
                                             source: Peg, auxiliary: Peg, target: Peg)
    requires Distinct(source, auxiliary, target) && n >= 1
    requires s[source] == base + Desc(n)
    requires Clear(base, n) && Clear(s[auxiliary], n) && Clear(s[target], n)
    ensures Leaves(Replay(s, Moves(n - 1, source, target, auxiliary)), source, target, auxiliary,
                   base + [n], s[target], s[auxiliary] + Desc(n - 1))
    decreases n, 0
  {
    DescSplit(base, n);
    MovesSolve(s, base + [n], n - 1, source, target, auxiliary);
  }

  /** Second half of a level: disk `n` goes onto `target`, then the `n-1`
      smaller disks follow it from `auxiliary`. */
  lemma {:induction false} MovesOntoLargest(s1: State, base: seq<int>, n: nat,
                                            source: Peg, auxiliary: Peg, target: Peg,
                                            aux: seq<int>, tgt: seq<int>)
    requires Distinct(source, auxiliary, target) && n >= 1
    requires s1[source] == base + [n] && s1[auxiliary] == aux + Desc(n - 1)
    requires s1[target] == tgt
    requires Clear(base, n) && Clear(aux, n) && Clear(tgt, n)
    ensures Legal(s1, Move(n, source, target))
    ensures Leaves(Replay(Step(s1, source, target), Moves(n - 1, auxiliary, source, target)),
                   source, auxiliary, target, base, aux, tgt + Desc(n))
    decreases n, 0
  {
    var s2 := Step(s1, source, target);
    assert Legal(s1, Move(n, source, target)) &&
           s2[source] == base && s2[auxiliary] == aux + Desc(n - 1) && s2[target] == tgt + [n] by {
      MiddleMove(s1, base, n, source, auxiliary, target, aux, tgt);
    }
    assert Clear(tgt + [n], n - 1);
    MovesSolve(s2, aux, n - 1, auxiliary, source, target);
    DescSplit(tgt, n);
  }

  /** In a run made of a first part, one move and a last part, where
      neither part moves a disk as large as `n`, that move is the only one
      that may. */
  lemma OnlyMiddle(xs: seq<Move>, m: Move, ys: seq<Move>, n: int)
    requires forall x :: x in xs ==> x.disk < n
    requires forall y :: y in ys ==> y.disk < n
    ensures (xs + [m] + ys)[|xs|] == m
    ensures forall i :: 0 <= i < |xs + [m] + ys| && i != |xs| ==> (xs + [m] + ys)[i].disk < n
  {
    var ms := xs + [m] + ys;
    forall i | 0 <= i < |ms| && i != |xs| ensures ms[i].disk < n {
      if i < |xs| {
        assert ms[i] == xs[i] && xs[i] in xs;
      } else {
        assert ms[i] == ys[i - |xs| - 1] && ys[i - |xs| - 1] in ys;
      }
    }
  }

  /** Disk `n` is moved exactly once, straight from `source` to `target`,
      and every other move of the solver is of a smaller disk. */
  lemma LargestMovedOnce(n: nat, source: Peg, auxiliary: Peg, target: Peg)
    requires n >= 1
    ensures var ms := Moves(n, source, auxiliary, target);
      Pow2(n - 1) - 1 < |ms| &&
      ms[Pow2(n - 1) - 1] == Move(n, source, target) &&
      forall i :: 0 <= i < |ms| && i != Pow2(n - 1) - 1 ==> ms[i].disk < n
  {
    var first := Moves(n - 1, source, target, auxiliary);
    var last := Moves(n - 1, auxiliary, source, target);
    assert |first| == Pow2(n - 1) - 1 by {
      MovesCount(n - 1, source, target, auxiliary);
    }
    assert forall x :: x in first ==> x.disk < n by {
      MovesDisks(n - 1, source, target, auxiliary);
    }
    assert forall y :: y in last ==> y.disk < n by {
      MovesDisks(n - 1, auxiliary, source, target);
    }
    OnlyMiddle(first, Move(n, source, target), last, n);
  }

  /** When disk `n` moves, the `n-1` smaller disks sit on `auxiliary`, in
      order, above what it held before; `target` is as it began and disk `n`
      is on top of what `source` held below it. */
  lemma LargestMoveSeesSmallerOnAuxiliary(s: State, base: seq<int>, n: nat,
                                          source: Peg, auxiliary: Peg, target: Peg)
    requires Distinct(source, auxiliary, target) && n >= 1
    requires s[source] == base + Desc(n)
    requires Clear(base, n) && Clear(s[auxiliary], n) && Clear(s[target], n)
    ensures Pow2(n - 1) - 1 <= |Moves(n, source, auxiliary, target)|
    ensures Leaves(Replay(s, Moves(n, source, auxiliary, target)[..Pow2(n - 1) - 1]),
                   source, auxiliary, target,
                   base + [n], s[auxiliary] + Desc(n - 1), s[target])
  {
    var first := Moves(n - 1, source, target, auxiliary);
    var rest := [Move(n, source, target)] + Moves(n - 1, auxiliary, source, target);
    MovesCount(n - 1, source, target, auxiliary);
    assert Moves(n, source, auxiliary, target) == first + rest;
    assert (first + rest)[..|first|] == first;
    ClearSmallerDisks(s, base, n, source, auxiliary, target);
  }

  /** End to end: from `n` disks on A, the solver's `2^n - 1` moves are all
      legal and finish with `n, ..., 1` on C and A and B empty. */
  lemma SolvesFromInitial(n: nat)
    ensures |Moves(n, A, B, C)| == Pow2(n) - 1
    ensures Replay(Initial(n), Moves(n, A, B, C)) == Some(Final(n))
  {
    MovesCount(n, A, B, C);
    var s := Initial(n);
    assert s[A] == [] + Desc(n);
    MovesSolve(s, [], n, A, B, C);
    SameRods(Replay(s, Moves(n, A, B, C)).value, Final(n), A, C);
  }

  /** Every position the solver passes through, from a correctly stacked
      position prepared as for MovesSolve, is correctly stacked and holds
      the same disks. */
  lemma SafeThroughout(s: State, base: seq<int>, n: nat,
                       source: Peg, auxiliary: Peg, target: Peg, k: nat)
    requires Distinct(source, auxiliary, target) && Ordered(s)
    requires s[source] == base + Desc(n)
    requires Clear(base, n) && Clear(s[auxiliary], n) && Clear(s[target], n)
    requires k <= Pow2(n) - 1
    ensures k <= |Moves(n, source, auxiliary, target)|
    ensures Replay(s, Moves(n, source, auxiliary, target)[..k]).Some?
    ensures Ordered(Replay(s, Moves(n, source, auxiliary, target)[..k]).value)
    ensures Disks(Replay(s, Moves(n, source, auxiliary, target)[..k]).value) == Disks(s)
  {
    MovesCount(n, source, auxiliary, target);
    MovesSolve(s, base, n, source, auxiliary, target);
    EveryPrefixSafe(s, Moves(n, source, auxiliary, target), k);
  }

  /** The starting position is correctly stacked and holds each of the
      disks `1 .. n` once. */
  lemma InitialSafe(n: nat)
    ensures Ordered(Initial(n))
    ensures Disks(Initial(n)) == multiset(Desc(n))
    ensures forall d :: Disks(Initial(n))[d] == (if 1 <= d <= n then 1 else 0)
  {
    DescDecreasing(n);
    forall d ensures multiset(Desc(n))[d] == (if 1 <= d <= n then 1 else 0) {
      DescOnce(n, d);
    }
    assert Initial(n)[B] == [] && Initial(n)[C] == [];
  }

  /** Every position the solver passes through from the start is correctly
      stacked and holds each of the disks `1 .. n` exactly once. */
  lemma SafeFromInitial(n: nat)
    ensures forall k :: 0 <= k <= |Moves(n, A, B, C)| ==>
      Replay(Initial(n), Moves(n, A, B, C)[..k]).Some? &&
      Ordered(Replay(Initial(n), Moves(n, A, B, C)[..k]).value) &&
      Disks(Replay(Initial(n), Moves(n, A, B, C)[..k]).value) == multiset(Desc(n))
  {
    InitialSafe(n);
    MovesCount(n, A, B, C);
    assert Initial(n)[A] == [] + Desc(n);
    forall k | 0 <= k <= |Moves(n, A, B, C)|
      ensures Replay(Initial(n), Moves(n, A, B, C)[..k]).Some?
      ensures Ordered(Replay(Initial(n), Moves(n, A, B, C)[..k]).value)
      ensures Disks(Replay(Initial(n), Moves(n, A, B, C)[..k]).value) == multiset(Desc(n))
    {
      SafeThroughout(Initial(n), [], n, A, B, C, k);
    }
  }

  /** Three disks: seven moves, the first two being disk 1 from A to C and
      disk 2 from A to B. */
  lemma ThreeDisks()
    ensures Moves(3, A, B, C) == [
      Move(1, A, C), Move(2, A, B), Move(1, C, B), Move(3, A, C),
      Move(1, B, A), Move(2, B, C), Move(1, A, C)]
  {
  }
}

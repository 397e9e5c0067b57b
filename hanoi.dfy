/** The program's rods dictionary as a mutable object, the move of one disk,
    the recursive solver, and the run of the whole program. */
module HanoiSolver {
  import opened RodsModel
  import opened HanoiPlan

  /** The rods dictionary shared by every call, together with the moves
      reported on standard output so far. */
  class Rods {
    var stacks: State
    ghost var printed: seq<Move>

    /** A dictionary holding disks `n, ..., 1` on rod A and nothing else;
        nothing has been reported yet. */
    constructor (n: nat)
      ensures stacks == Initial(n) && printed == []
    {
      stacks := [Desc(n), [], []];
      printed := [];
    }
  }

  /** Pops the top disk of `from`, appends it to `to` and returns it. There is
      no check that the move is legal, nor that the rods differ. */
  method MoveDisk(state: Rods, from: Peg, to: Peg) returns (disk: int)
    requires |state.stacks[from]| > 0
    modifies state
    ensures disk == Top(old(state.stacks[from]))
    ensures state.stacks == Step(old(state.stacks), from, to)
    ensures state.printed == old(state.printed)
  {
    var rod := state.stacks[from];
    disk := rod[|rod| - 1];
    state.stacks := state.stacks[from := rod[..|rod| - 1]];
    state.stacks := state.stacks[to := state.stacks[to] + [disk]];
  }

  /** Moves the top `n` disks of `source` onto `target`, keeping their order,
      by way of `auxiliary`, and reports each move as it is made. The ghost
      parameters name the disks of `source` that stay (`below`) and the `n`
      that move (`top`); every rod with at least `n` disks splits this way. */
  method Hanoi(n: nat, state: Rods, source: Peg, auxiliary: Peg, target: Peg,
               ghost below: seq<int>, ghost top: seq<int>)
    requires Distinct(source, auxiliary, target)
    requires state.stacks[source] == below + top && |top| == n
    modifies state
    ensures state.stacks[source] == below
    ensures state.stacks[auxiliary] == old(state.stacks[auxiliary])
    ensures state.stacks[target] == old(state.stacks[target]) + top
    ensures state.printed == old(state.printed) + Plan(top, source, auxiliary, target)
    decreases n
  {
    if n == 0 {
      assert below + top == below && old(state.stacks[target]) + top == old(state.stacks[target]);
      return;
    }
    ghost var tgt, log := state.stacks[target], state.printed;
    ghost var d, rest := top[0], top[1..];
    Regroup(below, [], d, rest);
    assert top == [d] + rest;

    Hanoi(n - 1, state, source, target, auxiliary, below + [d], rest);
    ghost var first := Plan(rest, source, target, auxiliary);

    var disk := MoveDisk(state, source, target);
    state.printed := state.printed + [Move(disk, source, target)];

    Hanoi(n - 1, state, auxiliary, source, target, old(state.stacks[auxiliary]), rest);
    Regroup(log, first, Move(d, source, target), Plan(rest, auxiliary, source, target));
    Regroup(tgt, [], d, rest);
  }

  /** Appending in steps is appending once. */
  lemma Regroup<T>(a: seq<T>, b: seq<T>, m: T, c: seq<T>)
    ensures a + b + [m] + c == a + (b + [m] + c)
  {
  }

  /** The program: rejects a non-positive number of disks (`null`), and
      otherwise starts from all `n` disks on A and solves onto C, reporting
      `2^n - 1` moves that are each legal in turn. */
  method Run(n: int) returns (state: Rods?)
    ensures n <= 0 <==> state == null
    ensures n > 0 ==> state != null && state.stacks == Final(n)
    ensures n > 0 ==> state != null && state.printed == Moves(n, A, B, C)
    ensures n > 0 ==> state != null && |state.printed| == Pow2(n) - 1
    ensures n > 0 ==> state != null && Replay(Initial(n), state.printed) == Some(state.stacks)
    ensures n > 0 ==> state != null && forall k :: 0 <= k <= |state.printed| ==>
      Replay(Initial(n), state.printed[..k]).Some? &&
      Ordered(Replay(Initial(n), state.printed[..k]).value) &&
      Disks(Replay(Initial(n), state.printed[..k]).value) == multiset(Desc(n))
  {
    if n <= 0 {
      return null;
    }
    state := new Rods(n);
    Hanoi(n, state, A, B, C, [], Desc(n));
    PlanOfDesc(n, A, B, C);
    SolvesFromInitial(n);
    assert [] + Desc(n) == Desc(n);
    SameRods(state.stacks, Final(n), A, C);
    SafeFromInitial(n);
  }
}

# Towers of Hanoi, recursive solver

A Dafny model of the recursive Towers of Hanoi solver in `dist/py/main.py`.
The program keeps a dictionary of three rods, 'A', 'B' and 'C'. Each rod is a
list of disk numbers from bottom to top. `main` puts disks `n, ..., 1` on A.
`hanoi` then moves them to C through B by the classic three-step recursion,
and reports every move as it makes it. `move_disk` performs one move: it pops
the top disk of one rod, appends it to another and returns it.

The model has three modules:

- `RodsModel` (`rods.dfy`) is the rods dictionary as a value.
  - A `State` is a sequence of three rods, indexed by the rod names A = 0,
    B = 1 and C = 2.
  - `Step` is what `move_disk` does to that value.
  - `Legal` is the puzzle's rule: the moved disk goes onto an empty rod or a
    larger disk.
  - `Replay` plays a list of reported moves, and fails at the first illegal
    one.
  - The lemmas say that a move only relocates a disk and that legal moves
    keep every rod strictly decreasing.
- `HanoiPlan` (`plan.dfy`) holds the moves the recursion reports.
  - `Moves(n, …)` numbers each move by its recursion level.
  - `Plan(stack, …)` numbers each move by the disk actually moved.
  - `Desc(n)` is the stack `n, ..., 1`.
  - The lemmas prove the move count, the frame property and legality of every
    move, the behaviour of the largest disk, and the run from the starting
    position.
- `HanoiSolver` (`hanoi.dfy`) is the program in imperative form.
  - `Rods` is the shared dictionary. Its `stacks` field is updated in place.
    Its ghost field `printed` records the moves reported on standard output.
  - `MoveDisk` and `Hanoi` mirror `move_disk` and `hanoi` and update that
    object.
  - `Run` is `main` after the input has been read.

`move_disk` checks nothing, and neither does the model. A move from an empty
rod is excluded by `MoveDisk`'s precondition, as `pop` would raise there.
Nothing forbids putting a larger disk on a smaller one. That such a move never
happens is proved about the sequence of reported moves (`MovesSolve`,
`SafeThroughout`), not checked at run time.

## Model

| member | source | states |
|---|---|---|
| RodsModel.Step | dist/py/main.py:35-36 | the source rod loses its top disk and the target rod gains it on top; the third rod is unchanged; a move onto the same rod changes nothing |
| RodsModel.StepKeepsDisks | dist/py/main.py:35-36 | a move keeps the multiset of all disks on the three rods |
| RodsModel.StepKeepsOrdered | dist/py/main.py:35-36 | a legal move keeps every rod strictly decreasing from bottom to top |
| RodsModel.PushKeepsDecreasing | dist/py/main.py:36 | appending a disk smaller than the top keeps a decreasing rod decreasing |
| RodsModel.ReplayKeepsDisks | dist/py/main.py:54-61 | a run of moves that replays keeps the multiset of disks |
| RodsModel.ReplayKeepsOrdered | dist/py/main.py:54-61 | a run of legal moves from a correctly stacked position ends correctly stacked |
| RodsModel.ReplayAppend | dist/py/main.py:54-61 | playing two runs back to back equals playing the first, then the second from where it stopped |
| RodsModel.EveryPrefixSafe | dist/py/main.py:54-61 | every intermediate position of a legal run is correctly stacked and holds the same disks |
| HanoiPlan.DescDecreasing | dist/py/main.py:78 | the starting stack `n, ..., 1` is strictly decreasing |
| HanoiPlan.MovesCount | dist/py/main.py:50-61 | the recursion makes exactly `2^n - 1` moves: none for `n = 0`, and one per level plus two recursive calls otherwise |
| HanoiPlan.PlanCount | dist/py/main.py:50-61 | whatever the disks are, `n` of them take `2^n - 1` reported moves |
| HanoiPlan.PlanOfDesc | dist/py/main.py:54-58 | when the top disks are `n, ..., 1`, the disk moved at each level is that level's number |
| HanoiPlan.MovesDisks | dist/py/main.py:54-61 | every move names one of the disks `1 .. n` |
| HanoiPlan.MiddleMove | dist/py/main.py:57 | once the smaller disks are on auxiliary, moving disk `n` to target is legal, and source is left with what was below it |
| HanoiPlan.MovesSolve | dist/py/main.py:40-61 | frame property: if the top `n` disks of source are `n, ..., 1` and the other disks they meet are larger, every move is legal; those disks end on top of target in the same order; source keeps what was below them; auxiliary ends as it began |
| HanoiPlan.MovesSolveLevel | dist/py/main.py:53-61 | the same, for `n >= 1`: step 1, the middle move, then step 3 |
| HanoiPlan.ClearSmallerDisks | dist/py/main.py:53-54 | step 1 leaves disk `n` on top of source and the `n-1` smaller disks on auxiliary; target is untouched |
| HanoiPlan.MovesOntoLargest | dist/py/main.py:56-61 | disk `n` moves legally to target, and then the `n-1` smaller disks follow it from auxiliary, all moves legal |
| HanoiPlan.LargestMovedOnce | dist/py/main.py:53-58 | disk `n` moves exactly once, at position `2^(n-1) - 1`, from source straight to target; every other move is of a smaller disk |
| HanoiPlan.LargestMoveSeesSmallerOnAuxiliary | dist/py/main.py:53-58 | just before disk `n` moves, the smaller disks `n-1, ..., 1` are on auxiliary, disk `n` is on top of source, and target is as it began |
| HanoiPlan.SolvesFromInitial | dist/py/main.py:77-85 | from all `n` disks on A, the `2^n - 1` moves are legal and end with `n, ..., 1` on C and A and B empty |
| HanoiPlan.SafeThroughout | dist/py/main.py:54-61 | from a correctly stacked position, every position the recursion passes through is correctly stacked and holds the same disks |
| HanoiPlan.DescOnce | dist/py/main.py:78 | the stack `n, ..., 1` holds each of the disks `1 .. n` exactly once and no other disk |
| HanoiPlan.InitialSafe | dist/py/main.py:77-81 | the starting dictionary is correctly stacked and holds each of the disks `1 .. n` exactly once and no other disk |
| HanoiPlan.SafeFromInitial | dist/py/main.py:77-85 | every position reached from the start holds each of the disks `1 .. n` once and is correctly stacked |
| HanoiPlan.ThreeDisks | dist/py/main.py:40-61 | for three disks, the seven moves reported, in order |
| HanoiSolver.Rods.constructor | dist/py/main.py:77-81 | the new dictionary holds `n, ..., 1` on A with B and C empty, and nothing has been reported yet |
| HanoiSolver.MoveDisk | dist/py/main.py:29-37 | returns the top disk of the source rod; the new rods are those of `Step`; it requires only that the source rod is non-empty |
| HanoiSolver.Hanoi | dist/py/main.py:40-61 | the top `n` disks of source end on top of target in the same order; source keeps what was below them; auxiliary is unchanged; the reported moves are `Plan` of those disks; for `n = 0` nothing changes |
| HanoiSolver.Run | dist/py/main.py:69-87 | rejects `n <= 0` without creating rods; otherwise ends with C = `n, ..., 1` and A, B empty; it reports exactly `Moves(n, A, B, C)`, which is `2^n - 1` moves, each legal in turn, with every intermediate position correctly stacked and holding each disk once |

## Left out

- `print_state` (dist/py/main.py:13-26) and its calls at lines 58, 83 and 87 are console output.
  - The move line printed at line 58 is kept as an entry of the ghost `printed` log.
  - The dictionary printed with it is not kept. It is the result of replaying the log (`Replay`).
  - The initial and final printouts at lines 83 and 87 are not modelled.
- `input()`, `int()` and the `ValueError` branch of `main` (dist/py/main.py:66-68, 72-74) are input handling.
  - `Run` takes the already parsed integer.
  - The messages printed for rejected input are not modelled.
- The dictionary's keys are fixed to the three rod names, as indices 0, 1 and 2. So a `KeyError` for an unknown rod name cannot arise in the model.
- HanoiSolver.Hanoi: requires `source`, `auxiliary` and `target` to be three different rods. The Python function accepts any three names, but every call in the program passes three different ones.
- HanoiSolver.Hanoi: requires `source` to hold at least `n` disks. With fewer, Python moves and prints some disks and then raises `IndexError` from `pop`; that error path is not modelled. `main` always passes all `n` disks.
- HanoiSolver.Hanoi: `n` is a natural number. A negative `n` never reaches the base case in Python and recurses until the interpreter's recursion limit.
- HanoiSolver.Hanoi: its `ensures` does not state the `2^n - 1` count itself. It states that the reported moves are exactly `Plan` of the moved disks, and `PlanCount` gives their number.
- HanoiSolver.MoveDisk: the multiset of disks it keeps is stated by `StepKeepsDisks` about `Step`, not in `MoveDisk`'s own `ensures`.
- Disk numbers are unbounded integers. Python's integers are unbounded too.
- `task1_recursive_sort/main.py` and `task2_koch_snowflake/main.py` are not part of this model.
- The program has no run-time check for an empty source rod or for a larger disk put on a smaller one, and neither does the model.
  - An empty source rod is a precondition of `MoveDisk`.
  - The larger-on-smaller rule is proved to hold, not checked.

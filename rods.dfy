/** The three rods of the puzzle as a value, a single disk move on that value,
    and what it means for a sequence of moves to be legal. */
module RodsModel {

  /** A rod name; the keys 'A', 'B' and 'C' of the rods dictionary are the
      indices 0, 1 and 2. */
  type Peg = x: int | 0 <= x < 3

  const A: Peg := 0
  const B: Peg := 1
  const C: Peg := 2

  /** One reported move: the disk number and the rods it went from and to. */
  datatype Move = Move(disk: int, from: Peg, to: Peg)

  datatype Option<T> = None | Some(value: T)

  /** The rods dictionary: for each rod, its disk numbers listed from bottom
      to top. */
  type State = s: seq<seq<int>> | |s| == 3 witness [[], [], []]

  /** The rod that is neither `p` nor `q`. */
  function Third(p: Peg, q: Peg): (r: Peg)
    requires p != q
    ensures r != p && r != q
  {
    3 - p - q
  }

  /** Two states that agree on three different rods are the same state. */
  lemma SameRods(x: State, y: State, p: Peg, q: Peg)
    requires p != q
    requires x[p] == y[p] && x[q] == y[q] && x[Third(p, q)] == y[Third(p, q)]
    ensures x == y
  {
    assert x[0] == y[0] && x[1] == y[1] && x[2] == y[2];
  }

  /** The top disk of a non-empty rod. */
  function Top(s: seq<int>): int
    requires |s| > 0
  {
    s[|s| - 1]
  }

  /** The rod with its top disk popped. */
  function Below(s: seq<int>): seq<int>
    requires |s| > 0
  {
    s[..|s| - 1]
  }

  /** The state after the top disk of `from` has been popped and appended to
      `to`; nothing is checked about sizes, as in the program. When `from`
      and `to` are the same rod, the disk goes back where it was. */
  function Step(s: State, from: Peg, to: Peg): (r: State)
    requires |s[from]| > 0
    ensures from != to ==> r[from] == Below(s[from]) && r[to] == s[to] + [Top(s[from])]
    ensures from != to ==> r[Third(from, to)] == s[Third(from, to)]
    ensures from == to ==> r == s
  {
    var popped := s[from := Below(s[from])];
    assert from == to ==> popped[to] + [Top(s[from])] == s[from];
    popped[to := popped[to] + [Top(s[from])]]
  }

  /** Strictly decreasing from bottom to top: no disk rests on a smaller one. */
  predicate Decreasing(s: seq<int>)
  {
    forall i, j :: 0 <= i < j < |s| ==> s[i] > s[j]
  }

  /** Every rod of the state is stacked correctly. */
  predicate Ordered(s: State)
  {
    forall p: Peg :: Decreasing(s[p])
  }

  /** All disks on the three rods, counted with multiplicity. */
  function Disks(s: State): multiset<int>
  {
    multiset(s[A]) + multiset(s[B]) + multiset(s[C])
  }

  /** Move `m` takes the top disk of a non-empty rod to a different rod that
      is empty or whose top disk is larger. */
  predicate Legal(s: State, m: Move)
  {
    m.from != m.to && |s[m.from]| > 0 && Top(s[m.from]) == m.disk &&
    (|s[m.to]| == 0 || Top(s[m.to]) > m.disk)
  }

  /** Putting disk `d` on a correctly stacked rod that is empty or whose top
      disk is larger keeps it correctly stacked. */
  lemma PushKeepsDecreasing(s: seq<int>, d: int)
    requires Decreasing(s) && (|s| == 0 || Top(s) > d)
    ensures Decreasing(s + [d])
  {
    var t := s + [d];
    forall i, j | 0 <= i < j < |t| ensures t[i] > t[j] {
      if j == |t| - 1 {
        if i < |s| - 1 {
          assert s[i] > s[|s| - 1];
        }
      } else {
        assert t[i] == s[i] && t[j] == s[j];
      }
    }
  }

  /** A legal move keeps every rod correctly stacked. */
  lemma StepKeepsOrdered(s: State, m: Move)
    requires Ordered(s) && Legal(s, m)
    ensures Ordered(Step(s, m.from, m.to))
  {
    var r := Step(s, m.from, m.to);
    assert Decreasing(s[m.from]) && Decreasing(s[m.to]);
    PushKeepsDecreasing(s[m.to], m.disk);
    assert Decreasing(s[Third(m.from, m.to)]);
    forall p: Peg ensures Decreasing(r[p]) {
      assert p == m.from || p == m.to || p == Third(m.from, m.to);
    }
  }

  /** Taking the top disk of `x` and putting it on `y` keeps the disks of
      the two rods. */
  lemma RelocateTop(x: seq<int>, y: seq<int>)
    requires |x| > 0
    ensures multiset(Below(x)) + multiset(y + [Top(x)]) == multiset(x) + multiset(y)
  {
    assert x == Below(x) + [Top(x)];
  }

  /** The disks of a state, summed rod by rod starting from any two rods. */
  lemma SumOfRods(s: State, p: Peg, q: Peg)
    requires p != q
    ensures Disks(s) == multiset(s[p]) + multiset(s[q]) + multiset(s[Third(p, q)])
  {
  }

  /** A move only relocates a disk: none is created or dropped. */
  lemma StepKeepsDisks(s: State, from: Peg, to: Peg)
    requires |s[from]| > 0
    ensures Disks(Step(s, from, to)) == Disks(s)
  {
    if from != to {
      var r := Step(s, from, to);
      RelocateTop(s[from], s[to]);
      assert r[Third(from, to)] == s[Third(from, to)];
      SumOfRods(r, from, to);
      SumOfRods(s, from, to);
    }
  }

  /** Plays the moves in order from `s`; `None` as soon as one is illegal. */
  function Replay(s: State, ms: seq<Move>): Option<State>
    decreases |ms|
  {
    if ms == [] then Some(s)
    else if Legal(s, ms[0]) then Replay(Step(s, ms[0].from, ms[0].to), ms[1..])
    else None
  }

  /** A run that replays only relocates disks. */
  lemma {:induction false} ReplayKeepsDisks(s: State, ms: seq<Move>)
    requires Replay(s, ms).Some?
    ensures Disks(Replay(s, ms).value) == Disks(s)
    decreases |ms|
  {
    if ms != [] {
      StepKeepsDisks(s, ms[0].from, ms[0].to);
      ReplayKeepsDisks(Step(s, ms[0].from, ms[0].to), ms[1..]);
    }
  }

  /** A run that replays from a correctly stacked state ends in one. */
  lemma {:induction false} ReplayKeepsOrdered(s: State, ms: seq<Move>)
    requires Ordered(s) && Replay(s, ms).Some?
    ensures Ordered(Replay(s, ms).value)
    decreases |ms|
  {
    if ms != [] {
      StepKeepsOrdered(s, ms[0]);
      ReplayKeepsOrdered(Step(s, ms[0].from, ms[0].to), ms[1..]);
    }
  }

  /** Replaying two runs back to back is replaying the first, then the
      second from where the first left off. */
  lemma {:induction false} ReplayAppend(s: State, xs: seq<Move>, ys: seq<Move>)
    ensures Replay(s, xs + ys) ==
      match Replay(s, xs)
      case None => None
      case Some(t) => Replay(t, ys)
    decreases |xs|
  {
    if xs == [] {
      assert xs + ys == ys;
    } else {
      assert (xs + ys)[0] == xs[0];
      assert (xs + ys)[1..] == xs[1..] + ys;
      if Legal(s, xs[0]) {
        ReplayAppend(Step(s, xs[0].from, xs[0].to), xs[1..], ys);
      }
    }
  }

  /** A run, one legal move, then another run: the last run starts from the
      state the middle move leaves. */
  lemma ReplayAround(s: State, xs: seq<Move>, m: Move, ys: seq<Move>, mid: State, last: State)
    requires Replay(s, xs) == Some(mid) && Legal(mid, m)
    requires Replay(Step(mid, m.from, m.to), ys) == Some(last)
    ensures Replay(s, xs + [m] + ys) == Some(last)
  {
    assert xs + [m] + ys == xs + ([m] + ys);
    ReplayAppend(s, xs, [m] + ys);
    assert ([m] + ys)[0] == m && ([m] + ys)[1..] == ys;
  }

  /** If a run replays, so does every prefix of it. */
  lemma {:induction false} PrefixReplays(s: State, ms: seq<Move>, k: nat)
    requires Replay(s, ms).Some?
    requires k <= |ms|
    ensures Replay(s, ms[..k]).Some?
    decreases k
  {
    if k == 0 {
      assert ms[..k] == [];
    } else {
      PrefixReplays(Step(s, ms[0].from, ms[0].to), ms[1..], k - 1);
      assert ms[..k][0] == ms[0];
      assert ms[..k][1..] == ms[1..][..k - 1];
    }
  }

  /** Every intermediate state of a run that replays from a correctly
      stacked state holds the same disks and is correctly stacked. */
  lemma EveryPrefixSafe(s: State, ms: seq<Move>, k: nat)
    requires Ordered(s) && Replay(s, ms).Some?
    requires k <= |ms|
    ensures Replay(s, ms[..k]).Some?
    ensures Disks(Replay(s, ms[..k]).value) == Disks(s)
    ensures Ordered(Replay(s, ms[..k]).value)
  {
    PrefixReplays(s, ms, k);
    ReplayKeepsDisks(s, ms[..k]);
    ReplayKeepsOrdered(s, ms[..k]);
  }
}

/**
 * solvePuzzle: a best-first (A*-style) search over puzzle states. Nodes
 * carry the state, the moves that led to it and their number; the queue is
 * ordered by that number plus the heuristic, a state is expanded at most
 * once, and a goal state is recognised when its node is dequeued.
 */
module Solver {
  import opened Wrappers
  import opened Puzzles
  import opened SolverRules
  import opened PriorityQueues

  /** A search node: a state, the moves from the initial state, and their count. */
  datatype Node = Node(state: Puzzle, path: seq<Move>, gCost: int)

  /**
   * The search outcome: the path to the first goal state dequeued, or the
   * queue running dry (the source's `null`), or the step budget spent.
   */
  datatype SolveResult = Found(path: seq<Move>) | NoSolution | OutOfBudget

  /**
   * The state that playing `path` from `p` leads to, when every step is a
   * move getValidMoves would list in the state it meets.
   */
  function Replay(p: Puzzle, path: seq<Move>): (r: Option<Puzzle>)
    ensures |path| == 0 ==> r == Some(p)
    decreases |path|
  {
    if |path| == 0 then Some(p)
    else
      match Replay(p, path[..|path| - 1])
      case None => None
      case Some(q) =>
        var m := path[|path| - 1];
        if SolverMove(q, m) then Some(Applied(q, m)) else None
  }

  /** One more solver move extends a replayable path. */
  lemma ReplaySnoc(p: Puzzle, path: seq<Move>, q: Puzzle, m: Move)
    requires Replay(p, path) == Some(q) && SolverMove(q, m)
    ensures Replay(p, path + [m]) == Some(Applied(q, m))
  {
    assert (path + [m])[..|path|] == path;
  }

  /** A queue entry built as solvePuzzle builds them, reachable from `initial`. */
  ghost predicate Reaches(initial: Puzzle, e: Entry<Node>) {
    Replay(initial, e.item.path) == Some(e.item.state) &&
    e.item.gCost == |e.item.path| &&
    e.priority == e.item.gCost + HeuristicValue(e.item.state)
  }

  /** The states of the queued nodes. */
  ghost function States(items: seq<Entry<Node>>): set<Puzzle> {
    set e | e in items :: e.item.state
  }

  /** Every successor of a visited state is visited or queued. */
  ghost predicate Closed(visited: set<Puzzle>, pending: set<Puzzle>) {
    forall s, m :: s in visited && SolverMove(s, m) ==> Applied(s, m) in visited || Applied(s, m) in pending
  }

  /** The entry pushed for the successor of `node` by move `m`. */
  function Child(node: Node, m: Move): (e: Entry<Node>)
    requires SolverMove(node.state, m)
    ensures e.item.path == node.path + [m] && e.item.gCost == node.gCost + 1
    ensures e.item.state == Applied(node.state, m)
    ensures e.priority == e.item.gCost + HeuristicValue(e.item.state)
  {
    var next := Applied(node.state, m);
    Entry(node.gCost + 1 + HeuristicValue(next), Node(next, node.path + [m], node.gCost + 1))
  }

  /** The successor of a node reached along its path is reached along the extended path, with consistent costs. */
  lemma ChildReaches(initial: Puzzle, node: Node, m: Move)
    requires Replay(initial, node.path) == Some(node.state) && node.gCost == |node.path|
    requires SolverMove(node.state, m)
    ensures Reaches(initial, Child(node, m))
  {
    ReplaySnoc(initial, node.path, node.state, m);
  }

  /** The queue after pushing the successors of `node` for `moves`, in order. */
  function PushChildren(q: seq<Entry<Node>>, node: Node, moves: seq<Move>): seq<Entry<Node>>
    requires forall k :: 0 <= k < |moves| ==> SolverMove(node.state, moves[k])
    decreases |moves|
  {
    if |moves| == 0 then q
    else Insert(PushChildren(q, node, moves[..|moves| - 1]), Child(node, moves[|moves| - 1]))
  }

  lemma PushChildrenStep(q: seq<Entry<Node>>, node: Node, moves: seq<Move>, j: int)
    requires forall k :: 0 <= k < |moves| ==> SolverMove(node.state, moves[k])
    requires 0 <= j < |moves|
    ensures PushChildren(q, node, moves[..j + 1]) == Insert(PushChildren(q, node, moves[..j]), Child(node, moves[j]))
  {
    assert moves[..j + 1][..j] == moves[..j];
  }

  /** Insertion adds the new entry's state to the queued states. */
  lemma InsertStates(q: seq<Entry<Node>>, e: Entry<Node>)
    ensures States(Insert(q, e)) == States(q) + {e.item.state}
    ensures forall x :: x in Insert(q, e) <==> x in q || x == e
  {
    InsertMembers(q, e);
  }

  /** Dropping the front entry keeps every other queued state. */
  lemma DropFrontStates(q: seq<Entry<Node>>)
    requires |q| > 0
    ensures States(q) == States(q[1..]) + {q[0].item.state}
  {
    assert q == [q[0]] + q[1..];
  }

  /** One iteration of the loop over getValidMoves: the successor for `move`, pushed with its f-cost. */
  method PushChild(openList: PriorityQueue<Node>, ghost initial: Puzzle, node: Node, move: Move)
    requires openList.Valid() && SolverMove(node.state, move)
    requires Replay(initial, node.path) == Some(node.state) && node.gCost == |node.path|
    requires forall e :: e in openList.items ==> Reaches(initial, e)
    modifies openList
    ensures openList.Valid()
    ensures openList.items == Insert(old(openList.items), Child(node, move))
    ensures forall e :: e in openList.items ==> Reaches(initial, e)
    ensures States(openList.items) == States(old(openList.items)) + {Applied(node.state, move)}
  {
    var newState := ApplyMove(node.state, move);
    var newGCost := node.gCost + 1;
    var h := Heuristic(newState);
    var newFCost := newGCost + h;
    ghost var before := openList.items;
    var entry := Entry(newFCost, Node(newState, node.path + [move], newGCost));
    assert entry == Child(node, move);
    openList.Enqueue(entry.item, entry.priority);
    assert openList.items == Insert(before, entry);
    ChildReaches(initial, node, move);
    InsertStates(before, entry);
  }

  /** The for-loop over getValidMoves: each successor is pushed with its f-cost. */
  method PushSuccessors(openList: PriorityQueue<Node>, ghost initial: Puzzle, node: Node)
    requires openList.Valid()
    requires Replay(initial, node.path) == Some(node.state) && node.gCost == |node.path|
    requires forall e :: e in openList.items ==> Reaches(initial, e)
    modifies openList
    ensures openList.Valid()
    ensures forall k :: 0 <= k < |ValidMoves(node.state)| ==> SolverMove(node.state, ValidMoves(node.state)[k])
    ensures openList.items == PushChildren(old(openList.items), node, ValidMoves(node.state))
    ensures forall e :: e in openList.items ==> Reaches(initial, e)
    ensures States(old(openList.items)) <= States(openList.items)
    ensures forall m :: SolverMove(node.state, m) ==> Applied(node.state, m) in States(openList.items)
  {
    var moves := GetValidMoves(node.state);
    ValidMovesSound(node.state);
    PushAll(openList, initial, node, moves);
    AllSuccessorsQueued(node.state, States(openList.items));
  }

  /** The loop body of the for-loop, once per move in order. */
  method PushAll(openList: PriorityQueue<Node>, ghost initial: Puzzle, node: Node, moves: seq<Move>)
    requires openList.Valid()
    requires forall k :: 0 <= k < |moves| ==> SolverMove(node.state, moves[k])
    requires Replay(initial, node.path) == Some(node.state) && node.gCost == |node.path|
    requires forall e :: e in openList.items ==> Reaches(initial, e)
    modifies openList
    ensures openList.Valid()
    ensures openList.items == PushChildren(old(openList.items), node, moves)
    ensures forall e :: e in openList.items ==> Reaches(initial, e)
    ensures States(old(openList.items)) <= States(openList.items)
    ensures forall t :: 0 <= t < |moves| ==> Applied(node.state, moves[t]) in States(openList.items)
  {
    ghost var start := openList.items;
    for j := 0 to |moves|
      invariant openList.Valid()
      invariant openList.items == PushChildren(start, node, moves[..j])
      invariant forall e :: e in openList.items ==> Reaches(initial, e)
      invariant States(start) <= States(openList.items)
      invariant forall t :: 0 <= t < j ==>
        SolverMove(node.state, moves[t]) && Applied(node.state, moves[t]) in States(openList.items)
    {
      ghost var queued := States(openList.items);
      PushChild(openList, initial, node, moves[j]);
      PushChildrenStep(start, node, moves, j);
      QueuedGrows(node.state, moves, j, queued, States(openList.items));
    }
    assert moves[..|moves|] == moves;
  }

  lemma QueuedGrows(p: Puzzle, moves: seq<Move>, j: int, queued: set<Puzzle>, queued': set<Puzzle>)
    requires 0 <= j < |moves| && SolverMove(p, moves[j])
    requires forall t :: 0 <= t < j ==> SolverMove(p, moves[t]) && Applied(p, moves[t]) in queued
    requires queued' == queued + {Applied(p, moves[j])}
    ensures forall t :: 0 <= t < j + 1 ==> SolverMove(p, moves[t]) && Applied(p, moves[t]) in queued'
  {
  }

  /** Once the successor of every listed move is queued, the successor of every solver move is. */
  lemma AllSuccessorsQueued(p: Puzzle, queued: set<Puzzle>)
    requires forall t :: 0 <= t < |ValidMoves(p)| ==>
      SolverMove(p, ValidMoves(p)[t]) && Applied(p, ValidMoves(p)[t]) in queued
    ensures forall m :: SolverMove(p, m) ==> Applied(p, m) in queued
  {
    forall m | SolverMove(p, m)
      ensures Applied(p, m) in queued
    {
      ValidMovesExact(p, m);
      var t :| 0 <= t < |ValidMoves(p)| && ValidMoves(p)[t] == m;
    }
  }

  /** Dropping a state that was already visited keeps the closure. */
  lemma SkipClosed(visited: set<Puzzle>, rest: set<Puzzle>, s: Puzzle)
    requires Closed(visited, rest + {s}) && s in visited
    ensures Closed(visited, rest)
  {
  }

  /** Expanding `s`, whose successors are now all queued, keeps the closure. */
  lemma ExpandClosed(visited: set<Puzzle>, rest: set<Puzzle>, s: Puzzle, pending: set<Puzzle>)
    requires Closed(visited, rest + {s})
    requires rest <= pending
    requires forall m :: SolverMove(s, m) ==> Applied(s, m) in pending
    ensures Closed(visited + {s}, pending)
  {
  }

  /** With nothing left pending, every state a path of solver moves reaches was visited. */
  lemma {:induction false} ClosedReach(initial: Puzzle, visited: set<Puzzle>, path: seq<Move>)
    requires initial in visited && Closed(visited, {})
    requires Replay(initial, path).Some?
    ensures Replay(initial, path).value in visited
    decreases |path|
  {
    if |path| > 0 {
      ClosedReach(initial, visited, path[..|path| - 1]);
    }
  }

  /** No state occurs twice. */
  ghost predicate Distinct(xs: seq<Puzzle>) {
    forall i, j :: 0 <= i < j < |xs| ==> xs[i] != xs[j]
  }

  ghost predicate AllIn(xs: seq<Puzzle>, s: set<Puzzle>) {
    forall i :: 0 <= i < |xs| ==> xs[i] in s
  }

  /** Appending a state outside the set keeps the listed states distinct. */
  lemma DistinctSnoc(xs: seq<Puzzle>, s: set<Puzzle>, x: Puzzle)
    requires AllIn(xs, s) && Distinct(xs) && x !in s
    ensures AllIn(xs + [x], s + {x}) && Distinct(xs + [x])
  {
  }

  /**
   * solvePuzzle, allowed `budget` dequeues. A returned path replays to a
   * goal state; an empty queue means no path of solver moves reaches one;
   * a goal initial state is answered with the empty path. `expanded`
   * lists the states whose successors were pushed, in order: no state is
   * expanded twice.
   */
  method SolvePuzzle(initial: Puzzle, budget: nat) returns (r: SolveResult, ghost expanded: seq<Puzzle>)
    ensures r.Found? ==> Replay(initial, r.path).Some? && AllMonochrome(Replay(initial, r.path).value)
    ensures r.NoSolution? ==>
      forall path :: Replay(initial, path).Some? ==> !AllMonochrome(Replay(initial, path).value)
    ensures budget > 0 && AllMonochrome(initial) ==> r == Found([])
    ensures Distinct(expanded)
  {
    expanded := [];
    var openList := new PriorityQueue<Node>();
    var initialHeuristic := Heuristic(initial);
    openList.Enqueue(Node(initial, [], 0), initialHeuristic);
    ghost var first := Entry(initialHeuristic, Node(initial, [], 0));
    assert openList.items == [first];
    var visited: set<Puzzle> := {};
    var steps := 0;
    while !openList.IsEmpty() && steps < budget
      invariant openList.Valid()
      invariant forall e :: e in openList.items ==> Reaches(initial, e)
      invariant forall s :: s in visited ==> !AllMonochrome(s)
      invariant Closed(visited, States(openList.items))
      invariant initial in visited || initial in States(openList.items)
      invariant steps == 0 ==> openList.items == [first]
      invariant steps > 0 ==> !AllMonochrome(initial)
      invariant 0 <= steps <= budget
      invariant AllIn(expanded, visited) && Distinct(expanded)
      decreases budget - steps
    {
      ghost var before := openList.items;
      var current := openList.Dequeue();
      var node := current.value;
      assert before[0] in before;
      DropFrontStates(before);
      assert steps == 0 ==> node == first.item;
      var goal := IsGoalState(node.state);
      if goal {
        return Found(node.path), expanded;
      }
      steps := steps + 1;
      if node.state in visited {
        SkipClosed(visited, States(openList.items), node.state);
        continue;
      }
      ghost var rest := States(openList.items);
      ghost var visitedBefore := visited;
      DistinctSnoc(expanded, visited, node.state);
      visited := visited + {node.state};
      expanded := expanded + [node.state];
      PushSuccessors(openList, initial, node);
      ExpandClosed(visitedBefore, rest, node.state, States(openList.items));
    }
    if openList.IsEmpty() {
      assert States(openList.items) == {};
      forall path | Replay(initial, path).Some?
        ensures !AllMonochrome(Replay(initial, path).value)
      {
        ClosedReach(initial, visited, path);
      }
      return NoSolution, expanded;
    }
    return OutOfBudget, expanded;
  }
}

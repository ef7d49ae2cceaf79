/**
 * `GameState`: the turn results of one game, oldest first, and the current
 * one. Rollback follows the source's slice `history[:-steps]`, so it is
 * defined for every integer `steps`, including the ones the design never
 * meant (see README).
 */
module GameState {
  import opened Wrappers
  import PySlice

  datatype State<J> = State(contextName: string, current: J, history: seq<J>)

  /** The history is non-empty and its last entry is the current state. */
  ghost predicate Valid<J>(g: State<J>) {
    |g.history| > 0 && g.current == g.history[|g.history| - 1]
  }

  /** `GameState(context_name, initial_state)` */
  function New<J>(contextName: string, initial: J): (g: State<J>)
    ensures Valid(g)
    ensures g.contextName == contextName && g.current == initial && |g.history| == 1
  {
    State(contextName, initial, [initial])
  }

  /** `update`: appends the new state and makes it current; earlier entries stay as they were. */
  function Update<J>(g: State<J>, s: J): (r: State<J>)
    ensures Valid(r)
    ensures r.current == s && r.contextName == g.contextName
    ensures |r.history| == |g.history| + 1 && r.history[..|g.history|] == g.history
  {
    State(g.contextName, s, g.history + [s])
  }

  /** `get_current_state`: for a valid state, the latest history entry. */
  function GetCurrentState<J>(g: State<J>): (r: J)
    ensures Valid(g) ==> r == g.history[|g.history| - 1]
  {
    g.current
  }

  /** `get_history`: the history itself, which for a valid state ends in the current one. */
  function GetHistory<J>(g: State<J>): (r: seq<J>)
    ensures r == g.history
    ensures Valid(g) ==> |r| > 0 && r[|r| - 1] == GetCurrentState(g)
  {
    g.history
  }

  const CannotRollback := "Cannot rollback that many steps"
  const IndexOutOfRange := "list index out of range"

  /** The state after `rollback(steps)`, and the text of the exception it raised, if any. */
  datatype Rolled<J> = Rolled(state: State<J>, raised: Option<string>)

  /**
   * `rollback(steps)`: when `len(history) > steps`, keep `history[:-steps]`
   * and make its last entry current; otherwise raise without change. With
   * `steps == 0` the slice is empty, so the history is emptied before
   * `history[-1]` raises.
   */
  function Rollback<J>(g: State<J>, steps: int): (r: Rolled<J>)
    ensures 1 <= steps < |g.history| ==>
      && r.raised.None?
      && r.state.history == g.history[..|g.history| - steps]
      && r.state.current == g.history[|g.history| - steps - 1]
    ensures steps >= |g.history| ==> r == Rolled(g, Some(CannotRollback))
    ensures steps == 0 < |g.history| ==>
      r == Rolled(State(g.contextName, g.current, []), Some(IndexOutOfRange))
    ensures steps < 0 && |g.history| > 0 ==>
      && r.raised.None?
      && r.state.history == g.history[..if -steps <= |g.history| then -steps else |g.history|]
    ensures r.state.contextName == g.contextName
    ensures Valid(g) && steps != 0 ==> Valid(r.state)
  {
    if |g.history| > steps then
      var kept := PySlice.Upto(g.history, -steps);
      if kept == [] then Rolled(State(g.contextName, g.current, kept), Some(IndexOutOfRange))
      else Rolled(State(g.contextName, kept[|kept| - 1], kept), None)
    else Rolled(g, Some(CannotRollback))
  }

  /** Rolling back one step undoes one `update`. */
  lemma RollbackUndoesUpdate<J>(g: State<J>, s: J)
    requires Valid(g)
    ensures Rollback(Update(g, s), 1) == Rolled(g, None)
  {
    var u := Update(g, s);
    assert u.history[..|u.history| - 1] == g.history;
  }

  /** Rolling back `k` steps after `k` updates gives back the state before them. */
  lemma {:induction false} RollbackUndoesUpdates<J>(g: State<J>, ss: seq<J>)
    requires Valid(g) && |ss| >= 1
    ensures Rollback(UpdateAll(g, ss), |ss|) == Rolled(g, None)
  {
    var u := UpdateAll(g, ss);
    UpdateAllHistory(g, ss);
    assert u.history[..|u.history| - |ss|] == g.history;
  }

  /** `update` applied to each of `ss` in turn. */
  function UpdateAll<J>(g: State<J>, ss: seq<J>): State<J>
    decreases |ss|
  {
    if ss == [] then g else UpdateAll(Update(g, ss[0]), ss[1..])
  }

  lemma {:induction false} UpdateAllHistory<J>(g: State<J>, ss: seq<J>)
    ensures UpdateAll(g, ss).history == g.history + ss
    ensures UpdateAll(g, ss).contextName == g.contextName
    decreases |ss|
  {
    if ss != [] {
      UpdateAllHistory(Update(g, ss[0]), ss[1..]);
      assert g.history + [ss[0]] + ss[1..] == g.history + ss;
    }
  }
}

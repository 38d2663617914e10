/** What a session asks of the game, and the game fulfilling it
    (crates/fofoca-netplay/src/request.rs). */
module Requests {
  import opened Options
  import opened Timeline

  datatype CellInner<+S> = CellInner(frame: Frame, state: Option<S>, checksum: Option<nat>)

  // One saved frame. Requests name the cell itself, so that the game can write to it.
  class StateCell<S> {
    var inner: CellInner<S>

    constructor ()
      ensures inner == CellInner(NULL_FRAME, None, None)
    {
      inner := CellInner(NULL_FRAME, None, None);
    }

    method Save(frame: Frame, state: S, checksum: Option<nat>)
      modifies this
      ensures inner == CellInner(frame, Some(state), checksum)
    {
      inner := CellInner(frame, Some(state), checksum);
    }

    method Load() returns (state: Option<S>)
      ensures state == inner.state
    {
      state := inner.state;
    }
  }

  datatype Request<!S, I> =
    | SaveState(cell: StateCell<S>, frame: Frame)
    | LoadState(from: StateCell<S>)
    | AdvanceFrame(inputs: seq<(I, InputStatus)>)

  // The rules of a game: how one frame's inputs change its state, and how a state is hashed. The
  // outcome may not depend on whether an input was predicted.
  datatype Rules<!S, !I> = Rules(start: S, step: (S, seq<I>) -> S, hash: S -> nat)

  function Inputs<I>(row: seq<(I, InputStatus)>): seq<I> {
    seq(|row|, i requires 0 <= i < |row| => row[i].0)
  }

  // ---- What fulfilling requests comes to ----

  // The game's state and the content of every cell.
  datatype World<!S> = World(state: S, store: map<StateCell<S>, CellInner<S>>)

  ghost function Perform<S, I>(rules: Rules<S, I>, w: World<S>, request: Request<S, I>): World<S> {
    match request
    case SaveState(cell, frame) =>
      World(w.state, w.store[cell := CellInner(frame, Some(w.state), Some(rules.hash(w.state)))])
    case LoadState(cell) =>
      if cell in w.store && w.store[cell].state.Some? then w.(state := w.store[cell].state.value) else w
    case AdvanceFrame(inputs) => w.(state := rules.step(w.state, Inputs(inputs)))
  }

  ghost function PerformAll<S, I>(rules: Rules<S, I>, w: World<S>, requests: seq<Request<S, I>>): World<S> {
    if requests == [] then w
    else Perform(rules, PerformAll(rules, w, requests[..|requests| - 1]), requests[|requests| - 1])
  }

  lemma PerformOneMore<S, I>(rules: Rules<S, I>, w: World<S>, requests: seq<Request<S, I>>, r: Request<S, I>)
    ensures PerformAll(rules, w, requests + [r]) == Perform(rules, PerformAll(rules, w, requests), r)
  {
  }

  lemma {:induction false} PerformFirst<S, I>(rules: Rules<S, I>, w: World<S>, r: Request<S, I>,
                                              rest: seq<Request<S, I>>)
    ensures PerformAll(rules, w, [r] + rest) == PerformAll(rules, Perform(rules, w, r), rest)
    decreases |rest|
  {
    if rest == [] {
      assert [r] + rest == [] + [r];
      PerformOneMore(rules, w, [], r);
    } else {
      var shorter, last := rest[..|rest| - 1], rest[|rest| - 1];
      assert [r] + rest == ([r] + shorter) + [last];
      PerformOneMore(rules, w, [r] + shorter, last);
      PerformFirst(rules, w, r, shorter);
    }
  }

  ghost function Contents<S>(cells: set<StateCell<S>>): map<StateCell<S>, CellInner<S>>
    reads cells
  {
    map cell | cell in cells :: cell.inner
  }

  class Game<S, I> {
    const rules: Rules<S, I>
    var state: S

    constructor (rules: Rules<S, I>)
      ensures this.rules == rules && state == rules.start
    {
      this.rules := rules;
      state := rules.start;
    }

    // Fulfil all of them, in order.
    method Fulfil(requests: seq<Request<S, I>>, ghost cells: set<StateCell<S>>)
      requires forall r :: r in requests ==> r.SaveState? ==> r.cell in cells
      requires forall r :: r in requests ==> r.LoadState? ==> r.from in cells
      modifies this, cells
      ensures World(state, Contents(cells)) == PerformAll(rules, World(old(state), old(Contents(cells))), requests)
    {
      ghost var w := World(state, Contents(cells));
      for n := 0 to |requests|
        invariant World(state, Contents(cells)) == PerformAll(rules, w, requests[..n])
      {
        assert requests[..n + 1] == requests[..n] + [requests[n]];
        PerformOneMore(rules, w, requests[..n], requests[n]);
        match requests[n]
        case SaveState(cell, frame) =>
          cell.Save(frame, state, Some(rules.hash(state)));
        case LoadState(cell) =>
          var saved := cell.Load();
          if saved.Some? {
            state := saved.value;
          }
        case AdvanceFrame(inputs) =>
          state := rules.step(state, Inputs(inputs));
      }
      assert requests[..|requests|] == requests;
    }
  }
}

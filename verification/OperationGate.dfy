/** The non-blocking gate of services/asr-runtime/runtime.py, shared by any number of
    transcription and realtime handlers whose steps interleave in any order. Taking a free
    asyncio lock does not yield, so acquire is one step. */
module OperationGate {

  class OperationGate {
    var locked: bool

    constructor ()
      ensures !locked
    {
      locked := false;
    }

    method Acquire() returns (acquired: bool)
      modifies this
      ensures acquired == !old(locked) && locked
    {
      if locked {
        return false;
      }
      locked := true;
      return true;
    }

    method Release()
      modifies this
      ensures !locked
    {
      if locked {
        locked := false;
      }
    }
  }

  /** Where a handler stands: before the gate, inside its try block, in its finally block,
      or over. The `acquired` flag is the realtime handler's local; a transcription only
      enters its try block after acquiring, so there it is true from then on. */
  datatype Place = Before | Inside | Finally | Over

  datatype Handler = Handler(realtime: bool, place: Place, acquired: bool)

  datatype World = World(locked: bool, handlers: seq<Handler>)

  /** One step of handler `who`. Leave covers every way out of the try block: a result, an
      error of either kind, a disconnect or a cancellation. */
  datatype Action = Reject(who: nat) | Acquire(who: nat) | Leave(who: nat) | Finish(who: nat)

  function Next(w: World, a: Action): World
  {
    if a.who >= |w.handlers| then w
    else
      var h := w.handlers[a.who];
      match a
      case Reject(i) =>
        if h.place != Before then w
        else w.(handlers := w.handlers[i := h.(place := if h.realtime then Finally else Over)])
      case Acquire(i) =>
        if h.place != Before then w
        else if w.locked then
          w.(handlers := w.handlers[i := h.(place := if h.realtime then Finally else Over)])
        else World(true, w.handlers[i := h.(place := Inside, acquired := true)])
      case Leave(i) =>
        if h.place != Inside then w else w.(handlers := w.handlers[i := h.(place := Finally)])
      case Finish(i) =>
        if h.place != Finally then w
        else World(if h.realtime && !h.acquired then w.locked else false, w.handlers[i := h.(place := Over)])
  }

  /** Acquiring in the interleaving is what the class does: it succeeds exactly on a free gate,
      the gate is held afterwards either way, and nobody else is affected. */
  method AcquireStep(gate: OperationGate, ghost w: World, ghost who: nat) returns (acquired: bool)
    requires who < |w.handlers| && w.handlers[who].place == Before && !w.handlers[who].acquired
    requires gate.locked == w.locked
    modifies gate
    ensures var next := Next(w, Action.Acquire(who));
            && gate.locked == next.locked == true
            && acquired == !w.locked == next.handlers[who].acquired == Holds(next, who)
            && next.handlers == w.handlers[who := next.handlers[who]]
            && (!acquired ==>
                  next.handlers[who].place == if w.handlers[who].realtime then Finally else Over)
  {
    acquired := gate.Acquire();
  }

  /** So is releasing: a holder in its finally block frees the gate, and a realtime handler
      that never acquired leaves it alone. */
  method FinishStep(gate: OperationGate, ghost w: World, who: nat, handler: Handler)
    requires who < |w.handlers| && w.handlers[who] == handler && handler.place == Finally
    requires gate.locked == w.locked && (!handler.realtime ==> handler.acquired)
    modifies gate
    ensures var next := Next(w, Action.Finish(who));
            && gate.locked == next.locked
            && next.locked == (if handler.acquired then false else w.locked)
            && next.handlers == w.handlers[who := handler.(place := Over)]
  {
    if !handler.realtime || handler.acquired {
      gate.Release();
    }
  }

  /** A handler that is rejected early never touches the gate; one that leaves its try block
      always enters its finally block. */
  lemma OtherSteps(w: World, who: nat)
    requires who < |w.handlers|
    ensures Next(w, Reject(who)).locked == w.locked == Next(w, Leave(who)).locked
    ensures w.handlers[who].place == Inside ==> Next(w, Leave(who)).handlers[who] == w.handlers[who].(place := Finally)
    ensures w.handlers[who].place == Before ==>
              Next(w, Reject(who)).handlers[who]
              == w.handlers[who].(place := if w.handlers[who].realtime then Finally else Over)
  {
  }

  function Start(kinds: seq<bool>): World
  {
    World(false, seq(|kinds|, i requires 0 <= i < |kinds| => Handler(kinds[i], Before, false)))
  }

  function After(w: World, schedule: seq<Action>): World
    decreases schedule
  {
    if schedule == [] then w else After(Next(w, schedule[0]), schedule[1..])
  }

  /** Between acquire and release. */
  predicate Holds(w: World, i: nat)
  {
    i < |w.handlers| && w.handlers[i].acquired && (w.handlers[i].place == Inside || w.handlers[i].place == Finally)
  }

  ghost predicate Exclusive(w: World)
  {
    && (forall i, j :: Holds(w, i) && Holds(w, j) ==> i == j)
    && (w.locked <==> exists i :: Holds(w, i))
    && forall i :: 0 <= i < |w.handlers| ==>
         && (w.handlers[i].place == Before ==> !w.handlers[i].acquired)
         && (w.handlers[i].place == Inside ==> w.handlers[i].acquired)
         && (!w.handlers[i].realtime && w.handlers[i].place == Finally ==> w.handlers[i].acquired)
  }

  /** One step keeps the gate exclusive, and only the holder frees it. */
  lemma StepKeepsExclusive(w: World, a: Action)
    requires Exclusive(w)
    ensures var next := Next(w, a);
            && Exclusive(next)
            && (w.locked && !next.locked ==> Holds(w, a.who) && a.Finish?)
            && (!w.locked && next.locked ==> Holds(next, a.who) && a.Acquire?)
            && (forall i :: Holds(w, i) && !Holds(next, i) ==> i == a.who && !next.locked)
  {
    var next := Next(w, a);
    if a.who < |w.handlers| {
      forall i | i != a.who
        ensures Holds(next, i) == Holds(w, i)
      {
      }
      if !w.locked && next.locked {
        assert Holds(next, a.who);
      } else if next.locked {
        var holder :| Holds(w, holder);
        assert Holds(next, holder);
      } else {
        assert Holds(next, a.who) ==> Holds(w, a.who);
        assert w.locked ==> Holds(w, a.who) && !Holds(next, a.who);
      }
    }
  }

  /** In every interleaving at most one handler is between acquire and release, and the gate
      is held exactly when one is. When every handler is over the gate is free again. */
  lemma {:induction false} AlwaysExclusive(w: World, schedule: seq<Action>)
    requires Exclusive(w)
    ensures Exclusive(After(w, schedule))
    ensures var end := After(w, schedule);
            (forall i :: 0 <= i < |end.handlers| ==> end.handlers[i].place == Over) ==> !end.locked
    decreases schedule
  {
    if schedule != [] {
      StepKeepsExclusive(w, schedule[0]);
      AlwaysExclusive(Next(w, schedule[0]), schedule[1..]);
    }
  }

  lemma StartsExclusive(kinds: seq<bool>, schedule: seq<Action>)
    ensures Exclusive(After(Start(kinds), schedule))
  {
    AlwaysExclusive(Start(kinds), schedule);
  }
}

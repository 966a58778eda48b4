/** The retained action identities of apps/webchat/src/api/actionIdentity.ts: calls with the
    same target, method and body share one identity until a reply settles it.

    The digest in a storage key is taken to be collision-free, so a request stands for its
    key; `crypto.randomUUID` is taken never to repeat. A call reads and writes the storage
    in one step, and so does a reply. */
module ActionIdentity {
  import opened Outcomes

  datatype Request = Request(target: string, verb: string, body: string)

  /** What retainedAction returns: the identity, and the key its `delivered` is bound to. */
  datatype Handle = Handle(request: Request, id: string)

  datatype Reply = Reply(status: int, code: string, errorCode: string, repeatableCheck: bool)

  const UNRESOLVED := {"operation_outcome_unknown", "operation_receipt_unavailable", "operation_receipt_capacity"}

  predicate IsHex(c: char)
  {
    '0' <= c <= '9' || 'a' <= c <= 'f' || 'A' <= c <= 'F'
  }

  predicate IsUuid(s: string)
  {
    |s| == 36 && forall i :: 0 <= i < 36 ==>
        if i == 8 || i == 13 || i == 18 || i == 23 then s[i] == '-' else IsHex(s[i])
  }

  /** The reply settles the outcome of the action. */
  predicate Conclusive(r: Reply)
  {
    !((r.status >= 500 && !r.repeatableCheck) || r.status == 429 || r.code in UNRESOLVED || r.errorCode in UNRESOLVED)
  }

  /** Reply by reply: a server failure, unless of a repeatable check, a 429 and each unresolved
      code keep the identity, and every other reply settles. */
  lemma ConclusiveExactlyWhen(r: Reply)
    ensures r.status == 429 ==> !Conclusive(r)
    ensures r.status >= 500 && !r.repeatableCheck ==> !Conclusive(r)
    ensures NamesUnresolved(r.code) || NamesUnresolved(r.errorCode) ==> !Conclusive(r)
    ensures (&& r.status != 429 && (r.status < 500 || r.repeatableCheck)
             && !NamesUnresolved(r.code) && !NamesUnresolved(r.errorCode)) ==> Conclusive(r)
  {
  }

  predicate NamesUnresolved(code: string)
  {
    || code == "operation_outcome_unknown"
    || code == "operation_receipt_unavailable"
    || code == "operation_receipt_capacity"
  }

  /** Thirty-six characters: hyphens at four places and hexadecimal digits elsewhere. */
  lemma UuidShape(s: string)
    ensures IsUuid(s) <==>
      && |s| == 36 && s[8] == s[13] == s[18] == s[23] == '-'
      && forall i :: 0 <= i < 36 && i != 8 && i != 13 && i != 18 && i != 23 ==>
           s[i] in {'0', '1', '2', '3', '4', '5', '6', '7', '8', '9', 'a', 'b', 'c', 'd', 'e', 'f',
                    'A', 'B', 'C', 'D', 'E', 'F'}
  {
    if |s| == 36 {
      assert forall i :: 0 <= i < 36 ==> (IsHex(s[i]) <==>
        s[i] in {'0', '1', '2', '3', '4', '5', '6', '7', '8', '9', 'a', 'b', 'c', 'd', 'e', 'f',
                 'A', 'B', 'C', 'D', 'E', 'F'});
    }
  }

  // ---- the two operations ----

  class ActionStore {
    var storage: map<Request, string>

    constructor (storage: map<Request, string>)
      ensures this.storage == storage
    {
      this.storage := storage;
    }

    method RetainedAction(request: Request, randomUUID: string) returns (r: Result<Handle>)
      modifies this
      ensures match Called(old(storage), request, randomUUID)
              case Err(error) => r == Err(error) && storage == old(storage)
              case Ok(id) => r == Ok(Handle(request, id)) && storage == old(storage)[request := id]
      ensures request !in old(storage) ==>
        r == Ok(Handle(request, randomUUID)) && storage == old(storage)[request := randomUUID]
      ensures request in old(storage) ==>
        && storage == old(storage)
        && r == if IsUuid(old(storage)[request]) then Ok(Handle(request, old(storage)[request]))
                else Err("Saved action identity is invalid")
    {
      var previous := if request in storage then Some(storage[request]) else None;
      if previous.Some? && !IsUuid(previous.value) {
        return Err("Saved action identity is invalid");
      }
      var id := if previous.Some? then previous.value else randomUUID;
      if previous.None? {
        storage := storage[request := id];
      }
      assert storage == old(storage)[request := id];
      return Ok(Handle(request, id));
    }

    method Delivered(handle: Handle, reply: Reply)
      modifies this
      ensures storage == Replied(old(storage), handle, reply)
      ensures handle.request in old(storage) && handle.request !in storage
              <==> (Conclusive(reply) && handle.request in old(storage) && old(storage)[handle.request] == handle.id)
      ensures forall r :: r != handle.request || !Conclusive(reply) ==>
                (r in storage <==> r in old(storage)) && (r in storage ==> storage[r] == old(storage)[r])
    {
      if !Conclusive(reply) {
        return;
      }
      if handle.request in storage && storage[handle.request] == handle.id {
        storage := storage - {handle.request};
      }
    }
  }

  /** The identity a call gets. */
  function Called(storage: map<Request, string>, request: Request, randomUUID: string): Result<string>
  {
    if request !in storage then Ok(randomUUID)
    else if IsUuid(storage[request]) then Ok(storage[request])
    else Err("Saved action identity is invalid")
  }

  function Replied(storage: map<Request, string>, handle: Handle, reply: Reply): map<Request, string>
  {
    if Conclusive(reply) && handle.request in storage && storage[handle.request] == handle.id then
      storage - {handle.request}
    else storage
  }

  // ---- interleavings ----

  datatype World = World(storage: map<Request, string>, handles: seq<Handle>, used: set<string>)

  datatype Op = Call(request: Request, randomUUID: string) | Deliver(handle: nat, reply: Reply)

  predicate Possible(w: World, op: Op)
  {
    match op
    case Call(_, randomUUID) => IsUuid(randomUUID) && randomUUID !in w.used
    case Deliver(handle, _) => handle < |w.handles|
  }

  function Next(w: World, op: Op): World
    requires Possible(w, op)
  {
    match op
    case Deliver(handle, reply) => w.(storage := Replied(w.storage, w.handles[handle], reply))
    case Call(request, randomUUID) =>
      match Called(w.storage, request, randomUUID)
      case Err(_) => w.(used := w.used + {randomUUID})
      case Ok(id) => World(w.storage[request := id], w.handles + [Handle(request, id)], w.used + {randomUUID})
  }

  ghost predicate Valid(w: World)
  {
    forall r :: r in w.storage ==> w.storage[r] in w.used
  }

  lemma NextValid(w: World, op: Op)
    requires Valid(w) && Possible(w, op)
    ensures Valid(Next(w, op))
  {
  }

  ghost predicate Runs(w: World, ops: seq<Op>)
    decreases ops
  {
    ops == [] || (Possible(w, ops[0]) && Runs(Next(w, ops[0]), ops[1..]))
  }

  ghost function After(w: World, ops: seq<Op>): World
    requires Runs(w, ops)
    decreases ops
  {
    if ops == [] then w else After(Next(w, ops[0]), ops[1..])
  }

  /** Some reply in the run settles the action that `handle` stands for. */
  ghost predicate Settles(w: World, ops: seq<Op>, handle: Handle)
    requires Runs(w, ops)
    decreases ops
  {
    ops != [] && (SettlesNow(w, ops[0], handle) || Settles(Next(w, ops[0]), ops[1..], handle))
  }

  predicate SettlesNow(w: World, op: Op, handle: Handle)
    requires Possible(w, op)
  {
    op.Deliver? && w.handles[op.handle] == handle && Conclusive(op.reply)
  }

  lemma {:induction false} HandlesGrow(w: World, ops: seq<Op>)
    requires Runs(w, ops)
    ensures w.handles <= After(w, ops).handles
    decreases ops
  {
    if ops != [] {
      HandlesGrow(Next(w, ops[0]), ops[1..]);
    }
  }

  /** A retired identity: used before, and stored nowhere. */
  ghost predicate Retired(w: World, id: string)
  {
    id in w.used && forall r :: r in w.storage ==> w.storage[r] != id
  }

  /** A retired identity never comes back: it is not stored again, and no later call gets it. */
  lemma {:induction false} RetiredForever(w: World, ops: seq<Op>, id: string)
    requires Valid(w) && Runs(w, ops) && Retired(w, id)
    ensures var end := After(w, ops);
            && Retired(end, id)
            && |w.handles| <= |end.handles|
            && forall k :: |w.handles| <= k < |end.handles| ==> end.handles[k].id != id
    decreases ops
  {
    if ops != [] {
      var next := Next(w, ops[0]);
      NextValid(w, ops[0]);
      RetiredForever(next, ops[1..], id);
      HandlesGrow(next, ops[1..]);
    }
  }

  /** Every identity is stored under at most one request. */
  ghost predicate OneRequest(w: World)
  {
    forall r, s :: r in w.storage && s in w.storage && w.storage[r] == w.storage[s] ==> r == s
  }

  lemma {:induction false} OneRequestKept(w: World, ops: seq<Op>)
    requires Valid(w) && OneRequest(w) && Runs(w, ops)
    ensures Valid(After(w, ops)) && OneRequest(After(w, ops))
    decreases ops
  {
    if ops != [] {
      NextValid(w, ops[0]);
      OneRequestKept(Next(w, ops[0]), ops[1..]);
    }
  }

  /** While an identity is stored for a request, every call for the request shares it; it is
      still stored afterwards exactly when no conclusive reply to it arrived in between. */
  lemma {:induction false} SharedUntilSettled(w: World, ops: seq<Op>, request: Request, id: string)
    requires Valid(w) && OneRequest(w) && Runs(w, ops)
    requires request in w.storage && w.storage[request] == id && IsUuid(id)
    ensures var end := After(w, ops);
            && ((request in end.storage && end.storage[request] == id) <==> !Settles(w, ops, Handle(request, id)))
            && (!Settles(w, ops, Handle(request, id)) ==>
                  |w.handles| <= |end.handles|
                  && forall k :: |w.handles| <= k < |end.handles| && end.handles[k].request == request ==>
                      end.handles[k].id == id)
    decreases ops
  {
    if ops != [] {
      var next := Next(w, ops[0]);
      NextValid(w, ops[0]);
      OneRequestKept(w, [ops[0]]);
      assert After(w, [ops[0]]) == next;
      HandlesGrow(next, ops[1..]);
      if SettlesNow(w, ops[0], Handle(request, id)) {
        SettledRetires(w, ops[0], request, id);
        RetiredForever(next, ops[1..], id);
      } else {
        SharedUntilSettled(next, ops[1..], request, id);
      }
    }
  }

  lemma SettledRetires(w: World, op: Op, request: Request, id: string)
    requires Valid(w) && OneRequest(w) && Possible(w, op)
    requires request in w.storage && w.storage[request] == id
    requires SettlesNow(w, op, Handle(request, id))
    ensures Retired(Next(w, op), id) && request !in Next(w, op).storage
  {
  }

  /** A late reply for a retired identity, of whatever kind, leaves every successor in place. */
  lemma LateReplyHarmless(w: World, handle: nat, reply: Reply)
    requires handle < |w.handles| && Retired(w, w.handles[handle].id)
    ensures Next(w, Deliver(handle, reply)) == w
  {
  }
}

/** The `requests` slice of the Redux store (src/utils/connectionRequestSlice.js):
    the list of received connection requests, replaced wholesale after a fetch
    and filtered by id after a review. */
module ConnectionRequests {

  /** A received request; only `id` (`_id`) matters to the reducer. */
  datatype Request = Request(id: string, fromUserId: string)

  datatype Action =
    | AddConnectionRequest(payload: seq<Request>)
    | RemoveConnectionRequest(id: string)
    | Unrelated

  const Initial: seq<Request> := []

  /** `a` is `b` with some elements left out, the rest in their original order. */
  predicate IsSubsequence(a: seq<Request>, b: seq<Request>)
    decreases |b|
  {
    if a == [] then true
    else if b == [] then false
    else if a[0] == b[0] then IsSubsequence(a[1..], b[1..])
    else IsSubsequence(a, b[1..])
  }

  /** The requests whose id differs from `id`: none with that id survives, every
      other one does (as often as it occurred), in the same relative order. */
  function RemoveById(state: seq<Request>, id: string): (r: seq<Request>)
    ensures forall x :: x in r ==> x.id != id
    ensures forall x :: x in state && x.id != id ==> x in r
    ensures IsSubsequence(r, state)
  {
    if state == [] then []
    else
      var rest := RemoveById(state[1..], id);
      assert state == [state[0]] + state[1..];
      if state[0].id == id then rest
      else [state[0]] + rest
  }

  /** Removal keeps every other request as often as it occurred and drops
      every copy of a request with the id. */
  lemma {:induction false} RemoveKeepsMultiplicity(state: seq<Request>, id: string, x: Request)
    ensures multiset(RemoveById(state, id))[x] == if x.id == id then 0 else multiset(state)[x]
  {
    if state != [] {
      RemoveKeepsMultiplicity(state[1..], id, x);
      assert state == [state[0]] + state[1..];
      assert multiset(state) == multiset{state[0]} + multiset(state[1..]);
      if state[0].id != id {
        assert RemoveById(state, id) == [state[0]] + RemoveById(state[1..], id);
      }
    }
  }

  /** The reducer: a fetch result replaces the list, a removal filters it, and
      any other action leaves it alone. */
  function Reduce(state: seq<Request>, action: Action): (r: seq<Request>)
    ensures action.AddConnectionRequest? ==> r == action.payload
    ensures action.RemoveConnectionRequest? ==>
      && (forall x :: x in r ==> x.id != action.id)
      && (forall x :: x in state && x.id != action.id ==> x in r)
      && IsSubsequence(r, state)
    ensures action.RemoveConnectionRequest? ==> r == RemoveById(state, action.id)
    ensures action.Unrelated? ==> r == state
  {
    match action
    case AddConnectionRequest(payload) => payload
    case RemoveConnectionRequest(id) => RemoveById(state, id)
    case Unrelated => state
  }

  lemma {:induction false} RemoveAbsentUnchanged(state: seq<Request>, id: string)
    requires forall x :: x in state ==> x.id != id
    ensures RemoveById(state, id) == state
  {
    if state != [] {
      assert state[0] in state;
      assert forall x :: x in state[1..] ==> x in state;
      RemoveAbsentUnchanged(state[1..], id);
      assert state == [state[0]] + state[1..];
    }
  }

  /** Removing an id changes the list exactly when some request carries it. */
  lemma RemoveAbsentIsIdentity(state: seq<Request>, id: string)
    ensures RemoveById(state, id) == state <==> forall x :: x in state ==> x.id != id
  {
    if forall x :: x in state ==> x.id != id {
      RemoveAbsentUnchanged(state, id);
    }
  }

  /** Removing the same id twice is removing it once. */
  lemma RemoveIdempotent(state: seq<Request>, id: string)
    ensures RemoveById(RemoveById(state, id), id) == RemoveById(state, id)
  {
    RemoveAbsentIsIdentity(RemoveById(state, id), id);
  }

  /** After a removal the list is strictly shorter exactly when the id was present. */
  lemma {:induction false} RemoveShrinks(state: seq<Request>, id: string)
    ensures |RemoveById(state, id)| <= |state|
    ensures |RemoveById(state, id)| < |state| <==> exists x :: x in state && x.id == id
  {
    if state != [] {
      RemoveShrinks(state[1..], id);
      assert forall x :: x in state <==> x == state[0] || x in state[1..];
      if state[0].id == id {
        assert state[0] in state;
      }
    }
  }

  /** Two reviews leave the same list in whichever order they complete. */
  lemma {:induction false} RemovalsCommute(state: seq<Request>, a: string, b: string)
    ensures RemoveById(RemoveById(state, a), b) == RemoveById(RemoveById(state, b), a)
  {
    if state != [] {
      RemovalsCommute(state[1..], a, b);
    }
  }
}

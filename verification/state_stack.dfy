/**
 * The state stack: a stack of (state id, owned state) pairs, a FIFO list of
 * pending changes and a registry of state factories. Changes requested with
 * pushState/popState/removeState/clearStates are only queued; they are
 * applied, in request order, at the end of every handleEvent and update.
 *
 * A state is modelled by what the stack observes of it: for each event and
 * each time step, whether the traversal goes on to the state below, and
 * which changes the state queued while it ran.
 */
module StateStacks {
  import opened Events
  import StdAlgorithms

  /** StateID::ID */
  datatype StateID =
    | None | Title | Menu | Intro | Loading | Game | Pause
    | MultiplayerConnect | MultiplayerLobby | Multiplayer | SaveGame | LoadGame
    | Highscore | Achievements | Challenges | Replays | Deck | Options | Help
    | About | GameOver | Victory | Defeat | Outro | Credits
    | Other1 | Other2 | Other3 | Other4 | Other5

  /** StateStack::Action */
  datatype Action = Push | Pop | Remove | Clear

  /** StateStack::PendingChange; the id is StateID::None unless given. */
  datatype PendingChange = PendingChange(action: Action, stateId: StateID)

  /** What a state's handleEvent or update returns, and what it queued meanwhile. */
  datatype Response = Response(propagate: bool, requests: seq<PendingChange>)

  /**
   * A state as the stack sees it: how its handleEvent and update answer.
   * The state object itself, with its scene graph, is States.State.
   */
  datatype StateBehaviour = StateBehaviour(onEvent: Event -> Response, onUpdate: int -> Response)

  /** std::unique_ptr<State>: Null once the state has been moved out. */
  datatype StatePtr = Null | Owned(state: StateBehaviour)

  datatype Entry = Entry(id: StateID, ptr: StatePtr)

  /** The two top-down traversals. */
  datatype Pass = EventPass(event: Event) | UpdatePass(dt: int)

  /** The visited stack indices, in visiting order, and the changes queued meanwhile. */
  datatype Trace = Trace(visited: seq<nat>, requests: seq<PendingChange>)

  function Respond(s: StateBehaviour, pass: Pass): Response
  {
    match pass
    case EventPass(e) => s.onEvent(e)
    case UpdatePass(dt) => s.onUpdate(dt)
  }

  /** The base State's handleEvent and update: always let the traversal go on, queue nothing. */
  function Default(): (s: StateBehaviour)
    ensures forall e :: s.onEvent(e) == Response(true, [])
    ensures forall dt :: s.onUpdate(dt) == Response(true, [])
  {
    StateBehaviour(_ => Response(true, []), _ => Response(true, []))
  }

  /** Every entry the top-down traversal from index top-1 reaches holds a state. */
  ghost predicate WalkDefined(stack: seq<Entry>, pass: Pass, top: nat)
    requires top <= |stack|
    decreases top
  {
    top == 0 ||
    (stack[top - 1].ptr.Owned? &&
     (Respond(stack[top - 1].ptr.state, pass).propagate ==> WalkDefined(stack, pass, top - 1)))
  }

  /**
   * The traversal from index top-1 down to 0, stopping after the first
   * state whose answer is false.
   */
  function Walk(stack: seq<Entry>, pass: Pass, top: nat): (t: Trace)
    requires top <= |stack| && WalkDefined(stack, pass, top)
    ensures |t.visited| <= top
    decreases top
  {
    if top == 0 then Trace([], [])
    else
      var r := Respond(stack[top - 1].ptr.state, pass);
      var rest := if r.propagate then Walk(stack, pass, top - 1) else Trace([], []);
      Trace([top - 1] + rest.visited, r.requests + rest.requests)
  }

  /**
   * The traversal visits a run of entries from the top down, without gaps;
   * every visited state but the last said to go on; and it stops early only
   * because the last visited state said false.
   */
  lemma {:induction false} WalkShape(stack: seq<Entry>, pass: Pass, top: nat)
    requires top <= |stack| && WalkDefined(stack, pass, top)
    ensures var v := Walk(stack, pass, top).visited;
            |v| <= top && (top > 0 ==> |v| > 0) &&
            (forall i :: 0 <= i < |v| ==> v[i] == top - 1 - i) &&
            (forall i :: 0 <= i < |v| ==> stack[v[i]].ptr.Owned?) &&
            (forall i :: 0 <= i < |v| - 1 ==> Respond(stack[v[i]].ptr.state, pass).propagate) &&
            (|v| < top ==> !Respond(stack[v[|v| - 1]].ptr.state, pass).propagate)
    decreases top
  {
    if top > 0 {
      var r := Respond(stack[top - 1].ptr.state, pass);
      if r.propagate {
        WalkShape(stack, pass, top - 1);
      }
    }
  }

  /** When every state lets the traversal go on, every state is visited, top to bottom. */
  lemma {:induction false} WalkVisitsAll(stack: seq<Entry>, pass: Pass, top: nat)
    requires top <= |stack|
    requires forall i :: 0 <= i < top ==> stack[i].ptr.Owned?
    requires forall i :: 0 <= i < top ==> Respond(stack[i].ptr.state, pass).propagate
    ensures WalkDefined(stack, pass, top)
    ensures Walk(stack, pass, top).visited == seq(top, i => top - 1 - i)
    decreases top
  {
    if top > 0 {
      WalkVisitsAll(stack, pass, top - 1);
    }
  }

  /** A stack of base states is traversed completely. */
  lemma DefaultStatesVisitAll(stack: seq<Entry>, pass: Pass)
    requires forall i :: 0 <= i < |stack| ==> stack[i].ptr == Owned(Default())
    ensures WalkDefined(stack, pass, |stack|)
    ensures Walk(stack, pass, |stack|).visited == seq(|stack|, i => |stack| - 1 - i)
  {
    WalkVisitsAll(stack, pass, |stack|);
  }

  function SizeAfter(n: nat, c: PendingChange): nat
    requires c.action == Pop ==> n > 0
  {
    match c.action
    case Push => n + 1
    case Pop => n - 1
    case Remove => n
    case Clear => 0
  }

  /**
   * A change is applicable to a stack of n entries: a pushed id must have a
   * registered factory (createState asserts it), and popping needs an entry.
   */
  ghost predicate ChangeDefined(n: nat, c: PendingChange, factories: map<StateID, StateBehaviour>)
  {
    (c.action == Push ==> c.stateId in factories) && (c.action == Pop ==> n > 0)
  }

  ghost predicate ChangesDefined(n: nat, pending: seq<PendingChange>, factories: map<StateID, StateBehaviour>)
    decreases |pending|
  {
    |pending| == 0 ||
    (ChangeDefined(n, pending[0], factories) &&
     ChangesDefined(SizeAfter(n, pending[0]), pending[1..], factories))
  }

  /** Which entries a Remove of id selects. */
  function IdMarks(stack: seq<Entry>, id: StateID): (marks: seq<bool>)
    ensures |marks| == |stack|
    ensures forall i :: 0 <= i < |stack| ==> (marks[i] <==> stack[i].id == id)
  {
    seq(|stack|, i requires 0 <= i < |stack| => stack[i].id == id)
  }

  /** What moving an entry out leaves behind: the id, and a null state pointer. */
  function Hollow(e: Entry): Entry
  {
    e.(ptr := Null)
  }

  /** The stack after applying one change. */
  function Apply(stack: seq<Entry>, c: PendingChange, factories: map<StateID, StateBehaviour>): (r: seq<Entry>)
    requires ChangeDefined(|stack|, c, factories)
    ensures |r| == SizeAfter(|stack|, c)
  {
    match c.action
    case Push => stack + [Entry(c.stateId, Owned(factories[c.stateId]))]
    case Pop => stack[..|stack| - 1]
    case Remove => StdAlgorithms.AfterRemoveIf(stack, IdMarks(stack, c.stateId), Hollow)
    case Clear => []
  }

  /** The stack after applying the changes in request order. */
  function ApplyChanges(stack: seq<Entry>, pending: seq<PendingChange>, factories: map<StateID, StateBehaviour>): (r: seq<Entry>)
    requires ChangesDefined(|stack|, pending, factories)
    ensures |r| <= |stack| + |pending|
    ensures (forall i :: 0 <= i < |pending| ==> pending[i].action == Remove) ==> |r| == |stack|
    ensures pending == [] ==> r == stack
    decreases |pending|
  {
    if |pending| == 0 then stack
    else ApplyChanges(Apply(stack, pending[0], factories), pending[1..], factories)
  }

  /** Applying two batches of changes one after the other is applying them in one batch. */
  lemma {:induction false} ApplyChangesAppend(stack: seq<Entry>, p1: seq<PendingChange>, p2: seq<PendingChange>,
                                              factories: map<StateID, StateBehaviour>)
    requires ChangesDefined(|stack|, p1, factories)
    requires ChangesDefined(|ApplyChanges(stack, p1, factories)|, p2, factories)
    ensures ChangesDefined(|stack|, p1 + p2, factories)
    ensures ApplyChanges(stack, p1 + p2, factories) == ApplyChanges(ApplyChanges(stack, p1, factories), p2, factories)
    decreases |p1|
  {
    if |p1| == 0 {
      assert p1 + p2 == p2;
    } else {
      assert (p1 + p2)[0] == p1[0];
      assert (p1 + p2)[1..] == p1[1..] + p2;
      ApplyChangesAppend(Apply(stack, p1[0], factories), p1[1..], p2, factories);
    }
  }

  /** Push X, push Y, pop: the stack ends up with X on top. */
  lemma PushPushPop(stack: seq<Entry>, x: StateID, y: StateID, factories: map<StateID, StateBehaviour>)
    requires x in factories && y in factories
    ensures var p := [PendingChange(Push, x), PendingChange(Push, y), PendingChange(Pop, None)];
            ChangesDefined(|stack|, p, factories) &&
            ApplyChanges(stack, p, factories) == stack + [Entry(x, Owned(factories[x]))]
  {
    var p := [PendingChange(Push, x), PendingChange(Push, y), PendingChange(Pop, None)];
    var p1 := [PendingChange(Push, y), PendingChange(Pop, None)];
    var p2 := [PendingChange(Pop, None)];
    assert p[1..] == p1 && p1[1..] == p2 && p2[1..] == [];
    var s1 := stack + [Entry(x, Owned(factories[x]))];
    var s2 := s1 + [Entry(y, Owned(factories[y]))];
    assert ChangesDefined(|s2|, p2, factories);
    assert ChangesDefined(|s1|, p1, factories);
    assert ChangesDefined(|stack|, p, factories);
    assert Apply(s2, p2[0], factories) == s1 by {
      assert s2[..|s2| - 1] == s1;
    }
    assert ApplyChanges(s2, p2, factories) == s1;
    assert ApplyChanges(s1, p1, factories) == s1;
  }

  /**
   * Removing states that are all at the top of the stack (no entry with
   * another id above them) leaves the stack exactly as it was: remove_if
   * without erase has nothing to move and nothing is erased.
   */
  lemma RemoveTopmostKeepsStack(stack: seq<Entry>, id: StateID, m: nat, factories: map<StateID, StateBehaviour>)
    requires m <= |stack|
    requires forall i :: 0 <= i < m ==> stack[i].id != id
    requires forall i :: m <= i < |stack| ==> stack[i].id == id
    ensures Apply(stack, PendingChange(Remove, id), factories) == stack
  {
    StdAlgorithms.RemoveIfMarkedSuffix(stack, IdMarks(stack, id), Hollow, m);
  }

  /**
   * Removing the bottom state of [Menu, Game] gives [Game, Game] where the
   * upper Game entry has lost its state: the stack does not shrink and a null
   * state is left on top.
   */
  lemma RemoveBottomLeavesNull(menu: StateBehaviour, game: StateBehaviour, factories: map<StateID, StateBehaviour>)
    ensures Apply([Entry(Menu, Owned(menu)), Entry(Game, Owned(game))], PendingChange(Remove, Menu), factories)
            == [Entry(Game, Owned(game)), Entry(Game, Null)]
  {
    var s := [Entry(Menu, Owned(menu)), Entry(Game, Owned(game))];
    var marks := IdMarks(s, Menu);
    assert marks == [true, false];
    assert s[..1] == [Entry(Menu, Owned(menu))] && marks[..1] == [true];
    assert s[..1][..0] == [] && marks[..1][..0] == [];
    assert StdAlgorithms.Kept(s[..1], marks[..1]) == [];
    assert s[..2] == s && marks[..2] == marks;
    var kept := StdAlgorithms.Kept(s, marks);
    assert kept == [Entry(Game, Owned(game))];
    var r := StdAlgorithms.AfterRemoveIf(s, marks, Hollow);
    assert r[0] == Entry(Game, Owned(game));
    assert r[1] == Hollow(s[1]);
  }

  /**
   * What the next frame meets after removing the bottom state of
   * [Menu, Game]: the top entry holds a null state, so neither traversal nor
   * drawing can reach every entry. StateStack::handleEvent, update and draw
   * dereference that null pointer, which is undefined behaviour.
   */
  lemma RemoveBelowBreaksNextFrame(menu: StateBehaviour, game: StateBehaviour, factories: map<StateID, StateBehaviour>, pass: Pass)
    ensures var after := Apply([Entry(Menu, Owned(menu)), Entry(Game, Owned(game))], PendingChange(Remove, Menu), factories);
            |after| == 2 && !WalkDefined(after, pass, |after|) && !after[|after| - 1].ptr.Owned?
  {
    RemoveBottomLeavesNull(menu, game, factories);
  }

  /** The first (bottom-most) index whose id matches, or |stack| when there is none. */
  function FirstMatch(stack: seq<Entry>, id: StateID): (i: nat)
    ensures i <= |stack|
    ensures i < |stack| ==> stack[i].id == id
    ensures forall j :: 0 <= j < i ==> stack[j].id != id
    decreases |stack|
  {
    if |stack| == 0 then 0
    else if stack[0].id == id then 0
    else 1 + FirstMatch(stack[1..], id)
  }

  class StateStack {
    var stack: seq<Entry>
    var pendingList: seq<PendingChange>
    var factories: map<StateID, StateBehaviour>

    constructor ()
      ensures stack == [] && pendingList == [] && factories == map[]
    {
      stack := [];
      pendingList := [];
      factories := map[];
    }

    /** StateStack::registerState: a later registration for the same id replaces the earlier one. */
    method RegisterState(id: StateID, s: StateBehaviour)
      modifies this
      ensures factories == old(factories)[id := s]
      ensures stack == old(stack) && pendingList == old(pendingList)
    {
      factories := factories[id := s];
    }

    /** StateStack::pushState: only queued. */
    method PushState(id: StateID)
      modifies this
      ensures pendingList == old(pendingList) + [PendingChange(Push, id)]
      ensures stack == old(stack) && factories == old(factories)
    {
      pendingList := pendingList + [PendingChange(Push, id)];
    }

    /** StateStack::popState: only queued. */
    method PopState()
      modifies this
      ensures pendingList == old(pendingList) + [PendingChange(Pop, None)]
      ensures stack == old(stack) && factories == old(factories)
    {
      pendingList := pendingList + [PendingChange(Pop, None)];
    }

    /** StateStack::removeState: only queued. */
    method RemoveState(id: StateID)
      modifies this
      ensures pendingList == old(pendingList) + [PendingChange(Remove, id)]
      ensures stack == old(stack) && factories == old(factories)
    {
      pendingList := pendingList + [PendingChange(Remove, id)];
    }

    /** StateStack::clearStates: only queued. */
    method ClearStates()
      modifies this
      ensures pendingList == old(pendingList) + [PendingChange(Clear, None)]
      ensures stack == old(stack) && factories == old(factories)
    {
      pendingList := pendingList + [PendingChange(Clear, None)];
    }

    /** StateStack::getState: the state of the bottom-most entry with the id, or null. */
    method GetState(id: StateID) returns (ptr: StatePtr)
      ensures FirstMatch(stack, id) < |stack| ==> ptr == stack[FirstMatch(stack, id)].ptr
      ensures FirstMatch(stack, id) == |stack| ==> ptr == Null
    {
      var i := 0;
      while i < |stack|
        invariant 0 <= i <= |stack|
        invariant forall j :: 0 <= j < i ==> stack[j].id != id
      {
        if stack[i].id == id {
          assert FirstMatch(stack, id) == i by { FirstMatchIs(stack, id, i); }
          return stack[i].ptr;
        }
        i := i + 1;
      }
      FirstMatchIs(stack, id, |stack|);
      return Null;
    }

    /** StateStack::createState: the registered factory must exist. */
    method CreateState(id: StateID) returns (s: StateBehaviour)
      requires id in factories
      ensures s == factories[id]
    {
      s := factories[id];
    }

    /** StateStack::applyPendingChanges: every queued change, in request order; then the queue is empty. */
    method ApplyPendingChanges()
      requires ChangesDefined(|stack|, pendingList, factories)
      modifies this
      ensures stack == ApplyChanges(old(stack), old(pendingList), old(factories))
      ensures pendingList == [] && factories == old(factories)
    {
      var i := 0;
      while i < |pendingList|
        invariant 0 <= i <= |pendingList|
        invariant pendingList == old(pendingList) && factories == old(factories)
        invariant ChangesDefined(|stack|, pendingList[i..], factories)
        invariant ApplyChanges(stack, pendingList[i..], factories) == ApplyChanges(old(stack), old(pendingList), factories)
      {
        var change := pendingList[i];
        assert pendingList[i..][0] == change && pendingList[i..][1..] == pendingList[i + 1..];
        ghost var expected := Apply(stack, change, factories);
        match change.action {
          case Push =>
            var s := CreateState(change.stateId);
            stack := stack + [Entry(change.stateId, Owned(s))];
          case Pop =>
            stack := stack[..|stack| - 1];
          case Remove =>
            var entries := stack;
            var swept, _ := StdAlgorithms.RemoveIf(entries, IdMarks(entries, change.stateId), Hollow);
            stack := swept;
          case Clear =>
            stack := [];
        }
        assert stack == expected;
        i := i + 1;
      }
      pendingList := [];
    }

    /**
     * The top-down traversal shared by handleEvent and update: each state
     * from the top runs, queueing its requests, until one answers false.
     */
    method Propagate(pass: Pass) returns (visited: seq<nat>)
      requires WalkDefined(stack, pass, |stack|)
      modifies this
      ensures visited == Walk(old(stack), pass, |old(stack)|).visited
      ensures pendingList == old(pendingList) + Walk(old(stack), pass, |old(stack)|).requests
      ensures stack == old(stack) && factories == old(factories)
    {
      var entries := stack;
      ghost var whole := Walk(entries, pass, |entries|);
      visited := [];
      ghost var queued: seq<PendingChange> := [];
      var i := |entries|;
      while i > 0
        invariant 0 <= i <= |entries| && WalkDefined(entries, pass, i)
        invariant stack == entries && factories == old(factories)
        invariant pendingList == old(pendingList) + queued
        invariant whole.visited == visited + Walk(entries, pass, i).visited
        invariant whole.requests == queued + Walk(entries, pass, i).requests
      {
        var r := Respond(entries[i - 1].ptr.state, pass);
        WalkStep(entries, pass, i, whole, visited, queued);
        visited := visited + [i - 1];
        pendingList := pendingList + r.requests;
        queued := queued + r.requests;
        if !r.propagate {
          break;
        }
        i := i - 1;
      }
    }

    /** StateStack::handleEvent: the traversal, then the queued changes are applied. */
    method HandleEvent(event: Event) returns (visited: seq<nat>)
      requires WalkDefined(stack, EventPass(event), |stack|)
      requires ChangesDefined(|stack|, pendingList + Walk(stack, EventPass(event), |stack|).requests, factories)
      modifies this
      ensures visited == Walk(old(stack), EventPass(event), |old(stack)|).visited
      ensures stack == ApplyChanges(old(stack), old(pendingList) + Walk(old(stack), EventPass(event), |old(stack)|).requests, old(factories))
      ensures pendingList == [] && factories == old(factories)
    {
      visited := Propagate(EventPass(event));
      ApplyPendingChanges();
    }

    /** StateStack::update: the traversal, then the queued changes are applied. */
    method Update(dt: int) returns (visited: seq<nat>)
      requires WalkDefined(stack, UpdatePass(dt), |stack|)
      requires ChangesDefined(|stack|, pendingList + Walk(stack, UpdatePass(dt), |stack|).requests, factories)
      modifies this
      ensures visited == Walk(old(stack), UpdatePass(dt), |old(stack)|).visited
      ensures stack == ApplyChanges(old(stack), old(pendingList) + Walk(old(stack), UpdatePass(dt), |old(stack)|).requests, old(factories))
      ensures pendingList == [] && factories == old(factories)
    {
      visited := Propagate(UpdatePass(dt));
      ApplyPendingChanges();
    }

    /** StateStack::draw: every entry's state drawn once, bottom to top; the result lists the ids in drawing order. */
    method Draw() returns (drawn: seq<StateID>)
      requires forall i :: 0 <= i < |stack| ==> stack[i].ptr.Owned?
      ensures |drawn| == |stack|
      ensures forall i :: 0 <= i < |stack| ==> drawn[i] == stack[i].id
    {
      drawn := [];
      for i := 0 to |stack|
        invariant |drawn| == i
        invariant forall j :: 0 <= j < i ==> drawn[j] == stack[j].id
      {
        var entry := stack[i];
        var _ := entry.ptr.state;  // the state drawn: dereferencing needs an owned pointer
        drawn := drawn + [entry.id];
      }
    }
  }

  /**
   * One step of the traversal: if the whole trace is the prefixes v and q
   * followed by the walk from top, it is also the prefixes extended by the
   * top state's answer followed by the walk below it, or just the extended
   * prefixes when the top state stops the walk.
   */
  lemma WalkStep(stack: seq<Entry>, pass: Pass, top: nat, whole: Trace, v: seq<nat>, q: seq<PendingChange>)
    requires 0 < top <= |stack| && WalkDefined(stack, pass, top)
    requires whole.visited == v + Walk(stack, pass, top).visited
    requires whole.requests == q + Walk(stack, pass, top).requests
    ensures var r := Respond(stack[top - 1].ptr.state, pass);
            (r.propagate ==>
               whole.visited == (v + [top - 1]) + Walk(stack, pass, top - 1).visited &&
               whole.requests == (q + r.requests) + Walk(stack, pass, top - 1).requests) &&
            (!r.propagate ==> whole.visited == v + [top - 1] && whole.requests == q + r.requests)
  {
    var r := Respond(stack[top - 1].ptr.state, pass);
    if r.propagate {
      var rest := Walk(stack, pass, top - 1);
      assert v + ([top - 1] + rest.visited) == (v + [top - 1]) + rest.visited;
      assert q + (r.requests + rest.requests) == (q + r.requests) + rest.requests;
    } else {
      assert Walk(stack, pass, top) == Trace([top - 1], r.requests);
    }
  }

  lemma {:induction false} FirstMatchIs(stack: seq<Entry>, id: StateID, i: nat)
    requires i <= |stack|
    requires i < |stack| ==> stack[i].id == id
    requires forall j :: 0 <= j < i ==> stack[j].id != id
    ensures FirstMatch(stack, id) == i
    decreases |stack|
  {
    if |stack| > 0 && stack[0].id != id {
      FirstMatchIs(stack[1..], id, i - 1);
    }
  }
}

/**
 * The generic state machine: a state is recognised by conditions on the fields of an object, and
 * the machine is built from a list of transitions.
 */
module StateMachine {
  import opened Wrappers
  import opened Objects

  type Path = seq<string>

  datatype Condition<+A> =
    | FieldIs(path: Path, notSet: bool)
    | ValueIs(path: Path, value: A)
    | OneOfValues(path: Path, value1: A, value2: A)
    | Require(conds: seq<Condition<A>>, validation: Option<Condition<A>>)

  datatype MatchResult = MatchResult(success: bool, matched: seq<Path>, mismatched: seq<Path>)

  /** Raised when the conditions of a state hold but its validation does not. */
  datatype ConditionValidationError = ConditionValidationError(result: MatchResult)

  datatype Outcome = Matched(result: MatchResult) | Raised(error: ConditionValidationError)

  function Leaf(success: bool, path: Path): Outcome
  {
    Matched(MatchResult(success, if success then [path] else [], if success then [] else [path]))
  }

  function Merge(a: MatchResult, b: MatchResult): MatchResult
  {
    MatchResult(a.success && b.success, a.matched + b.matched, a.mismatched + b.mismatched)
  }

  function Match<A(==)>(c: Condition<A>, v: Value<A>): Outcome
    decreases c, 1
  {
    match c
    case FieldIs(path, notSet) =>
      var found := Walk(v, path);
      Leaf(found.Some? && found.value.Null? == notSet, path)
    case ValueIs(path, value) =>
      var found := Walk(v, path);
      Leaf(found.Some? && found.value.Atom? && found.value.atom == value, path)
    case OneOfValues(path, value1, value2) =>
      var found := Walk(v, path);
      Leaf(found.Some? && found.value.Atom? && (found.value.atom == value1 || found.value.atom == value2), path)
    case Require(conds, validation) =>
      match MatchAll(conds, v)
      case Raised(error) => Raised(error)
      case Matched(result) =>
        if result.success && validation.Some? then
          match Match(validation.value, v)
          case Raised(error) => Raised(error)
          case Matched(more) =>
            var merged := Merge(result, more);
            if merged.success then Matched(merged) else Raised(ConditionValidationError(merged))
        else Matched(result)
  }

  /** The conditions are merged from left to right; the first exception ends the match. */
  function MatchAll<A(==)>(conds: seq<Condition<A>>, v: Value<A>): Outcome
    decreases conds, 0
  {
    if |conds| == 0 then Matched(MatchResult(true, [], []))
    else
      match Match(conds[0], v)
      case Raised(error) => Raised(error)
      case Matched(first) =>
        match MatchAll(conds[1..], v)
        case Raised(error) => Raised(error)
        case Matched(rest) => Matched(Merge(first, rest))
  }

  /** `Require.match`, accumulating over its conditions. */
  method MatchRequire<A(==)>(conds: seq<Condition<A>>, validation: Option<Condition<A>>, v: Value<A>) returns (outcome: Outcome)
    ensures outcome == Match(Require(conds, validation), v)
  {
    var ret := MatchResult(true, [], []);
    for i := 0 to |conds|
      invariant MatchAll(conds, v) == match MatchAll(conds[i..], v)
                                      case Raised(error) => Raised(error)
                                      case Matched(rest) => Matched(Merge(ret, rest))
    {
      var result := Match(conds[i], v);
      assert conds[i..][1..] == conds[i + 1..];
      if result.Raised? {
        return result;
      }
      ret := Merge(ret, result.result);
      MergeAssociates(conds[i + 1..], v);
    }
    assert conds[|conds|..] == [];
    assert Merge(ret, MatchResult(true, [], [])) == ret;
    if ret.success && validation.Some? {
      var more := Match(validation.value, v);
      if more.Raised? {
        return more;
      }
      ret := Merge(ret, more.result);
      if !ret.success {
        return Raised(ConditionValidationError(ret));
      }
    }
    return Matched(ret);
  }

  lemma {:induction false} MergeAssociates<A>(conds: seq<Condition<A>>, v: Value<A>)
    ensures forall a, b, c :: Merge(Merge(a, b), c) == Merge(a, Merge(b, c))
  {
  }

  /** A list of conditions succeeds exactly when every condition does and none raises. */
  lemma {:induction false} MatchAllSucceeds<A>(conds: seq<Condition<A>>, v: Value<A>)
    ensures (MatchAll(conds, v).Matched? && MatchAll(conds, v).result.success)
            <==> forall i :: 0 <= i < |conds| ==> Match(conds[i], v).Matched? && Match(conds[i], v).result.success
    ensures MatchAll(conds, v).Raised? <==> exists i :: 0 <= i < |conds| && Match(conds[i], v).Raised?
  {
    if |conds| > 0 {
      MatchAllSucceeds(conds[1..], v);
      assert forall i :: 0 < i < |conds| ==> conds[i] == conds[1..][i - 1];
      assert forall i :: 0 <= i < |conds[1..]| ==> conds[1..][i] == conds[i + 1];
    }
  }

  /** A result names what failed, and an exception always does. */
  predicate Explained(outcome: Outcome)
  {
    match outcome
    case Matched(result) => result.success <==> result.mismatched == []
    case Raised(error) => !error.result.success && error.result.mismatched != []
  }

  /** A condition succeeds exactly when nothing is reported as mismatched; a simple one reports its path. */
  lemma {:induction false} OutcomeExplained<A>(c: Condition<A>, v: Value<A>)
    ensures Explained(Match(c, v))
    ensures !c.Require? ==> Match(c, v).Matched? && Match(c, v).result.matched + Match(c, v).result.mismatched == [c.path]
    decreases c, 1
  {
    if c.Require? {
      AllExplained(c.conds, v);
      if c.validation.Some? {
        OutcomeExplained(c.validation.value, v);
      }
    }
  }

  lemma {:induction false} AllExplained<A>(conds: seq<Condition<A>>, v: Value<A>)
    ensures Explained(MatchAll(conds, v))
    decreases conds, 0
  {
    if |conds| > 0 {
      OutcomeExplained(conds[0], v);
      AllExplained(conds[1..], v);
    }
  }

  // ---- States, transitions and machines ----

  datatype State<I, A> = State(id: I, requirement: Option<Condition<A>>)

  datatype Transition<I, A> = Transition(from: State<I, A>, to: State<I, A>)

  datatype Machine<!I(==), !A(==)> = Machine(initials: set<State<I, A>>, states: seq<State<I, A>>, transitions: seq<Transition<I, A>>)

  datatype StateMatch<I, A> =
    | StateFound(state: State<I, A>)
    | NoStateMatched
    | TooManyStatesMatched
    | ValidationRaised(error: ConditionValidationError)

  function MatchOne<I, A(==)>(s: State<I, A>, v: Value<A>): Outcome
  {
    if s.requirement.Some? then Match(s.requirement.value, v) else Matched(MatchResult(true, [], []))
  }

  predicate Succeeds<I, A(==)>(s: State<I, A>, v: Value<A>)
  {
    MatchOne(s, v).Matched? && MatchOne(s, v).result.success
  }

  lemma {:induction false} UnconditionalSucceeds<I, A>(s: State<I, A>, v: Value<A>)
    requires s.requirement.None?
    ensures Succeeds(s, v)
  {
  }

  function Successes<I, A(==)>(states: seq<State<I, A>>, v: Value<A>): seq<State<I, A>>
  {
    if |states| == 0 then []
    else (if Succeeds(states[0], v) then [states[0]] else []) + Successes(states[1..], v)
  }

  function FirstRaised<I, A(==)>(states: seq<State<I, A>>, v: Value<A>): Option<ConditionValidationError>
  {
    if |states| == 0 then None
    else if MatchOne(states[0], v).Raised? then Some(MatchOne(states[0], v).error)
    else FirstRaised(states[1..], v)
  }

  /** Every state is tried, so an exception from any of them surfaces before counting matches. */
  function MatchState<I, A(==)>(m: Machine<I, A>, v: Value<A>): StateMatch<I, A>
  {
    var raised := FirstRaised(m.states, v);
    if raised.Some? then ValidationRaised(raised.value)
    else
      var found := Successes(m.states, v);
      if |found| == 0 then NoStateMatched
      else if |found| > 1 then TooManyStatesMatched
      else StateFound(found[0])
  }

  predicate IsValidTransition<I(==), A(==)>(m: Machine<I, A>, from: State<I, A>, to: State<I, A>)
  {
    exists i :: 0 <= i < |m.transitions| && m.transitions[i].from == from && m.transitions[i].to == to
  }

  // ---- Building a machine ----

  predicate Names<I(==), A>(ts: seq<Transition<I, A>>, id: I)
  {
    exists i :: 0 <= i < |ts| && (ts[i].from.id == id || ts[i].to.id == id)
  }

  predicate HasIncoming<I(==), A>(ts: seq<Transition<I, A>>, id: I)
  {
    exists i :: 0 <= i < |ts| && ts[i].to.id == id
  }

  /** The last state object a transition list gives an id to. */
  function LastNamed<I(==), A>(ts: seq<Transition<I, A>>, id: I): Option<State<I, A>>
  {
    if |ts| == 0 then None
    else
      var last := ts[|ts| - 1];
      if last.to.id == id then Some(last.to)
      else if last.from.id == id then Some(last.from)
      else LastNamed(ts[..|ts| - 1], id)
  }

  lemma {:induction false} NamedMeansLastNamed<I, A>(ts: seq<Transition<I, A>>, id: I)
    ensures LastNamed(ts, id).Some? <==> Names(ts, id)
    ensures LastNamed(ts, id).Some? ==> LastNamed(ts, id).value.id == id
    ensures LastNamed(ts, id).Some? ==> exists i :: 0 <= i < |ts| && (ts[i].from == LastNamed(ts, id).value || ts[i].to == LastNamed(ts, id).value)
  {
    if |ts| > 0 {
      var init := ts[..|ts| - 1];
      NamedMeansLastNamed(init, id);
      assert forall i :: 0 <= i < |init| ==> init[i] == ts[i];
    }
  }

  /** Insertion-ordered dictionary of states. */
  function Register<I(==)>(order: seq<I>, id: I): seq<I> { if id in order then order else order + [id] }

  method BuildMachine<I(==), A(==)>(transitions: seq<Transition<I, A>>) returns (m: Machine<I, A>)
    ensures m.transitions == transitions
    ensures forall s :: s in m.states <==> LastNamed(transitions, s.id) == Some(s)
    ensures forall i, j :: 0 <= i < j < |m.states| ==> m.states[i].id != m.states[j].id
    ensures forall s :: s in m.initials <==> LastNamed(transitions, s.id) == Some(s) && !HasIncoming(transitions, s.id)
  {
    var order: seq<I> := [];
    var states: map<I, State<I, A>> := map[];
    var tos: map<I, State<I, A>> := map[];
    for n := 0 to |transitions|
      invariant forall id :: id in states <==> LastNamed(transitions[..n], id).Some?
      invariant forall id :: id in states ==> LastNamed(transitions[..n], id) == Some(states[id]) && states[id].id == id
      invariant forall id :: id in tos <==> HasIncoming(transitions[..n], id)
      invariant forall id :: id in order <==> id in states
      invariant forall i, j :: 0 <= i < j < |order| ==> order[i] != order[j]
    {
      var t := transitions[n];
      assert transitions[..n + 1][..n] == transitions[..n];
      assert transitions[..n + 1][n] == t;
      states := states[t.from.id := t.from];
      order := Register(order, t.from.id);
      states := states[t.to.id := t.to];
      order := Register(order, t.to.id);
      ghost var before := tos;
      tos := tos[t.to.id := t.to];
      forall id ensures id in tos <==> HasIncoming(transitions[..n + 1], id) {
        IncomingSnoc(transitions[..n], t, id);
        assert transitions[..n + 1] == transitions[..n] + [t];
      }
    }
    assert transitions[..|transitions|] == transitions;
    var initialIds := states.Keys - tos.Keys;
    m := Machine(set id | id in initialIds :: states[id],
                 seq(|order|, i requires 0 <= i < |order| => states[order[i]]),
                 transitions);
    forall s ensures s in m.states <==> LastNamed(transitions, s.id) == Some(s) {
      if LastNamed(transitions, s.id) == Some(s) {
        var i :| 0 <= i < |order| && order[i] == s.id;
        assert m.states[i] == s;
      }
    }
  }

  lemma {:induction false} IncomingSnoc<I, A>(ts: seq<Transition<I, A>>, t: Transition<I, A>, id: I)
    ensures HasIncoming(ts + [t], id) <==> HasIncoming(ts, id) || t.to.id == id
  {
    if HasIncoming(ts, id) {
      var i :| 0 <= i < |ts| && ts[i].to.id == id;
      assert (ts + [t])[i].to.id == id;
    }
    if t.to.id == id {
      assert (ts + [t])[|ts|].to.id == id;
    }
  }

  /** Ids stand for states: no id is given to two different state objects. */
  ghost predicate IdsIdentify<I(!new), A(!new)>(ts: seq<Transition<I, A>>)
  {
    forall s, s' :: Appears(ts, s) && Appears(ts, s') && s.id == s'.id ==> s == s'
  }

  predicate Appears<I(==), A(==)>(ts: seq<Transition<I, A>>, s: State<I, A>)
  {
    exists i :: 0 <= i < |ts| && (ts[i].from == s || ts[i].to == s)
  }

  /** The machine any list yields: its states are those that appear, and the initial ones are
      exactly those no transition leads to. */
  ghost predicate BuiltFrom<I(!new), A(!new)>(m: Machine<I, A>, ts: seq<Transition<I, A>>)
  {
    && m.transitions == ts
    && (forall s :: s in m.states <==> Appears(ts, s))
    && (forall i, j :: 0 <= i < j < |m.states| ==> m.states[i] != m.states[j])
    && (forall s :: s in m.initials <==> Appears(ts, s) && forall i :: 0 <= i < |ts| ==> ts[i].to != s)
  }

  lemma {:induction false} LastNamedIsTheState<I(!new), A(!new)>(ts: seq<Transition<I, A>>, s: State<I, A>)
    requires IdsIdentify(ts)
    ensures LastNamed(ts, s.id) == Some(s) <==> Appears(ts, s)
    ensures Appears(ts, s) ==> (HasIncoming(ts, s.id) <==> exists i :: 0 <= i < |ts| && ts[i].to == s)
  {
    NamedMeansLastNamed(ts, s.id);
    if Appears(ts, s) {
      assert Names(ts, s.id);
      var found := LastNamed(ts, s.id).value;
      assert Appears(ts, found);
      if HasIncoming(ts, s.id) {
        var i :| 0 <= i < |ts| && ts[i].to.id == s.id;
        assert Appears(ts, ts[i].to);
      }
    }
  }

  method BuildIdentifiedMachine<I(==, !new), A(==, !new)>(transitions: seq<Transition<I, A>>) returns (m: Machine<I, A>)
    requires IdsIdentify(transitions)
    ensures BuiltFrom(m, transitions)
  {
    m := BuildMachine(transitions);
    forall s: State<I, A> ensures LastNamed(transitions, s.id) == Some(s) <==> Appears(transitions, s) {
      LastNamedIsTheState(transitions, s);
    }
    forall s: State<I, A> | Appears(transitions, s)
      ensures HasIncoming(transitions, s.id) <==> exists i :: 0 <= i < |transitions| && transitions[i].to == s
    {
      LastNamedIsTheState(transitions, s);
    }
  }

  // ---- Matching depends on the set of states only ----

  lemma {:induction false} RaisedIff<I, A>(states: seq<State<I, A>>, v: Value<A>)
    ensures FirstRaised(states, v).Some? <==> exists s :: s in states && MatchOne(s, v).Raised?
    ensures FirstRaised(states, v).Some? ==>
              exists s :: s in states && MatchOne(s, v) == Raised(FirstRaised(states, v).value)
  {
    if |states| > 0 {
      RaisedIff(states[1..], v);
      assert states == [states[0]] + states[1..];
    }
  }

  lemma {:induction false} SuccessesAre<I, A>(states: seq<State<I, A>>, v: Value<A>)
    ensures forall s :: s in Successes(states, v) ==> s in states && Succeeds(s, v)
    ensures forall s :: s in states && Succeeds(s, v) ==> s in Successes(states, v)
    ensures (forall i, j :: 0 <= i < j < |states| ==> states[i] != states[j]) ==>
            (forall i, j :: 0 <= i < j < |Successes(states, v)| ==> Successes(states, v)[i] != Successes(states, v)[j])
  {
    if |states| > 0 {
      SuccessesAre(states[1..], v);
      assert states == [states[0]] + states[1..];
    }
  }

  lemma {:induction false} SingletonIff<T>(xs: seq<T>, x: T)
    requires forall i, j :: 0 <= i < j < |xs| ==> xs[i] != xs[j]
    ensures xs == [x] <==> x in xs && forall y :: y in xs ==> y == x
  {
    if x in xs && forall y :: y in xs ==> y == x {
      assert forall i :: 0 <= i < |xs| ==> xs[i] in xs;
      assert |xs| > 1 ==> xs[0] != xs[1];
    }
  }

  /** A state is found exactly when no state raises and it is the only one that matches. */
  lemma {:induction false} FoundIff<I, A>(m: Machine<I, A>, v: Value<A>, s: State<I, A>)
    requires forall i, j :: 0 <= i < j < |m.states| ==> m.states[i] != m.states[j]
    ensures MatchState(m, v) == StateFound(s) <==>
              && (forall t :: t in m.states ==> !MatchOne(t, v).Raised?)
              && s in m.states && Succeeds(s, v)
              && (forall t :: t in m.states && Succeeds(t, v) ==> t == s)
  {
    var found := Successes(m.states, v);
    RaisedIff(m.states, v);
    SuccessesAre(m.states, v);
    SingletonIff(found, s);
    assert MatchState(m, v) == StateFound(s) <==> FirstRaised(m.states, v).None? && found == [s];
    assert forall t :: t in m.states && Succeeds(t, v) ==> t in found;
    forall t | t in found ensures t in m.states {}
    forall t | t in found ensures Succeeds(t, v) {}
  }

  // ---- Machines given by ids ----

  function EdgeTransitions<I, A>(edges: seq<(I, I)>, stateOf: I -> State<I, A>): seq<Transition<I, A>>
  {
    seq(|edges|, i requires 0 <= i < |edges| => Transition(stateOf(edges[i].0), stateOf(edges[i].1)))
  }

  function StatesOf<I, A>(order: seq<I>, stateOf: I -> State<I, A>): seq<State<I, A>>
  {
    seq(|order|, i requires 0 <= i < |order| => stateOf(order[i]))
  }

  predicate OnEdge<I(==)>(edges: seq<(I, I)>, id: I)
  {
    exists i :: 0 <= i < |edges| && (edges[i].0 == id || edges[i].1 == id)
  }

  predicate LedTo<I(==)>(edges: seq<(I, I)>, id: I)
  {
    exists i :: 0 <= i < |edges| && edges[i].1 == id
  }

  lemma {:induction false} EdgesConnect<I, A>(edges: seq<(I, I)>, stateOf: I -> State<I, A>, from: I, to: I)
    requires forall id :: stateOf(id).id == id
    ensures (exists i :: 0 <= i < |edges| && EdgeTransitions(edges, stateOf)[i].from == stateOf(from)
                         && EdgeTransitions(edges, stateOf)[i].to == stateOf(to)) <==> (from, to) in edges
  {
    var ts := EdgeTransitions(edges, stateOf);
    if (from, to) in edges {
      var i :| 0 <= i < |edges| && edges[i] == (from, to);
      assert ts[i].from == stateOf(from) && ts[i].to == stateOf(to);
    }
    if i :| 0 <= i < |edges| && ts[i].from == stateOf(from) && ts[i].to == stateOf(to) {
      assert stateOf(edges[i].0).id == from && stateOf(edges[i].1).id == to;
      assert edges[i] == (from, to);
    }
  }

  lemma {:induction false} StatesById<I(!new), A(!new)>(order: seq<I>, stateOf: I -> State<I, A>)
    requires forall id :: stateOf(id).id == id
    ensures forall s :: s in StatesOf(order, stateOf) <==> s == stateOf(s.id) && s.id in order
    ensures (forall i, j :: 0 <= i < j < |order| ==> order[i] != order[j]) ==>
            (forall i, j :: 0 <= i < j < |order| ==> StatesOf(order, stateOf)[i] != StatesOf(order, stateOf)[j])
  {
    var states := StatesOf(order, stateOf);
    forall s: State<I, A> ensures s in states <==> s == stateOf(s.id) && s.id in order {
      if s in states {
        var i :| 0 <= i < |states| && states[i] == s;
        assert order[i] == s.id;
      }
      if s == stateOf(s.id) && s.id in order {
        var i :| 0 <= i < |order| && order[i] == s.id;
        assert states[i] == s;
      }
    }
    assert forall i :: 0 <= i < |order| ==> states[i].id == order[i];
  }

  lemma {:induction false} EdgesBuild<I(!new), A(!new)>(edges: seq<(I, I)>, order: seq<I>, initials: set<I>, stateOf: I -> State<I, A>)
    requires forall id :: stateOf(id).id == id
    requires forall id :: id in order <==> OnEdge(edges, id)
    requires forall i, j :: 0 <= i < j < |order| ==> order[i] != order[j]
    requires forall id :: id in initials <==> OnEdge(edges, id) && !LedTo(edges, id)
    ensures BuiltFrom(Machine(set id | id in initials :: stateOf(id), StatesOf(order, stateOf), EdgeTransitions(edges, stateOf)),
                      EdgeTransitions(edges, stateOf))
  {
    var ts, states := EdgeTransitions(edges, stateOf), StatesOf(order, stateOf);
    forall s: State<I, A> ensures Appears(ts, s) <==> s == stateOf(s.id) && OnEdge(edges, s.id) {
      if i :| 0 <= i < |ts| && (ts[i].from == s || ts[i].to == s) {
        assert edges[i].0 == s.id || edges[i].1 == s.id;
      }
      if i :| 0 <= i < |edges| && (edges[i].0 == s.id || edges[i].1 == s.id) {
        assert ts[i].from == stateOf(s.id) || ts[i].to == stateOf(s.id);
      }
    }
    StatesById(order, stateOf);
    forall s: State<I, A> | s == stateOf(s.id)
      ensures (exists i :: 0 <= i < |ts| && ts[i].to == s) <==> LedTo(edges, s.id)
    {
      if i :| 0 <= i < |ts| && ts[i].to == s {
        assert edges[i].1 == s.id;
      }
      if i :| 0 <= i < |edges| && edges[i].1 == s.id {
        assert ts[i].to == s;
      }
    }
  }

  /** `fits` and `raises` say how each state takes the value. */
  ghost predicate Takes<I(!new), A>(order: seq<I>, stateOf: I -> State<I, A>, v: Value<A>, fits: I -> bool, raises: I -> bool)
  {
    forall id :: id in order ==>
      (Succeeds(stateOf(id), v) <==> fits(id)) && (MatchOne(stateOf(id), v).Raised? <==> raises(id))
  }

  /** The matching states, in terms of `fits`. */
  lemma {:induction false} SuccessesByIds<I(!new), A(!new)>(order: seq<I>, stateOf: I -> State<I, A>, v: Value<A>, fits: I -> bool, raises: I -> bool)
    requires forall id :: stateOf(id).id == id
    requires forall i, j :: 0 <= i < j < |order| ==> order[i] != order[j]
    requires Takes(order, stateOf, v, fits, raises)
    ensures var found := Successes(StatesOf(order, stateOf), v);
      && (forall s :: s in found <==> s == stateOf(s.id) && s.id in order && fits(s.id))
      && (forall i, j :: 0 <= i < j < |found| ==> found[i] != found[j])
  {
    StatesById(order, stateOf);
    SuccessesAre(StatesOf(order, stateOf), v);
  }

  lemma {:induction false} RaisedByIds<I(!new), A(!new)>(order: seq<I>, stateOf: I -> State<I, A>, v: Value<A>, fits: I -> bool, raises: I -> bool)
    requires forall id :: stateOf(id).id == id
    requires Takes(order, stateOf, v, fits, raises)
    ensures FirstRaised(StatesOf(order, stateOf), v).Some? <==> exists id :: id in order && raises(id)
  {
    StatesById(order, stateOf);
    RaisedIff(StatesOf(order, stateOf), v);
    if id :| id in order && raises(id) {
      assert stateOf(id) in StatesOf(order, stateOf);
    }
  }

  /** Matching, for states given by ids. */
  lemma {:induction false} MatchByIds<I(!new), A(!new)>(m: Machine<I, A>, order: seq<I>, stateOf: I -> State<I, A>, v: Value<A>,
                                     fits: I -> bool, raises: I -> bool)
    requires m.states == StatesOf(order, stateOf)
    requires forall id :: stateOf(id).id == id
    requires forall i, j :: 0 <= i < j < |order| ==> order[i] != order[j]
    requires Takes(order, stateOf, v, fits, raises)
    ensures (exists id :: id in order && raises(id)) ==> MatchState(m, v).ValidationRaised?
    ensures (forall id :: id in order ==> !raises(id)) ==>
              && (forall id :: id in order && fits(id) && (forall other :: other in order && fits(other) ==> other == id)
                               ==> MatchState(m, v) == StateFound(stateOf(id)))
              && ((forall id :: id in order ==> !fits(id)) ==> MatchState(m, v) == NoStateMatched)
  {
    SuccessesByIds(order, stateOf, v, fits, raises);
    RaisedByIds(order, stateOf, v, fits, raises);
    var found := Successes(m.states, v);
    if forall id :: id in order ==> !raises(id) {
      assert |found| > 0 ==> found[0] in found;
      forall id | id in order && fits(id) && (forall other :: other in order && fits(other) ==> other == id)
        ensures MatchState(m, v) == StateFound(stateOf(id))
      {
        SingletonIff(found, stateOf(id));
      }
    }
  }
}

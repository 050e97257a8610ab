/** fallbackTurnRunner: at most one replacement model over any number of turns. */
module FallingBack {
  import opened Options

  datatype Reply = Reply(text: string, ok: bool)

  /** What the world answers during one NextTurn: the delegate's reply, whether its error confirms that the selected
  model is unavailable and fallback is allowed, the provider's recommendation, and the replacement's reply. */
  datatype TurnInput = TurnInput(first: Reply, confirmed: bool, recommendation: Option<string>, retry: Reply)

  datatype Delegate = Selected | Replacement(model: string)

  datatype ModelFallback = ModelFallback(selected: string, replacement: string, succeeded: bool)

  datatype RunnerState = RunnerState(delegate: Delegate, attempted: bool, fallback: Option<ModelFallback>)

  /** The delegates called, the reply passed on, and the fallback record attached to it. */
  datatype Outcome = Outcome(calls: seq<Delegate>, reply: Reply, fallback: Option<ModelFallback>)

  const FRESH := RunnerState(Selected, false, None)

  /** fallbackRecommendation: the replacement must be named and differ from the selected model. */
  function Usable(selected: string, recommendation: Option<string>): Option<string> {
    if recommendation.None? || recommendation.value == "" || recommendation.value == selected then None
    else recommendation
  }

  /** Whether a turn that still uses the selected model switches. */
  predicate Switches(selected: string, t: TurnInput) {
    !t.first.ok && t.confirmed && Usable(selected, t.recommendation).Some?
  }

  /** A replacement is made exactly if the turn fails, the failure is confirmed, and another model is recommended. */
  lemma SwitchesIff(selected: string, t: TurnInput)
    ensures Switches(selected, t) <==>
            && !t.first.ok && t.confirmed
            && exists model :: t.recommendation == Some(model) && model != "" && model != selected
  {
  }

  class FallbackTurnRunner {
    const selected: string
    var delegate: Delegate
    var attempted: bool
    var fallback: Option<ModelFallback>

    constructor (selected: string)
      ensures this.selected == selected && State() == FRESH
    {
      this.selected := selected;
      delegate, attempted, fallback := Selected, false, None;
    }

    function State(): RunnerState
      reads this
    {
      RunnerState(delegate, attempted, fallback)
    }

    method NextTurn(t: TurnInput) returns (o: Outcome)
      modifies this
      ensures (State(), o) == Step(selected, old(State()), t)
    {
      var calls, reply := [delegate], t.first;
      ghost var before := delegate;
      if !reply.ok && !attempted {
        var event := None;
        if t.confirmed {
          var model := Usable(selected, t.recommendation);
          if model.Some? {
            attempted := true;
            delegate := Replacement(model.value);
            calls := calls + [delegate];
            assert calls == [before, delegate];
            reply := t.retry;
            event := Some(ModelFallback(selected, model.value, reply.ok));
          }
        }
        if event.Some? {
          fallback := event;
        }
      }
      o := Outcome(calls, reply, fallback);
    }
  }

  function Step(selected: string, s: RunnerState, t: TurnInput): (RunnerState, Outcome) {
    if !s.attempted && Switches(selected, t) then
      var r := Replacement(Usable(selected, t.recommendation).value);
      var f := Some(ModelFallback(selected, r.model, t.retry.ok));
      (RunnerState(r, true, f), Outcome([s.delegate, r], t.retry, f))
    else (s, Outcome([s.delegate], t.first, s.fallback))
  }

  /** The state and the outcomes after a sequence of turns. */
  function Play(selected: string, ts: seq<TurnInput>): (r: (RunnerState, seq<Outcome>))
    ensures |r.1| == |ts|
  {
    if ts == [] then (FRESH, [])
    else
      var (s, os) := Play(selected, ts[..|ts| - 1]);
      var (s', o) := Step(selected, s, ts[|ts| - 1]);
      (s', os + [o])
  }

  /** The first turn that switches, or `|ts|`. */
  function SwitchingTurn(selected: string, ts: seq<TurnInput>): (k: nat)
    ensures k <= |ts|
    ensures k < |ts| ==> Switches(selected, ts[k])
    ensures forall i :: 0 <= i < k ==> !Switches(selected, ts[i])
  {
    if ts == [] then 0
    else
      var k := SwitchingTurn(selected, ts[..|ts| - 1]);
      if k < |ts| - 1 then k else if Switches(selected, ts[|ts| - 1]) then |ts| - 1 else |ts|
  }

  function Calls(os: seq<Outcome>): seq<Delegate> {
    if os == [] then [] else Calls(os[..|os| - 1]) + os[|os| - 1].calls
  }

  /** The whole run, with `k` the first turn that switches: before it only the selected model is called and no record
  is attached; turn `k` calls both; from then on only that one replacement is called, which differs from the selected
  model, and the same record is attached to every result. */
  predicate SwitchesOnceAt(selected: string, ts: seq<TurnInput>, os: seq<Outcome>, k: nat)
    requires |os| == |ts| && k <= |ts| && (k < |ts| ==> Switches(selected, ts[k]))
  {
    && (forall i :: 0 <= i < k ==> os[i] == Outcome([Selected], ts[i].first, None))
    && (k < |ts| ==>
          var model := ts[k].recommendation.value;
          var record := Some(ModelFallback(selected, model, ts[k].retry.ok));
          && model != selected && model != ""
          && os[k] == Outcome([Selected, Replacement(model)], ts[k].retry, record)
          && forall i :: k < i < |ts| ==> os[i] == Outcome([Replacement(model)], ts[i].first, record))
  }

  function Settled(selected: string, ts: seq<TurnInput>): RunnerState {
    var k := SwitchingTurn(selected, ts);
    if k == |ts| then FRESH
    else RunnerState(Replacement(ts[k].recommendation.value), true,
                     Some(ModelFallback(selected, ts[k].recommendation.value, ts[k].retry.ok)))
  }

  lemma {:induction false} AtMostOneReplacement(selected: string, ts: seq<TurnInput>)
    ensures SwitchesOnceAt(selected, ts, Play(selected, ts).1, SwitchingTurn(selected, ts))
    ensures Play(selected, ts).0 == Settled(selected, ts)
    ensures |Calls(Play(selected, ts).1)| == |ts| + if SwitchingTurn(selected, ts) < |ts| then 1 else 0
  {
    if ts != [] {
      var init, t := ts[..|ts| - 1], ts[|ts| - 1];
      AtMostOneReplacement(selected, init);
      var os, before := Play(selected, ts).1, Play(selected, init).1;
      var step := Step(selected, Settled(selected, init), t);
      assert os == before + [step.1] && Play(selected, ts).0 == step.0;
      assert os[..|os| - 1] == before;
      hide Play, Calls;
      OneMoreTurn(selected, ts, before);
    }
  }

  lemma OneMoreTurn(selected: string, ts: seq<TurnInput>, before: seq<Outcome>)
    requires ts != [] && |before| == |ts| - 1
    requires SwitchesOnceAt(selected, ts[..|ts| - 1], before, SwitchingTurn(selected, ts[..|ts| - 1]))
    ensures var (s, o) := Step(selected, Settled(selected, ts[..|ts| - 1]), ts[|ts| - 1]);
            && s == Settled(selected, ts)
            && SwitchesOnceAt(selected, ts, before + [o], SwitchingTurn(selected, ts))
            && |o.calls| == if SwitchingTurn(selected, ts) == |ts| - 1 then 2 else 1
  {
    var init, n := ts[..|ts| - 1], |ts| - 1;
    var o := Step(selected, Settled(selected, init), ts[n]).1;
    var os, k := before + [o], SwitchingTurn(selected, init);
    assert forall i :: 0 <= i < n ==> os[i] == before[i] && ts[i] == init[i];
    assert os[n] == o;
  }
}

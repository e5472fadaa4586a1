/** The set of active triggers of src/app/recurd/triggerengine/engine.go and the calls the engine
    makes on their drivers. The methods hold the engine's mutex throughout, so a run is a
    sequence of calls; stopping all drivers visits them in any order. */
module Engines {
  import opened Options
  import opened Sequences

  // ------------------------------------------------------------------ driver calls

  /** Starting a driver, with its outcome; cancelling the dispatch loop that reads its events;
      stopping it. */
  datatype Call = Start(id: string, ok: bool) | Cancel(id: string) | Stop(id: string)

  /** Triggers whose driver runs, and those whose driver is still to be stopped. */
  datatype Drivers = Drivers(running: set<string>, ending: set<string>)

  /** What a call does to the drivers; none if it has no place there. */
  function Observe(d: Drivers, call: Call): Option<Drivers> {
    match call
    case Start(id, ok) =>
      if id in d.running + d.ending then None
      else Some(if ok then d.(running := d.running + {id}) else d.(ending := d.ending + {id}))
    case Cancel(id) =>
      if id in d.running then Some(Drivers(d.running - {id}, d.ending + {id})) else None
    case Stop(id) =>
      if id in d.ending then Some(d.(ending := d.ending - {id})) else None
  }

  function ObserveAll(calls: seq<Call>): Option<Drivers> {
    if calls == [] then Some(Drivers({}, {}))
    else match ObserveAll(calls[..|calls| - 1])
         case None => None
         case Some(d) => Observe(d, calls[|calls| - 1])
  }

  lemma ObserveOneMore(calls: seq<Call>, call: Call)
    ensures ObserveAll(calls + [call])
         == if ObserveAll(calls).None? then None else Observe(ObserveAll(calls).value, call)
  {
    assert (calls + [call])[..|calls|] == calls;
  }

  /** The calls that end the drivers of these triggers, one after the other. */
  function Endings(ids: seq<string>): seq<Call> {
    if ids == [] then []
    else Endings(ids[..|ids| - 1]) + [Cancel(ids[|ids| - 1]), Stop(ids[|ids| - 1])]
  }

  /** The elements of the set in some order, each once. */
  ghost predicate Enumerates(ids: seq<string>, all: set<string>) {
    Distinct(ids) && forall id :: id in ids <==> id in all
  }

  // --------------------------------------------------------------------- the steps

  /** What a factory answers for a trigger: an error, that the type is not its own, or a driver
      that starts or fails to. */
  datatype Offer = Fails | Declines | Driver(starts: bool)

  /** The first answer that is not a refusal decides. */
  function Chosen(offers: seq<Offer>): Offer {
    if offers == [] then Declines
    else if offers[0].Declines? then Chosen(offers[1..])
    else offers[0]
  }

  datatype EngineState = EngineState(active: set<string>, stopped: bool, calls: seq<Call>)

  const IDLE := EngineState({}, false, [])

  datatype EngineOp = Activate(id: string, offers: seq<Offer>) | Deactivate(id: string) | StopAll

  predicate Succeeds(s: EngineState, id: string, offers: seq<Offer>) {
    !s.stopped && (id in s.active || Chosen(offers) == Driver(true))
  }

  function Activated(s: EngineState, id: string, offers: seq<Offer>): EngineState {
    if s.stopped || id in s.active || !Chosen(offers).Driver? then s
    else if Chosen(offers).starts then s.(active := s.active + {id}, calls := s.calls + [Start(id, true)])
    else s.(calls := s.calls + [Start(id, false)] + [Stop(id)])
  }

  function Deactivated(s: EngineState, id: string): EngineState {
    if id in s.active then s.(active := s.active - {id}, calls := s.calls + [Cancel(id)] + [Stop(id)]) else s
  }

  ghost predicate AllStopped(s: EngineState, t: EngineState) {
    && t.stopped && t.active == {}
    && exists order :: Enumerates(order, s.active) && t.calls == s.calls + Endings(order)
  }

  ghost predicate Next(s: EngineState, op: EngineOp, t: EngineState) {
    match op
    case Activate(id, offers) => t == Activated(s, id, offers)
    case Deactivate(id) => t == Deactivated(s, id)
    case StopAll => AllStopped(s, t)
  }

  /** A run of the engine from its creation: the states between the calls. */
  ghost predicate Run(states: seq<EngineState>, ops: seq<EngineOp>) {
    && |states| == |ops| + 1
    && states[0] == IDLE
    && forall i: nat :: i < |ops| ==> Next(states[i], ops[i], states[i + 1])
  }

  // ---------------------------------------------------------------------- whole runs

  ghost predicate Tracked(s: EngineState) {
    ObserveAll(s.calls) == Some(Drivers(s.active, {}))
  }

  lemma {:induction false} EndingsStop(calls: seq<Call>, ids: seq<string>, d: set<string>)
    requires ObserveAll(calls) == Some(Drivers(d, {}))
    requires Distinct(ids) && forall id :: id in ids ==> id in d
    ensures ObserveAll(calls + Endings(ids)) == Some(Drivers(set id | id in d && id !in ids, {}))
  {
    if ids == [] {
      assert calls + Endings(ids) == calls;
      assert (set id | id in d && id !in ids) == d;
    } else {
      var init, last := ids[..|ids| - 1], ids[|ids| - 1];
      assert ids == init + [last];
      EndingsStop(calls, init, d);
      var before := calls + Endings(init);
      assert calls + Endings(ids) == before + [Cancel(last)] + [Stop(last)];
      EndOne(before, last, set id | id in d && id !in init);
      assert (set id | id in d && id !in ids) == (set id | id in d && id !in init) - {last};
    }
  }

  lemma EndOne(calls: seq<Call>, id: string, d: set<string>)
    requires ObserveAll(calls) == Some(Drivers(d, {})) && id in d
    ensures ObserveAll(calls + [Cancel(id)] + [Stop(id)]) == Some(Drivers(d - {id}, {}))
  {
    ObserveOneMore(calls, Cancel(id));
    ObserveOneMore(calls + [Cancel(id)], Stop(id));
  }

  lemma NextTracked(s: EngineState, op: EngineOp, t: EngineState)
    requires Tracked(s) && Next(s, op, t)
    ensures Tracked(t)
  {
    match op {
      case Activate(id, offers) =>
        ObserveOneMore(s.calls, Start(id, true));
        ObserveOneMore(s.calls, Start(id, false));
        ObserveOneMore(s.calls + [Start(id, false)], Stop(id));
      case Deactivate(id) =>
        if id in s.active {
          EndOne(s.calls, id, s.active);
        }
      case StopAll =>
        var order :| Enumerates(order, s.active) && t.calls == s.calls + Endings(order);
        EndingsStop(s.calls, order, s.active);
        assert (set id | id in s.active && id !in order) == {};
    }
  }

  /** At every point of a run the drivers that run are exactly those of the active triggers: no
      driver is started twice or leaks, a driver whose start failed is stopped, and stopping
      follows cancelling, once for each driver. */
  lemma {:induction false} DriversAreThoseOfTheActive(states: seq<EngineState>, ops: seq<EngineOp>, n: nat)
    requires Run(states, ops) && n < |states|
    ensures ObserveAll(states[n].calls) == Some(Drivers(states[n].active, {}))
  {
    if n != 0 {
      DriversAreThoseOfTheActive(states, ops, n - 1);
      NextTracked(states[n - 1], ops[n - 1], states[n]);
    }
  }

  lemma NothingToEnumerate(ids: seq<string>)
    ensures Enumerates(ids, {}) ==> ids == []
  {
    if ids != [] {
      assert ids[0] in ids;
    }
  }

  lemma {:induction false} StoppedStays(states: seq<EngineState>, ops: seq<EngineOp>, k: nat, n: nat)
    requires Run(states, ops) && k <= n < |states| && states[k].stopped && states[k].active == {}
    ensures states[n].stopped && states[n].active == {} && states[n].calls == states[k].calls
  {
    if k < n {
      StoppedStays(states, ops, k, n - 1);
      assert Next(states[n - 1], ops[n - 1], states[n]);
      if ops[n - 1].StopAll? {
        var order :| Enumerates(order, {}) && states[n].calls == states[n - 1].calls + Endings(order);
        NothingToEnumerate(order);
      }
    }
  }

  lemma {:induction false} NotStoppedBefore(states: seq<EngineState>, ops: seq<EngineOp>, n: nat)
    requires Run(states, ops) && n < |states| && forall i: nat :: i < n ==> !ops[i].StopAll?
    ensures !states[n].stopped
  {
    if n != 0 {
      NotStoppedBefore(states, ops, n - 1);
      assert Next(states[n - 1], ops[n - 1], states[n]);
    }
  }

  /** Once the engine has been stopped, and only then, no trigger becomes active again: the active
      set stays empty, every activation fails, and no driver is called any more. */
  lemma StoppedForGood(states: seq<EngineState>, ops: seq<EngineOp>, n: nat)
    requires Run(states, ops) && n < |states|
    ensures states[n].stopped <==> exists k: nat :: k < n && ops[k].StopAll?
    ensures forall k: nat :: k < n && ops[k].StopAll? ==>
              && states[n].active == {} && states[n].calls == states[k + 1].calls
              && ObserveAll(states[n].calls) == Some(Drivers({}, {}))
              && forall id, offers :: !Succeeds(states[n], id, offers)
  {
    DriversAreThoseOfTheActive(states, ops, n);
    forall k: nat | k < n && ops[k].StopAll?
      ensures states[n].stopped && states[n].active == {} && states[n].calls == states[k + 1].calls
    {
      assert Next(states[k], ops[k], states[k + 1]);
      StoppedStays(states, ops, k + 1, n);
    }
    if forall k: nat :: k < n ==> !ops[k].StopAll? {
      NotStoppedBefore(states, ops, n);
    }
  }

  // ------------------------------------------------------------------- one activation

  /** The factories are asked in turn until one does not decline. Only if that one has a driver,
      and the driver starts, does the trigger become active; a driver that fails to start is
      stopped. Without an answer, or if the trigger is active already, nothing happens. */
  lemma FirstAnswerDecides(s: EngineState, id: string, offers: seq<Offer>, i: nat)
    requires !s.stopped && id !in s.active
    requires i <= |offers| && (forall j :: 0 <= j < i ==> offers[j] == Declines)
    requires i < |offers| ==> offers[i] != Declines
    ensures var after := Activated(s, id, offers);
            if i == |offers| || offers[i] == Fails then after == s && !Succeeds(s, id, offers)
            else if offers[i].starts then
              && Succeeds(s, id, offers) && after.active == s.active + {id}
              && after.calls == s.calls + [Start(id, true)]
            else
              && !Succeeds(s, id, offers) && after.active == s.active
              && after.calls == s.calls + [Start(id, false), Stop(id)]
  {
    if i < |offers| {
      FirstOffer(offers, i);
    } else {
      AllDecline(offers);
    }
    assert s.calls + [Start(id, false)] + [Stop(id)] == s.calls + [Start(id, false), Stop(id)];
  }

  lemma {:induction false} FirstOffer(offers: seq<Offer>, i: nat)
    requires i < |offers| && offers[i] != Declines && forall j :: 0 <= j < i ==> offers[j] == Declines
    ensures Chosen(offers) == offers[i]
  {
    if i > 0 {
      FirstOffer(offers[1..], i - 1);
    }
  }

  lemma {:induction false} AllDecline(offers: seq<Offer>)
    requires forall j :: 0 <= j < |offers| ==> offers[j] == Declines
    ensures Chosen(offers) == Declines
  {
    if offers != [] {
      AllDecline(offers[1..]);
    }
  }

  // ---------------------------------------------------------------------- the engine

  /** `offers` are the answers of the factories to triggers of a type. */
  class Engine {
    const offers: string -> seq<Offer>
    const supported: string -> bool := typ => Chosen(offers(typ)) == Driver(true)
    var active: set<string>
    var stopped: bool
    ghost var calls: seq<Call>

    ghost function View(): EngineState
      reads this
    {
      EngineState(active, stopped, calls)
    }

    constructor (offers: string -> seq<Offer>)
      ensures this.offers == offers && View() == IDLE
    {
      this.offers := offers;
      active, stopped, calls := {}, false, [];
    }

    method Activate(id: string, offers: seq<Offer>) returns (ok: bool)
      modifies this`active, this`calls
      ensures View() == Activated(old(View()), id, offers)
      ensures ok == Succeeds(old(View()), id, offers)
    {
      if stopped {
        return false;
      }
      if id in active {
        return true;
      }
      for i := 0 to |offers|
        invariant View() == old(View()) && Chosen(offers) == Chosen(offers[i..])
      {
        match offers[i] {
          case Fails => return false;
          case Declines =>
          case Driver(starts) =>
            calls := calls + [Start(id, starts)];
            if !starts {
              calls := calls + [Stop(id)];
              return false;
            }
            active := active + {id};
            return true;
        }
      }
      return false;
    }

    method Deactivate(id: string)
      modifies this`active, this`calls
      ensures View() == Deactivated(old(View()), id)
    {
      if id !in active {
        return;
      }
      calls := calls + [Cancel(id)] + [Stop(id)];
      active := active - {id};
    }

    /** At shutdown. */
    method StopAll()
      modifies this
      ensures AllStopped(old(View()), View())
    {
      stopped := true;
      ghost var order := [];
      while active != {}
        invariant stopped && active <= old(active) && Enumerates(order, old(active) - active)
        invariant calls == old(calls) + Endings(order)
        decreases |active|
      {
        var id :| id in active;
        ghost var longer := order + [id];
        assert longer[..|longer| - 1] == order;
        order := longer;
        calls := calls + [Cancel(id)] + [Stop(id)];
        active := active - {id};
      }
    }
  }
}

/**
 * Exactly which durable events are committed, and what each operation leaves, in terms of the logs, the owners, the
 * codecs and the projectors alone. Every condition is one that can be checked before the call.
 */
module Admission {
  import opened Wrappers
  import opened Journal

  // ---------------------------------------------------------------- the conditions

  /** The ID stands nowhere in the journal. */
  ghost predicate Unused(m: Model, id: string) {
    forall a, i :: a in m.journal && 0 <= i < |m.journal[a].log| ==> m.journal[a].log[i].id != id
  }

  /** The projectors of the type, one after the other, lead from the first view to the last. */
  ghost predicate Chain(ps: seq<Projector>, event: Applied, views: seq<View>) {
    |views| == |ps| + 1 && forall i :: 0 <= i < |ps| ==> ps[i](views[i], event) == Some(views[i + 1])
  }

  /** All projectors registered for the type and then the hook, if there is one, succeed and end in `after`. */
  ghost predicate Succeeds(ps: Projectors, hook: Option<Hook>, view: View, event: Applied, after: View) {
    exists views ::
      && Chain(if event.typ in ps then ps[event.typ] else [], event, views) && views[0] == view
      && (if hook.Some? then hook.value(views[|views| - 1], event.sequence) == Some(after)
          else after == views[|views| - 1])
  }

  ghost predicate CanSucceed(ps: Projectors, hook: Option<Hook>, view: View, event: Applied) {
    exists after :: Succeeds(ps, hook, view, event, after)
  }

  /** An owner that is set and not empty keeps everybody else out. */
  predicate LetsIn(owner: Option<string>, claimant: Option<string>) {
    owner == None || owner == Some("") || owner == claimant
  }

  /** The log of one aggregate has grown by one entry; nothing else in the journal has changed. */
  ghost predicate Grown(m: Model, m': Model, a: string, entry: Entry, owner: Option<string>) {
    && LogOf(m', a) == LogOf(m, a) + [entry] && OwnerOf(m', a) == owner
    && m'.journal.Keys == m.journal.Keys + {a}
    && forall b :: b in m.journal && b != a ==> m'.journal[b] == m.journal[b]
  }

  // ---------------------------------------------------------------- projectors

  lemma {:induction false} ProjectChain(ps: seq<Projector>, view: View, event: Applied) returns (views: seq<View>)
    requires Project(ps, view, event).Some?
    ensures Chain(ps, event, views) && views[0] == view && Some(views[|ps|]) == Project(ps, view, event)
  {
    if ps == [] {
      views := [view];
    } else {
      var next := ps[0](view, event).value;
      var rest := ProjectChain(ps[1..], next, event);
      views := [view] + rest;
      forall i | 0 <= i < |ps| ensures ps[i](views[i], event) == Some(views[i + 1]) {
        if i > 0 { assert ps[i] == ps[1..][i - 1]; }
      }
    }
  }

  lemma {:induction false} ChainProjects(ps: seq<Projector>, event: Applied, views: seq<View>)
    requires Chain(ps, event, views)
    ensures Project(ps, views[0], event) == Some(views[|ps|])
  {
    if ps != [] {
      forall i | 0 <= i < |ps[1..]| ensures ps[1..][i](views[1..][i], event) == Some(views[1..][i + 1]) {
        assert ps[i + 1](views[i + 1], event) == Some(views[i + 2]);
      }
      ChainProjects(ps[1..], event, views[1..]);
    }
  }

  function HookOf(origin: Origin): Option<Hook> {
    if origin.Local? then origin.hook else None
  }

  lemma AdvanceSucceeds(ps: Projectors, origin: Origin, view: View, event: Applied)
    ensures var r := Advance(ps, origin, view, event);
            && (r.Some? <==> CanSucceed(ps, HookOf(origin), view, event))
            && (r.Some? ==> Succeeds(ps, HookOf(origin), view, event, r.value))
  {
    var list := if event.typ in ps then ps[event.typ] else [];
    var r := Advance(ps, origin, view, event);
    if r.Some? {
      var views := ProjectChain(list, view, event);
      assert Chain(list, event, views) && views[0] == view;
      assert Succeeds(ps, HookOf(origin), view, event, r.value);
    }
    if after :| Succeeds(ps, HookOf(origin), view, event, after) {
      var views :| Chain(list, event, views) && views[0] == view
        && (if HookOf(origin).Some? then HookOf(origin).value(views[|views| - 1], event.sequence) == Some(after)
            else after == views[|views| - 1]);
      ChainProjects(list, event, views);
    }
  }

  lemma UnusedMeans(m: Model, id: string)
    ensures Unused(m, id) <==> !UsesID(m.journal, id)
  {
  }

  // ---------------------------------------------------------------- local events

  /**
   * A local event is committed exactly when it belongs to an aggregate, encodes, has an unused ID, and its projectors
   * and hook succeed: whoever owns the aggregate. It is then the next entry of the log, and the owner stays.
   */
  lemma PublishExactly(reg: Registry, ps: Projectors, m: Model, def: Definition, event: Event, hook: Option<Hook>)
    ensures var r := Perform(reg, ps, m, Publish(def, event, hook));
      match reg.aggregateOf(def, event.data)
      case None => r == Step(Died(NoAggregate), m)
      case Some(a) =>
        var n := |LogOf(m, a)|;
        var applied := Applied(event.id, def.typ, event.data, a, n);
        match reg.encode(def, event.data)
        case None => r == Step(Died(Unencodable), m)
        case Some(d) =>
          if !Unused(m, event.id) then r == Step(Died(IDExists), m)
          else if !CanSucceed(ps, hook, m.view, applied) then r == Step(Died(ProjectionFailed), m)
          else
            && r.outcome == Committed(a, n)
            && Grown(m, r.after, a, Entry(event.id, def.versioned, d), OwnerOf(m, a))
            && Succeeds(ps, hook, m.view, applied, r.after.view)
  {
    hide CanSucceed, Succeeds, UsesID, Unused, Advance;
    UnusedMeans(m, event.id);
    if reg.aggregateOf(def, event.data).Some? {
      var a := reg.aggregateOf(def, event.data).value;
      AdvanceSucceeds(ps, Local(hook), m.view, Applied(event.id, def.typ, event.data, a, |LogOf(m, a)|));
    }
  }

  // ---------------------------------------------------------------- replayed events

  /**
   * A replayed event that decodes, belongs to the aggregate it names and encodes is committed exactly when the owner
   * lets the claimant in, it is the next of its log, its ID is unused and its projectors succeed. A claimant that is
   * named becomes the owner of an aggregate without one. An event that the log holds at its place is ignored, and so is
   * one that the owner keeps out, unless ownership is strict; every other one dies and changes nothing.
   */
  lemma ReceiveExactly(reg: Registry, ps: Projectors, m: Model, e: Serialized, options: Options)
    ensures var r := Perform(reg, ps, m, Receive(e, options));
      var a, log, owner := e.aggregate, LogOf(m, e.aggregate), OwnerOf(m, e.aggregate);
      match reg.definition(e.typ)
      case None => r == Step(Died(UnknownType), m)
      case Some(def) =>
        match reg.decode(def, e.data)
        case None => r == Step(Died(Undecodable), m)
        case Some(data) =>
          var applied := Applied(e.id, def.typ, data, a, |log|);
          if reg.aggregateOf(def, data).None? then r == Step(Died(NoAggregate), m)
          else if reg.aggregateOf(def, data) != Some(a) then r == Step(Died(AggregateMismatch), m)
          else
            match reg.encode(def, data)
            case None => r == Step(Died(Unencodable), m)
            case Some(d) =>
              var entry := Entry(e.id, def.versioned, d);
              if options.strict && !LetsIn(owner, options.owner) then r == Step(Died(OwnerMismatch), m)
              else if e.sequence < |log| then
                if 0 <= e.sequence && log[e.sequence] == entry then
                  && r.outcome == Ignored && r.after.view == m.view
                  && r.after.journal == m.journal[a := Aggregate(NextOwner(owner, options.owner), log)]
                else r == Step(Died(Diverged), m)
              else if !LetsIn(owner, options.owner) then r == Step(Ignored, m)
              else if e.sequence != |log| then r == Step(Died(SequenceMismatch), m)
              else if !Unused(m, e.id) then r == Step(Died(IDExists), m)
              else if !CanSucceed(ps, None, m.view, applied) then r == Step(Died(ProjectionFailed), m)
              else
                && r.outcome == Committed(a, |log|)
                && Grown(m, r.after, a, entry,
                         if a in m.journal then NextOwner(owner, options.owner) else options.owner)
                && Succeeds(ps, None, m.view, applied, r.after.view)
  {
    hide CanSucceed, Succeeds, UsesID, Unused, Advance;
    UnusedMeans(m, e.id);
    if reg.definition(e.typ).Some? {
      var def := reg.definition(e.typ).value;
      if reg.decode(def, e.data).Some? {
        var applied := Applied(e.id, def.typ, reg.decode(def, e.data).value, e.aggregate, |LogOf(m, e.aggregate)|);
        AdvanceSucceeds(ps, Remote(e.sequence, e.aggregate, options.owner, options.strict), m.view, applied);
      }
    }
  }

  /** An aggregate without an owner takes a claimant that is named and not empty. */
  function NextOwner(owner: Option<string>, claimant: Option<string>): Option<string> {
    if owner == None && claimant != None && claimant != Some("") then claimant else owner
  }

  // ---------------------------------------------------------------- batches, claims and removals

  /** The models that a batch goes through, one event after the other; all but the last event must not die. */
  ghost predicate Trail(reg: Registry, ps: Projectors, events: seq<Serialized>, options: Options, models: seq<Model>) {
    && 0 < |models| <= |events| + 1
    && forall i :: 0 <= i < |models| - 1 ==> Passes(reg, ps, models[i], events[i], options, models[i + 1])
  }

  ghost predicate Passes(reg: Registry, ps: Projectors, m: Model, event: Serialized, options: Options, m': Model) {
    var r := Perform(reg, ps, m, Receive(event, options));
    !r.outcome.Died? && r.after == m'
  }

  lemma {:induction false} EachTrails(reg: Registry, ps: Projectors, m: Model, events: seq<Serialized>,
                                      options: Options) returns (models: seq<Model>)
    ensures Trail(reg, ps, events, options, models) && models[0] == m
    ensures var r, last := ReplayEach(reg, ps, m, events, options), models[|models| - 1];
            && (!r.outcome.Died? ==> |models| == |events| + 1 && r.after == last)
            && (r.outcome.Died? ==>
                  |models| <= |events| && Perform(reg, ps, last, Receive(events[|models| - 1], options)) == r)
    decreases |events|
  {
    hide Replay;
    if events == [] || Replay(reg, ps, m, events[0], options).outcome.Died? {
      models := [m];
    } else {
      var next := Replay(reg, ps, m, events[0], options).after;
      var rest := EachTrails(reg, ps, next, events[1..], options);
      models := [m] + rest;
      forall i | 0 <= i < |models| - 1
        ensures Passes(reg, ps, models[i], events[i], options, models[i + 1])
      {
        if i > 0 { assert Passes(reg, ps, rest[i - 1], events[1..][i - 1], options, rest[i]); }
      }
      if |rest| <= |events[1..]| { assert events[|models| - 1] == events[1..][|rest| - 1]; }
    }
  }

  /**
   * A batch without events, or for the empty aggregate, is none. One that mixes aggregates or skips a sequence is
   * refused before anything of it is replayed; any other is replayed event by event up to the first that dies.
   */
  lemma BatchExactly(reg: Registry, ps: Projectors, m: Model, events: seq<Serialized>, options: Options)
    returns (models: seq<Model>)
    ensures var r := ReplayAll(reg, ps, m, events, options);
      if events == [] || events[0].aggregate == "" then r == Batch(NoSource, m)
      else if exists i :: 0 <= i < |events| && events[i].aggregate != events[0].aggregate then
        r == Batch(Failed(AggregateMismatch), m)
      else if exists i :: 0 <= i < |events| && events[i].sequence != events[0].sequence + i then
        r == Batch(Failed(SequenceMismatch), m)
      else
        && Trail(reg, ps, events, options, models) && models[0] == m
        && var last := models[|models| - 1];
        if |models| == |events| + 1 then r == Batch(Replayed(events[0].aggregate), last)
        else
          var stop := Perform(reg, ps, last, Receive(events[|models| - 1], options));
          stop.outcome.Died? && r == Batch(Failed(stop.outcome.reason), stop.after)
  {
    models := EachTrails(reg, ps, m, events, options);
    hide Perform, Trail;
  }

  /** A removal takes one aggregate away and a claim sets the owner of one that is there; nothing else changes. */
  lemma AdministrationExactly(reg: Registry, ps: Projectors, m: Model, a: string, owner: string)
    ensures var r := Perform(reg, ps, m, Forget(a)).after;
      && r.view == m.view && r.journal.Keys == m.journal.Keys - {a}
      && forall b :: b in r.journal ==> r.journal[b] == m.journal[b]
    ensures var r := Perform(reg, ps, m, TakeOver(a, owner)).after;
      && r.view == m.view && r.journal.Keys == m.journal.Keys
      && (forall b :: b in m.journal ==> r.journal[b].log == m.journal[b].log)
      && (forall b :: b in m.journal ==> r.journal[b].owner == if b == a then Some(owner) else m.journal[b].owner)
  {
  }
}

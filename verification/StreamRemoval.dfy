/** A run of the durable stream in which a removal makes the reader lose an event. */
module StreamRemoval {
  import opened Wrappers
  import opened Journal
  import J = Journal
  import opened DurableStream

  /** One kind of event, with one payload, all for aggregate "a". */
  function OneType(payload: Payload, stored: Stored): Registry {
    Registry(
      (typ: string) => Some(Definition(typ, typ)),
      (def: Definition, data: Payload) => Some(stored),
      (def: Definition, data: Stored) => Some(payload),
      (def: Definition, data: Payload) => Some("a"))
  }

  function Post(payload: Payload, id: string): Operation {
    Publish(Definition("t", "t"), J.Event(id, payload), None)
  }

  lemma PostCommits(payload: Payload, stored: Stored, m: Model, id: string)
    requires m.journal == map[]
    ensures Perform(OneType(payload, stored), map[], m, Post(payload, id)) ==
            Step(Committed("a", 0), m.(journal := map["a" := Aggregate(None, [Entry(id, "t", stored)])]))
  {
    var aggregate := Aggregate(None, [Entry(id, "t", stored)]);
    assert Get(m.journal, "a").log + [Entry(id, "t", stored)] == [Entry(id, "t", stored)];
    assert Extended(m.journal, "a", Entry(id, "t", stored), None) == map["a" := aggregate];
  }

  lemma ForgetEmpties(payload: Payload, stored: Stored, m: Model)
    requires m.journal.Keys == {"a"}
    ensures Perform(OneType(payload, stored), map[], m, Forget("a")) == Step(Ignored, m.(journal := map[]))
  {
    assert m.journal - {"a"} == map[];
  }

  /** The first event is published and delivered; the aggregate is removed. */
  lemma UntilRemoval(payload: Payload, stored: Stored, view: View) returns (states: seq<System>,
                     events: seq<DurableStream.Event>)
    ensures Steps(OneType(payload, stored), map[], "a", states, events) && Start(states[0], -1)
    ensures states[0].model == Model(map[], view) && states[0].unwoken == multiset{}
    ensures events != [] && events[|events| - 1] == Transact(Forget("a"))
    ensures var first := Item(0, Entry("1", "t", stored));
            states[|states| - 1] == System(Model(map[], view), multiset{}, Reader(Idle, false, 0, [], [first], 1))
  {
    var entry := Entry("1", "t", stored);
    var empty, full := Model(map[], view), Model(map["a" := Aggregate(None, [entry])], view);
    var item := Item(0, entry);
    PostCommits(payload, stored, empty, "1");
    ForgetEmpties(payload, stored, full);
    assert ItemsAfter([entry], -1) == [item];
    assert multiset{} + multiset{"a"} == multiset{"a"} && multiset{"a"} - multiset{"a"} == multiset{};
    hide Perform, Post, ItemsAfter;
    events := [Transact(Post(payload, "1")), Wake("a"), Subscribe, Query, MoveCursor, Deliver, Transact(Forget("a"))];
    states := [
      System(empty, multiset{}, Reader(Subscribing, false, -1, [], [], 0)),
      System(full, multiset{"a"}, Reader(Subscribing, false, -1, [], [], 0)),
      System(full, multiset{}, Reader(Subscribing, false, -1, [], [], 0)),
      System(full, multiset{}, Reader(Reading, false, -1, [], [], 0)),
      System(full, multiset{}, Reader(Fetched([item]), false, -1, [], [], 1)),
      System(full, multiset{}, Reader(Idle, false, 0, [item], [], 1)),
      System(full, multiset{}, Reader(Idle, false, 0, [], [item], 1)),
      System(empty, multiset{}, Reader(Idle, false, 0, [], [item], 1))];
  }

  /** Another event is published under the same ID of an aggregate; the reader looks for it and finds nothing. */
  lemma AfterRemoval(payload: Payload, stored: Stored, view: View) returns (states: seq<System>,
                     events: seq<DurableStream.Event>)
    ensures Steps(OneType(payload, stored), map[], "a", states, events)
    ensures var first := Item(0, Entry("1", "t", stored));
            && states[0] == System(Model(map[], view), multiset{}, Reader(Idle, false, 0, [], [first], 1))
            && Quiet("a", states[|states| - 1]) && states[|states| - 1].reader.delivered == [first]
            && LogOf(states[|states| - 1].model, "a") == [Entry("2", "t", stored)]
  {
    var first, entry := Item(0, Entry("1", "t", stored)), Entry("2", "t", stored);
    var empty, full := Model(map[], view), Model(map["a" := Aggregate(None, [entry])], view);
    PostCommits(payload, stored, empty, "2");
    assert ItemsAfter([entry], 0) == [];
    assert multiset{} + multiset{"a"} == multiset{"a"} && multiset{"a"} - multiset{"a"} == multiset{};
    hide Perform, Post, ItemsAfter;
    events := [Transact(Post(payload, "2")), Wake("a"), TakeWake, Query, MoveCursor];
    states := [
      System(empty, multiset{}, Reader(Idle, false, 0, [], [first], 1)),
      System(full, multiset{"a"}, Reader(Idle, false, 0, [], [first], 1)),
      System(full, multiset{}, Reader(Idle, true, 0, [], [first], 1)),
      System(full, multiset{}, Reader(Reading, false, 0, [], [first], 1)),
      System(full, multiset{}, Reader(Fetched([]), false, 0, [], [first], 1)),
      System(full, multiset{}, Reader(Idle, false, 0, [], [first], 1))];
  }

  lemma StepsJoin(reg: Registry, ps: Projectors, target: string, earlier: seq<System>, before: seq<DurableStream.Event>,
                  later: seq<System>, after: seq<DurableStream.Event>)
    requires Steps(reg, ps, target, earlier, before) && Steps(reg, ps, target, later, after)
    requires earlier[|earlier| - 1] == later[0]
    ensures Steps(reg, ps, target, earlier + later[1..], before + after)
    ensures (earlier + later[1..])[0] == earlier[0]
    ensures (earlier + later[1..])[|before| + |after|] == later[|after|]
  {
    hide Next;
    var states, events := earlier + later[1..], before + after;
    forall i | 0 <= i < |events| ensures Next(reg, ps, target, states[i], events[i], states[i + 1]) {
      if i < |before| {
        assert Next(reg, ps, target, earlier[i], before[i], earlier[i + 1]);
      } else {
        var k := i - |before|;
        assert Next(reg, ps, target, later[k], after[k], later[k + 1]);
        assert states[i] == later[k];
      }
    }
  }

  /** So there is a run from the start, quiet at its end, in which the only event of the new log is never delivered. */
  lemma RemovalLosesAnEvent(payload: Payload, stored: Stored, view: View)
    returns (states: seq<System>, events: seq<DurableStream.Event>)
    ensures Steps(OneType(payload, stored), map[], "a", states, events) && Start(states[0], -1)
    ensures var last := states[|states| - 1];
            && Quiet("a", last) && LogOf(last.model, "a") == [Entry("2", "t", stored)]
            && Item(0, Entry("2", "t", stored)) !in last.reader.delivered
  {
    var earlier, before := UntilRemoval(payload, stored, view);
    var later, after := AfterRemoval(payload, stored, view);
    states, events := earlier + later[1..], before + after;
    hide Next, Quiet, LogOf, Post;
    StepsJoin(OneType(payload, stored), map[], "a", earlier, before, later, after);
  }
}

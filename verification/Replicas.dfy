/**
 * Where the sources of replication come from: the logs of other services, and a whole service copied into a replica.
 */
module Replicas {
  import opened Wrappers
  import opened Journal
  import opened Replication
  import opened Ownership

  /**
   * The codec law: what a registered definition encodes is found again under its stored name, decodes, encodes back
   * to the same, and belongs to the same aggregate.
   */
  ghost predicate Lawful(reg: Registry) {
    forall def: Definition, data: Payload ::
      reg.definition(def.versioned) == Some(def) && reg.encode(def, data).Some? && reg.aggregateOf(def, data).Some? ==>
        RoundTrips(reg, def, data)
  }

  ghost predicate RoundTrips(reg: Registry, def: Definition, data: Payload)
    requires reg.encode(def, data).Some?
  {
    var stored := reg.encode(def, data).value;
    && reg.decode(def, stored).Some?
    && reg.encode(def, reg.decode(def, stored).value) == Some(stored)
    && reg.aggregateOf(def, reg.decode(def, stored).value) == reg.aggregateOf(def, data)
  }

  /** Only definitions of the manifest are published, and a stored name finds the definition that is stored under it. */
  predicate Registered(reg: Registry, op: Operation) {
    match op
    case Publish(def, _, _) => reg.definition(def.versioned) == Some(def)
    case Receive(e, _) => reg.definition(e.typ).Some? ==> reg.definition(e.typ).value.versioned == e.typ
    case _ => true
  }

  /** Every stored event can be restored. */
  ghost predicate Restorable(reg: Registry, j: Journal) {
    forall a, i :: a in j && 0 <= i < |j[a].log| ==> Restores(reg, a, j[a].log[i])
  }

  lemma CommitKeepsRestorable(reg: Registry, ps: Projectors, m: Model, def: Definition, event: Event, origin: Origin)
    requires Lawful(reg) && Restorable(reg, m.journal) && reg.definition(def.versioned) == Some(def)
    ensures Restorable(reg, Commit(reg, ps, m, def, event, origin).after.journal)
  {
    var after := Commit(reg, ps, m, def, event, origin).after.journal;
    forall a, i | a in after && 0 <= i < |after[a].log| ensures Restores(reg, a, after[a].log[i]) {
      if a in m.journal && i < |m.journal[a].log| {
        assert after[a].log[i] == m.journal[a].log[i];
      } else {
        assert RoundTrips(reg, def, event.data);
      }
    }
  }

  lemma PerformKeepsRestorable(reg: Registry, ps: Projectors, m: Model, op: Operation)
    requires Lawful(reg) && Registered(reg, op) && Restorable(reg, m.journal)
    ensures Restorable(reg, Perform(reg, ps, m, op).after.journal)
  {
    hide Lawful, Restores;
    match op
    case Publish(def, event, hook) => CommitKeepsRestorable(reg, ps, m, def, event, Local(hook));
    case Receive(e, o) =>
      if reg.definition(e.typ).Some? && reg.decode(reg.definition(e.typ).value, e.data).Some? {
        var def := reg.definition(e.typ).value;
        CommitKeepsRestorable(reg, ps, m, def, Event(e.id, reg.decode(def, e.data).value),
                              Remote(e.sequence, e.aggregate, o.owner, o.strict));
      }
    case _ =>
  }

  lemma {:induction false} RunKeepsRestorable(reg: Registry, ps: Projectors, m: Model, ops: seq<Operation>)
    requires Lawful(reg) && (forall op :: op in ops ==> Registered(reg, op))
    requires WellFormed(m.journal) && Restorable(reg, m.journal)
    ensures WellFormed(Run(reg, ps, m, ops).journal) && Restorable(reg, Run(reg, ps, m, ops).journal)
    decreases |ops|
  {
    if ops != [] {
      hide Lawful, Restorable, WellFormed, Perform;
      PerformKeepsWellFormed(reg, ps, m, ops[0]);
      PerformKeepsRestorable(reg, ps, m, ops[0]);
      RunKeepsRestorable(reg, ps, Perform(reg, ps, m, ops[0]).after, ops[1..]);
    }
  }

  /** A replica of other aggregates of the same service holds prefixes of their logs. */
  ghost predicate Copies(j: Journal, service: Journal, a: string) {
    forall b :: b in j && b != a ==> b in service && j[b].log <= service[b].log
  }

  /** A service's own log can be replayed into any replica that otherwise holds prefixes of its other logs. */
  lemma OwnLogIsSource(reg: Registry, service: Journal, j: Journal, a: string)
    requires WellFormed(service) && Restorable(reg, service) && a in service && Copies(j, service, a)
    ensures Source(reg, j, a, service[a].log)
  {
    var source := service[a].log;
    forall b, i, k | b in j && b != a && 0 <= i < |j[b].log| && 0 <= k < |source|
      ensures j[b].log[i].id != source[k].id
    {
      assert j[b].log[i] == service[b].log[i];
    }
  }

  /**
   * End to end: whatever a service has done since it was empty, replaying any slice of one of its logs that starts at
   * or before what the replica has of it leaves the longer prefix, and every further aggregate can follow.
   */
  lemma ServiceReplicates(reg: Registry, ps: Projectors, view: View, ops: seq<Operation>, there: Projectors, m: Model,
                          a: string, from: nat, upto: nat, n: nat, options: Options)
    requires Lawful(reg) && forall op :: op in ops ==> Registered(reg, op)
    requires var service := Run(reg, ps, Model(map[], view), ops).journal;
             && a != "" && a in service && from < upto <= |service[a].log| && from <= n
             && Copies(m.journal, service, a) && Holds(m, a, service[a].log, n, options)
    requires Total(there)
    ensures var service := Run(reg, ps, Model(map[], view), ops).journal;
            var r := ReplayAll(reg, there, m, Serialize(a, service[a].log, from, upto), options);
            && r.result == Replayed(a) && LogOf(r.after, a) == service[a].log[..Max(n, upto)]
            && forall b :: b in service ==> Copies(r.after.journal, service, b)
  {
    var service := Run(reg, ps, Model(map[], view), ops).journal;
    RunKeepsRestorable(reg, ps, Model(map[], view), ops);
    OwnLogIsSource(reg, service, m.journal, a);
    ReplicationConverges(reg, there, there, m, a, service[a].log, from, upto, n, options);
    var after := ReplayAll(reg, there, m, Serialize(a, service[a].log, from, upto), options).after;
    hide ReplayAll, Run, Serialize, Restorable, WellFormed, Lawful, Total, Source, Holds;
    forall b | b in after.journal ensures b in service && after.journal[b].log <= service[b].log {
      if b != a { assert Get(after.journal, b) == Get(m.journal, b); }
    }
  }
}

/**
 * The durable event log of packages/core/src/event.ts, seen as a journal: one append-only log and one
 * owner per aggregate, beside the view that the projectors maintain.
 *
 * This module is the specification. EventStore.dfy runs the same operations over the two database
 * tables and refines it; the theorems about replication and ownership are proved here.
 */
module Journal {
  import opened Wrappers

  // ---------------------------------------------------------------- data

  /** Decoded event data, the JSON stored for it, and everything the projectors write to. */
  type Payload(==, !new)
  type Stored(==, !new)
  type View(!new)

  /** A durable definition: its type name, and the name it is stored under (type and version). */
  datatype Definition = Definition(typ: string, versioned: string)

  /** The event manifest and the codecs, which this layer takes as given. */
  datatype Registry = Registry(
    definition: string -> Option<Definition>,
    encode: (Definition, Payload) -> Option<Stored>,
    decode: (Definition, Stored) -> Option<Payload>,
    aggregateOf: (Definition, Payload) -> Option<string>
  )

  datatype Entry = Entry(id: string, typ: string, data: Stored)
  datatype Aggregate = Aggregate(owner: Option<string>, log: seq<Entry>)
  type Journal = map<string, Aggregate>

  datatype Event = Event(id: string, data: Payload)
  datatype Applied = Applied(id: string, typ: string, data: Payload, aggregate: string, sequence: int)
  type Projector = (View, Applied) -> Option<View>
  type Hook = (View, int) -> Option<View>
  type Projectors = map<string, seq<Projector>>

  datatype Serialized = Serialized(id: string, typ: string, sequence: int, aggregate: string, data: Stored)

  datatype Origin =
    | Local(hook: Option<Hook>)
    | Remote(sequence: int, aggregate: string, owner: Option<string>, strict: bool)

  datatype Failure =
    | UnknownType | Undecodable | Unencodable | NoAggregate | AggregateMismatch
    | OwnerMismatch | Diverged | SequenceMismatch | IDExists | ProjectionFailed

  datatype Outcome = Committed(aggregate: string, sequence: int) | Ignored | Died(reason: Failure)

  datatype Model = Model(journal: Journal, view: View)
  datatype Step = Step(outcome: Outcome, after: Model)

  // ---------------------------------------------------------------- one commit

  /** JavaScript truthiness of an optional owner ID: absent and empty owners do not fence anybody. */
  predicate Truthy(owner: Option<string>) {
    owner.Some? && owner.value != ""
  }

  predicate Fences(owner: Option<string>, claimant: Option<string>) {
    Truthy(owner) && owner != claimant
  }

  function Get(j: Journal, a: string): Aggregate {
    if a in j then j[a] else Aggregate(None, [])
  }

  function LogOf(m: Model, a: string): seq<Entry> {
    Get(m.journal, a).log
  }

  function OwnerOf(m: Model, a: string): Option<string> {
    Get(m.journal, a).owner
  }

  ghost predicate UsesID(j: Journal, id: string) {
    exists a, i :: a in j && 0 <= i < |j[a].log| && j[a].log[i].id == id
  }

  function Adopt(owner: Option<string>, claimant: Option<string>): Option<string> {
    if Truthy(claimant) && owner.None? then claimant else owner
  }

  datatype Verdict = Append | Duplicate | Fenced | Reject(reason: Failure)

  /** What the transaction decides about one event, in the order in which it checks. */
  ghost function Judge(j: Journal, a: string, entry: Entry, origin: Origin): Verdict {
    var agg := Get(j, a);
    if origin.Remote? && origin.strict && Fences(agg.owner, origin.owner) then Reject(OwnerMismatch)
    else if origin.Remote? && origin.sequence < |agg.log| then
      if 0 <= origin.sequence && agg.log[origin.sequence] == entry then Duplicate else Reject(Diverged)
    else if origin.Remote? && Fences(agg.owner, origin.owner) then Fenced
    else if origin.Remote? && origin.sequence != |agg.log| then Reject(SequenceMismatch)
    else if UsesID(j, entry.id) then Reject(IDExists)
    else Append
  }

  function Project(ps: seq<Projector>, view: View, event: Applied): Option<View> {
    if ps == [] then Some(view)
    else
      match ps[0](view, event)
      case None => None
      case Some(next) => Project(ps[1..], next, event)
  }

  function RunHook(origin: Origin, view: View, sequence: int): Option<View> {
    if origin.Local? && origin.hook.Some? then origin.hook.value(view, sequence) else Some(view)
  }

  function ProjectorsOf(ps: Projectors, typ: string): seq<Projector> {
    if typ in ps then ps[typ] else []
  }

  /** The projectors of an event's type in registration order, then the local commit hook. */
  function Advance(ps: Projectors, origin: Origin, view: View, event: Applied): Option<View> {
    match Project(ProjectorsOf(ps, event.typ), view, event)
    case None => None
    case Some(next) => RunHook(origin, next, event.sequence)
  }

  function ClaimantOf(origin: Origin): Option<string> {
    if origin.Remote? then origin.owner else None
  }

  ghost function Extended(j: Journal, a: string, entry: Entry, claimant: Option<string>): Journal {
    var agg := Get(j, a);
    j[a := Aggregate(if a in j then Adopt(agg.owner, claimant) else claimant, agg.log + [entry])]
  }

  /** One durable commit, local or replayed, as a single atomic step. */
  ghost function Commit(reg: Registry, ps: Projectors, m: Model, def: Definition, event: Event, origin: Origin): Step {
    match reg.aggregateOf(def, event.data)
    case None => Step(Died(NoAggregate), m)
    case Some(a) =>
      if origin.Remote? && origin.aggregate != a then Step(Died(AggregateMismatch), m)
      else
        match reg.encode(def, event.data)
        case None => Step(Died(Unencodable), m)
        case Some(data) =>
          var entry := Entry(event.id, def.versioned, data);
          var agg := Get(m.journal, a);
          match Judge(m.journal, a, entry, origin)
          case Reject(reason) => Step(Died(reason), m)
          case Fenced => Step(Ignored, m)
          case Duplicate =>
            var owner := Adopt(agg.owner, ClaimantOf(origin));
            Step(Ignored, m.(journal := m.journal[a := agg.(owner := owner)]))
          case Append =>
            var n := |agg.log|;
            match Advance(ps, origin, m.view, Applied(event.id, def.typ, event.data, a, n))
            case None => Step(Died(ProjectionFailed), m)
            case Some(view) => Step(Committed(a, n), Model(Extended(m.journal, a, entry, ClaimantOf(origin)), view))
  }

  // ---------------------------------------------------------------- operations

  datatype Options = Options(owner: Option<string>, strict: bool)

  ghost function Replay(reg: Registry, ps: Projectors, m: Model, event: Serialized, options: Options): Step {
    match reg.definition(event.typ)
    case None => Step(Died(UnknownType), m)
    case Some(def) =>
      match reg.decode(def, event.data)
      case None => Step(Died(Undecodable), m)
      case Some(data) =>
        Commit(reg, ps, m, def, Event(event.id, data),
            Remote(event.sequence, event.aggregate, options.owner, options.strict))
  }

  datatype BatchResult = NoSource | Replayed(source: string) | Failed(reason: Failure)
  datatype Batch = Batch(result: BatchResult, after: Model)

  /** Replays the events one transaction each, stopping at the first that dies. */
  ghost function ReplayEach(reg: Registry, ps: Projectors, m: Model, events: seq<Serialized>, options: Options): Step
    decreases |events|
  {
    if events == [] then Step(Ignored, m)
    else
      var first := Replay(reg, ps, m, events[0], options);
      if first.outcome.Died? then first else ReplayEach(reg, ps, first.after, events[1..], options)
  }

  predicate SameAggregate(events: seq<Serialized>) {
    forall i :: 0 <= i < |events| ==> events[i].aggregate == events[0].aggregate
  }

  predicate Contiguous(events: seq<Serialized>) {
    forall i :: 0 <= i < |events| ==> events[i].sequence == events[0].sequence + i
  }

  ghost function ReplayAll(reg: Registry, ps: Projectors, m: Model, events: seq<Serialized>, options: Options): Batch {
    if events == [] || events[0].aggregate == "" then Batch(NoSource, m)
    else if !SameAggregate(events) then Batch(Failed(AggregateMismatch), m)
    else if !Contiguous(events) then Batch(Failed(SequenceMismatch), m)
    else
      var last := ReplayEach(reg, ps, m, events, options);
      Batch(if last.outcome.Died? then Failed(last.outcome.reason) else Replayed(events[0].aggregate), last.after)
  }

  ghost function Remove(m: Model, a: string): Model {
    m.(journal := m.journal - {a})
  }

  ghost function Claim(m: Model, a: string, owner: string): Model {
    if a in m.journal then m.(journal := m.journal[a := m.journal[a].(owner := Some(owner))]) else m
  }

  /** Every way the journal changes: what any caller of the event service can do to it in one transaction. */
  datatype Operation =
    | Publish(def: Definition, event: Event, hook: Option<Hook>)
    | Receive(serialized: Serialized, options: Options)
    | Forget(aggregate: string)
    | TakeOver(aggregate: string, owner: string)

  ghost function Perform(reg: Registry, ps: Projectors, m: Model, op: Operation): Step {
    match op
    case Publish(def, event, hook) => Commit(reg, ps, m, def, event, Local(hook))
    case Receive(event, options) => Replay(reg, ps, m, event, options)
    case Forget(a) => Step(Ignored, Remove(m, a))
    case TakeOver(a, owner) => Step(Ignored, Claim(m, a, owner))
  }
}

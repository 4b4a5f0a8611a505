/**
 * packages/core/src/event.ts over its two tables: `event_sequence` (one row per aggregate) and `event`
 * (one row per event, in no particular arrangement). Each public operation is proved to act on the journal
 * that the tables represent exactly as its specification in Journal.dfy says.
 */
module EventStore {
  import opened Wrappers
  import opened Journal
  import opened Projection
  import opened Replication
  import DurableStream

  datatype SequenceRow = SequenceRow(sequence: int, owner: Option<string>)
  datatype EventRow = EventRow(id: string, aggregate: string, sequence: int, typ: string, data: Stored)
  datatype Tables = Tables(sequences: map<string, SequenceRow>, events: seq<EventRow>)

  // ---------------------------------------------------------------- queries

  /** The row at one position of one aggregate. */
  function SelectAt(rows: seq<EventRow>, a: string, sequence: int): (r: Option<EventRow>)
    ensures r.Some? ==> r.value in rows && r.value.aggregate == a && r.value.sequence == sequence
    ensures r.None? ==> forall i :: 0 <= i < |rows| ==> rows[i].aggregate != a || rows[i].sequence != sequence
  {
    if rows == [] then None
    else if rows[0].aggregate == a && rows[0].sequence == sequence then Some(rows[0])
    else SelectAt(rows[1..], a, sequence)
  }

  /** The row with one event ID. */
  function SelectID(rows: seq<EventRow>, id: string): (r: Option<EventRow>)
    ensures r.Some? ==> r.value in rows && r.value.id == id
    ensures r.None? ==> forall i :: 0 <= i < |rows| ==> rows[i].id != id
  {
    if rows == [] then None else if rows[0].id == id then Some(rows[0]) else SelectID(rows[1..], id)
  }

  /** The rows of one aggregate, as the table holds them. */
  function RowsOf(rows: seq<EventRow>, a: string): seq<EventRow> {
    if rows == [] then []
    else
      var n := |rows| - 1;
      RowsOf(rows[..n], a) + (if rows[n].aggregate == a then [rows[n]] else [])
  }

  /** The table without the rows of one aggregate. */
  function Without(rows: seq<EventRow>, a: string): seq<EventRow> {
    if rows == [] then []
    else
      var n := |rows| - 1;
      Without(rows[..n], a) + (if rows[n].aggregate == a then [] else [rows[n]])
  }

  /** The rows after a sequence. */
  function Above(rows: seq<EventRow>, after: int): seq<EventRow> {
    if rows == [] then []
    else
      var n := |rows| - 1;
      Above(rows[..n], after) + (if rows[n].sequence > after then [rows[n]] else [])
  }

  /** The same rows in ascending sequence order. */
  function Ordered(rows: seq<EventRow>): seq<EventRow> {
    if rows == [] then [] else Place(rows[|rows| - 1], Ordered(rows[..|rows| - 1]))
  }

  function Place(row: EventRow, rows: seq<EventRow>): seq<EventRow> {
    if rows == [] || rows[|rows| - 1].sequence <= row.sequence then rows + [row]
    else Place(row, rows[..|rows| - 1]) + [rows[|rows| - 1]]
  }

  function Entries(rows: seq<EventRow>): (r: seq<Entry>)
    ensures |r| == |rows|
    ensures forall i :: 0 <= i < |rows| ==> r[i] == Entry(rows[i].id, rows[i].typ, rows[i].data)
  {
    seq(|rows|, i requires 0 <= i < |rows| => Entry(rows[i].id, rows[i].typ, rows[i].data))
  }

  // ---------------------------------------------------------------- table invariant

  ghost predicate Numbered(rows: seq<EventRow>) {
    forall i :: 0 <= i < |rows| ==> rows[i].sequence == i
  }

  ghost predicate DistinctIDs(rows: seq<EventRow>) {
    forall i, k :: 0 <= i < k < |rows| ==> rows[i].id != rows[k].id
  }

  /** The rows of an aggregate are exactly 0..latest, and it has a sequence row exactly when it has events. */
  ghost predicate Consistent(t: Tables, a: string) {
    var rows := RowsOf(t.events, a);
    && Numbered(rows)
    && (a in t.sequences <==> rows != [])
    && (a in t.sequences ==> t.sequences[a].sequence == |rows| - 1)
  }

  ghost predicate ValidTables(t: Tables) {
    DistinctIDs(t.events) && forall a :: Consistent(t, a)
  }

  /** The journal that the two tables stand for. */
  ghost function Represented(t: Tables): Journal {
    map a | a in t.sequences :: Aggregate(t.sequences[a].owner, Entries(RowsOf(t.events, a)))
  }

  lemma {:induction false} RowsOfMembers(rows: seq<EventRow>, a: string, row: EventRow)
    ensures row in RowsOf(rows, a) <==> row in rows && row.aggregate == a
  {
    if rows == [] {
    } else {
      var n := |rows| - 1;
      assert rows == rows[..n] + [rows[n]];
      RowsOfMembers(rows[..n], a, row);
    }
  }

  lemma {:induction false} WithoutRows(rows: seq<EventRow>, a: string, b: string)
    ensures RowsOf(Without(rows, a), b) == if a == b then [] else RowsOf(rows, b)
  {
    if rows == [] {
    } else {
      var n := |rows| - 1;
      WithoutRows(rows[..n], a, b);
      var kept := Without(rows[..n], a);
      if rows[n].aggregate == a {
        assert Without(rows, a) == kept;
      } else {
        assert Without(rows, a) == kept + [rows[n]] && (kept + [rows[n]])[..|kept|] == kept;
      }
    }
  }

  lemma {:induction false} WithoutIDs(rows: seq<EventRow>, a: string)
    requires DistinctIDs(rows)
    ensures DistinctIDs(Without(rows, a))
    ensures forall row :: row in Without(rows, a) ==> row in rows
  {
    if rows == [] {
    } else {
      var n := |rows| - 1;
      assert rows == rows[..n] + [rows[n]];
      WithoutIDs(rows[..n], a);
      forall row | row in Without(rows[..n], a) ensures row.id != rows[n].id {
        var i :| 0 <= i < n && rows[..n][i] == row;
      }
    }
  }

  /** What the sequence row of an aggregate says about its log. */
  lemma SequenceRowIsLatest(t: Tables, a: string)
    requires ValidTables(t)
    ensures var agg := Get(Represented(t), a);
      && (a in Represented(t) <==> a in t.sequences) && |agg.log| == |RowsOf(t.events, a)|
      && (a in t.sequences ==> agg.owner == t.sequences[a].owner && |agg.log| == t.sequences[a].sequence + 1)
      && (a !in t.sequences ==> agg == Aggregate(None, []))
  {
    assert Consistent(t, a);
  }

  predicate Matches(row: Option<EventRow>, entry: Entry) {
    row.Some? && row.value.id == entry.id && row.value.typ == entry.typ && row.value.data == entry.data
  }

  /** In consistent tables a position query finds the entry of the log at that position. */
  lemma SelectAtIsIndexing(t: Tables, a: string, sequence: int, entry: Entry)
    requires ValidTables(t)
    ensures var log := Get(Represented(t), a).log;
      Matches(SelectAt(t.events, a, sequence), entry) <==> 0 <= sequence < |log| && log[sequence] == entry
  {
    assert Consistent(t, a);
    var rows := RowsOf(t.events, a);
    var found := SelectAt(t.events, a, sequence);
    if found.Some? {
      RowsOfMembers(t.events, a, found.value);
    } else if 0 <= sequence < |rows| {
      RowsOfMembers(t.events, a, rows[sequence]);
    }
  }

  /** In consistent tables an ID query answers for the whole journal. */
  lemma SelectIDIsUse(t: Tables, id: string)
    requires ValidTables(t)
    ensures SelectID(t.events, id).Some? <==> UsesID(Represented(t), id)
  {
    var j := Represented(t);
    if SelectID(t.events, id).Some? {
      var row := SelectID(t.events, id).value;
      RowsOfMembers(t.events, row.aggregate, row);
      assert Consistent(t, row.aggregate);
      var i :| 0 <= i < |RowsOf(t.events, row.aggregate)| && RowsOf(t.events, row.aggregate)[i] == row;
      assert j[row.aggregate].log[i].id == id;
    }
    if UsesID(j, id) {
      var a, i :| a in j && 0 <= i < |j[a].log| && j[a].log[i].id == id;
      RowsOfMembers(t.events, a, RowsOf(t.events, a)[i]);
    }
  }

  /** No two rows of consistent tables share a position, so the table's unique index never rejects an insert. */
  lemma PositionsAreUnique(t: Tables, r: EventRow, s: EventRow)
    requires ValidTables(t) && r in t.events && s in t.events
    requires r.aggregate == s.aggregate && r.sequence == s.sequence
    ensures r == s
  {
    assert Consistent(t, r.aggregate);
    RowsOfMembers(t.events, r.aggregate, r);
    RowsOfMembers(t.events, r.aggregate, s);
  }

  /** Consistent tables stand for a well-formed journal. */
  lemma RepresentedIsWellFormed(t: Tables)
    requires ValidTables(t)
    ensures WellFormed(Represented(t))
  {
    var j := Represented(t);
    forall a | a in j ensures j[a].log != [] { assert Consistent(t, a); }
    forall a, b, i, k | a in j && b in j && 0 <= i < |j[a].log| && 0 <= k < |j[b].log| &&
        j[a].log[i].id == j[b].log[k].id
      ensures a == b && i == k
    {
      var r, s := RowsOf(t.events, a)[i], RowsOf(t.events, b)[k];
      RowsOfMembers(t.events, a, r);
      RowsOfMembers(t.events, b, s);
      assert r == s by {
        var x :| 0 <= x < |t.events| && t.events[x] == r;
        var y :| 0 <= y < |t.events| && t.events[y] == s;
        assert x == y;
      }
      assert Consistent(t, a);
    }
  }

  lemma {:induction false} AboveIsSuffix(rows: seq<EventRow>, after: int)
    requires Numbered(rows)
    ensures Above(rows, after) == if after + 1 >= |rows| then [] else rows[Max(0, after + 1)..]
  {
    if rows == [] {
    } else {
      AboveIsSuffix(rows[..|rows| - 1], after);
    }
  }

  lemma {:induction false} AscendingIsOrdered(rows: seq<EventRow>)
    requires forall i, k :: 0 <= i < k < |rows| ==> rows[i].sequence <= rows[k].sequence
    ensures Ordered(rows) == rows
  {
    if rows == [] {
    } else {
      AscendingIsOrdered(rows[..|rows| - 1]);
    }
  }

  /** The query for rows after a cursor finds the log's entries after it, in order. */
  lemma LogAfter(t: Tables, a: string, after: int)
    requires ValidTables(t)
    ensures var rows := Ordered(Above(RowsOf(t.events, a), after));
            var items := DurableStream.ItemsAfter(Get(Represented(t), a).log, after);
        && |rows| == |items|
        && forall i :: 0 <= i < |rows| ==>
             rows[i] == EventRow(items[i].entry.id, a, items[i].sequence, items[i].entry.typ, items[i].entry.data)
  {
    var all := RowsOf(t.events, a);
    assert Consistent(t, a);
    SequenceRowIsLatest(t, a);
    RepresentedLog(t, a);
    AboveIsSuffix(all, after);
    AscendingIsOrdered(Above(all, after));
    forall i | 0 <= i < |all| ensures all[i].aggregate == a { RowsOfMembers(t.events, a, all[i]); }
    assert Numbered(all);
    hide *;
    SuffixItems(all, a, after);
  }

  lemma RepresentedLog(t: Tables, a: string)
    requires ValidTables(t)
    ensures Get(Represented(t), a).log == Entries(RowsOf(t.events, a))
  {
    assert Consistent(t, a);
  }

  lemma SuffixItems(all: seq<EventRow>, a: string, after: int)
    requires Numbered(all) && forall i :: 0 <= i < |all| ==> all[i].aggregate == a
    ensures var rows := if after + 1 >= |all| then [] else all[Max(0, after + 1)..];
            var items := DurableStream.ItemsAfter(Entries(all), after);
        && |rows| == |items|
        && forall i :: 0 <= i < |rows| ==>
             rows[i] == EventRow(items[i].entry.id, a, items[i].sequence, items[i].entry.typ, items[i].entry.data)
  {
  }

  // ---------------------------------------------------------------- table updates

  function InsertedSequences(t: Tables, row: EventRow, claimant: Option<string>): map<string, SequenceRow> {
    var a := row.aggregate;
    t.sequences[a := SequenceRow(row.sequence, if a in t.sequences then Adopt(t.sequences[a].owner, claimant)
        else claimant)]
  }

  /** Inserting the next row of an aggregate: the tables stay consistent and the journal's log is extended. */
  lemma InsertExtends(t: Tables, row: EventRow, claimant: Option<string>, t': Tables)
    requires ValidTables(t)
    requires SelectID(t.events, row.id).None?
    requires row.sequence == |RowsOf(t.events, row.aggregate)|
    requires t' == Tables(InsertedSequences(t, row, claimant), t.events + [row])
    ensures ValidTables(t')
    ensures Represented(t') == Extended(Represented(t), row.aggregate, Entry(row.id, row.typ, row.data), claimant)
  {
    InsertRows(t.events, row);
    forall b ensures Consistent(t', b) {
      assert Consistent(t, b);
      if b != row.aggregate { InsertRowsElsewhere(t.events, row, b); }
    }
    hide RowsOf, SelectID, Represented, Consistent;
    InsertRepresents(t, row, claimant, t');
  }

  lemma InsertRepresents(t: Tables, row: EventRow, claimant: Option<string>, t': Tables)
    requires ValidTables(t)
    requires t' == Tables(InsertedSequences(t, row, claimant), t.events + [row])
    ensures Represented(t') == Extended(Represented(t), row.aggregate, Entry(row.id, row.typ, row.data), claimant)
  {
    var a := row.aggregate;
    InsertRows(t.events, row);
    RepresentedLog(t, a);
    assert Entries(RowsOf(t'.events, a)) == Entries(RowsOf(t.events, a)) + [Entry(row.id, row.typ, row.data)];
    hide RowsOf, ValidTables, Consistent, DistinctIDs, SelectID, Entries;
    var goal := Extended(Represented(t), a, Entry(row.id, row.typ, row.data), claimant);
    forall b | b in goal ensures Represented(t')[b] == goal[b] {
      if b != a { InsertRowsElsewhere(t.events, row, b); }
    }
    assert Represented(t').Keys == goal.Keys;
  }

  lemma InsertRows(rows: seq<EventRow>, row: EventRow)
    ensures RowsOf(rows + [row], row.aggregate) == RowsOf(rows, row.aggregate) + [row]
    ensures DistinctIDs(rows) && SelectID(rows, row.id).None? ==> DistinctIDs(rows + [row])
  {
    assert (rows + [row])[..|rows|] == rows;
  }

  lemma InsertRowsElsewhere(rows: seq<EventRow>, row: EventRow, b: string)
    requires b != row.aggregate
    ensures RowsOf(rows + [row], b) == RowsOf(rows, b)
  {
    assert (rows + [row])[..|rows|] == rows;
  }

  lemma OwnerUpdates(t: Tables, a: string, owner: Option<string>, t': Tables)
    requires ValidTables(t) && a in t.sequences
    requires t' == t.(sequences := t.sequences[a := t.sequences[a].(owner := owner)])
    ensures ValidTables(t')
    ensures Represented(t') == Represented(t)[a := Represented(t)[a].(owner := owner)]
  {
    forall b ensures Consistent(t', b) { assert Consistent(t, b); }
  }

  lemma DeleteRemoves(t: Tables, a: string, t': Tables)
    requires ValidTables(t)
    requires t' == Tables(t.sequences - {a}, Without(t.events, a))
    ensures ValidTables(t')
    ensures Represented(t') == Represented(t) - {a}
  {
    WithoutIDs(t.events, a);
    forall b ensures Consistent(t', b) {
      assert Consistent(t, b);
      WithoutRows(t.events, a, b);
    }
    forall b | b in t'.sequences ensures RowsOf(t'.events, b) == RowsOf(t.events, b) { WithoutRows(t.events, a, b); }
  }

  // ---------------------------------------------------------------- the service

  /** A record and a stored row tell the same event. */
  ghost predicate Tells(reg: Registry, record: Record, row: EventRow) {
    && record.event.id == row.id && record.event.aggregate == row.aggregate && record.event.sequence == row.sequence
    && record.versioned == row.typ
    && reg.encode(Definition(record.event.typ, record.versioned), record.event.data) == Some(row.data)
  }

  /**
   * The view is what the recorded history makes of the first one and, until an aggregate is removed, the history is
   * exactly the stored events, each once.
   */
  ghost predicate Remembers(reg: Registry, base: View, history: seq<Record>, view: View, events: seq<EventRow>,
                            pristine: bool) {
    && Fold(base, history) == Some(view)
    && (pristine ==> |history| == |events| && forall i :: 0 <= i < |history| ==> Tells(reg, history[i], events[i]))
  }

  /** What the ghost flags of the service say of its history. */
  ghost predicate Plain(history: seq<Record>, projectors: Projectors, steady: bool, hookless: bool) {
    && (steady ==> forall i :: 0 <= i < |history| ==> history[i].projectors == projectors)
    && (hookless ==> forall i :: 0 <= i < |history| ==> Hookless(history[i]))
  }

  lemma RemembersNext(reg: Registry, base: View, history: seq<Record>, view: View, events: seq<EventRow>,
                      pristine: bool, record: Record, after: View, row: EventRow)
    requires Remembers(reg, base, history, view, events, pristine) && Tells(reg, record, row)
    requires Advance(record.projectors, record.origin, view, record.event) == Some(after)
    ensures Remembers(reg, base, history + [record], after, events + [row], pristine)
  {
    assert (history + [record])[..|history|] == history;
  }

  lemma RemembersAfterRemoval(reg: Registry, base: View, history: seq<Record>, view: View, events: seq<EventRow>,
                              pristine: bool, rest: seq<EventRow>)
    requires Remembers(reg, base, history, view, events, pristine)
    ensures Remembers(reg, base, history, view, rest, false)
  {
  }

  /** A live announcement to listeners and streams. */
  datatype Notice = Live(typ: string, event: Event) | Durable(typ: string, event: Event, aggregate: string,
      sequence: int)

  datatype Published = Announced(notice: Notice) | Refused(reason: Failure) | HookNeedsDurable

  lemma LocalIsNotIgnored(reg: Registry, ps: Projectors, m: Model, def: Definition, event: Event, hook: Option<Hook>)
    ensures !Commit(reg, ps, m, def, event, Local(hook)).outcome.Ignored?
  {
  }

  /** A durable event is announced with its aggregate and sequence. */
  function Announcements(records: seq<Record>): (r: seq<Notice>)
    ensures |r| == |records|
  {
    seq(|records|, i requires 0 <= i < |records| =>
      var e := records[i].event;
      Durable(e.typ, Event(e.id, e.data), e.aggregate, e.sequence))
  }

  lemma AnnouncementsJoin(left: seq<Record>, right: seq<Record>)
    ensures Announcements(left + right) == Announcements(left) + Announcements(right) && Announcements([]) == []
  {
  }

  /** One turn of the replay loop. */
  lemma EachStep(reg: Registry, ps: Projectors, m: Model, events: seq<Serialized>, index: nat, options: Options,
                 told: seq<Record>)
    requires index < |events|
    ensures var first := Replay(reg, ps, m, events[index], options);
            var records := ReplayRecords(reg, ps, m, events[index], options);
            if first.outcome.Died? then
              && ReplayEach(reg, ps, m, events[index..], options) == first
              && told + EachRecords(reg, ps, m, events[index..], options) == told + records
            else
              && ReplayEach(reg, ps, m, events[index..], options)
                 == ReplayEach(reg, ps, first.after, events[index + 1..], options)
              && told + EachRecords(reg, ps, m, events[index..], options)
                 == told + records + EachRecords(reg, ps, first.after, events[index + 1..], options)
  {
    assert events[index..][1..] == events[index + 1..];
  }

  lemma EachEnds(reg: Registry, ps: Projectors, m: Model, events: seq<Serialized>, options: Options)
    requires events == []
    ensures ReplayEach(reg, ps, m, events, options) == Step(Ignored, m)
    ensures EachRecords(reg, ps, m, events, options) == []
  {
  }

  class EventService {
    const reg: Registry
    var tables: Tables
    var view: View
    var projectors: Projectors
    var notices: seq<Notice>
    ghost const base: View
    ghost var history: seq<Record>   // every event the projectors have been given in a committed transaction
    ghost var pristine: bool         // no aggregate has been removed yet
    ghost var steady: bool           // no projector has been registered after the first commit
    ghost var hookless: bool         // no commit has had a hook

    ghost predicate Valid()
      reads this
    {
      && ValidTables(tables)
      && Remembers(reg, base, history, view, tables.events, pristine)
      && Plain(history, projectors, steady, hookless)
    }

    ghost function Current(): Model
      reads this
    {
      Model(Represented(tables), view)
    }

    constructor (reg: Registry, view: View)
      ensures Valid() && pristine && steady && hookless && history == [] && this.reg == reg && base == view
      ensures Current() == Model(map[], view) && projectors == map[] && notices == []
    {
      this.reg := reg;
      this.view := view;
      base := view;
      tables := Tables(map[], []);
      projectors := map[];
      notices := [];
      history := [];
      pristine, steady, hookless := true, true, true;
    }

    /** `project`: the projector will run last on every later event of its type; nothing stored is projected again. */
    method RegisterProjector(typ: string, projector: Projector)
      requires Valid()
      modifies this`projectors, this`steady
      ensures Valid() && Current() == old(Current()) && steady == (old(steady) && history == [])
      ensures projectors == Register(old(projectors), typ, projector)
      ensures forall v, e: Applied ::
                var before := Project(ProjectorsOf(old(projectors), e.typ), v, e);
                Project(ProjectorsOf(projectors, e.typ), v, e) ==
                if e.typ == typ && before.Some? then projector(before.value, e) else before
    {
      forall v, e: Applied { RegisteredRunsLast(projectors, typ, projector, v, e); }
      projectors := projectors[typ := ProjectorsOf(projectors, typ) + [projector]];
      steady := steady && history == [];
    }

    /** The projectors of one event and then the local hook; a failure rolls the view back. */
    method RunProjectors(origin: Origin, committed: Applied) returns (ok: bool)
      modifies this`view
      ensures var advanced := Advance(projectors, origin, old(view), committed);
        ok == advanced.Some? && view == if ok then advanced.value else old(view)
    {
      var list := ProjectorsOf(projectors, committed.typ);
      var rollback := view;
      var i := 0;
      while i < |list|
        invariant 0 <= i <= |list|
        invariant Project(list, rollback, committed) == Project(list[i..], view, committed)
      {
        var next := list[i](view, committed);
        assert list[i..][1..] == list[i + 1..];
        if next.None? {
          view := rollback;
          return false;
        }
        view := next.value;
        i := i + 1;
      }
      if origin.Local? && origin.hook.Some? {
        var next := origin.hook.value(view, committed.sequence);
        if next.None? {
          view := rollback;
          return false;
        }
        view := next.value;
      }
      return true;
    }

    /** The upsert of the sequence row together with the insert of the event row. */
    method InsertRow(row: EventRow, claimant: Option<string>)
      requires ValidTables(tables)
      requires SelectID(tables.events, row.id).None? && row.sequence == |RowsOf(tables.events, row.aggregate)|
      modifies this`tables
      ensures ValidTables(tables) && tables.events == old(tables).events + [row]
      ensures Represented(tables)
           == Extended(Represented(old(tables)), row.aggregate, Entry(row.id, row.typ, row.data), claimant)
    {
      var a := row.aggregate;
      var owner := if a in tables.sequences then Adopt(tables.sequences[a].owner, claimant) else claimant;
      tables := Tables(tables.sequences[a := SequenceRow(row.sequence, owner)], tables.events + [row]);
      assert tables.sequences == InsertedSequences(old(tables), row, claimant);
      InsertExtends(old(tables), row, claimant, tables);
    }

    /** The owner update of an exact replay. */
    method AdoptOwner(a: string, claimant: Option<string>)
      requires ValidTables(tables) && a in tables.sequences
      modifies this`tables
      ensures ValidTables(tables) && tables.events == old(tables).events
      ensures var j := Represented(old(tables));
        Represented(tables) == j[a := j[a].(owner := Adopt(j[a].owner, claimant))]
    {
      var owner := tables.sequences[a].owner;
      if Truthy(claimant) && owner.None? {
        tables := tables.(sequences := tables.sequences[a := tables.sequences[a].(owner := claimant)]);
        OwnerUpdates(old(tables), a, claimant, tables);
      } else {
        var j := Represented(tables);
        assert j[a := j[a].(owner := Adopt(j[a].owner, claimant))] == j;
      }
    }

    /** `commitDurableEvent`: one transaction over both tables and the projected view. */
    method CommitDurableEvent(def: Definition, event: Event, origin: Origin) returns (outcome: Outcome)
      requires Valid()
      modifies this`tables, this`view, this`history, this`hookless
      ensures Valid()
      ensures Step(outcome, Current()) == Commit(reg, projectors, old(Current()), def, event, origin)
      ensures outcome.Committed? && origin.Remote? ==> outcome == Committed(origin.aggregate, origin.sequence)
      ensures history == old(history) + CommitRecords(reg, projectors, old(Current()), def, event, origin)
      ensures !outcome.Committed? ==> view == old(view) && tables.events == old(tables).events
      ensures origin.Remote? || origin.hook.None? ==> hookless == old(hookless)
    {
      hide ValidTables, Represented, RowsOf, SelectAt, SelectID, Matches, UsesID, Extended, Remembers, Advance,
          Fences, Adopt;
      var field := reg.aggregateOf(def, event.data);
      if field.None? { return Died(NoAggregate); }
      var a := field.value;
      if origin.Remote? && origin.aggregate != a { return Died(AggregateMismatch); }

      // the transaction
      SequenceRowIsLatest(tables, a);
      var present := a in tables.sequences;
      var owner := if present then tables.sequences[a].owner else None;
      var latest := if present then tables.sequences[a].sequence else -1;
      var encoded := reg.encode(def, event.data);
      if encoded.None? { return Died(Unencodable); }
      if origin.Remote? && origin.strict && Fences(owner, origin.owner) { return Died(OwnerMismatch); }
      if origin.Remote? && origin.sequence <= latest {
        var stored := SelectAt(tables.events, a, origin.sequence);
        SelectAtIsIndexing(tables, a, origin.sequence, Entry(event.id, def.versioned, encoded.value));
        if Matches(stored, Entry(event.id, def.versioned, encoded.value)) {
          AdoptOwner(a, origin.owner);
          return Ignored;
        }
        return Died(Diverged);
      }
      if origin.Remote? && Fences(owner, origin.owner) { return Ignored; }
      var sequence := if origin.Remote? then origin.sequence else latest + 1;
      if origin.Remote? && sequence != latest + 1 { return Died(SequenceMismatch); }
      SelectIDIsUse(tables, event.id);
      var used := SelectID(tables.events, event.id);
      if used.Some? { return Died(IDExists); }

      var committed := Applied(event.id, def.typ, event.data, a, sequence);
      var ok := RunProjectors(origin, committed);
      if !ok { return Died(ProjectionFailed); }
      var row := EventRow(event.id, a, sequence, def.versioned, encoded.value);
      InsertRow(row, ClaimantOf(origin));
      ghost var record := Record(committed, def.versioned, projectors, origin);
      RemembersNext(reg, base, history, old(view), old(tables.events), pristine, record, view, row);
      history := history + [record];
      hookless := hookless && Hookless(record);
      return Committed(a, sequence);
    }

    /**
     * `publishEvent`: a durable event is committed and then announced with its sequence; a live one is only announced.
     */
    method Publish(def: Definition, durable: bool, event: Event, hook: Option<Hook>) returns (r: Published)
      requires Valid()
      modifies this`tables, this`view, this`history, this`hookless, this`notices
      ensures Valid()
      ensures !durable ==>
                Current() == old(Current()) &&
                    (r == if hook.Some? then HookNeedsDurable else Announced(Live(def.typ, event)))
      ensures durable ==>
        var step := Commit(reg, projectors, old(Current()), def, event, Local(hook));
        && Current() == step.after
        && r == if step.outcome.Committed?
                then Announced(Durable(def.typ, event, step.outcome.aggregate, step.outcome.sequence))
                else Refused(step.outcome.reason)
      ensures notices == if r.Announced? then old(notices) + [r.notice] else old(notices)
      ensures history == old(history) +
                if durable then CommitRecords(reg, projectors, old(Current()), def, event, Local(hook)) else []
      ensures hook.None? ==> hookless == old(hookless)
    {
      hide Commit, ValidTables, Represented, Remembers;
      if !durable && hook.Some? { return HookNeedsDurable; }
      if durable {
        LocalIsNotIgnored(reg, projectors, Current(), def, event, hook);
        var outcome := CommitDurableEvent(def, event, Local(hook));
        if outcome.Died? { return Refused(outcome.reason); }
        r := Announced(Durable(def.typ, event, outcome.aggregate, outcome.sequence));
      } else {
        r := Announced(Live(def.typ, event));
      }
      notices := notices + [r.notice];
    }

    /** `replay`: one event of another log. */
    method ReplayOne(event: Serialized, publish: bool, options: Options) returns (outcome: Outcome)
      requires Valid()
      modifies this`tables, this`view, this`history, this`hookless, this`notices
      ensures Valid()
      ensures Step(outcome, Current()) == Replay(reg, projectors, old(Current()), event, options)
      ensures var records := ReplayRecords(reg, projectors, old(Current()), event, options);
        && history == old(history) + records
        && notices == old(notices) + if publish then Announcements(records) else []
      ensures outcome.Committed? <==> ReplayRecords(reg, projectors, old(Current()), event, options) != []
      ensures hookless == old(hookless)
    {
      hide Commit, ValidTables, Represented, Remembers;
      var definition := reg.definition(event.typ);
      if definition.None? { return Died(UnknownType); }
      var def := definition.value;
      var data := reg.decode(def, event.data);
      if data.None? { return Died(Undecodable); }
      outcome := CommitDurableEvent(def, Event(event.id, data.value),
                                    Remote(event.sequence, event.aggregate, options.owner, options.strict));
      if outcome.Committed? && publish {
        notices := notices + [Durable(def.typ, Event(event.id, data.value), outcome.aggregate, outcome.sequence)];
      }
    }

    /** The replay loop of a batch: one transaction an event, up to the first that dies. */
    method ReplayEvents(events: seq<Serialized>, publish: bool, options: Options) returns (reason: Option<Failure>)
      requires Valid()
      modifies this`tables, this`view, this`history, this`hookless, this`notices
      ensures Valid() && hookless == old(hookless)
      ensures var step := ReplayEach(reg, projectors, old(Current()), events, options);
        Current() == step.after && reason == if step.outcome.Died? then Some(step.outcome.reason) else None
      ensures var records := EachRecords(reg, projectors, old(Current()), events, options);
        && history == old(history) + records
        && notices == old(notices) + if publish then Announcements(records) else []
    {
      hide Replay, ReplayEach, ReplayRecords, EachRecords, ValidTables, Represented, Remembers, Announcements;
      ghost var before := Current();
      ghost var told := [];
      AnnouncementsJoin([], []);
      assert events[0..] == events;
      for index := 0 to |events|
        invariant Valid() && hookless == old(hookless)
        invariant history == old(history) + told
        invariant notices == old(notices) + if publish then Announcements(told) else []
        invariant EachRecords(reg, projectors, before, events, options)
               == told + EachRecords(reg, projectors, Current(), events[index..], options)
        invariant ReplayEach(reg, projectors, before, events, options)
               == ReplayEach(reg, projectors, Current(), events[index..], options)
      {
        EachStep(reg, projectors, Current(), events, index, options, told);
        ghost var records := ReplayRecords(reg, projectors, Current(), events[index], options);
        var outcome := ReplayOne(events[index], publish, options);
        AnnouncementsJoin(told, records);
        told := told + records;
        if outcome.Died? { return Some(outcome.reason); }
      }
      EachEnds(reg, projectors, Current(), events[|events|..], options);
      assert told + [] == told;
      return None;
    }

    /** `replayAll`: a batch, checked as a whole and then replayed one transaction at a time. */
    method ReplayBatch(events: seq<Serialized>, publish: bool, options: Options) returns (r: BatchResult)
      requires Valid()
      modifies this`tables, this`view, this`history, this`hookless, this`notices
      ensures Valid()
      ensures Batch(r, Current()) == ReplayAll(reg, projectors, old(Current()), events, options)
      ensures var records := BatchRecords(reg, projectors, old(Current()), events, options);
        && history == old(history) + records
        && notices == old(notices) + if publish then Announcements(records) else []
      ensures hookless == old(hookless)
    {
      hide ReplayEach, EachRecords, ValidTables, Represented, Remembers, Announcements;
      AnnouncementsJoin([], []);
      if events == [] || events[0].aggregate == "" { return NoSource; }
      var source := events[0].aggregate;
      if exists i :: 0 <= i < |events| && events[i].aggregate != source { return Failed(AggregateMismatch); }
      var start := events[0].sequence;
      for index := 0 to |events|
        invariant forall i :: 0 <= i < index ==> events[i].sequence == start + i
      {
        if events[index].sequence != start + index { return Failed(SequenceMismatch); }
      }
      var reason := ReplayEvents(events, publish, options);
      return if reason.Some? then Failed(reason.value) else Replayed(source);
    }

    /** `readAfter`: the rows of an aggregate after a cursor, which are the journal's entries after that cursor. */
    method ReadAfter(a: string, after: int) returns (rows: seq<EventRow>)
      requires Valid()
      ensures var items := DurableStream.ItemsAfter(LogOf(Current(), a), after);
        && |rows| == |items|
        && forall i :: 0 <= i < |rows| ==>
             rows[i] == EventRow(items[i].entry.id, a, items[i].sequence, items[i].entry.typ, items[i].entry.data)
    {
      hide Remembers;
      rows := Ordered(Above(RowsOf(tables.events, a), after));
      LogAfter(tables, a, after);
    }

    /** `remove`: deletes an aggregate's sequence row and events; the projected view stays. */
    method RemoveAggregate(a: string)
      requires Valid()
      modifies this`tables, this`pristine
      ensures Valid() && Current() == Remove(old(Current()), a)
    {
      ghost var before := tables;
      tables := Tables(tables.sequences - {a}, Without(tables.events, a));
      DeleteRemoves(before, a, tables);
      RemembersAfterRemoval(reg, base, history, view, before.events, pristine, tables.events);
      pristine := false;
    }

    /** `claim`: an update of the sequence row, which does nothing for an aggregate without one. */
    method ClaimAggregate(a: string, owner: string)
      requires Valid()
      modifies this`tables
      ensures Valid() && Current() == Claim(old(Current()), a, owner)
    {
      if a in tables.sequences {
        ghost var before := tables;
        tables := tables.(sequences := tables.sequences[a := tables.sequences[a].(owner := Some(owner))]);
        OwnerUpdates(before, a, Some(owner), tables);
      }
    }
  }

  /**
   * Without removals, late projectors and hooks, the view is the fold of the service's projectors over the stored
   * events, in the order of their rows and each once.
   */
  lemma ViewIsProjection(service: EventService) returns (events: seq<Applied>)
    requires service.Valid() && service.pristine && service.steady && service.hookless
    ensures FoldEvents(service.projectors, service.base, events) == Some(service.view)
    ensures |events| == |service.tables.events|
    ensures forall i :: 0 <= i < |events| ==>
              var row := service.tables.events[i];
              && events[i].id == row.id && events[i].aggregate == row.aggregate && events[i].sequence == row.sequence
              && service.reg.encode(Definition(events[i].typ, row.typ), events[i].data) == Some(row.data)
  {
    events := EventsOf(service.history);
    FixedFold(service.projectors, service.base, service.history);
    forall i | 0 <= i < |events| ensures Tells(service.reg, service.history[i], service.tables.events[i]) { }
  }
}

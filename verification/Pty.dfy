/**
 * packages/core/src/pty.ts: a terminal's output window. The session keeps the newest output, addressed by absolute
 * cursors, and hands every subscriber a replay, then what arrived before it was activated, then live output.
 * `output` is everything the terminal ever wrote; the code does not keep it.
 */
module Pty {
  import opened Wrappers

  /** One UTF-16 code unit of output. */
  type Unit(==, !new)
  type Token = nat

  const BUFFER_LIMIT: nat := 1024 * 1024 * 2
  const MAX_SAFE_INTEGER: nat := 0x1F_FFFF_FFFF_FFFF

  /**
   * A call of one of a subscriber's callbacks: of data that returned normally, or of the end, which may have thrown.
   */
  datatype Call = Data(chunk: seq<Unit>) | End(code: int)

  datatype Subscriber =
    Subscriber(active: bool, detached: bool, pending: seq<seq<Unit>>, end: Option<int>, calls: seq<Call>)

  datatype AttachError = ExitedError
  datatype Attachment = Attachment(token: Token, replay: seq<Unit>, cursor: nat)

  /**
   * What the proofs remember of a subscriber: the replay it was given, which is the output from `point` to `base`;
   * whether it attached while the process ran; whether it detached or failed; and where output stopped reaching it.
   */
  datatype Origin = Origin(replay: seq<Unit>, point: nat, base: nat, live: bool, lost: bool, stop: nat)

  // ---------------------------------------------------------------- output, as chunks and as calls

  function Flat(chunks: seq<seq<Unit>>): seq<Unit> {
    if chunks == [] then [] else Flat(chunks[..|chunks| - 1]) + chunks[|chunks| - 1]
  }

  function Received(calls: seq<Call>): seq<Unit> {
    if calls == [] then []
    else Received(calls[..|calls| - 1]) + (if calls[|calls| - 1].Data? then calls[|calls| - 1].chunk else [])
  }

  function Deliveries(chunks: seq<seq<Unit>>): seq<Call> {
    seq(|chunks|, i requires 0 <= i < |chunks| => Data(chunks[i]))
  }

  predicate OnlyData(calls: seq<Call>) {
    forall i :: 0 <= i < |calls| ==> calls[i].Data?
  }

  lemma ReceivedLast(calls: seq<Call>, call: Call)
    ensures Received(calls + [call]) == Received(calls) + (if call.Data? then call.chunk else [])
  {
    assert (calls + [call])[..|calls|] == calls;
  }

  lemma FlatLast(chunks: seq<seq<Unit>>, chunk: seq<Unit>)
    ensures Flat(chunks + [chunk]) == Flat(chunks) + chunk
  {
    assert (chunks + [chunk])[..|chunks|] == chunks;
  }

  /** Delivering chunks is receiving their text. */
  lemma {:induction false} DeliveriesReceived(chunks: seq<seq<Unit>>)
    ensures OnlyData(Deliveries(chunks)) && Received(Deliveries(chunks)) == Flat(chunks)
  {
    if chunks != [] {
      var most := chunks[..|chunks| - 1];
      DeliveriesReceived(most);
      assert Deliveries(chunks) == Deliveries(most) + [Data(chunks[|chunks| - 1])];
      ReceivedLast(Deliveries(most), Data(chunks[|chunks| - 1]));
    }
  }

  /** Failing part-way leaves a prefix. */
  lemma {:induction false} FlatPrefix(chunks: seq<seq<Unit>>, k: nat)
    requires k <= |chunks|
    ensures Flat(chunks[..k]) <= Flat(chunks)
  {
    if k < |chunks| {
      var most := chunks[..|chunks| - 1];
      FlatPrefix(most, k);
      assert most[..k] == chunks[..k];
    } else {
      assert chunks[..k] == chunks;
    }
  }

  // ---------------------------------------------------------------- the window and the cursor

  /** The buffer is the newest output, as much of it as the limit allows, and `start` is where it begins. */
  predicate Window(output: seq<Unit>, buffer: seq<Unit>, start: nat, limit: nat) {
    start == Max(0, |output| - limit) && buffer == output[start..]
  }

  /** The position from which a subscriber that asks for `cursor` sees output. */
  function Point(cursor: Option<int>, start: nat, end: nat): (p: nat)
    requires start <= end
    ensures start <= p <= end
    ensures cursor == Some(-1) ==> p == end
    ensures cursor.Some? && 0 <= cursor.value <= MAX_SAFE_INTEGER && cursor.value <= end ==>
              p == Max(cursor.value, start)
    ensures cursor.Some? && end < cursor.value <= MAX_SAFE_INTEGER ==> p == end
    ensures cursor.None? || cursor.value < -1 || cursor.value > MAX_SAFE_INTEGER ==> p == start
  {
    var from := Wanted(cursor, end);
    if from >= end then end else Max(from, start)
  }

  /** Line 320: absent, fractional and unsafe cursors ask for everything. */
  function Wanted(cursor: Option<int>, end: nat): nat {
    if cursor == Some(-1) then end
    else if cursor.Some? && 0 <= cursor.value + MAX_SAFE_INTEGER <= 2 * MAX_SAFE_INTEGER then Max(0, cursor.value)
    else 0
  }

  // ---------------------------------------------------------------- one subscriber

  /** The output a subscriber has been or will be given ends here. */
  function Reach(output: seq<Unit>, o: Origin, registered: bool): nat {
    if registered then |output| else o.stop
  }

  predicate Bounded(output: seq<Unit>, o: Origin) {
    o.point <= o.base <= o.stop <= |output| && o.replay == output[o.point..o.base]
  }

  /** No output is missing, repeated or reordered. */
  predicate Faithful(output: seq<Unit>, s: Subscriber, o: Origin, registered: bool)
    requires Bounded(output, o)
  {
    && (registered ==> !s.detached && !o.lost)
    && (!o.lost ==> Received(s.calls) + Flat(s.pending) == output[o.base..Reach(output, o, registered)])
    && (o.lost ==> (s.active || s.detached) && Received(s.calls) <= output[o.base..])
    && (s.active && !o.lost ==> s.pending == [])
    && (!s.active ==> s.calls == [])
  }

  predicate EndsOnce(calls: seq<Call>) {
    forall i, k :: 0 <= i < k < |calls| ==> calls[i].Data? || calls[k].Data?
  }

  /** The end notice comes at most once and, for whoever attached while the process ran, after all output. */
  predicate Ended(s: Subscriber, o: Origin, registered: bool, exit: Option<int>) {
    && EndsOnce(s.calls)
    && (!o.live ==> exit.Some?)
    && (o.live && s.calls != [] ==> OnlyData(s.calls[..|s.calls| - 1]))
    && (o.live && registered ==> s.end.None? && OnlyData(s.calls))
    && (o.live && !registered && !o.lost ==>
          exit.Some? && (if s.active then s.calls != [] && s.calls[|s.calls| - 1] == End(exit.value)
              else s.end == exit))
  }

  predicate Sound(output: seq<Unit>, s: Subscriber, o: Origin, registered: bool, exit: Option<int>) {
    Bounded(output, o) && Faithful(output, s, o, registered) && Ended(s, o, registered, exit)
  }

  // ---------------------------------------------------------------- what each event does to one subscriber

  function Heard(s: Subscriber, chunk: seq<Unit>, fails: bool): Subscriber {
    if !s.active then s.(pending := s.pending + [chunk])
    else if fails then s
    else s.(calls := s.calls + [Data(chunk)])
  }

  function Notified(s: Subscriber, code: int): Subscriber {
    if s.active then s.(calls := s.calls + [End(code)]) else s.(end := Some(code))
  }

  /** Flushing what waits; `failure` is the chunk at which the callback throws, if it does. */
  function Activated(s: Subscriber, failure: Option<nat>): Subscriber {
    if s.active || s.detached then s
    else if failure.Some? && failure.value < |s.pending| then
      s.(active := true, calls := s.calls + Deliveries(s.pending[..failure.value]))
    else
      s.(active := true, pending := [],
         calls := s.calls + Deliveries(s.pending) + (if s.end.Some? then [End(s.end.value)] else []))
  }

  lemma ActivatedCases(s: Subscriber, failure: Option<nat>)
    ensures s.active || s.detached ==> Activated(s, failure) == s
    ensures !s.active && !s.detached && (failure.None? || failure.value >= |s.pending|) ==>
              Activated(s, failure) == Activated(s, None)
    ensures !s.active && !s.detached && failure.Some? && failure.value < |s.pending| ==>
              Activated(s, failure) == s.(active := true, calls := s.calls + Deliveries(s.pending[..failure.value]))
    ensures !s.active && !s.detached && s.end.None? ==>
              Activated(s, None) == s.(active := true, pending := [], calls := s.calls + Deliveries(s.pending))
    ensures !s.active && !s.detached && s.end.Some? ==>
              Activated(s, None) == s.(active := true, pending := [],
                                       calls := s.calls + Deliveries(s.pending) + [End(s.end.value)])
  {
    assert s.calls + Deliveries(s.pending) + [] == s.calls + Deliveries(s.pending);
  }

  function Detached(s: Subscriber): Subscriber {
    s.(detached := true, pending := [], end := None)
  }

  lemma AttachedSound(output: seq<Unit>, point: nat, exit: Option<int>)
    requires point <= |output|
    ensures Sound(output, Subscriber(false, false, [], exit, []),
              Origin(output[point..], point, |output|, exit.None?, false, |output|), true, exit)
  {
    assert output[point..|output|] == output[point..];
  }

  lemma HeardSound(output: seq<Unit>, s: Subscriber, o: Origin, exit: Option<int>, chunk: seq<Unit>)
    requires Sound(output, s, o, true, exit)
    ensures Sound(output + chunk, Heard(s, chunk, false), o, true, exit)
  {
    HeardFaithful(output, s, o, chunk);
    MoreOutput(output, chunk, o.point, o.base);
    hide Faithful;
  }

  lemma HeardFaithful(output: seq<Unit>, s: Subscriber, o: Origin, chunk: seq<Unit>)
    requires Bounded(output, o) && Faithful(output, s, o, true)
    ensures Bounded(output + chunk, o) && Faithful(output + chunk, Heard(s, chunk, false), o, true)
  {
    MoreOutput(output, chunk, o.point, o.base);
    var before := output[o.base..];
    assert Received(s.calls) + Flat(s.pending) == before;
    if s.active {
      ReceivedLast(s.calls, Data(chunk));
      Nothing(s.calls);
      assert (Received(s.calls) + chunk) + Flat([]) == before + chunk;
    } else {
      FlatLast(s.pending, chunk);
      assert Received(s.calls) + (Flat(s.pending) + chunk) == before + chunk;
    }
    hide Flat, Received;
  }

  lemma Nothing(calls: seq<Call>)
    ensures Flat([]) == [] && Received(calls) + Flat([]) == Received(calls)
  {
  }

  lemma MoreOutput(output: seq<Unit>, chunk: seq<Unit>, point: nat, base: nat)
    requires point <= base <= |output|
    ensures (output + chunk)[base..] == output[base..] + chunk
    ensures (output + chunk)[point..base] == output[point..base]
  {
  }

  lemma FailedSound(output: seq<Unit>, s: Subscriber, o: Origin, exit: Option<int>, chunk: seq<Unit>)
    requires Sound(output, s, o, true, exit) && s.active
    ensures Sound(output + chunk, s, o.(lost := true, stop := |output + chunk|), false, exit)
  {
    MoreOutput(output, chunk, o.point, o.base);
    Nothing(s.calls);
    assert Received(s.calls) == output[o.base..] <= output[o.base..] + chunk;
    hide Received, Flat;
  }

  lemma UnheardSound(output: seq<Unit>, s: Subscriber, o: Origin, exit: Option<int>, chunk: seq<Unit>)
    requires Sound(output, s, o, false, exit)
    ensures Sound(output + chunk, s, o, false, exit)
  {
    hide Received, Flat;
    MoreOutput(output, chunk, o.point, o.base);
    MoreOutput(output, chunk, o.base, o.stop);
    assert output[o.base..] <= output[o.base..] + chunk;
  }

  lemma NotifiedSound(output: seq<Unit>, s: Subscriber, o: Origin, code: int)
    requires Sound(output, s, o, true, None)
    ensures Sound(output, Notified(s, code), o.(stop := |output|), false, Some(code))
  {
    ReceivedLast(s.calls, End(code));
    assert output[o.base..|output|] == output[o.base..];
  }

  lemma ChunkSound(output: seq<Unit>, s: Subscriber, o: Origin, registered: bool, exit: Option<int>, chunk: seq<Unit>,
                   throws: bool)
    requires Sound(output, s, o, registered, exit)
    ensures if !registered then Sound(output + chunk, s, o, false, exit)
            else if s.active && throws then
              Sound(output + chunk, Heard(s, chunk, throws), o.(lost := true, stop := |output + chunk|), false, exit)
            else Sound(output + chunk, Heard(s, chunk, throws), o, true, exit)
  {
    hide Sound;
    if !registered {
      UnheardSound(output, s, o, exit, chunk);
    } else if s.active && throws {
      FailedSound(output, s, o, exit, chunk);
    } else {
      HeardSound(output, s, o, exit, chunk);
    }
  }

  /** No one who is gone is owed an end before the process ends. */
  lemma ExitSound(output: seq<Unit>, s: Subscriber, o: Origin, registered: bool, code: int)
    requires Sound(output, s, o, registered, None)
    ensures Sound(output, s, o, registered, Some(code))
  {
  }

  lemma ActivatedSound(output: seq<Unit>, s: Subscriber, o: Origin, registered: bool, exit: Option<int>)
    requires Sound(output, s, o, registered, exit)
    ensures Sound(output, Activated(s, None), o, registered, exit)
  {
    if !s.active && !s.detached {
      Flushed(s);
      var after := Activated(s, None);
      assert s.calls == [] && Flat(s.pending) == Received(s.calls) + Flat(s.pending);
      assert Received(after.calls) + Flat(after.pending) == Flat(s.pending);
      hide Activated, Received, Flat, Deliveries;
    }
  }

  /** A flush hands over everything that waits, and then the end if it is known. */
  lemma Flushed(s: Subscriber)
    requires !s.active && !s.detached && s.calls == []
    ensures var calls := Activated(s, None).calls;
            && Received(calls) == Flat(s.pending)
            && (s.end.None? ==> OnlyData(calls))
            && (s.end.Some? ==> calls != [] && calls[|calls| - 1] == End(s.end.value) && OnlyData(calls[..|calls| - 1]))
    ensures Activated(s, None) == s.(active := true, pending := [], calls := Activated(s, None).calls)
  {
    DeliveriesReceived(s.pending);
    var calls := Activated(s, None).calls;
    if s.end.Some? {
      ReceivedLast(Deliveries(s.pending), End(s.end.value));
      assert calls == Deliveries(s.pending) + [End(s.end.value)];
    } else {
      assert calls == Deliveries(s.pending);
    }
  }

  lemma FlushFailedSound(output: seq<Unit>, s: Subscriber, o: Origin, registered: bool, exit: Option<int>, failure: nat)
    requires Sound(output, s, o, registered, exit) && !s.active && !s.detached && failure < |s.pending|
    ensures Sound(output, Activated(s, Some(failure)), o.(lost := true, stop := |output|), false, exit)
  {
    DeliveriesReceived(s.pending[..failure]);
    FlatPrefix(s.pending, failure);
    assert s.calls + Deliveries(s.pending[..failure]) == Deliveries(s.pending[..failure]);
    assert Flat(s.pending) == Received(s.calls) + Flat(s.pending);
  }

  /** A subscriber that is taken out after everything was given to it. */
  function Left(o: Origin, end: nat, registered: bool): Origin {
    if registered then o.(stop := end) else o
  }

  lemma EndFailedSound(output: seq<Unit>, s: Subscriber, o: Origin, registered: bool, exit: Option<int>)
    requires Sound(output, s, o, registered, exit) && !s.active && !s.detached && s.end.Some?
    ensures Sound(output, Activated(s, None), Left(o, |output|, registered), false, exit)
  {
    hide Activated;
    ActivatedSound(output, s, o, registered, exit);
    assert output[o.base..|output|] == output[o.base..];
    assert registered ==> !o.live;
  }

  /** Detaching loses nothing that was already given. */
  lemma DetachedSound(output: seq<Unit>, s: Subscriber, o: Origin, registered: bool, exit: Option<int>)
    requires Sound(output, s, o, registered, exit)
    ensures registered || !s.active ==> Sound(output, Detached(s), o.(lost := true, stop := |output|), false, exit)
    ensures !registered && s.active ==> Sound(output, Detached(s), o, false, exit)
  {
    assert Received(s.calls) + [] == Received(s.calls);
  }

  // ---------------------------------------------------------------- the session

  function Without(ts: seq<Token>, t: Token): (r: seq<Token>)
    ensures forall x: Token :: x in r <==> x in ts && x != t
    ensures Distinct(ts) ==> Distinct(r)
  {
    if ts == [] then []
    else if ts[|ts| - 1] == t then Without(ts[..|ts| - 1], t)
    else Without(ts[..|ts| - 1], t) + [ts[|ts| - 1]]
  }

  predicate Distinct(ts: seq<Token>) {
    ts == [] || (ts[|ts| - 1] !in ts[..|ts| - 1] && Distinct(ts[..|ts| - 1]))
  }

  lemma {:induction false} DistinctAt(ts: seq<Token>, i: nat)
    requires Distinct(ts) && i < |ts|
    ensures ts[i] !in ts[..i]
  {
    if i < |ts| - 1 {
      DistinctAt(ts[..|ts| - 1], i);
      assert ts[..|ts| - 1][..i] == ts[..i];
    }
  }

  lemma DistinctMore(ts: seq<Token>, t: Token)
    requires Distinct(ts) && t !in ts
    ensures Distinct(ts + [t])
  {
    assert (ts + [t])[..|ts|] == ts;
  }

  class Session {
    var buffer: seq<Unit>
    var bufferCursor: nat
    var cursor: nat
    var registered: seq<Token>
    var subscribers: map<Token, Subscriber>
    var exited: Option<int>
    var stopping: bool
    var issued: nat
    ghost var output: seq<Unit>
    ghost var origins: map<Token, Origin>

    ghost predicate Valid()
      reads this
    {
      && cursor == |output| && Window(output, buffer, bufferCursor, BUFFER_LIMIT)
      && Distinct(registered) && (forall t: Token :: t in registered ==> t in subscribers)
      && subscribers.Keys == origins.Keys && (forall t: Token :: t in subscribers ==> t < issued)
      && forall t: Token :: t in subscribers ==> Sound(output, subscribers[t], origins[t], t in registered, exited)
    }

    constructor ()
      ensures Valid() && output == [] && exited.None? && !stopping && subscribers == map[]
    {
      buffer, bufferCursor, cursor := [], 0, 0;
      registered, subscribers, issued := [], map[], 0;
      exited, stopping := None, false;
      output, origins := [], map[];
    }

    /** Lines 231-241. `throws` are the subscribers whose data callback throws on this chunk. */
    method Broadcast(chunk: seq<Unit>, throws: set<Token>)
      requires forall t: Token :: t in registered ==> t in subscribers
      requires Distinct(registered)
      modifies `registered, `subscribers
      ensures Distinct(registered) && subscribers.Keys == old(subscribers.Keys)
      ensures forall t: Token ::
                t in registered <==> t in old(registered) && !(old(subscribers)[t].active && t in throws)
      ensures forall t: Token :: t in subscribers ==>
                subscribers[t] == if t in old(registered) then Heard(old(subscribers)[t], chunk, t in throws)
                    else old(subscribers)[t]
    {
      hide Distinct;
      ghost var was := subscribers;
      var all := registered;
      var i := 0;
      while i < |all|
        invariant 0 <= i <= |all| && all == old(registered)
        invariant subscribers.Keys == was.Keys && Distinct(registered)
        invariant forall t: Token :: t in was ==>
                    subscribers[t] == if t in all[..i] then Heard(was[t], chunk, t in throws) else was[t]
        invariant forall t: Token :: t in registered <==> t in all && !(t in all[..i] && was[t].active && t in throws)
      {
        var token := all[i];
        var s := subscribers[token];
        DistinctAt(all, i);
        if !s.active {
          subscribers := subscribers[token := s.(pending := s.pending + [chunk])];
        } else if token in throws {
          registered := Without(registered, token);
        } else {
          subscribers := subscribers[token := s.(calls := s.calls + [Data(chunk)])];
        }
        assert all[..i + 1] == all[..i] + [token];
        i := i + 1;
      }
      assert all[..|all|] == all;
    }

    /** Lines 242-246. */
    method Append(chunk: seq<Unit>)
      requires Window(output, buffer, bufferCursor, BUFFER_LIMIT)
      modifies `buffer, `bufferCursor, `output
      ensures output == old(output) + chunk && Window(output, buffer, bufferCursor, BUFFER_LIMIT)
    {
      WindowGrows(output, buffer, bufferCursor, BUFFER_LIMIT, chunk);
      output := output + chunk;
      buffer := buffer + chunk;
      if |buffer| <= BUFFER_LIMIT { return; }
      var excess := |buffer| - BUFFER_LIMIT;
      buffer := buffer[excess..];
      bufferCursor := bufferCursor + excess;
    }

    /** Lines 229-247. */
    method OnData(chunk: seq<Unit>, throws: set<Token>)
      requires Valid()
      modifies this
      ensures Valid() && output == old(output) + chunk
      ensures exited == old(exited) && stopping == old(stopping) && subscribers.Keys == old(subscribers.Keys)
      ensures forall t: Token ::
                t in registered <==> t in old(registered) && !(old(subscribers)[t].active && t in throws)
      ensures forall t: Token :: t in subscribers ==>
                subscribers[t] == if t in old(registered) then Heard(old(subscribers)[t], chunk, t in throws)
                    else old(subscribers)[t]
      ensures forall t: Token :: t in origins ==>
                origins[t] == if t in old(registered) && t !in registered
                              then old(origins)[t].(lost := true, stop := |output|) else old(origins)[t]
    {
      hide Sound, Window, Distinct, Heard, Without;
      cursor := cursor + |chunk|;
      Broadcast(chunk, throws);
      Append(chunk);
      origins := map t: Token | t in origins ::
        if t in old(registered) && t !in registered then origins[t].(lost := true, stop := |output|) else origins[t];
      forall t: Token | t in subscribers ensures Sound(output, subscribers[t], origins[t], t in registered, exited) {
        ChunkSound(old(output), old(subscribers)[t], old(origins)[t], t in old(registered), exited, chunk, t in throws);
      }
    }

    /** Lines 96-109. An end callback that throws is caught: its call was made, and nothing else depends on it. */
    method NotifyEnd(code: int)
      requires forall t: Token :: t in registered ==> t in subscribers
      requires Distinct(registered)
      modifies `registered, `subscribers
      ensures registered == [] && Distinct(registered) && subscribers.Keys == old(subscribers.Keys)
      ensures forall t: Token :: t in subscribers ==>
                subscribers[t] == if t in old(registered) then Notified(old(subscribers)[t], code)
                    else old(subscribers)[t]
    {
      ghost var was := subscribers;
      var i := 0;
      while i < |registered|
        invariant 0 <= i <= |registered| && registered == old(registered) && subscribers.Keys == was.Keys
        invariant forall t: Token :: t in was ==>
                    subscribers[t] == if t in registered[..i] then Notified(was[t], code) else was[t]
      {
        var token := registered[i];
        DistinctAt(registered, i);
        subscribers := subscribers[token := Notified(subscribers[token], code)];
        assert registered[..i + 1] == registered[..i] + [token];
        i := i + 1;
      }
      assert registered[..|registered|] == registered;
      registered := [];
    }

    /** Lines 248-274. */
    method OnExit(code: int)
      requires Valid()
      modifies this
      ensures Valid() && output == old(output) && stopping == old(stopping)
      ensures old(exited).Some? ==> unchanged(this)
      ensures old(exited).None? ==> exited == Some(code) && subscribers.Keys == old(subscribers.Keys)
      ensures old(exited).None? && stopping ==> unchanged(`registered, `subscribers, `origins)
      ensures old(exited).None? && !stopping ==>
                && registered == []
                && (forall t: Token :: t in subscribers ==>
                      subscribers[t] == if t in old(registered) then Notified(old(subscribers)[t], code)
                          else old(subscribers)[t])
                && (forall t: Token :: t in origins ==>
                      origins[t] == if t in old(registered) then old(origins)[t].(stop := |output|)
                          else old(origins)[t])
    {
      hide Sound, Window, Distinct, Notified;
      if exited.Some? { return; }
      exited := Some(code);
      if stopping {
        forall t: Token | t in subscribers ensures Sound(output, subscribers[t], origins[t], t in registered, exited) {
          ExitSound(output, subscribers[t], origins[t], t in registered, code);
        }
        return;
      }
      NotifyEnd(code);
      origins := map t: Token | t in origins ::
          if t in old(registered) then origins[t].(stop := |output|) else origins[t];
      forall t: Token | t in subscribers ensures Sound(output, subscribers[t], origins[t], false, exited) {
        if t in old(registered) {
          NotifiedSound(output, old(subscribers)[t], old(origins)[t], code);
        } else {
          ExitSound(output, old(subscribers)[t], old(origins)[t], false, code);
        }
      }
    }

    /** Lines 318-331. */
    method ReplayFrom(wanted: Option<int>) returns (replay: seq<Unit>)
      requires cursor == |output| && Window(output, buffer, bufferCursor, BUFFER_LIMIT)
      ensures replay == output[Point(wanted, bufferCursor, |output|)..]
    {
      var start := bufferCursor;
      var end := cursor;
      var from := Wanted(wanted, end);
      if |buffer| == 0 || from >= end { return []; }
      var offset := if from < start then 0 else from - start;
      if offset >= |buffer| { return []; }
      return buffer[offset..];
    }

    /** Lines 304-333. */
    method Attach(wanted: Option<int>, allowExited: bool) returns (r: Result<Attachment, AttachError>)
      requires Valid()
      modifies this
      ensures Valid() && output == old(output) && exited == old(exited) && stopping == old(stopping)
      ensures r.Err? <==> exited.Some? && !allowExited
      ensures r.Err? ==> unchanged(this)
      ensures r.Ok? ==>
                var token, point := r.value.token, Point(wanted, bufferCursor, |output|);
                && r.value == Attachment(token, output[point..], |output|)
                && token !in old(subscribers) && registered == old(registered) + [token]
                && subscribers == old(subscribers)[token := Subscriber(false, false, [], exited, [])]
                && origins == old(origins)[token := Origin(output[point..], point, |output|, exited.None?, false,
                     |output|)]
    {
      hide Sound, Window, Distinct, Point;
      if exited.Some? && !allowExited { return Err(ExitedError); }
      var token := issued;
      issued := issued + 1;
      subscribers := subscribers[token := Subscriber(false, false, [], exited, [])];
      registered := registered + [token];
      var replay := ReplayFrom(wanted);
      ghost var point := Point(wanted, bufferCursor, |output|);
      origins := origins[token := Origin(replay, point, |output|, exited.None?, false, |output|)];
      AttachedSound(output, point, exited);
      DistinctMore(old(registered), token);
      r := Ok(Attachment(token, replay, cursor));
    }

    /**
     * Lines 338-348. `failure` is the waiting chunk on which the data callback throws, if it does, and `endThrows` says
     * whether the end callback does; either takes the subscriber out.
     */
    method Activate(token: Token, failure: Option<nat>, endThrows: bool)
      requires Valid() && token in subscribers
      modifies this
      ensures Valid() && output == old(output) && exited == old(exited) && stopping == old(stopping)
      ensures subscribers == old(subscribers)[token := Activated(old(subscribers)[token], failure)]
      ensures var s := old(subscribers)[token];
              if !s.active && !s.detached && failure.Some? && failure.value < |s.pending|
              then registered == Without(old(registered), token) &&
                  origins == old(origins)[token := old(origins)[token].(lost := true, stop := |output|)]
              else if !s.active && !s.detached && s.end.Some? && endThrows
              then registered == Without(old(registered), token) &&
                  origins == old(origins)[token := Left(old(origins)[token], |output|, token in old(registered))]
              else registered == old(registered) && origins == old(origins)
    {
      hide Sound, Window, Distinct, Left, Activated;
      var s := subscribers[token];
      if s.active || s.detached {
        assert Activated(s, failure) == s && subscribers == subscribers[token := s] by { ActivatedCases(s, failure); }
        return;
      }
      var calls, failed := Flush(s, failure);
      ActivatedCases(s, failure);
      if failed {
        FlushFailedSound(output, s, origins[token], token in registered, exited, failure.value);
        Update(token, s.(active := true, calls := calls), origins[token].(lost := true, stop := |output|), true);
        return;
      }
      if s.end.Some? { calls := calls + [End(s.end.value)]; }
      if s.end.Some? && endThrows {
        EndFailedSound(output, s, origins[token], token in registered, exited);
        Update(token, s.(active := true, pending := [], calls := calls),
               Left(origins[token], |output|, token in registered), true);
      } else {
        ActivatedSound(output, s, origins[token], token in registered, exited);
        Update(token, s.(active := true, pending := [], calls := calls), origins[token], false);
        assert origins == old(origins);
      }
    }

    /** Stores what has become of one subscriber, and takes it out if it leaves. */
    method Update(token: Token, s: Subscriber, ghost o: Origin, leaves: bool)
      requires Valid() && token in subscribers && Sound(output, s, o, token in registered && !leaves, exited)
      modifies this
      ensures Valid() && unchanged(`buffer, `bufferCursor, `cursor, `output, `exited, `stopping, `issued)
      ensures subscribers == old(subscribers)[token := s] && origins == old(origins)[token := o]
      ensures registered == if leaves then Without(old(registered), token) else old(registered)
    {
      hide Sound, Window, Distinct;
      subscribers := subscribers[token := s];
      origins := origins[token := o];
      if leaves { registered := Without(registered, token); }
    }

    /** Line 342: the waiting chunks, up to one on which the callback throws. */
    method Flush(s: Subscriber, failure: Option<nat>) returns (calls: seq<Call>, failed: bool)
      ensures failed <==> failure.Some? && failure.value < |s.pending|
      ensures calls == s.calls + Deliveries(if failed then s.pending[..failure.value] else s.pending)
    {
      calls := s.calls;
      for i := 0 to |s.pending|
        invariant calls == s.calls + Deliveries(s.pending[..i])
        invariant failure.Some? && failure.value < |s.pending| ==> i <= failure.value
      {
        if failure == Some(i) { return calls, true; }
        calls := calls + [Data(s.pending[i])];
        assert Deliveries(s.pending[..i + 1]) == Deliveries(s.pending[..i]) + [Data(s.pending[i])];
      }
      assert s.pending[..|s.pending|] == s.pending;
      failed := false;
    }

    /** Lines 349-354. */
    method Detach(token: Token)
      requires Valid() && token in subscribers
      modifies this
      ensures Valid() && output == old(output) && exited == old(exited) && stopping == old(stopping)
      ensures registered == Without(old(registered), token)
      ensures subscribers == old(subscribers)[token := Detached(old(subscribers)[token])]
      ensures origins == old(origins)[token :=
                if token in old(registered) || !old(subscribers)[token].active
                then old(origins)[token].(lost := true, stop := |output|) else old(origins)[token]]
    {
      hide Sound, Window, Distinct;
      var s := subscribers[token];
      DetachedSound(output, s, origins[token], token in registered, exited);
      ghost var o := if token in registered || !s.active then origins[token].(lost := true, stop := |output|)
                     else origins[token];
      Update(token, s.(detached := true, pending := [], end := None), o, true);
    }
  }

  /** Keeping the newest output of a longer output, by trimming what the buffer would exceed. */
  lemma WindowGrows(output: seq<Unit>, buffer: seq<Unit>, start: nat, limit: nat, chunk: seq<Unit>)
    requires Window(output, buffer, start, limit)
    ensures var longer := buffer + chunk;
            var excess := Max(0, |longer| - limit);
            Window(output + chunk, longer[excess..], start + excess, limit)
  {
    assert buffer + chunk == (output + chunk)[start..];
  }

  // ---------------------------------------------------------------- what a subscriber sees

  /** Replay and deliveries together are the whole output from the subscriber's point on. */
  lemma SeesEverything(session: Session, t: Token)
    requires session.Valid() && t in session.registered && session.subscribers[t].active
    ensures var o := session.origins[t];
            o.replay + Received(session.subscribers[t].calls) == session.output[o.point..]
  {
    hide Sound, Window, Distinct, Received;
    SoundSeesAll(session.output, session.subscribers[t], session.origins[t], session.exited);
  }

  lemma SoundSeesAll(output: seq<Unit>, s: Subscriber, o: Origin, exit: Option<int>)
    requires Sound(output, s, o, true, exit) && s.active
    ensures o.point <= |output| && o.replay + Received(s.calls) == output[o.point..]
  {
    assert Received(s.calls) + [] == Received(s.calls);
    assert output[o.point..o.base] + output[o.base..] == output[o.point..];
  }

  /** Whoever stays attached until the process ends sees all output up to the end, and then the end, once. */
  lemma SeesTheEnd(session: Session, t: Token)
    requires session.Valid() && t in session.subscribers && session.subscribers[t].active && t !in session.registered
    requires session.origins[t].live && !session.origins[t].lost
    ensures var s, o := session.subscribers[t], session.origins[t];
            && session.exited.Some?
            && o.stop <= |session.output| && o.replay + Received(s.calls) == session.output[o.point..o.stop]
            && s.calls != [] && s.calls[|s.calls| - 1] == End(session.exited.value) &&
                 OnlyData(s.calls[..|s.calls| - 1])
  {
    hide Sound, Window, Distinct, Received;
    SoundSeesEnd(session.output, session.subscribers[t], session.origins[t], session.exited);
  }

  lemma SoundSeesEnd(output: seq<Unit>, s: Subscriber, o: Origin, exit: Option<int>)
    requires Sound(output, s, o, false, exit) && s.active && o.live && !o.lost
    ensures exit.Some? && o.point <= o.stop <= |output| && o.replay + Received(s.calls) == output[o.point..o.stop]
    ensures s.calls != [] && s.calls[|s.calls| - 1] == End(exit.value) && OnlyData(s.calls[..|s.calls| - 1])
  {
    assert Received(s.calls) + [] == Received(s.calls);
    assert output[o.point..o.base] + output[o.base..o.stop] == output[o.point..o.stop];
  }

  /**
   * Everyone has seen output without a gap up to some point, and at most one end notice; it comes last unless they
   * attached after the exit.
   */
  lemma SeesPrefix(session: Session, t: Token)
    requires session.Valid() && t in session.subscribers
    ensures var o := session.origins[t];
            o.point <= |session.output| &&
                o.replay + Received(session.subscribers[t].calls) <= session.output[o.point..]
    ensures var calls := session.subscribers[t].calls;
            EndsOnce(calls) && (session.origins[t].live && calls != [] ==> OnlyData(calls[..|calls| - 1]))
  {
    hide Sound, Window, Distinct, Received, EndsOnce;
    SoundSeesPrefix(session.output, session.subscribers[t], session.origins[t], t in session.registered,
                    session.exited);
  }

  lemma SoundSeesPrefix(output: seq<Unit>, s: Subscriber, o: Origin, registered: bool, exit: Option<int>)
    requires Sound(output, s, o, registered, exit)
    ensures o.point <= |output| && o.replay + Received(s.calls) <= output[o.point..]
    ensures EndsOnce(s.calls) && (o.live && s.calls != [] ==> OnlyData(s.calls[..|s.calls| - 1]))
  {
    assert Received(s.calls) <= output[o.base..] by {
      if !o.lost { assert Received(s.calls) <= Received(s.calls) + Flat(s.pending) <= output[o.base..]; }
    }
    assert output[o.point..o.base] + output[o.base..] == output[o.point..];
  }
}

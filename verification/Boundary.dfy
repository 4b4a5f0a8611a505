/**
 * packages/codemode/src/tool-runtime.ts:122-314: copying a graph of JavaScript values across the boundary as plain
 * data (`copyIn`), and normalizing data on its way out (`copyOut`).
 */
module Boundary {
  import opened Wrappers

  type Address = nat

  datatype Number = Finite(value: real) | NaN | PositiveInfinity | NegativeInfinity

  /** A JavaScript value; `Other` is a function, a symbol or a bigint. */
  datatype Value =
    | Undefined | Null | Str(text: string) | Bool(truth: bool) | Num(number: Number) | Other | Ref(address: Address)

  datatype Property = Property(key: string, value: Value)

  /**
   * An object: `Instance` has a prototype of its own; `Text` is a date or URL, by its JSON form; `Opaque` has no JSON
   * form.
   */
  datatype Node =
    | Array(items: seq<Value>)
    | Plain(properties: seq<Property>)
    | Instance
    | Promise
    | Text(json: Option<string>)
    | Opaque

  type Heap = Address -> Node

  datatype Field = Field(key: string, value: Data)

  datatype Data =
    | UndefinedData | NullData | StrData(text: string) | BoolData(truth: bool) | NumData(number: Number)
    | List(items: seq<Data>)
    | Record(fields: seq<Field>)

  datatype Fault = TooDeep | NotData | Unawaited | NotPlain | Circular | Blocked(key: string)

  const MAX_VALUE_DEPTH: nat := 32

  predicate BlockedMember(name: string) {
    name == "__proto__" || name == "constructor" || name == "prototype"
  }

  function Leaf(v: Value): (d: Option<Data>)
  {
    match v
    case Undefined => Some(UndefinedData)
    case Null => Some(NullData)
    case Str(s) => Some(StrData(s))
    case Bool(b) => Some(BoolData(b))
    case Num(n) => Some(NumData(n))
    case _ => None
  }

  // ---------------------------------------------------------------- copyBounded

  function Copy(heap: Heap, v: Value, depth: nat, seen: set<Address>): Result<Data, Fault>
    decreases MAX_VALUE_DEPTH + 1 - depth, 1, 0
  {
    if depth > MAX_VALUE_DEPTH then Err(TooDeep)
    else if Leaf(v).Some? then Ok(Leaf(v).value)
    else if v.Other? then Err(NotData)
    else
      match heap(v.address)
      case Promise => Err(Unawaited)
      case Text(json) => Ok(if json.Some? then StrData(json.value) else NullData)
      case Opaque => Ok(Record([]))
      case Array(items) =>
        if v.address in seen then Err(Circular)
        else
          (match CopyItems(heap, items, depth + 1, seen + {v.address})
           case Ok(ds) => Ok(List(ds))
           case Err(e) => Err(e))
      case Plain(properties) =>
        if v.address in seen then Err(Circular)
        else
          (match CopyProperties(heap, properties, depth + 1, seen + {v.address})
           case Ok(fs) => Ok(Record(fs))
           case Err(e) => Err(e))
      case Instance => if v.address in seen then Err(Circular) else Err(NotPlain)
  }

  function CopyItems(heap: Heap, items: seq<Value>, depth: nat, seen: set<Address>): (r: Result<seq<Data>, Fault>)
    ensures r.Ok? ==> |r.value| == |items|
    decreases MAX_VALUE_DEPTH + 1 - depth, 2, |items|
  {
    if items == [] then Ok([])
    else
      match CopyItems(heap, items[..|items| - 1], depth, seen)
      case Err(e) => Err(e)
      case Ok(ds) =>
        match Copy(heap, items[|items| - 1], depth, seen)
        case Err(e) => Err(e)
        case Ok(d) => Ok(ds + [d])
  }

  function CopyProperties(heap: Heap, properties: seq<Property>, depth: nat,
                          seen: set<Address>): (r: Result<seq<Field>, Fault>)
    decreases MAX_VALUE_DEPTH + 1 - depth, 2, |properties|
  {
    if properties == [] then Ok([])
    else
      var last := properties[|properties| - 1];
      match CopyProperties(heap, properties[..|properties| - 1], depth, seen)
      case Err(e) => Err(e)
      case Ok(fs) =>
        if BlockedMember(last.key) then Err(Blocked(last.key))
        else
          match Copy(heap, last.value, depth, seen)
          case Err(e) => Err(e)
          case Ok(d) => Ok(fs + [Field(last.key, d)])
  }

  /** The copier, whose set of ancestors is shared by the whole walk. */
  class Copier {
    var seen: set<Address>

    constructor ()
      ensures seen == {}
    {
      seen := {};
    }

    /** Lines 174-295. On success the set is again what it was; after a failure the walk is over. */
    method CopyBounded(heap: Heap, v: Value, depth: nat) returns (r: Result<Data, Fault>)
      modifies this
      ensures r == Copy(heap, v, depth, old(seen))
      ensures r.Ok? ==> seen == old(seen)
      decreases MAX_VALUE_DEPTH + 1 - depth
    {
      if depth > MAX_VALUE_DEPTH { return Err(TooDeep); }
      var leaf := Leaf(v);
      if leaf.Some? { return Ok(leaf.value); }
      if v.Other? { return Err(NotData); }
      var node := heap(v.address);
      if node.Promise? { return Err(Unawaited); }
      if node.Text? { return Ok(if node.json.Some? then StrData(node.json.value) else NullData); }
      if node.Opaque? { return Ok(Record([])); }
      if v.address in seen { return Err(Circular); }
      seen := seen + {v.address};
      ghost var within := seen;
      if node.Array? {
        var copied := [];
        for i := 0 to |node.items|
          invariant CopyItems(heap, node.items[..i], depth + 1, within) == Ok(copied) && seen == within
        {
          var next := CopyBounded(heap, node.items[i], depth + 1);
          assert node.items[..i + 1][..i] == node.items[..i];
          if next.Err? {
            ItemsFail(heap, node.items, i + 1, depth + 1, within);
            return Err(next.error);
          }
          copied := copied + [next.value];
        }
        assert node.items[..|node.items|] == node.items;
        seen := seen - {v.address};
        return Ok(List(copied));
      }
      if node.Instance? { return Err(NotPlain); }
      var copied := [];
      for i := 0 to |node.properties|
        invariant CopyProperties(heap, node.properties[..i], depth + 1, within) == Ok(copied) && seen == within
      {
        var property := node.properties[i];
        assert node.properties[..i + 1][..i] == node.properties[..i];
        if BlockedMember(property.key) {
          PropertiesFail(heap, node.properties, i + 1, depth + 1, within);
          return Err(Blocked(property.key));
        }
        var next := CopyBounded(heap, property.value, depth + 1);
        if next.Err? {
          PropertiesFail(heap, node.properties, i + 1, depth + 1, within);
          return Err(next.error);
        }
        copied := copied + [Field(property.key, next.value)];
      }
      assert node.properties[..|node.properties|] == node.properties;
      seen := seen - {v.address};
      return Ok(Record(copied));
    }
  }

  lemma {:induction false} ItemsFail(heap: Heap, items: seq<Value>, n: nat, depth: nat, seen: set<Address>)
    requires n <= |items| && CopyItems(heap, items[..n], depth, seen).Err?
    ensures CopyItems(heap, items, depth, seen) == CopyItems(heap, items[..n], depth, seen)
  {
    if n < |items| {
      assert items[..|items| - 1][..n] == items[..n];
      ItemsFail(heap, items[..|items| - 1], n, depth, seen);
    } else {
      assert items[..n] == items;
    }
  }

  lemma {:induction false} PropertiesFail(heap: Heap, properties: seq<Property>, n: nat, depth: nat, seen: set<Address>)
    requires n <= |properties| && CopyProperties(heap, properties[..n], depth, seen).Err?
    ensures CopyProperties(heap, properties, depth, seen) == CopyProperties(heap, properties[..n], depth, seen)
  {
    if n < |properties| {
      assert properties[..|properties| - 1][..n] == properties[..n];
      PropertiesFail(heap, properties[..|properties| - 1], n, depth, seen);
    } else {
      assert properties[..n] == properties;
    }
  }

  // ---------------------------------------------------------------- unfolding, without ancestors

  /** The tree a value unfolds to, if that is data of at most so many levels. No record is kept of what was passed. */
  function Unfold(heap: Heap, v: Value, levels: nat): Option<Data>
    decreases levels, 0
  {
    if levels == 0 then None
    else if v.Ref? then UnfoldNode(heap, heap(v.address), levels - 1)
    else Leaf(v)
  }

  function UnfoldNode(heap: Heap, node: Node, levels: nat): Option<Data>
    decreases levels, 2
  {
    match node
    case Text(json) => Some(if json.Some? then StrData(json.value) else NullData)
    case Opaque => Some(Record([]))
    case Array(items) =>
      if UnfoldItems(heap, items, levels).Some? then Some(List(UnfoldItems(heap, items, levels).value)) else None
    case Plain(properties) =>
      var fields := UnfoldProperties(heap, properties, levels);
      if fields.Some? then Some(Record(fields.value)) else None
    case _ => None
  }

  function UnfoldItems(heap: Heap, items: seq<Value>, levels: nat): (r: Option<seq<Data>>)
    decreases levels, 1
  {
    if forall i :: 0 <= i < |items| ==> Unfold(heap, items[i], levels).Some? then
      Some(seq(|items|, i requires 0 <= i < |items| => Unfold(heap, items[i], levels).value))
    else None
  }

  function UnfoldProperties(heap: Heap, properties: seq<Property>, levels: nat): (r: Option<seq<Field>>)
    decreases levels, 1
  {
    var ps := properties;
    if forall i :: 0 <= i < |ps| ==> !BlockedMember(ps[i].key) && Unfold(heap, ps[i].value, levels).Some? then
      Some(seq(|ps|, i requires 0 <= i < |ps| => Field(ps[i].key, Unfold(heap, ps[i].value, levels).value)))
    else None
  }

  lemma ItemsGive(heap: Heap, items: seq<Value>, levels: nat)
    requires UnfoldItems(heap, items, levels).Some?
    ensures var ds := UnfoldItems(heap, items, levels).value;
            |ds| == |items| && forall i :: 0 <= i < |items| ==> Unfold(heap, items[i], levels) == Some(ds[i])
  {
    hide Unfold;
  }

  lemma PropertiesGive(heap: Heap, properties: seq<Property>, levels: nat)
    requires UnfoldProperties(heap, properties, levels).Some?
    ensures var fs := UnfoldProperties(heap, properties, levels).value;
            && |fs| == |properties|
            && (forall i ::
                  0 <= i < |properties| ==> !BlockedMember(properties[i].key) && fs[i].key == properties[i].key)
            && (forall i :: 0 <= i < |properties| ==> Unfold(heap, properties[i].value, levels) == Some(fs[i].value))
  {
    hide Unfold, BlockedMember;
  }

  lemma ItemsAre(heap: Heap, items: seq<Value>, levels: nat, ds: seq<Data>)
    requires |ds| == |items| && forall i :: 0 <= i < |items| ==> Unfold(heap, items[i], levels) == Some(ds[i])
    ensures UnfoldItems(heap, items, levels) == Some(ds)
  {
    hide Unfold;
    assert UnfoldItems(heap, items, levels).value == ds;
  }

  lemma PropertiesAre(heap: Heap, properties: seq<Property>, levels: nat, fs: seq<Field>)
    requires |fs| == |properties|
    requires forall i :: 0 <= i < |properties| ==> !BlockedMember(properties[i].key) && fs[i].key == properties[i].key
    requires forall i :: 0 <= i < |properties| ==> Unfold(heap, properties[i].value, levels) == Some(fs[i].value)
    ensures UnfoldProperties(heap, properties, levels) == Some(fs)
  {
    hide Unfold, BlockedMember;
    assert UnfoldProperties(heap, properties, levels).value == fs;
  }

  lemma {:induction false} MoreLevels(heap: Heap, v: Value, m: nat, n: nat)
    requires m <= n && Unfold(heap, v, m).Some?
    ensures Unfold(heap, v, n) == Unfold(heap, v, m)
    decreases m, 1
  {
    if v.Ref? {
      hide UnfoldItems, UnfoldProperties;
      var node := heap(v.address);
      if node.Array? {
        MoreItems(heap, node.items, m - 1, n - 1);
      } else if node.Plain? {
        MoreProperties(heap, node.properties, m - 1, n - 1);
      }
    }
  }

  lemma {:induction false} MoreItems(heap: Heap, items: seq<Value>, m: nat, n: nat)
    requires m <= n && UnfoldItems(heap, items, m).Some?
    ensures UnfoldItems(heap, items, n) == UnfoldItems(heap, items, m)
    decreases m, 2
  {
    hide Unfold, UnfoldItems;
    ItemsGive(heap, items, m);
    forall i | 0 <= i < |items| ensures Unfold(heap, items[i], n) == Unfold(heap, items[i], m) {
      MoreLevels(heap, items[i], m, n);
    }
    ItemsAre(heap, items, n, UnfoldItems(heap, items, m).value);
  }

  lemma {:induction false} MoreProperties(heap: Heap, properties: seq<Property>, m: nat, n: nat)
    requires m <= n && UnfoldProperties(heap, properties, m).Some?
    ensures UnfoldProperties(heap, properties, n) == UnfoldProperties(heap, properties, m)
    decreases m, 2
  {
    hide Unfold, UnfoldProperties;
    PropertiesGive(heap, properties, m);
    forall i | 0 <= i < |properties|
      ensures Unfold(heap, properties[i].value, n) == Unfold(heap, properties[i].value, m)
    {
      MoreLevels(heap, properties[i].value, m, n);
    }
    PropertiesAre(heap, properties, n, UnfoldProperties(heap, properties, m).value);
  }

  // ---------------------------------------------------------------- copying is unfolding

  const LEVELS: nat := MAX_VALUE_DEPTH + 1

  /** What was copied is the unfolding. */
  lemma {:induction false} CopyUnfolds(heap: Heap, v: Value, depth: nat, seen: set<Address>)
    requires depth <= LEVELS && Copy(heap, v, depth, seen).Ok?
    ensures Unfold(heap, v, LEVELS - depth) == Some(Copy(heap, v, depth, seen).value)
    decreases LEVELS - depth, 1, 0
  {
    if v.Ref? {
      var node := heap(v.address);
      if node.Array? {
        ItemsUnfold(heap, node.items, depth + 1, seen + {v.address});
      } else if node.Plain? {
        PropertiesUnfold(heap, node.properties, depth + 1, seen + {v.address});
      }
    }
  }

  lemma {:induction false} ItemsUnfold(heap: Heap, items: seq<Value>, depth: nat, seen: set<Address>)
    requires depth <= LEVELS && CopyItems(heap, items, depth, seen).Ok?
    ensures UnfoldItems(heap, items, LEVELS - depth) == Some(CopyItems(heap, items, depth, seen).value)
    decreases LEVELS - depth, 2, |items|
  {
    if items != [] {
      var most := items[..|items| - 1];
      ItemsUnfold(heap, most, depth, seen);
      ItemsGive(heap, most, LEVELS - depth);
      CopyUnfolds(heap, items[|items| - 1], depth, seen);
      assert forall i :: 0 <= i < |most| ==> items[i] == most[i];
      ItemsAre(heap, items, LEVELS - depth, CopyItems(heap, items, depth, seen).value);
    } else {
      ItemsAre(heap, items, LEVELS - depth, []);
    }
  }

  lemma {:induction false} PropertiesUnfold(heap: Heap, properties: seq<Property>, depth: nat, seen: set<Address>)
    requires depth <= LEVELS && CopyProperties(heap, properties, depth, seen).Ok?
    ensures UnfoldProperties(heap, properties, LEVELS - depth)
            == Some(CopyProperties(heap, properties, depth, seen).value)
    decreases LEVELS - depth, 2, |properties|
  {
    if properties != [] {
      var most := properties[..|properties| - 1];
      PropertiesUnfold(heap, most, depth, seen);
      PropertiesGive(heap, most, LEVELS - depth);
      CopyUnfolds(heap, properties[|properties| - 1].value, depth, seen);
      assert forall i :: 0 <= i < |most| ==> properties[i] == most[i];
      PropertiesAre(heap, properties, LEVELS - depth, CopyProperties(heap, properties, depth, seen).value);
    } else {
      PropertiesAre(heap, properties, LEVELS - depth, []);
    }
  }

  /** Every ancestor unfolds to something that properly contains `d`. */
  ghost predicate Within(heap: Heap, seen: set<Address>, d: Data) {
    forall a :: a in seen ==> Unfold(heap, Ref(a), LEVELS).Some? && d < Unfold(heap, Ref(a), LEVELS).value
  }

  lemma WithinPart(heap: Heap, seen: set<Address>, a: Address, d: Data, part: Data)
    requires Within(heap, seen, d) && Unfold(heap, Ref(a), LEVELS) == Some(d) && part < d
    ensures Within(heap, seen + {a}, part)
  {
    hide Unfold;
  }

  /** What unfolds is copied: an ancestor cannot come up again, since it would contain itself. */
  lemma {:induction false} UnfoldCopies(heap: Heap, v: Value, depth: nat, seen: set<Address>)
    requires depth <= LEVELS && Unfold(heap, v, LEVELS - depth).Some? &&
               Within(heap, seen, Unfold(heap, v, LEVELS - depth).value)
    ensures Copy(heap, v, depth, seen) == Ok(Unfold(heap, v, LEVELS - depth).value)
    decreases LEVELS - depth, 1, 0
  {
    if v.Ref? {
      hide UnfoldItems, UnfoldProperties, CopyItems, CopyProperties;
      MoreLevels(heap, v, LEVELS - depth, LEVELS);
      var node := heap(v.address);
      var d := Unfold(heap, v, LEVELS - depth).value;
      assert v.address !in seen;
      if node.Array? {
        forall x | x in d.items ensures Within(heap, seen + {v.address}, x) { WithinPart(heap, seen, v.address, d, x); }
        CopiesItems(heap, node.items, depth + 1, seen + {v.address}, d.items);
      } else if node.Plain? {
        forall f | f in d.fields ensures Within(heap, seen + {v.address}, f.value) {
          WithinPart(heap, seen, v.address, d, f.value);
        }
        CopiesProperties(heap, node.properties, depth + 1, seen + {v.address}, d.fields);
      }
    }
  }

  lemma {:induction false} CopiesItems(heap: Heap, items: seq<Value>, depth: nat, seen: set<Address>, ds: seq<Data>)
    requires depth <= LEVELS && UnfoldItems(heap, items, LEVELS - depth) == Some(ds)
    requires forall x :: x in ds ==> Within(heap, seen, x)
    ensures CopyItems(heap, items, depth, seen) == Ok(ds)
    decreases LEVELS - depth, 2, |items|
  {
    if items != [] {
      var n := |items| - 1;
      ItemsGive(heap, items, LEVELS - depth);
      hide Unfold, UnfoldItems;
      assert ds[n] in ds && Unfold(heap, items[n], LEVELS - depth) == Some(ds[n]);
      UnfoldCopies(heap, items[n], depth, seen);
      ItemsAre(heap, items[..n], LEVELS - depth, ds[..n]);
      CopiesItems(heap, items[..n], depth, seen, ds[..n]);
      assert ds[..n] + [ds[n]] == ds;
    }
  }

  lemma {:induction false} CopiesProperties(heap: Heap, properties: seq<Property>, depth: nat, seen: set<Address>,
                                            fs: seq<Field>)
    requires depth <= LEVELS && UnfoldProperties(heap, properties, LEVELS - depth) == Some(fs)
    requires forall f :: f in fs ==> Within(heap, seen, f.value)
    ensures CopyProperties(heap, properties, depth, seen) == Ok(fs)
    decreases LEVELS - depth, 2, |properties|
  {
    if properties != [] {
      var n := |properties| - 1;
      PropertiesGive(heap, properties, LEVELS - depth);
      hide Unfold, UnfoldProperties, BlockedMember;
      assert fs[n] in fs && !BlockedMember(properties[n].key);
      assert Unfold(heap, properties[n].value, LEVELS - depth) == Some(fs[n].value);
      UnfoldCopies(heap, properties[n].value, depth, seen);
      PropertiesAre(heap, properties[..n], LEVELS - depth, fs[..n]);
      CopiesProperties(heap, properties[..n], depth, seen, fs[..n]);
      assert fs[..n] + [fs[n]] == fs;
    }
  }

  /** `copyIn`. */
  function CopyIn(heap: Heap, v: Value): Result<Data, Fault> {
    Copy(heap, v, 0, {})
  }

  /**
   * Copying in succeeds exactly when the graph unfolds to legal data of at most 33 levels, and gives that unfolding.
   * The ancestor set turns nothing else away: shared parts are copied once for every use.
   */
  lemma CopyInIsUnfolding(heap: Heap, v: Value, d: Data)
    ensures CopyIn(heap, v) == Ok(d) <==> Unfold(heap, v, LEVELS) == Some(d)
  {
    if Unfold(heap, v, LEVELS) == Some(d) { UnfoldCopies(heap, v, 0, {}); }
    if CopyIn(heap, v) == Ok(d) { CopyUnfolds(heap, v, 0, {}); }
  }

  // ---------------------------------------------------------------- cycles

  predicate Holds(node: Node, a: Address) {
    || (node.Array? && Ref(a) in node.items)
    || (node.Plain? && exists i :: 0 <= i < |node.properties| && node.properties[i].value == Ref(a))
  }

  /** Objects from which one can walk on forever. */
  ghost predicate Endless(heap: Heap, s: set<Address>) {
    forall a :: a in s ==> Continues(heap, s, a)
  }

  ghost predicate Continues(heap: Heap, s: set<Address>, a: Address) {
    exists b :: b in s && Holds(heap(a), b)
  }

  lemma HeldUnfolds(heap: Heap, a: Address, b: Address, levels: nat)
    requires Holds(heap(a), b) && Unfold(heap, Ref(a), levels).Some?
    ensures levels > 0 && Unfold(heap, Ref(b), levels - 1).Some?
  {
    if heap(a).Array? {
      var i :| 0 <= i < |heap(a).items| && heap(a).items[i] == Ref(b);
      ItemsGive(heap, heap(a).items, levels - 1);
    } else {
      var i :| 0 <= i < |heap(a).properties| && heap(a).properties[i].value == Ref(b);
      PropertiesGive(heap, heap(a).properties, levels - 1);
    }
  }

  lemma {:induction false} EndlessNeverUnfolds(heap: Heap, s: set<Address>, a: Address, levels: nat)
    requires Endless(heap, s) && a in s
    ensures Unfold(heap, Ref(a), levels).None?
    decreases levels
  {
    hide Unfold, Holds;
    if Unfold(heap, Ref(a), levels).Some? {
      assert Continues(heap, s, a);
      var b :| b in s && Holds(heap(a), b);
      HeldUnfolds(heap, a, b, levels);
      EndlessNeverUnfolds(heap, s, b, levels - 1);
    }
  }

  /** A value on a cycle, or leading into one, is always rejected. */
  lemma CyclesAreRejected(heap: Heap, s: set<Address>, a: Address)
    requires Endless(heap, s) && a in s
    ensures CopyIn(heap, Ref(a)).Err?
  {
    hide Unfold, Endless, CopyIn;
    EndlessNeverUnfolds(heap, s, a, LEVELS);
    if CopyIn(heap, Ref(a)).Ok? { CopyInIsUnfolding(heap, Ref(a), CopyIn(heap, Ref(a)).value); }
  }

  // ---------------------------------------------------------------- copyOut

  function Out(d: Data, undefinedAsNull: bool): Data {
    match d
    case UndefinedData => if undefinedAsNull then NullData else d
    case NumData(n) => if n.Finite? then d else NullData
    case List(items) => List(seq(|items|, i requires 0 <= i < |items| => Out(items[i], undefinedAsNull)))
    case Record(fields) => Record(seq(|fields|,
        i requires 0 <= i < |fields| => Field(fields[i].key, Out(fields[i].value, undefinedAsNull))))
    case _ => d
  }

  /** JSON data: every number is finite and, if asked for, nothing is undefined. */
  predicate Json(d: Data, undefinedAsNull: bool) {
    match d
    case UndefinedData => !undefinedAsNull
    case NumData(n) => n.Finite?
    case List(items) => forall i :: 0 <= i < |items| ==> Json(items[i], undefinedAsNull)
    case Record(fields) => forall i :: 0 <= i < |fields| ==> Json(fields[i].value, undefinedAsNull)
    case _ => true
  }

  /** The same tree, but for null in place of every leaf that is not JSON data. */
  predicate Nulled(d: Data, out: Data, undefinedAsNull: bool)
    decreases d
  {
    if d.List? then
      && out.List? && |out.items| == |d.items|
      && forall i :: 0 <= i < |d.items| ==> Nulled(d.items[i], out.items[i], undefinedAsNull)
    else if d.Record? then
      && out.Record? && |out.fields| == |d.fields|
      && (forall i :: 0 <= i < |d.fields| ==> out.fields[i].key == d.fields[i].key)
      && (forall i :: 0 <= i < |d.fields| ==> Nulled(d.fields[i].value, out.fields[i].value, undefinedAsNull))
    else
      out == if Json(d, undefinedAsNull) then d else NullData
  }

  predicate Normalized(d: Data, undefinedAsNull: bool) {
    var out := Out(d, undefinedAsNull);
    && Json(out, undefinedAsNull) && Nulled(d, out, undefinedAsNull)
    && (out == d <==> Json(d, undefinedAsNull))
  }

  /** What leaves is JSON data, and only leaves that are not JSON data change, into null. */
  lemma {:induction false} OutIsJson(d: Data, undefinedAsNull: bool)
    ensures Json(Out(d, undefinedAsNull), undefinedAsNull) && Nulled(d, Out(d, undefinedAsNull), undefinedAsNull)
    ensures Out(d, undefinedAsNull) == d <==> Json(d, undefinedAsNull)
  {
    match d {
      case List(items) =>
        forall i | 0 <= i < |items| ensures Normalized(items[i], undefinedAsNull) {
          OutIsJson(items[i], undefinedAsNull);
        }
        if Out(d, undefinedAsNull) == d {
          forall i | 0 <= i < |items| ensures Json(items[i], undefinedAsNull) {
            assert Out(d, undefinedAsNull).items[i] == items[i];
          }
        }
      case Record(fields) =>
        forall i | 0 <= i < |fields| ensures Normalized(fields[i].value, undefinedAsNull) {
          OutIsJson(fields[i].value, undefinedAsNull);
        }
        if Out(d, undefinedAsNull) == d {
          forall i | 0 <= i < |fields| ensures Json(fields[i].value, undefinedAsNull) {
            assert Out(d, undefinedAsNull).fields[i] == fields[i];
          }
        }
      case _ =>
    }
  }

  // ---------------------------------------------------------------- out, and in again

  /** A value in a heap that is exactly the tree `d`, as an ordinary object graph. */
  ghost predicate Represents(heap: Heap, v: Value, d: Data)
    decreases d
  {
    match d
    case List(items) =>
      && v.Ref? && heap(v.address).Array? && |heap(v.address).items| == |items|
      && forall i :: 0 <= i < |items| ==> Represents(heap, heap(v.address).items[i], items[i])
    case Record(fields) =>
      && v.Ref? && heap(v.address).Plain? && |heap(v.address).properties| == |fields|
      && (forall i :: 0 <= i < |fields| ==> heap(v.address).properties[i].key == fields[i].key)
      && (forall i :: 0 <= i < |fields| ==> Represents(heap, heap(v.address).properties[i].value, fields[i].value))
    case _ => Leaf(v) == Some(d)
  }

  /** Data of at most so many levels without blocked keys. */
  predicate Legal(d: Data, levels: nat)
    decreases d
  {
    && levels > 0
    && (d.List? ==> forall i :: 0 <= i < |d.items| ==> Legal(d.items[i], levels - 1))
    && (d.Record? ==> forall i ::
          0 <= i < |d.fields| ==> !BlockedMember(d.fields[i].key) && Legal(d.fields[i].value, levels - 1))
  }

  lemma {:induction false} UnfoldLegal(heap: Heap, v: Value, levels: nat)
    requires Unfold(heap, v, levels).Some?
    ensures Legal(Unfold(heap, v, levels).value, levels)
    decreases levels
  {
    if v.Ref? {
      hide UnfoldItems, UnfoldProperties;
      var node := heap(v.address);
      var d := Unfold(heap, v, levels).value;
      if node.Array? {
        ItemsGive(heap, node.items, levels - 1);
        assert d.List?;
        hide Unfold;
        forall i | 0 <= i < |d.items| ensures Legal(d.items[i], levels - 1) {
          UnfoldLegal(heap, node.items[i], levels - 1);
        }
      } else if node.Plain? {
        PropertiesGive(heap, node.properties, levels - 1);
        assert d.Record?;
        hide Unfold;
        forall i | 0 <= i < |d.fields| ensures !BlockedMember(d.fields[i].key) && Legal(d.fields[i].value, levels - 1) {
          UnfoldLegal(heap, node.properties[i].value, levels - 1);
        }
      }
    }
  }

  lemma {:induction false} OutLegal(d: Data, undefinedAsNull: bool, levels: nat)
    requires Legal(d, levels)
    ensures Legal(Out(d, undefinedAsNull), levels)
    decreases d
  {
    match d {
      case List(items) =>
        forall i | 0 <= i < |items| ensures Legal(Out(items[i], undefinedAsNull), levels - 1) {
          OutLegal(items[i], undefinedAsNull, levels - 1);
        }
      case Record(fields) =>
        forall i | 0 <= i < |fields| ensures !BlockedMember(fields[i].key) &&
            Legal(Out(fields[i].value, undefinedAsNull), levels - 1) {
          OutLegal(fields[i].value, undefinedAsNull, levels - 1);
        }
      case _ =>
    }
  }

  lemma {:induction false} RepresentsUnfolds(heap: Heap, v: Value, d: Data, levels: nat)
    requires Represents(heap, v, d) && Legal(d, levels)
    ensures Unfold(heap, v, levels) == Some(d)
    decreases d
  {
    match d {
      case List(items) =>
        forall i | 0 <= i < |items| ensures Unfold(heap, heap(v.address).items[i], levels - 1) == Some(items[i]) {
          RepresentsUnfolds(heap, heap(v.address).items[i], items[i], levels - 1);
        }
        ItemsAre(heap, heap(v.address).items, levels - 1, items);
      case Record(fields) =>
        forall i | 0 <= i < |fields|
          ensures !BlockedMember(heap(v.address).properties[i].key) &&
                    Unfold(heap, heap(v.address).properties[i].value, levels - 1) == Some(fields[i].value)
        {
          RepresentsUnfolds(heap, heap(v.address).properties[i].value, fields[i].value, levels - 1);
        }
        PropertiesAre(heap, heap(v.address).properties, levels - 1, fields);
      case _ =>
    }
  }

  /**
   * Data that has crossed the boundary crosses it again unchanged: whatever object graph holds the copied and
   * normalized data, copying it in succeeds and gives that data, and normalizing it again changes nothing.
   */
  lemma CrossingTwice(heap: Heap, v: Value, undefinedAsNull: bool, heap2: Heap, v2: Value)
    requires CopyIn(heap, v).Ok? && Represents(heap2, v2, Out(CopyIn(heap, v).value, undefinedAsNull))
    ensures var out := Out(CopyIn(heap, v).value, undefinedAsNull);
            CopyIn(heap2, v2) == Ok(out) && Out(out, undefinedAsNull) == out && Json(out, undefinedAsNull)
  {
    var d := CopyIn(heap, v).value;
    var out := Out(d, undefinedAsNull);
    CopyInIsUnfolding(heap, v, d);
    UnfoldLegal(heap, v, LEVELS);
    OutLegal(d, undefinedAsNull, LEVELS);
    RepresentsUnfolds(heap2, v2, out, LEVELS);
    CopyInIsUnfolding(heap2, v2, out);
    OutIsJson(d, undefinedAsNull);
    OutIsJson(out, undefinedAsNull);
  }
}

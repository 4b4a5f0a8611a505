/**
 * Copying in, said of the value and the data alone: which data a value is, leaf by leaf, and with which fault a value
 * that is none is turned away.
 */
module BoundaryExact {
  import opened Wrappers
  import opened Boundary

  // ---------------------------------------------------------------- which data a value is

  /**
   * The value is this data, of at most so many levels: the five kinds of leaves are themselves; a date or URL is its
   * text, or null without one; an object without a JSON form is an empty record; arrays and plain objects have their
   * parts, in order and under the same keys. Nothing else is data.
   */
  ghost predicate Depicts(heap: Heap, v: Value, d: Data, levels: nat)
    decreases levels
  {
    && levels > 0
    && match v
       case Undefined => d == UndefinedData
       case Null => d == NullData
       case Str(text) => d == StrData(text)
       case Bool(truth) => d == BoolData(truth)
       case Num(number) => d == NumData(number)
       case Other => false
       case Ref(address) =>
         match heap(address)
         case Text(json) => d == if json.Some? then StrData(json.value) else NullData
         case Opaque => d == Record([])
         case Array(items) =>
           && d.List? && |d.items| == |items|
           && forall i :: 0 <= i < |items| ==> Depicts(heap, items[i], d.items[i], levels - 1)
         case Plain(properties) =>
           && d.Record? && |d.fields| == |properties|
           && (forall i :: 0 <= i < |properties| ==> d.fields[i].key == properties[i].key)
           && (forall i :: 0 <= i < |properties| ==>
                 properties[i].key !in ["__proto__", "constructor", "prototype"]
                 && Depicts(heap, properties[i].value, d.fields[i].value, levels - 1))
         case _ => false
  }

  lemma {:induction false} UnfoldDepicts(heap: Heap, v: Value, d: Data, levels: nat)
    ensures Unfold(heap, v, levels) == Some(d) <==> Depicts(heap, v, d, levels)
    decreases levels, 0
  {
    if levels > 0 && v.Ref? {
      match heap(v.address) {
        case Array(items) => ItemsDepict(heap, items, d, levels - 1);
        case Plain(properties) => PropertiesDepict(heap, properties, d, levels - 1);
        case _ =>
      }
    }
  }

  lemma {:induction false} ItemsDepict(heap: Heap, items: seq<Value>, d: Data, levels: nat)
    ensures (UnfoldItems(heap, items, levels).Some? && d == List(UnfoldItems(heap, items, levels).value)) <==>
            && d.List? && |d.items| == |items|
            && forall i :: 0 <= i < |items| ==> Depicts(heap, items[i], d.items[i], levels)
    decreases levels, 1
  {
    hide Unfold, Depicts;
    if UnfoldItems(heap, items, levels).Some? { ItemsGive(heap, items, levels); }
    if d.List? && |d.items| == |items| {
      forall i | 0 <= i < |items|
        ensures Unfold(heap, items[i], levels) == Some(d.items[i]) <==> Depicts(heap, items[i], d.items[i], levels)
      {
        UnfoldDepicts(heap, items[i], d.items[i], levels);
      }
    }
  }

  lemma {:induction false} PropertiesDepict(heap: Heap, properties: seq<Property>, d: Data, levels: nat)
    ensures (UnfoldProperties(heap, properties, levels).Some?
             && d == Record(UnfoldProperties(heap, properties, levels).value)) <==>
            && d.Record? && |d.fields| == |properties|
            && (forall i :: 0 <= i < |properties| ==> d.fields[i].key == properties[i].key)
            && (forall i :: 0 <= i < |properties| ==>
                  properties[i].key !in ["__proto__", "constructor", "prototype"]
                  && Depicts(heap, properties[i].value, d.fields[i].value, levels))
    decreases levels, 1
  {
    hide Unfold, Depicts;
    if UnfoldProperties(heap, properties, levels).Some? { PropertiesGive(heap, properties, levels); }
    if d.Record? && |d.fields| == |properties| {
      forall i | 0 <= i < |properties|
        ensures Unfold(heap, properties[i].value, levels) == Some(d.fields[i].value)
                <==> Depicts(heap, properties[i].value, d.fields[i].value, levels)
      {
        UnfoldDepicts(heap, properties[i].value, d.fields[i].value, levels);
      }
    }
  }

  /** Copying in gives exactly the data that the value is, of at most 33 levels. */
  lemma CopyInExactly(heap: Heap, v: Value, d: Data)
    ensures CopyIn(heap, v) == Ok(d) <==> Depicts(heap, v, d, 33)
  {
    CopyInIsUnfolding(heap, v, d);
    UnfoldDepicts(heap, v, d, 33);
  }

  // ---------------------------------------------------------------- faults

  /** Item `k` is the first that cannot be copied. */
  ghost predicate FirstFault(heap: Heap, items: seq<Value>, depth: nat, seen: set<Address>, k: nat, fault: Fault) {
    && k < |items| && Copy(heap, items[k], depth, seen) == Err(fault)
    && forall i :: 0 <= i < k ==> Copy(heap, items[i], depth, seen).Ok?
  }

  /** Property `k` is the first whose key is blocked or whose value cannot be copied; the key is looked at first. */
  ghost predicate FirstBadProperty(heap: Heap, ps: seq<Property>, depth: nat, seen: set<Address>, k: nat,
                                   fault: Fault)
  {
    && k < |ps|
    && (if ps[k].key in ["__proto__", "constructor", "prototype"] then fault == Blocked(ps[k].key)
        else Copy(heap, ps[k].value, depth, seen) == Err(fault))
    && forall i :: 0 <= i < k ==>
         ps[i].key !in ["__proto__", "constructor", "prototype"] && Copy(heap, ps[i].value, depth, seen).Ok?
  }

  lemma {:induction false} ItemsFirst(heap: Heap, items: seq<Value>, depth: nat, seen: set<Address>) returns (k: nat)
    ensures var r := CopyItems(heap, items, depth, seen);
            if r.Err? then FirstFault(heap, items, depth, seen, k, r.error)
            else forall i :: 0 <= i < |items| ==> Copy(heap, items[i], depth, seen).Ok?
  {
    hide Copy;
    k := 0;
    if items != [] {
      var most := items[..|items| - 1];
      k := ItemsFirst(heap, most, depth, seen);
      if CopyItems(heap, most, depth, seen).Ok? {
        k := |items| - 1;
        assert forall i :: 0 <= i < |most| ==> items[i] == most[i];
      } else {
        assert items[k] == most[k] && forall i :: 0 <= i < k ==> items[i] == most[i];
      }
    }
  }

  lemma {:induction false} PropertiesFirst(heap: Heap, ps: seq<Property>, depth: nat, seen: set<Address>)
    returns (k: nat)
    ensures var r := CopyProperties(heap, ps, depth, seen);
            if r.Err? then FirstBadProperty(heap, ps, depth, seen, k, r.error)
            else forall i :: 0 <= i < |ps| ==>
                   ps[i].key !in ["__proto__", "constructor", "prototype"] && Copy(heap, ps[i].value, depth, seen).Ok?
  {
    hide Copy;
    k := 0;
    if ps != [] {
      var most := ps[..|ps| - 1];
      k := PropertiesFirst(heap, most, depth, seen);
      if CopyProperties(heap, most, depth, seen).Ok? {
        k := |ps| - 1;
        assert forall i :: 0 <= i < |most| ==> ps[i] == most[i];
      } else {
        assert ps[k] == most[k] && forall i :: 0 <= i < k ==> ps[i] == most[i];
      }
    }
  }

  /**
   * Why a value is turned away: it is too deep; it is a function, a symbol or a bigint; it is a promise; it is one of
   * its own ancestors; it has a prototype of its own; or one of its parts is turned away, for the reason of the first.
   */
  lemma FaultExactly(heap: Heap, v: Value, depth: nat, seen: set<Address>) returns (k: nat)
    requires Copy(heap, v, depth, seen).Err?
    ensures var fault := Copy(heap, v, depth, seen).error;
      if depth > 32 then fault == TooDeep
      else if v == Other then fault == NotData
      else
        && v.Ref?
        && var node := heap(v.address);
        if node == Promise then fault == Unawaited
        else if v.address in seen then fault == Circular
        else if node == Instance then fault == NotPlain
        else if node.Array? then FirstFault(heap, node.items, depth + 1, seen + {v.address}, k, fault)
        else node.Plain? && FirstBadProperty(heap, node.properties, depth + 1, seen + {v.address}, k, fault)
  {
    hide CopyItems, CopyProperties;
    k := 0;
    if depth <= 32 && v.Ref? {
      match heap(v.address)
      case Array(items) => k := ItemsFirst(heap, items, depth + 1, seen + {v.address});
      case Plain(properties) => k := PropertiesFirst(heap, properties, depth + 1, seen + {v.address});
      case _ =>
    }
  }
}

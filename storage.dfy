/** The browser's `localStorage`, as an in-memory map from keys to string values. */
module Storage {
  import opened Wrappers

  /** A write to the store. */
  datatype StoreOp = SetItem(key: string, value: string) | RemoveItem(key: string)

  /** The store after one write. */
  function Apply(m: map<string, string>, op: StoreOp): (r: map<string, string>)
    ensures op.SetItem? ==> op.key in r && r[op.key] == op.value
    ensures op.RemoveItem? ==> op.key !in r
    ensures forall k :: k != op.key ==> (k in r <==> k in m) && (k in r ==> r[k] == m[k])
  {
    match op
    case SetItem(k, v) => m[k := v]
    case RemoveItem(k) => m - {k}
  }

  /** The store after a sequence of writes, oldest first. */
  function ApplyAll(m: map<string, string>, ops: seq<StoreOp>): (r: map<string, string>)
    ensures forall k :: Untouched(ops, k) ==> (k in r <==> k in m) && (k in r ==> r[k] == m[k])
    decreases |ops|
  {
    if ops == [] then m
    else
      var prev := ApplyAll(m, ops[..|ops| - 1]);
      assert forall k :: Untouched(ops, k) ==> Untouched(ops[..|ops| - 1], k);
      Apply(prev, ops[|ops| - 1])
  }

  /** No write in `ops` touches `key`. */
  predicate Untouched(ops: seq<StoreOp>, key: string)
  {
    forall i :: 0 <= i < |ops| ==> ops[i].key != key
  }

  class LocalStorage {
    var entries: map<string, string>

    constructor (initial: map<string, string>)
      ensures entries == initial
    {
      entries := initial;
    }

    /** `localStorage.getItem(key)`: None stands for JavaScript's `null`. */
    function GetItem(key: string): (r: Option<string>)
      reads this
      ensures r.Some? <==> key in entries
      ensures r.Some? ==> r.value == entries[key]
    {
      if key in entries then Some(entries[key]) else None
    }

    /** `localStorage.setItem(key, value)`. */
    method SetItem(key: string, value: string)
      modifies this
      ensures entries == Apply(old(entries), StoreOp.SetItem(key, value))
    {
      entries := entries[key := value];
    }

    /** `localStorage.removeItem(key)`. */
    method RemoveItem(key: string)
      modifies this
      ensures entries == Apply(old(entries), StoreOp.RemoveItem(key))
    {
      entries := entries - {key};
    }
  }
}

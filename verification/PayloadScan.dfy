/** The payload scan that keeps sensitivity snapshots out of the job queue (lib/jobs.ts). */
module PayloadScan {
  import opened Options

  type NodeId = nat

  /** A JavaScript value: a primitive (null included) or a reference to an object. */
  datatype Value = Primitive | Ref(node: NodeId)

  /** An array, or a plain object with its own string keys in `Object.keys` order. */
  datatype Node = Arr(items: seq<Value>) | Obj(keys: seq<string>, fields: map<string, Value>)

  /** A finite object graph; objects may be shared and may lie on cycles. */
  type Heap = map<NodeId, Node>

  datatype Step = Index(i: nat) | Key(k: string)

  type Path = seq<Step>

  predicate ValueIn(h: Heap, v: Value) {
    v.Ref? ==> v.node in h
  }

  /** No dangling references, and every listed key has its field. */
  ghost predicate WellFormed(h: Heap) {
    forall n :: n in h ==>
      match h[n]
      case Arr(items) => forall i :: 0 <= i < |items| ==> ValueIn(h, items[i])
      case Obj(keys, fields) =>
        (forall k :: k in keys <==> k in fields) && (forall k :: k in keys ==> ValueIn(h, fields[k]))
  }

  // ----- /sensitivity/i -----

  function Lower(c: char): char {
    if 'A' <= c <= 'Z' then c - 'A' + 'a' else c
  }

  predicate MatchesAt(key: string, word: string, at: nat) {
    at + |word| <= |key| && forall i :: 0 <= i < |word| ==> Lower(key[at + i]) == word[i]
  }

  predicate SensitivityShaped(key: string) {
    exists at :: 0 <= at <= |key| && MatchesAt(key, "sensitivity", at)
  }

  // ----- Paths -----

  /** The value one step below `v`, if there is one. */
  function Follow(h: Heap, v: Value, s: Step): Option<Value> {
    if v.Primitive? || v.node !in h then None
    else match (h[v.node], s)
      case (Arr(items), Index(i)) => if i < |items| then Some(items[i]) else None
      case (Obj(_, fields), Key(k)) => if k in fields then Some(fields[k]) else None
      case (Arr(_), Key(_)) => None
      case (Obj(_, _), Index(_)) => None
  }

  function Resolve(h: Heap, v: Value, p: Path): Option<Value>
    decreases |p|
  {
    if p == [] then Some(v)
    else
      var w := Resolve(h, v, p[..|p| - 1]);
      if w.None? then None else Follow(h, w.value, p[|p| - 1])
  }

  /** A real path from `v` that ends in a sensitivity-shaped key. */
  ghost predicate Offends(h: Heap, v: Value, p: Path) {
    p != [] && p[|p| - 1].Key? && SensitivityShaped(p[|p| - 1].k) && Resolve(h, v, p).Some?
  }

  // ----- Depth-first search with a shared set of visited objects -----

  /** The step leads from object `n`, and is not itself an offending key. */
  ghost predicate HarmlessStep(h: Heap, seen: set<NodeId>, n: NodeId, s: Step) {
    var w := Follow(h, Ref(n), s);
    w.Some? ==> (s.Key? ==> !SensitivityShaped(s.k)) && (w.value.Ref? ==> w.value.node in seen)
  }

  /** Every step out of `n` is harmless and stays among the visited objects. */
  ghost predicate Clear(h: Heap, seen: set<NodeId>, n: NodeId) {
    forall s :: HarmlessStep(h, seen, n, s)
  }

  /** The objects visited since `before` are all clear. */
  ghost predicate ClearSince(h: Heap, before: set<NodeId>, seen: set<NodeId>) {
    && before <= seen <= h.Keys
    && forall n :: n in seen && n !in before ==> Clear(h, seen, n)
  }

  class Scan {
    const heap: Heap
    var seen: set<NodeId>

    constructor (heap: Heap)
      ensures this.heap == heap && seen == {}
    {
      this.heap := heap;
      seen := {};
    }

    /** `root` is the payload and `path` leads from it to `value`. */
    method Find(ghost root: Value, value: Value, path: Path) returns (r: Option<Path>)
      requires WellFormed(heap) && ValueIn(heap, value) && seen <= heap.Keys
      requires Resolve(heap, root, path) == Some(value)
      modifies this
      ensures r.Some? ==> Offends(heap, root, r.value)
      ensures r.None? ==> ClearSince(heap, old(seen), seen) && (value.Ref? ==> value.node in seen)
      ensures old(seen) <= seen <= heap.Keys
      decreases heap.Keys - seen, 1, 0
    {
      if value.Primitive? {
        return None;
      }
      if value.node in seen {
        return None;
      }
      ghost var before := seen;
      seen := seen + {value.node};
      match heap[value.node]
      case Arr(items) =>
        r := FindInItems(root, value, items, path, before);
      case Obj(keys, fields) =>
        r := FindInFields(root, value, keys, fields, path, before);
    }

    method FindInItems(ghost root: Value, value: Value, items: seq<Value>, path: Path, ghost before: set<NodeId>)
      returns (r: Option<Path>)
      requires WellFormed(heap) && value.Ref? && value.node in heap && heap[value.node] == Arr(items)
      requires Resolve(heap, root, path) == Some(value)
      requires value.node !in before && seen == before + {value.node} && seen <= heap.Keys
      modifies this
      ensures r.Some? ==> Offends(heap, root, r.value)
      ensures r.None? ==> ClearSince(heap, before, seen)
      ensures old(seen) <= seen <= heap.Keys
      decreases heap.Keys - before, 0
    {
      ghost var start := seen;
      var i := 0;
      while i < |items|
        invariant i <= |items|
        invariant ClearSince(heap, start, seen)
        invariant forall j :: 0 <= j < i && items[j].Ref? ==> items[j].node in seen
      {
        assert (path + [Index(i)])[..|path|] == path;
        ghost var soFar := seen;
        r := Find(root, items[i], path + [Index(i)]);
        if r.Some? {
          return;
        }
        ClearGrows(heap, start, soFar, seen);
        i := i + 1;
      }
      ClearClose(heap, before, value.node, seen);
      r := None;
    }

    method FindInFields(ghost root: Value, value: Value, keys: seq<string>, fields: map<string, Value>, path: Path,
                        ghost before: set<NodeId>)
      returns (r: Option<Path>)
      requires WellFormed(heap) && value.Ref? && value.node in heap && heap[value.node] == Obj(keys, fields)
      requires Resolve(heap, root, path) == Some(value)
      requires value.node !in before && seen == before + {value.node} && seen <= heap.Keys
      modifies this
      ensures r.Some? ==> Offends(heap, root, r.value)
      ensures r.None? ==> ClearSince(heap, before, seen)
      ensures old(seen) <= seen <= heap.Keys
      decreases heap.Keys - before, 0
    {
      ghost var start := seen;
      var i := 0;
      while i < |keys|
        invariant i <= |keys|
        invariant ClearSince(heap, start, seen)
        invariant forall j :: 0 <= j < i ==>
          !SensitivityShaped(keys[j]) && (fields[keys[j]].Ref? ==> fields[keys[j]].node in seen)
      {
        var k := keys[i];
        assert (path + [Key(k)])[..|path|] == path;
        if SensitivityShaped(k) {
          return Some(path + [Key(k)]);
        }
        ghost var soFar := seen;
        r := Find(root, fields[k], path + [Key(k)]);
        if r.Some? {
          return;
        }
        ClearGrows(heap, start, soFar, seen);
        i := i + 1;
      }
      ClearClose(heap, before, value.node, seen);
      r := None;
    }
  }

  lemma ClearGrows(h: Heap, a: set<NodeId>, b: set<NodeId>, c: set<NodeId>)
    requires ClearSince(h, a, b) && ClearSince(h, b, c)
    ensures ClearSince(h, a, c)
  {
    forall n | n in c && n !in a
      ensures Clear(h, c, n)
    {
      if n in b {
        assert Clear(h, b, n);
        forall s
          ensures HarmlessStep(h, c, n, s)
        {
          assert HarmlessStep(h, b, n, s);
        }
      }
    }
  }

  /** Once all of `n`'s own steps are harmless, `n` too counts as clear. */
  lemma ClearClose(h: Heap, before: set<NodeId>, n: NodeId, seen: set<NodeId>)
    requires ClearSince(h, before + {n}, seen)
    requires forall s :: HarmlessStep(h, seen, n, s)
    ensures ClearSince(h, before, seen)
  {
  }

  /** When everything visited is clear, no path out of a visited object offends. */
  lemma {:induction false} ClearGraphHasNoOffence(h: Heap, seen: set<NodeId>, v: Value, p: Path)
    requires ClearSince(h, {}, seen)
    requires v.Ref? ==> v.node in seen
    ensures !Offends(h, v, p)
    ensures var w := Resolve(h, v, p); w.Some? && w.value.Ref? ==> w.value.node in seen
    decreases |p|
  {
    if p != [] {
      var q, s := p[..|p| - 1], p[|p| - 1];
      ClearGraphHasNoOffence(h, seen, v, q);
      var w := Resolve(h, v, q);
      if w.Some? && w.value.Ref? {
        assert Clear(h, seen, w.value.node);
        assert HarmlessStep(h, seen, w.value.node, s);
      }
    }
  }

  /** `findSensitivityKey(payload)`: the first offending path met, or null when there is none at all. */
  method FindSensitivityKey(h: Heap, payload: Value) returns (r: Option<Path>)
    requires WellFormed(h) && ValueIn(h, payload)
    ensures r.None? <==> forall p :: !Offends(h, payload, p)
    ensures r.Some? ==> Offends(h, payload, r.value)
  {
    var scan := new Scan(h);
    r := scan.Find(payload, payload, []);
    if r.None? {
      forall p
        ensures !Offends(h, payload, p)
      {
        ClearGraphHasNoOffence(h, scan.seen, payload, p);
      }
    }
  }
}

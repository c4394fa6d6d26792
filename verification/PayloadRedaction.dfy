/** The dashboard's payload redactor over an object graph that may share and
    contain itself, with the set of objects on the current path. */
module PayloadRedaction {
  import opened Sequences

  datatype Primitive = Null | Undefined | Flag(b: bool) | Number(n: int) | Text(s: string) | Opaque(tag: nat)

  /** A value is a primitive or a reference to an array or object. */
  datatype Value = Plain(p: Primitive) | Ref(node: nat)

  datatype Entry = Entry(key: string, value: Value)

  datatype Node = ArrayNode(items: seq<Value>) | ObjectNode(entries: seq<Entry>)

  type Graph = map<nat, Node>

  datatype Field = Field(key: string, tree: Tree)

  /** What the redactor builds: fresh arrays and objects, so a tree. */
  datatype Tree = Leaf(p: Primitive) | List(items: seq<Tree>) | Record(fields: seq<Field>)

  const REDACTED := Leaf(Text("[REDACTED]"))
  const CIRCULAR := Leaf(Text("[Circular]"))

  predicate Known(g: Graph, v: Value) {
    v.Ref? ==> v.node in g
  }

  predicate KnownNode(g: Graph, node: Node) {
    match node
    case ArrayNode(items) => forall i :: 0 <= i < |items| ==> Known(g, items[i])
    case ObjectNode(entries) => forall i :: 0 <= i < |entries| ==> Known(g, entries[i].value)
  }

  /** Every reference leads to an object of the graph. */
  ghost predicate Closed(g: Graph) {
    forall n :: n in g ==> KnownNode(g, g[n])
  }

  // ----- the redactor

  /** What stands in for a value under a sensitive key. */
  function Masked(v: Value): Tree {
    if v.Plain? && v.p.Number? then Leaf(Number(0)) else REDACTED
  }

  lemma {:induction false} PathGrows(g: Graph, path: set<nat>, n: nat)
    requires n in g && n !in path
    ensures |g.Keys - (path + {n})| < |g.Keys - path|
  {
    assert g.Keys - path == (g.Keys - (path + {n})) + {n};
  }

  ghost function Sanitized(g: Graph, sensitive: string -> bool, v: Value, path: set<nat>): Tree
    requires Closed(g) && Known(g, v)
    decreases |g.Keys - path|, 0
  {
    if v.Plain? then Leaf(v.p)
    else if v.node in path then CIRCULAR
    else
      PathGrows(g, path, v.node);
      match g[v.node]
      case ArrayNode(items) =>
        assert KnownNode(g, g[v.node]);
        List(SanitizedItems(g, sensitive, items, path + {v.node}))
      case ObjectNode(entries) =>
        assert KnownNode(g, g[v.node]);
        Record(SanitizedFields(g, sensitive, entries, path + {v.node}))
  }

  ghost function SanitizedItems(g: Graph, sensitive: string -> bool, items: seq<Value>,
        path: set<nat>): (trees: seq<Tree>)
    requires Closed(g) && KnownNode(g, ArrayNode(items))
    ensures |trees| == |items|
    decreases |g.Keys - path|, |items| + 1
  {
    if items == [] then []
    else
      var last := |items| - 1;
      assert KnownNode(g, ArrayNode(items[..last]));
      SanitizedItems(g, sensitive, items[..last], path) + [Sanitized(g, sensitive, items[last], path)]
  }

  ghost function SanitizedFields(g: Graph, sensitive: string -> bool, entries: seq<Entry>,
        path: set<nat>): (fields: seq<Field>)
    requires Closed(g) && KnownNode(g, ObjectNode(entries))
    ensures |fields| == |entries|
    decreases |g.Keys - path|, |entries| + 1
  {
    if entries == [] then []
    else
      var last := |entries| - 1;
      assert KnownNode(g, ObjectNode(entries[..last]));
      var entry := entries[last];
      SanitizedFields(g, sensitive, entries[..last], path)
      + [Field(entry.key,
               if sensitive(entry.key) then Masked(entry.value) else Sanitized(g, sensitive, entry.value, path))]
  }

  /** The mutable set of objects being visited. */
  class Seen {
    var members: set<nat>

    constructor ()
      ensures members == {}
    {
      members := {};
    }

    method Add(n: nat)
      modifies this
      ensures members == old(members) + {n}
    {
      members := members + {n};
    }

    method Delete(n: nat)
      modifies this
      ensures members == old(members) - {n}
    {
      members := members - {n};
    }
  }

  /** Terminates on every finite graph, because each object entered leaves fewer off the
      path, and hands the set of visited objects back as it was. */
  method SanitizePayload(g: Graph, sensitive: string -> bool, data: Value, seen: Seen) returns (tree: Tree)
    requires Closed(g) && Known(g, data)
    modifies seen
    ensures tree == Sanitized(g, sensitive, data, old(seen.members))
    ensures seen.members == old(seen.members)
    decreases |g.Keys - seen.members|
  {
    if data.Plain? { return Leaf(data.p); }
    if data.node in seen.members { return CIRCULAR; }
    ghost var outer := seen.members;
    PathGrows(g, outer, data.node);
    seen.Add(data.node);
    ghost var inner := seen.members;
    match g[data.node] {
      case ArrayNode(items) =>
        assert KnownNode(g, g[data.node]);
        var trees: seq<Tree> := [];
        for i := 0 to |items|
          invariant seen.members == inner
          invariant KnownNode(g, ArrayNode(items[..i])) && trees == SanitizedItems(g, sensitive, items[..i], inner)
        {
          var item := SanitizePayload(g, sensitive, items[i], seen);
          trees := trees + [item];
          assert items[..i + 1][..i] == items[..i];
        }
        assert items[..|items|] == items;
        tree := List(trees);
      case ObjectNode(entries) =>
        assert KnownNode(g, g[data.node]);
        var fields: seq<Field> := [];
        for i := 0 to |entries|
          invariant seen.members == inner
          invariant KnownNode(g, ObjectNode(entries[..i]))
                    && fields == SanitizedFields(g, sensitive, entries[..i], inner)
        {
          var entry := entries[i];
          var value;
          if sensitive(entry.key) {
            value := Masked(entry.value);
          } else {
            value := SanitizePayload(g, sensitive, entry.value, seen);
          }
          fields := fields + [Field(entry.key, value)];
          assert entries[..i + 1][..i] == entries[..i];
        }
        assert entries[..|entries|] == entries;
        tree := Record(fields);
    }
    seen.Delete(data.node);
    assert inner - {data.node} == outer;
  }

  // ----- trees and their redaction

  function MaskedTree(t: Tree): Tree {
    if t.Leaf? && t.p.Number? then Leaf(Number(0)) else REDACTED
  }

  /** Redaction of a tree: a sensitive field loses its value, any other is redacted inside. */
  function Redact(sensitive: string -> bool, t: Tree): Tree {
    match t
    case Leaf(_) => t
    case List(items) => List(RedactItems(sensitive, items))
    case Record(fields) => Record(RedactFields(sensitive, fields))
  }

  function RedactItems(sensitive: string -> bool, items: seq<Tree>): (r: seq<Tree>)
    ensures |r| == |items|
  {
    if items == [] then []
    else RedactItems(sensitive, items[..|items| - 1]) + [Redact(sensitive, items[|items| - 1])]
  }

  function RedactFields(sensitive: string -> bool, fields: seq<Field>): (r: seq<Field>)
    ensures |r| == |fields|
  {
    if fields == [] then []
    else
      var field := fields[|fields| - 1];
      RedactFields(sensitive, fields[..|fields| - 1])
      + [Field(field.key, if sensitive(field.key) then MaskedTree(field.tree) else Redact(sensitive, field.tree))]
  }

  /** Nothing is left under a sensitive key, at any depth, but the marker or 0. */
  predicate Clean(sensitive: string -> bool, t: Tree) {
    match t
    case Leaf(_) => true
    case List(items) => forall i :: 0 <= i < |items| ==> Clean(sensitive, items[i])
    case Record(fields) => forall i :: 0 <= i < |fields| ==>
      if sensitive(fields[i].key) then fields[i].tree == REDACTED || fields[i].tree == Leaf(Number(0))
      else Clean(sensitive, fields[i].tree)
  }

  lemma {:induction false} RedactIsClean(sensitive: string -> bool, t: Tree)
    ensures Clean(sensitive, Redact(sensitive, t))
  {
    match t
    case Leaf(_) =>
    case List(items) => RedactItemsClean(sensitive, items);
    case Record(fields) => RedactFieldsClean(sensitive, fields);
  }

  lemma {:induction false} RedactItemsClean(sensitive: string -> bool, items: seq<Tree>)
    ensures Clean(sensitive, List(RedactItems(sensitive, items)))
  {
    if items != [] {
      RedactItemsClean(sensitive, items[..|items| - 1]);
      RedactIsClean(sensitive, items[|items| - 1]);
    }
  }

  lemma {:induction false} RedactFieldsClean(sensitive: string -> bool, fields: seq<Field>)
    ensures Clean(sensitive, Record(RedactFields(sensitive, fields)))
  {
    if fields != [] {
      RedactFieldsClean(sensitive, fields[..|fields| - 1]);
      RedactIsClean(sensitive, fields[|fields| - 1].tree);
    }
  }

  /** Clean trees are exactly the ones redaction leaves alone. */
  lemma {:induction false} CleanIsFixed(sensitive: string -> bool, t: Tree)
    ensures Clean(sensitive, t) <==> Redact(sensitive, t) == t
  {
    RedactIsClean(sensitive, t);
    match t
    case Leaf(_) =>
    case List(items) => if Clean(sensitive, t) { CleanItemsFixed(sensitive, items); }
    case Record(fields) => if Clean(sensitive, t) { CleanFieldsFixed(sensitive, fields); }
  }

  lemma {:induction false} CleanItemsFixed(sensitive: string -> bool, items: seq<Tree>)
    requires Clean(sensitive, List(items))
    ensures RedactItems(sensitive, items) == items
  {
    if items != [] {
      CleanItemsFixed(sensitive, items[..|items| - 1]);
      CleanIsFixed(sensitive, items[|items| - 1]);
    }
  }

  lemma {:induction false} CleanFieldsFixed(sensitive: string -> bool, fields: seq<Field>)
    requires Clean(sensitive, Record(fields))
    ensures RedactFields(sensitive, fields) == fields
  {
    if fields != [] {
      var last := fields[|fields| - 1];
      CleanFieldsFixed(sensitive, fields[..|fields| - 1]);
      if !sensitive(last.key) { CleanIsFixed(sensitive, last.tree); }
    }
  }

  // ----- redaction, place by place

  /** The part of a tree at a path of child numbers. */
  function PartAt(t: Tree, path: seq<nat>): Option<Tree>
    decreases |path|
  {
    if path == [] then Some(t)
    else
      match t
      case Leaf(_) => None
      case List(items) => if path[0] < |items| then PartAt(items[path[0]], path[1..]) else None
      case Record(fields) => if path[0] < |fields| then PartAt(fields[path[0]].tree, path[1..]) else None
  }

  /** The keys of the fields a path leads through. */
  function KeysTo(t: Tree, path: seq<nat>): seq<string>
    decreases |path|
  {
    if path == [] then []
    else
      match t
      case Leaf(_) => []
      case List(items) => if path[0] < |items| then KeysTo(items[path[0]], path[1..]) else []
      case Record(fields) =>
        if path[0] < |fields| then [fields[path[0]].key] + KeysTo(fields[path[0]].tree, path[1..]) else []
  }

  predicate NoneSensitive(sensitive: string -> bool, keys: seq<string>) {
    forall i :: 0 <= i < |keys| ==> !sensitive(keys[i])
  }

  /** The same leaf, a list as long, or a record with the same keys. */
  predicate SameOutside(t: Tree, r: Tree) {
    match t
    case Leaf(_) => r == t
    case List(items) => r.List? && |r.items| == |items|
    case Record(fields) =>
      r.Record? && |r.fields| == |fields| && forall i :: 0 <= i < |fields| ==> r.fields[i].key == fields[i].key
  }

  lemma {:induction false} RedactedItem(sensitive: string -> bool, items: seq<Tree>, i: nat)
    requires i < |items|
    ensures RedactItems(sensitive, items)[i] == Redact(sensitive, items[i])
  {
    if i < |items| - 1 { RedactedItem(sensitive, items[..|items| - 1], i); }
  }

  lemma {:induction false} RedactedField(sensitive: string -> bool, fields: seq<Field>, i: nat)
    requires i < |fields|
    ensures RedactFields(sensitive, fields)[i]
            == Field(fields[i].key,
                     if sensitive(fields[i].key) then MaskedTree(fields[i].tree) else Redact(sensitive, fields[i].tree))
  {
    if i < |fields| - 1 { RedactedField(sensitive, fields[..|fields| - 1], i); }
  }

  /** Wherever no key on the way is sensitive, redaction leaves what is there: the leaf, or the list
      or record as far as it is one. */
  lemma {:induction false} RedactedKeepsOpenParts(sensitive: string -> bool, t: Tree, path: seq<nat>)
    requires PartAt(t, path).Some? && NoneSensitive(sensitive, KeysTo(t, path))
    ensures PartAt(Redact(sensitive, t), path).Some?
    ensures SameOutside(PartAt(t, path).value, PartAt(Redact(sensitive, t), path).value)
    decreases |path|
  {
    if path == [] {
      SameOutsideAfter(sensitive, t);
    } else {
      match t
      case List(items) =>
        RedactedItem(sensitive, items, path[0]);
        RedactedKeepsOpenParts(sensitive, items[path[0]], path[1..]);
      case Record(fields) =>
        RedactedField(sensitive, fields, path[0]);
        var keys := KeysTo(t, path);
        assert keys[0] == fields[path[0]].key && keys[1..] == KeysTo(fields[path[0]].tree, path[1..]);
        RedactedKeepsOpenParts(sensitive, fields[path[0]].tree, path[1..]);
    }
  }

  lemma {:induction false} SameOutsideAfter(sensitive: string -> bool, t: Tree)
    ensures SameOutside(t, Redact(sensitive, t))
  {
    if t.Record? {
      forall i | 0 <= i < |t.fields| { RedactedField(sensitive, t.fields, i); }
    }
  }

  /** Under the first sensitive key on a way stands 0 where a number was, and else the marker. */
  lemma {:induction false} RedactedMasksSensitiveParts(sensitive: string -> bool, t: Tree, path: seq<nat>)
    requires PartAt(t, path).Some? && KeysTo(t, path) != [] && path != []
    requires NoneSensitive(sensitive, KeysTo(t, path[..|path| - 1]))
    requires KeysTo(t, path[..|path| - 1]) < KeysTo(t, path) && sensitive(KeysTo(t, path)[|KeysTo(t, path)| - 1])
    ensures PartAt(Redact(sensitive, t), path)
            == Some(if PartAt(t, path).value.Leaf? && PartAt(t, path).value.p.Number? then Leaf(Number(0))
                    else Leaf(Text("[REDACTED]")))
    decreases |path|
  {
    var n := |path| - 1;
    if n == 0 {
      assert path[..n] == [] && path[1..] == [];
      RedactedField(sensitive, t.fields, path[0]);
    } else {
      assert path[..n][1..] == path[1..][..n - 1] && path[..n][0] == path[0];
      match t
      case List(items) =>
        RedactedItem(sensitive, items, path[0]);
        RedactedMasksSensitiveParts(sensitive, items[path[0]], path[1..]);
      case Record(fields) =>
        RedactedField(sensitive, fields, path[0]);
        var outer, inner := KeysTo(t, path), KeysTo(t, path[..n]);
        assert inner[0] == outer[0] == fields[path[0]].key;
        assert outer[1..] == KeysTo(fields[path[0]].tree, path[1..]);
        assert inner[1..] == KeysTo(fields[path[0]].tree, path[1..][..n - 1]);
        RedactedMasksSensitiveParts(sensitive, fields[path[0]].tree, path[1..]);
    }
  }

  /** The circular marker is put exactly where an object is met again inside itself. */
  lemma {:induction false} MarkedExactlyAtRepeats(g: Graph, sensitive: string -> bool, v: Value, path: set<nat>)
    requires Closed(g) && Known(g, v)
    ensures Sanitized(g, sensitive, v, path) == Leaf(Text("[Circular]"))
            <==> v == Plain(Text("[Circular]")) || (v.Ref? && v.node in path)
  {
  }

  // ----- any graph: redaction of its unfolding

  /** The graph unrolled along paths, cut where a path returns to an object it is inside. */
  ghost function Unrolled(g: Graph, v: Value, path: set<nat>): Tree
    requires Closed(g) && Known(g, v)
    decreases |g.Keys - path|, 0
  {
    if v.Plain? then Leaf(v.p)
    else if v.node in path then CIRCULAR
    else
      PathGrows(g, path, v.node);
      assert KnownNode(g, g[v.node]);
      match g[v.node]
      case ArrayNode(items) => List(UnrolledItems(g, items, path + {v.node}))
      case ObjectNode(entries) => Record(UnrolledFields(g, entries, path + {v.node}))
  }

  ghost function UnrolledItems(g: Graph, items: seq<Value>, path: set<nat>): (trees: seq<Tree>)
    requires Closed(g) && KnownNode(g, ArrayNode(items))
    ensures |trees| == |items|
    decreases |g.Keys - path|, |items| + 1
  {
    if items == [] then []
    else
      var last := |items| - 1;
      assert KnownNode(g, ArrayNode(items[..last]));
      UnrolledItems(g, items[..last], path) + [Unrolled(g, items[last], path)]
  }

  ghost function UnrolledFields(g: Graph, entries: seq<Entry>, path: set<nat>): (fields: seq<Field>)
    requires Closed(g) && KnownNode(g, ObjectNode(entries))
    ensures |fields| == |entries|
    decreases |g.Keys - path|, |entries| + 1
  {
    if entries == [] then []
    else
      var last := |entries| - 1;
      assert KnownNode(g, ObjectNode(entries[..last]));
      UnrolledFields(g, entries[..last], path) + [Field(entries[last].key, Unrolled(g, entries[last].value, path))]
  }

  /** On every graph, cyclic or shared, the redactor answers the redaction of the unrolled graph. */
  lemma {:induction false} SanitizedIsRedactedUnrolling(g: Graph, sensitive: string -> bool, v: Value, path: set<nat>)
    requires Closed(g) && Known(g, v)
    ensures Sanitized(g, sensitive, v, path) == Redact(sensitive, Unrolled(g, v, path))
    decreases |g.Keys - path|, 0
  {
    if v.Ref? && v.node !in path {
      PathGrows(g, path, v.node);
      assert KnownNode(g, g[v.node]);
      match g[v.node]
      case ArrayNode(items) => ItemsAgree(g, sensitive, items, path + {v.node});
      case ObjectNode(entries) => FieldsAgree(g, sensitive, entries, path + {v.node});
    }
  }

  lemma {:induction false} ItemsAgree(g: Graph, sensitive: string -> bool, items: seq<Value>, path: set<nat>)
    requires Closed(g) && KnownNode(g, ArrayNode(items))
    ensures SanitizedItems(g, sensitive, items, path) == RedactItems(sensitive, UnrolledItems(g, items, path))
    decreases |g.Keys - path|, |items| + 1
  {
    if items != [] {
      var last := |items| - 1;
      assert KnownNode(g, ArrayNode(items[..last]));
      ItemsAgree(g, sensitive, items[..last], path);
      SanitizedIsRedactedUnrolling(g, sensitive, items[last], path);
      assert UnrolledItems(g, items, path)[..last] == UnrolledItems(g, items[..last], path);
    }
  }

  lemma {:induction false} FieldsAgree(g: Graph, sensitive: string -> bool, entries: seq<Entry>, path: set<nat>)
    requires Closed(g) && KnownNode(g, ObjectNode(entries))
    ensures SanitizedFields(g, sensitive, entries, path) == RedactFields(sensitive, UnrolledFields(g, entries, path))
    decreases |g.Keys - path|, |entries| + 1
  {
    hide Closed, Sanitized;
    if entries != [] {
      var last := |entries| - 1;
      assert KnownNode(g, ObjectNode(entries[..last]));
      FieldsAgree(g, sensitive, entries[..last], path);
      SanitizedIsRedactedUnrolling(g, sensitive, entries[last].value, path);
      assert UnrolledFields(g, entries, path)[..last] == UnrolledFields(g, entries[..last], path);
    }
  }

  // ----- acyclic graphs: plain tree redaction

  predicate Below(rank: map<nat, nat>, v: Value, bound: nat) {
    v.Ref? ==> v.node in rank && rank[v.node] < bound
  }

  /** References lead strictly downward: no path of the graph meets an object twice. */
  ghost predicate Ranked(g: Graph, rank: map<nat, nat>) {
    forall n :: n in g ==>
      && n in rank
      && match g[n]
         case ArrayNode(items) => forall i :: 0 <= i < |items| ==> Below(rank, items[i], rank[n])
         case ObjectNode(entries) => forall i :: 0 <= i < |entries| ==> Below(rank, entries[i].value, rank[n])
  }

  /** The tree an acyclic graph stands for: every object copied out where it is referred to. */
  ghost function TreeOf(g: Graph, rank: map<nat, nat>, v: Value): Tree
    requires Closed(g) && Ranked(g, rank) && Known(g, v)
    decreases if v.Ref? then rank[v.node] + 1 else 0
  {
    if v.Plain? then Leaf(v.p)
    else
      assert KnownNode(g, g[v.node]);
      match g[v.node]
      case ArrayNode(items) =>
        List(seq(|items|, i requires 0 <= i < |items| => TreeOf(g, rank, items[i])))
      case ObjectNode(entries) =>
        Record(seq(|entries|, i requires 0 <= i < |entries| =>
          Field(entries[i].key, TreeOf(g, rank, entries[i].value))))
  }

  /** No object on the path can be met again below the value. */
  ghost predicate Above(rank: map<nat, nat>, path: set<nat>, v: Value) {
    v.Ref? && v.node in rank ==> forall n :: n in path ==> n in rank && rank[v.node] < rank[n]
  }

  lemma {:induction false} AcyclicUnrollsFully(g: Graph, rank: map<nat, nat>, v: Value, path: set<nat>)
    requires Closed(g) && Ranked(g, rank) && Known(g, v) && Above(rank, path, v)
    ensures Unrolled(g, v, path) == TreeOf(g, rank, v)
    decreases |g.Keys - path|, 0
  {
    if v.Ref? {
      PathGrows(g, path, v.node);
      assert KnownNode(g, g[v.node]);
      match g[v.node]
      case ArrayNode(items) => AcyclicItems(g, rank, items, path + {v.node});
      case ObjectNode(entries) => AcyclicFields(g, rank, entries, path + {v.node});
    }
  }

  lemma {:induction false} AcyclicItems(g: Graph, rank: map<nat, nat>, items: seq<Value>, path: set<nat>)
    requires Closed(g) && Ranked(g, rank) && KnownNode(g, ArrayNode(items))
    requires forall i :: 0 <= i < |items| ==> Above(rank, path, items[i])
    ensures forall i :: 0 <= i < |items| ==> UnrolledItems(g, items, path)[i] == TreeOf(g, rank, items[i])
    decreases |g.Keys - path|, |items| + 1
  {
    if items != [] {
      var last := |items| - 1;
      assert KnownNode(g, ArrayNode(items[..last]));
      AcyclicItems(g, rank, items[..last], path);
      AcyclicUnrollsFully(g, rank, items[last], path);
    }
  }

  lemma {:induction false} AcyclicFields(g: Graph, rank: map<nat, nat>, entries: seq<Entry>, path: set<nat>)
    requires Closed(g) && Ranked(g, rank) && KnownNode(g, ObjectNode(entries))
    requires forall i :: 0 <= i < |entries| ==> Above(rank, path, entries[i].value)
    ensures forall i :: 0 <= i < |entries| ==>
      UnrolledFields(g, entries, path)[i] == Field(entries[i].key, TreeOf(g, rank, entries[i].value))
    decreases |g.Keys - path|, |entries| + 1
  {
    if entries != [] {
      var last := |entries| - 1;
      assert KnownNode(g, ObjectNode(entries[..last]));
      AcyclicFields(g, rank, entries[..last], path);
      AcyclicUnrollsFully(g, rank, entries[last].value, path);
    }
  }

  /** On an acyclic graph the redactor answers the redaction of the tree the graph stands for:
      sharing is copied out and no circular marker is put in. */
  lemma {:induction false} AcyclicIsTreeRedaction(g: Graph, rank: map<nat, nat>, sensitive: string -> bool, v: Value)
    requires Closed(g) && Ranked(g, rank) && Known(g, v)
    ensures Sanitized(g, sensitive, v, {}) == Redact(sensitive, TreeOf(g, rank, v))
  {
    SanitizedIsRedactedUnrolling(g, sensitive, v, {});
    AcyclicUnrollsFully(g, rank, v, {});
  }

  // ----- every tree can be laid out

  /** A graph whose objects are numbered in the order they were added, each after what it refers to. */
  ghost predicate Layered(g: Graph, n: nat) {
    && (forall k :: k in g <==> 0 <= k < n)
    && (forall k :: k in g ==> KnownNode(g, g[k]))
    && Ranked(g, Numbers(g))
  }

  function Numbers(g: Graph): map<nat, nat> {
    map n | n in g :: n
  }

  lemma {:induction false} AddedKeepsTrees(g: Graph, n: nat, h: Graph, m: nat, v: Value)
    requires Layered(g, n) && Layered(h, m) && n <= m && (forall k :: k in g ==> h[k] == g[k]) && Known(g, v)
    ensures TreeOf(h, Numbers(h), v) == TreeOf(g, Numbers(g), v)
    decreases if v.Ref? then v.node + 1 else 0
  {
    if v.Ref? {
      match g[v.node]
      case ArrayNode(items) =>
        forall i | 0 <= i < |items| { AddedKeepsTrees(g, n, h, m, items[i]); }
      case ObjectNode(entries) =>
        forall i | 0 <= i < |entries| { AddedKeepsTrees(g, n, h, m, entries[i].value); }
    }
  }

  lemma {:induction false} NodeAdded(g: Graph, n: nat, node: Node)
    requires Layered(g, n) && KnownNode(g, node)
    ensures Layered(g[n := node], n + 1)
  {
  }

  lemma {:induction false} ListAdded(g: Graph, n: nat, values: seq<Value>, trees: seq<Tree>)
    requires Layered(g, n) && |values| == |trees|
    requires forall i :: 0 <= i < |values| ==> Known(g, values[i]) && TreeOf(g, Numbers(g), values[i]) == trees[i]
    ensures var h := g[n := ArrayNode(values)]; Layered(h, n + 1) && TreeOf(h, Numbers(h), Ref(n)) == List(trees)
  {
    var h := g[n := ArrayNode(values)];
    NodeAdded(g, n, ArrayNode(values));
    forall i | 0 <= i < |values| { AddedKeepsTrees(g, n, h, n + 1, values[i]); }
  }

  lemma {:induction false} RecordAdded(g: Graph, n: nat, entries: seq<Entry>, fields: seq<Field>)
    requires Layered(g, n) && |entries| == |fields|
    requires forall i :: 0 <= i < |entries| ==>
      && entries[i].key == fields[i].key
      && Known(g, entries[i].value) && TreeOf(g, Numbers(g), entries[i].value) == fields[i].tree
    ensures var h := g[n := ObjectNode(entries)]; Layered(h, n + 1) && TreeOf(h, Numbers(h), Ref(n)) == Record(fields)
  {
    var h := g[n := ObjectNode(entries)];
    NodeAdded(g, n, ObjectNode(entries));
    forall i | 0 <= i < |entries| { AddedKeepsTrees(g, n, h, n + 1, entries[i].value); }
  }

  /** The graph with room made for the tree, and the value that stands for it there. */
  lemma {:induction false} LayOut(g: Graph, n: nat, tree: Tree) returns (h: Graph, m: nat, v: Value)
    requires Layered(g, n)
    ensures Layered(h, m) && n <= m && (forall k :: k in g ==> h[k] == g[k])
    ensures Known(h, v) && TreeOf(h, Numbers(h), v) == tree
    decreases tree, 2, 0
  {
    match tree
    case Leaf(p) =>
      h, m, v := g, n, Plain(p);
    case List(trees) =>
      var values, before, last;
      before, last, values := LayOutItems(g, n, tree, |trees|);
      h, m, v := before[last := ArrayNode(values)], last + 1, Ref(last);
      ListAdded(before, last, values, trees);
    case Record(fields) =>
      var entries, before, last;
      before, last, entries := LayOutFields(g, n, tree, |fields|);
      h, m, v := before[last := ObjectNode(entries)], last + 1, Ref(last);
      RecordAdded(before, last, entries, fields);
  }

  lemma {:induction false} LayOutItems(g: Graph, n: nat, tree: Tree, count: nat)
    returns (h: Graph, m: nat, values: seq<Value>)
    requires Layered(g, n) && tree.List? && count <= |tree.items|
    ensures Layered(h, m) && n <= m && (forall k :: k in g ==> h[k] == g[k])
    ensures |values| == count
    ensures forall i :: 0 <= i < count ==> Known(h, values[i]) && TreeOf(h, Numbers(h), values[i]) == tree.items[i]
    decreases tree, 1, count
  {
    if count == 0 {
      h, m, values := g, n, [];
    } else {
      var before, last, earlier := LayOutItems(g, n, tree, count - 1);
      var v;
      h, m, v := LayOut(before, last, tree.items[count - 1]);
      forall i | 0 <= i < count - 1 { AddedKeepsTrees(before, last, h, m, earlier[i]); }
      values := earlier + [v];
    }
  }

  lemma {:induction false} LayOutFields(g: Graph, n: nat, tree: Tree, count: nat)
    returns (h: Graph, m: nat, entries: seq<Entry>)
    requires Layered(g, n) && tree.Record? && count <= |tree.fields|
    ensures Layered(h, m) && n <= m && (forall k :: k in g ==> h[k] == g[k])
    ensures |entries| == count
    ensures forall i :: 0 <= i < count ==>
      && entries[i].key == tree.fields[i].key
      && Known(h, entries[i].value) && TreeOf(h, Numbers(h), entries[i].value) == tree.fields[i].tree
    decreases tree, 1, count
  {
    if count == 0 {
      h, m, entries := g, n, [];
    } else {
      var before, last, earlier := LayOutFields(g, n, tree, count - 1);
      var v;
      h, m, v := LayOut(before, last, tree.fields[count - 1].tree);
      forall i | 0 <= i < count - 1 { AddedKeepsTrees(before, last, h, m, earlier[i].value); }
      entries := earlier + [Entry(tree.fields[count - 1].key, v)];
    }
  }

  /** Every tree is what some acyclic graph stands for. */
  lemma {:induction false} EveryTreeHasLayout(tree: Tree) returns (g: Graph, rank: map<nat, nat>, v: Value)
    ensures Closed(g) && Ranked(g, rank) && Known(g, v) && TreeOf(g, rank, v) == tree
  {
    var n;
    g, n, v := LayOut(map[], 0, tree);
    rank := Numbers(g);
  }

  /** On any graph the output is clean, and redacting it again, however it is laid out as an
      acyclic graph, changes nothing. */
  lemma {:induction false} OutputCleanAndFixed(g: Graph, sensitive: string -> bool, v: Value, path: set<nat>,
                                               again: Graph, rank: map<nat, nat>, w: Value)
    requires Closed(g) && Known(g, v)
    requires Closed(again) && Ranked(again, rank) && Known(again, w)
             && TreeOf(again, rank, w) == Sanitized(g, sensitive, v, path)
    ensures Clean(sensitive, Sanitized(g, sensitive, v, path))
    ensures Sanitized(again, sensitive, w, {}) == Sanitized(g, sensitive, v, path)
  {
    SanitizedIsRedactedUnrolling(g, sensitive, v, path);
    RedactIsClean(sensitive, Unrolled(g, v, path));
    CleanIsFixed(sensitive, Sanitized(g, sensitive, v, path));
    AcyclicIsTreeRedaction(again, rank, sensitive, w);
  }
}

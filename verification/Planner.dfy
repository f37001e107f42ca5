/** Grouping target nodes into ordered batches. */
module Planner {
  import opened Api

  // ----- strings, ordered as the sort of the source orders them -----

  predicate StrLe(a: string, b: string) {
    a == [] || (b != [] && (a[0] < b[0] || (a[0] == b[0] && StrLe(a[1..], b[1..]))))
  }

  predicate StrLt(a: string, b: string) {
    StrLe(a, b) && a != b
  }

  lemma {:induction false} StrLeTotal(a: string, b: string)
    ensures StrLe(a, b) || StrLe(b, a)
  {
    if a != [] && b != [] && a[0] == b[0] {
      StrLeTotal(a[1..], b[1..]);
    }
  }

  lemma {:induction false} StrLeReflexive(a: string)
    ensures StrLe(a, a)
  {
    if a != [] {
      StrLeReflexive(a[1..]);
    }
  }

  lemma {:induction false} StrLeAntisymmetric(a: string, b: string)
    requires StrLe(a, b) && StrLe(b, a)
    ensures a == b
  {
    if a != [] {
      StrLeAntisymmetric(a[1..], b[1..]);
      assert a == [a[0]] + a[1..] && b == [b[0]] + b[1..];
    }
  }

  lemma {:induction false} StrLeTransitive(a: string, b: string, c: string)
    requires StrLe(a, b) && StrLe(b, c)
    ensures StrLe(a, c)
  {
    if a != [] && a[0] == b[0] && b[0] == c[0] {
      StrLeTransitive(a[1..], b[1..], c[1..]);
    }
  }

  /** a comes before b in the dictionary: they differ first at k, where a has ended or has the smaller character. */
  ghost predicate DiffersAt(a: string, b: string, k: nat) {
    k <= |a| && k < |b| && a[..k] == b[..k] && (k == |a| || a[k] < b[k])
  }

  lemma {:induction false} StrLtMeans(a: string, b: string)
    ensures StrLt(a, b) <==> exists k: nat :: DiffersAt(a, b, k)
  {
    if a == [] {
      assert b != [] ==> DiffersAt(a, b, 0);
    } else if b != [] && a[0] == b[0] {
      assert a == [a[0]] + a[1..] && b == [b[0]] + b[1..];
      StrLtMeans(a[1..], b[1..]);
      if k: nat :| DiffersAt(a[1..], b[1..], k) {
        DiffersLater(a, b, k + 1);
      }
      if k: nat :| DiffersAt(a, b, k) {
        assert k > 0;
        DiffersLater(a, b, k);
      }
    } else if b != [] {
      DiffersFirst(a, b);
      assert a[0] < b[0] ==> DiffersAt(a, b, 0);
    }
  }

  lemma DiffersFirst(a: string, b: string)
    requires a != [] && b != []
    ensures forall k: nat | DiffersAt(a, b, k) :: k == 0 || a[0] == b[0]
  {
    forall k: nat | DiffersAt(a, b, k) && k > 0 ensures a[0] == b[0] {
      assert a[..k][0] == b[..k][0];
    }
  }

  lemma DiffersLater(a: string, b: string, k: nat)
    requires a != [] && b != [] && a[0] == b[0] && k > 0
    ensures DiffersAt(a, b, k) <==> DiffersAt(a[1..], b[1..], k - 1)
  {
    if k <= |a| && k <= |b| {
      assert a[..k] == [a[0]] + a[1..][..k - 1] && b[..k] == [b[0]] + b[1..][..k - 1];
      assert a[1..][..k - 1] == a[..k][1..] && b[1..][..k - 1] == b[..k][1..];
    }
  }

  ghost predicate IsSorted(s: seq<string>) {
    forall i, j | 0 <= i < j < |s| :: StrLe(s[i], s[j])
  }

  ghost predicate StrictlySorted(s: seq<string>) {
    forall i, j | 0 <= i < j < |s| :: StrLt(s[i], s[j])
  }

  function Insert(x: string, s: seq<string>): (r: seq<string>)
    ensures multiset(r) == multiset{x} + multiset(s)
  {
    if s == [] then [x]
    else if StrLe(x, s[0]) then [x] + s
    else
      assert s == [s[0]] + s[1..];
      [s[0]] + Insert(x, s[1..])
  }

  /** Sorting, as the standard library does it. */
  function SortStrings(s: seq<string>): (r: seq<string>)
    ensures multiset(r) == multiset(s) && |r| == |s|
  {
    if s == [] then []
    else
      assert s == [s[0]] + s[1..];
      var r := Insert(s[0], SortStrings(s[1..]));
      assert |multiset(r)| == |multiset(s)|;
      r
  }

  lemma {:induction false} InsertSorted(x: string, s: seq<string>)
    requires IsSorted(s)
    ensures IsSorted(Insert(x, s))
  {
    if s == [] {
    } else if StrLe(x, s[0]) {
      forall j | 0 <= j < |s| ensures StrLe(x, s[j]) {
        if j > 0 { StrLeTransitive(x, s[0], s[j]); }
      }
    } else {
      StrLeTotal(x, s[0]);
      var t := Insert(x, s[1..]);
      InsertSorted(x, s[1..]);
      forall j | 0 <= j < |t| ensures StrLe(s[0], t[j]) {
        assert t[j] in multiset(t);
        if t[j] != x {
          assert t[j] in multiset(s[1..]);
          assert t[j] in s[1..];
        }
      }
    }
  }

  lemma {:induction false} SortSorted(s: seq<string>)
    ensures IsSorted(SortStrings(s))
  {
    if s != [] {
      SortSorted(s[1..]);
      InsertSorted(s[0], SortStrings(s[1..]));
    }
  }

  lemma SortedHead(a: seq<string>, b: seq<string>)
    requires IsSorted(a) && IsSorted(b) && multiset(a) == multiset(b) && a != []
    ensures b != [] && a[0] == b[0]
  {
    assert a[0] in multiset(b);
    assert a[0] in b;
    var j :| 0 <= j < |b| && b[j] == a[0];
    assert b[0] in multiset(a);
    var i :| 0 <= i < |a| && a[i] == b[0];
    StrLeReflexive(a[0]);
    StrLeReflexive(b[0]);
    StrLeAntisymmetric(a[0], b[0]);
  }

  /** A sorted sequence is determined by its elements. */
  lemma {:induction false} SortedUnique(a: seq<string>, b: seq<string>)
    requires IsSorted(a) && IsSorted(b) && multiset(a) == multiset(b)
    ensures a == b
  {
    if a == [] {
      assert |multiset(b)| == 0;
    } else {
      SortedHead(a, b);
      assert a == [a[0]] + a[1..] && b == [b[0]] + b[1..];
      assert multiset(a[1..]) == multiset(a) - multiset{a[0]};
      assert multiset(b[1..]) == multiset(b) - multiset{b[0]};
      SortedUnique(a[1..], b[1..]);
    }
  }

  // ----- batches -----

  function Names(nodes: seq<TargetNode>): (r: seq<string>)
    ensures |r| == |nodes|
    ensures forall i | 0 <= i < |nodes| :: r[i] == nodes[i].name
  {
    seq(|nodes|, i requires 0 <= i < |nodes| => nodes[i].name)
  }

  function Flatten(batches: seq<Batch>): seq<string> {
    if batches == [] then [] else Flatten(batches[..|batches| - 1]) + batches[|batches| - 1].nodes
  }

  function Min(a: int, b: int): int {
    if a < b then a else b
  }

  /** The first k chunks of at most size names. */
  function Chunks(names: seq<string>, size: nat, k: nat): seq<Batch>
    requires size > 0
    requires k > 0 ==> (k - 1) * size < |names|
  {
    if k == 0 then []
    else
      ChunkStart(k, size);
      Chunks(names, size, k - 1)
      + [Batch(k - 1, "", names[(k - 1) * size..Min(k * size, |names|)])]
  }

  lemma ChunkStart(k: nat, size: nat)
    requires k > 0 && size > 0
    ensures (k - 1) * size >= 0 && k * size == (k - 1) * size + size
    ensures k > 1 ==> (k - 2) * size < (k - 1) * size
  {
  }

  lemma {:induction false} ChunksFlatten(names: seq<string>, size: nat, k: nat)
    requires size > 0
    requires k > 0 ==> (k - 1) * size < |names|
    ensures k * size >= 0
    ensures Flatten(Chunks(names, size, k)) == names[..Min(k * size, |names|)]
  {
    if k > 0 {
      ChunkStart(k, size);
      ChunksFlatten(names, size, k - 1);
      var c := Chunks(names, size, k);
      assert c[..|c| - 1] == Chunks(names, size, k - 1);
      assert Flatten(c) == names[..(k - 1) * size] + names[(k - 1) * size..Min(k * size, |names|)];
    }
  }

  lemma {:induction false} ChunkAt(names: seq<string>, size: nat, k: nat)
    requires size > 0
    requires k > 0 ==> (k - 1) * size < |names|
    ensures |Chunks(names, size, k)| == k
    ensures forall i | 0 <= i < k ::
              var b := Chunks(names, size, k)[i];
              b.index == i && 1 <= |b.nodes| <= size && ((i + 1) * size <= |names| ==> |b.nodes| == size)
  {
    if k > 0 {
      ChunkStart(k, size);
      ChunkAt(names, size, k - 1);
    }
  }

  /** How many chunks of the given size cover n names. */
  function ChunkCount(n: nat, size: nat): nat
    requires size > 0
  {
    (n + size - 1) / size
  }

  lemma ChunkCountCovers(n: nat, size: nat)
    requires size > 0
    ensures ChunkCount(n, size) > 0 ==> (ChunkCount(n, size) - 1) * size < n
    ensures ChunkCount(n, size) * size >= n
    ensures n > 0 ==> ChunkCount(n, size) > 0
  {
    var k := ChunkCount(n, size);
    assert k * size <= n + size - 1 < k * size + size;
    if k > 0 {
      ChunkStart(k, size);
    }
  }

  function ChunkAll(names: seq<string>, size: nat): seq<Batch>
    requires size > 0
  {
    ChunkCountCovers(|names|, size);
    Chunks(names, size, ChunkCount(|names|, size))
  }

  method Chunk(names: seq<string>, size: nat) returns (batches: seq<Batch>)
    requires size > 0
    ensures batches == ChunkAll(names, size)
  {
    batches := [];
    if |names| == 0 {
      ChunkCountCovers(0, size);
      assert ChunkCount(0, size) == 0 by {
        assert (size - 1) / size == 0;
      }
      return;
    }
    var idx := 0;
    var i := 0;
    while i < |names|
      invariant i == idx * size
      invariant idx > 0 ==> (idx - 1) * size < |names|
      invariant batches == Chunks(names, size, idx)
    {
      var end := if i + size > |names| then |names| else i + size;
      ChunkStart(idx + 1, size);
      batches := batches + [Batch(idx, "", names[i..end])];
      idx := idx + 1;
      i := i + size;
    }
    ChunkCountCovers(|names|, size);
    ChunkCountUnique(|names|, size, idx);
  }

  lemma MulMonotone(a: nat, b: nat, size: nat)
    requires a <= b
    ensures a * size <= b * size
  {
  }

  lemma ChunkCountUnique(n: nat, size: nat, k: nat)
    requires size > 0 && n > 0 && k > 0
    requires (k - 1) * size < n <= k * size
    ensures k == ChunkCount(n, size)
  {
    var c := ChunkCount(n, size);
    ChunkCountCovers(n, size);
    if c < k {
      MulMonotone(c, k - 1, size);
    } else if k < c {
      MulMonotone(k, c - 1, size);
    }
  }

  // ----- grouping by zone or pool -----

  datatype Grouping = ByZone | ByPool

  function KeyOf(g: Grouping, n: TargetNode): string {
    match g
    case ByZone => if n.zone != "" then n.zone else "unzoned"
    case ByPool => if n.pool.Some? then n.pool.value else "unpooled"
  }

  /** The names of the nodes with the given key, in input order. */
  function Members(g: Grouping, nodes: seq<TargetNode>, key: string): seq<string> {
    if nodes == [] then []
    else
      var last := nodes[|nodes| - 1];
      Members(g, nodes[..|nodes| - 1], key) + (if KeyOf(g, last) == key then [last.name] else [])
  }

  /** The keys in order of first appearance. */
  function KeyOrder(g: Grouping, nodes: seq<TargetNode>): seq<string> {
    if nodes == [] then []
    else
      var keys := KeyOrder(g, nodes[..|nodes| - 1]);
      var k := KeyOf(g, nodes[|nodes| - 1]);
      if k in keys then keys else keys + [k]
  }

  /** One batch per key, with the sorted names of its members. */
  function Groups(g: Grouping, nodes: seq<TargetNode>, keys: seq<string>): (r: seq<Batch>)
    ensures |r| == |keys|
    ensures forall i | 0 <= i < |keys| :: r[i].index == i && r[i].group == keys[i]
    ensures forall i | 0 <= i < |keys| :: r[i].nodes == SortStrings(Members(g, nodes, keys[i]))
  {
    seq(|keys|, i requires 0 <= i < |keys| => Batch(i, keys[i], SortStrings(Members(g, nodes, keys[i]))))
  }

  function GroupAll(g: Grouping, nodes: seq<TargetNode>): seq<Batch> {
    Groups(g, nodes, SortStrings(KeyOrder(g, nodes)))
  }

  /** The groups of the nodes seen so far, and the order in which their keys have come up. */
  ghost predicate Grouped(g: Grouping, seen: seq<TargetNode>, groups: map<string, seq<string>>, order: seq<string>) {
    && order == KeyOrder(g, seen)
    && (forall key :: key in groups <==> key in order)
    && (forall key | key in groups :: groups[key] == Members(g, seen, key))
    && (forall key | key !in groups :: Members(g, seen, key) == [])
  }

  lemma GroupedMore(g: Grouping, seen: seq<TargetNode>, n: TargetNode, was: map<string, seq<string>>, before: seq<string>,
                    groups: map<string, seq<string>>)
    requires Grouped(g, seen, was, before)
    requires var k := KeyOf(g, n); groups == was[k := (if k in was then was[k] else []) + [n.name]]
    ensures Grouped(g, seen + [n], groups, if KeyOf(g, n) in was then before else before + [KeyOf(g, n)])
  {
    forall key ensures Members(g, seen + [n], key) == Members(g, seen, key) + (if KeyOf(g, n) == key then [n.name] else []) {
      MembersMore(g, seen, n, key);
    }
    KeyOrderMore(g, seen, n);
  }

  lemma {:induction false} MembersMore(g: Grouping, seen: seq<TargetNode>, n: TargetNode, key: string)
    ensures Members(g, seen + [n], key) == Members(g, seen, key) + (if KeyOf(g, n) == key then [n.name] else [])
  {
    assert (seen + [n])[..|seen|] == seen;
  }

  lemma {:induction false} KeyOrderMore(g: Grouping, seen: seq<TargetNode>, n: TargetNode)
    ensures KeyOrder(g, seen + [n]) == KeyOrder(g, seen) + (if KeyOf(g, n) in KeyOrder(g, seen) then [] else [KeyOf(g, n)])
  {
    assert (seen + [n])[..|seen|] == seen;
  }

  lemma OneMore(nodes: seq<TargetNode>, i: nat)
    requires i < |nodes|
    ensures nodes[..i + 1] == nodes[..i] + [nodes[i]]
  {
  }

  /** Collects the members of each key, and the keys in order of first appearance. */
  method Collect(g: Grouping, nodes: seq<TargetNode>) returns (groups: map<string, seq<string>>, order: seq<string>)
    ensures order == KeyOrder(g, nodes)
    ensures forall key | key in order :: key in groups && groups[key] == Members(g, nodes, key)
  {
    groups := map[];
    order := [];
    for i := 0 to |nodes|
      invariant Grouped(g, nodes[..i], groups, order)
    {
      var k := KeyOf(g, nodes[i]);
      ghost var was, before := groups, order;
      if k !in groups {
        order := order + [k];
        groups := groups[k := []];
      }
      groups := groups[k := groups[k] + [nodes[i].name]];
      GroupedMore(g, nodes[..i], nodes[i], was, before, groups);
      OneMore(nodes, i);
    }
    WholeIs(nodes);
  }

  lemma WholeIs(nodes: seq<TargetNode>)
    ensures nodes[..|nodes|] == nodes
  {
  }

  lemma {:induction false} SortKeeps(s: seq<string>, i: nat)
    requires i < |SortStrings(s)|
    ensures SortStrings(s)[i] in s
  {
    assert SortStrings(s)[i] in multiset(SortStrings(s));
  }

  method GroupBatches(g: Grouping, ghost nodes: seq<TargetNode>, keys: seq<string>, groups: map<string, seq<string>>)
    returns (batches: seq<Batch>)
    requires forall i | 0 <= i < |keys| :: keys[i] in groups && groups[keys[i]] == Members(g, nodes, keys[i])
    ensures batches == Groups(g, nodes, keys)
  {
    ghost var all := Groups(g, nodes, keys);
    batches := [];
    for idx := 0 to |keys|
      invariant |batches| == idx
      invariant forall i | 0 <= i < idx :: batches[i] == all[i]
    {
      var ns := groups[keys[idx]];
      batches := batches + [Batch(idx, keys[idx], SortStrings(ns))];
    }
  }

  method Group(g: Grouping, nodes: seq<TargetNode>) returns (batches: seq<Batch>)
    ensures batches == GroupAll(g, nodes)
  {
    var groups, order := Collect(g, nodes);
    var keys := SortStrings(order);
    forall i | 0 <= i < |keys| ensures keys[i] in order {
      SortKeeps(order, i);
    }
    batches := GroupBatches(g, nodes, keys, groups);
  }

  lemma {:induction false} GroupAllIs(g: Grouping, nodes: seq<TargetNode>, batches: seq<Batch>)
    requires var keys := SortStrings(KeyOrder(g, nodes));
             && |batches| == |keys|
             && forall i | 0 <= i < |keys| :: batches[i] == Batch(i, keys[i], SortStrings(Members(g, nodes, keys[i])))
    ensures batches == GroupAll(g, nodes)
  {
  }

  method SortedNames(nodes: seq<TargetNode>) returns (names: seq<string>)
    ensures names == SortStrings(Names(nodes))
    ensures IsSorted(names) && multiset(names) == multiset(Names(nodes))
  {
    names := [];
    for i := 0 to |nodes|
      invariant names == Names(nodes)[..i]
    {
      names := names + [nodes[i].name];
    }
    assert names == Names(nodes);
    SortSorted(names);
    names := SortStrings(names);
  }

  function BatchSizeOf(batchSize: int, concurrency: int): (r: nat)
    ensures r >= 1
  {
    if batchSize >= 1 then batchSize else if concurrency >= 1 then concurrency else 1
  }

  function Batches(strategy: Strategy, nodes: seq<TargetNode>, batchSize: int, concurrency: int): seq<Batch> {
    match strategy
    case StrategyBatched => ChunkAll(SortStrings(Names(nodes)), BatchSizeOf(batchSize, concurrency))
    case StrategyByZone => GroupAll(ByZone, nodes)
    case StrategyByPool => GroupAll(ByPool, nodes)
    case _ => ChunkAll(SortStrings(Names(nodes)), 1)
  }

  method BuildBatches(strategy: Strategy, nodes: seq<TargetNode>, batchSize: int, concurrency: int)
    returns (batches: seq<Batch>)
    ensures batches == Batches(strategy, nodes, batchSize, concurrency)
  {
    match strategy
    case StrategyBatched =>
      var size := batchSize;
      if size < 1 {
        size := concurrency;
      }
      if size < 1 {
        size := 1;
      }
      var names := SortedNames(nodes);
      batches := Chunk(names, size);
    case StrategyByZone =>
      batches := Group(ByZone, nodes);
    case StrategyByPool =>
      batches := Group(ByPool, nodes);
    case _ =>
      var names := SortedNames(nodes);
      batches := Chunk(names, 1);
  }

  function BuildPlan(strategy: Strategy, nodes: seq<TargetNode>, batchSize: int, concurrency: int): Plan {
    var effective := if strategy.StrategyUnset? then StrategySerial else strategy;
    Plan(effective, Batches(effective, nodes, batchSize, concurrency), |nodes|, concurrency)
  }

  // ----- what the batches are -----

  lemma {:induction false} MemberOf(g: Grouping, nodes: seq<TargetNode>, i: nat)
    requires i < |nodes|
    ensures nodes[i].name in Members(g, nodes, KeyOf(g, nodes[i]))
  {
    var n := |nodes| - 1;
    if i < n {
      MemberOf(g, nodes[..n], i);
    }
  }

  /** The keys appear once each, and are exactly the keys of the nodes. */
  lemma {:induction false} KeyOrderFacts(g: Grouping, nodes: seq<TargetNode>)
    ensures var keys := KeyOrder(g, nodes);
            && (forall i, j | 0 <= i < j < |keys| :: keys[i] != keys[j])
            && (forall i | 0 <= i < |nodes| :: KeyOf(g, nodes[i]) in keys)
            && (forall k | k in keys :: exists i :: 0 <= i < |nodes| && KeyOf(g, nodes[i]) == k)
  {
    if nodes != [] {
      var n := |nodes| - 1;
      KeyOrderFacts(g, nodes[..n]);
      var keys := KeyOrder(g, nodes);
      forall i | 0 <= i < |nodes| ensures KeyOf(g, nodes[i]) in keys {
        if i < n {
          assert nodes[..n][i] == nodes[i];
        }
      }
    }
    KeysArise(g, nodes);
  }

  lemma {:induction false} KeysArise(g: Grouping, nodes: seq<TargetNode>)
    ensures forall k | k in KeyOrder(g, nodes) :: exists i :: 0 <= i < |nodes| && KeyOf(g, nodes[i]) == k
  {
    if nodes != [] {
      var n := |nodes| - 1;
      KeysArise(g, nodes[..n]);
      forall k | k in KeyOrder(g, nodes) ensures exists i :: 0 <= i < |nodes| && KeyOf(g, nodes[i]) == k {
        if k in KeyOrder(g, nodes[..n]) {
          var i :| 0 <= i < |nodes[..n]| && KeyOf(g, nodes[..n][i]) == k;
          assert nodes[i] == nodes[..n][i];
        } else {
          assert KeyOf(g, nodes[n]) == k;
        }
      }
    }
  }

  /** Sorting distinct strings gives strictly increasing ones. */
  lemma {:induction false} SortedDistinct(s: seq<string>)
    requires forall i, j | 0 <= i < j < |s| :: s[i] != s[j]
    ensures StrictlySorted(SortStrings(s))
    ensures forall x :: x in s <==> x in SortStrings(s)
  {
    var r := SortStrings(s);
    SortSorted(s);
    forall x ensures x in s <==> x in r {
      assert x in s <==> x in multiset(s);
      assert x in r <==> x in multiset(r);
    }
    forall i, j | 0 <= i < j < |r| ensures r[i] != r[j] {
      if r[i] == r[j] {
        CountTwice(r, i, j);
        DistinctCount(s, r[i]);
        assert false;
      }
    }
  }

  lemma CountTwice(s: seq<string>, i: int, j: int)
    requires 0 <= i < j < |s| && s[i] == s[j]
    ensures multiset(s)[s[i]] >= 2
  {
    assert s == s[..j] + [s[j]] + s[j + 1..];
    assert s[i] in s[..j];
    assert multiset(s[..j])[s[i]] >= 1;
    assert multiset(s) == multiset(s[..j]) + multiset{s[j]} + multiset(s[j + 1..]);
  }

  lemma {:induction false} DistinctCount(s: seq<string>, x: string)
    requires forall i, j | 0 <= i < j < |s| :: s[i] != s[j]
    ensures multiset(s)[x] <= 1
  {
    if s != [] {
      assert s == [s[0]] + s[1..];
      assert multiset(s) == multiset{s[0]} + multiset(s[1..]);
      DistinctCount(s[1..], x);
      if x == s[0] {
        assert x !in s[1..];
        assert multiset(s[1..])[x] == 0;
      }
    }
  }

  /** The names of the nodes whose key is in the set. */
  function MembersIn(g: Grouping, nodes: seq<TargetNode>, keys: set<string>): seq<string> {
    if nodes == [] then []
    else
      var last := nodes[|nodes| - 1];
      MembersIn(g, nodes[..|nodes| - 1], keys) + (if KeyOf(g, last) in keys then [last.name] else [])
  }

  lemma {:induction false} MembersInAdd(g: Grouping, nodes: seq<TargetNode>, keys: set<string>, key: string)
    requires key !in keys
    ensures multiset(MembersIn(g, nodes, keys + {key})) == multiset(MembersIn(g, nodes, keys)) + multiset(Members(g, nodes, key))
  {
    if nodes != [] {
      var init, last := nodes[..|nodes| - 1], nodes[|nodes| - 1];
      MembersInAdd(g, init, keys, key);
      MembersInLast(g, nodes, keys);
      MembersInLast(g, nodes, keys + {key});
      assert Members(g, nodes, key) == Members(g, init, key) + (if KeyOf(g, last) == key then [last.name] else []);
    }
  }

  lemma {:induction false} MembersInLast(g: Grouping, nodes: seq<TargetNode>, keys: set<string>)
    requires nodes != []
    ensures var n := |nodes| - 1;
            MembersIn(g, nodes, keys) == MembersIn(g, nodes[..n], keys) + (if KeyOf(g, nodes[n]) in keys then [nodes[n].name] else [])
  {
  }

  lemma {:induction false} MembersInAll(g: Grouping, nodes: seq<TargetNode>, keys: set<string>)
    requires forall i | 0 <= i < |nodes| :: KeyOf(g, nodes[i]) in keys
    ensures MembersIn(g, nodes, keys) == Names(nodes)
  {
    if nodes != [] {
      var n := |nodes| - 1;
      MembersInAll(g, nodes[..n], keys);
      assert Names(nodes) == Names(nodes[..n]) + [nodes[n].name];
    }
  }

  lemma {:induction false} MembersInNone(g: Grouping, nodes: seq<TargetNode>)
    ensures MembersIn(g, nodes, {}) == []
  {
    if nodes != [] {
      MembersInNone(g, nodes[..|nodes| - 1]);
    }
  }

  lemma FlattenStep(bs: seq<Batch>, k: nat)
    requires k < |bs|
    ensures multiset(Flatten(bs[..k + 1])) == multiset(Flatten(bs[..k])) + multiset(bs[k].nodes)
  {
    assert bs[..k + 1][..k] == bs[..k];
  }

  function KeySet(keys: seq<string>): set<string> {
    set k | k in keys
  }

  lemma KeySetLast(keys: seq<string>, k: nat)
    requires k < |keys| && forall i, j | 0 <= i < j < |keys| :: keys[i] != keys[j]
    ensures KeySet(keys[..k + 1]) == KeySet(keys[..k]) + {keys[k]} && keys[k] !in KeySet(keys[..k])
  {
    assert keys[..k + 1] == keys[..k] + [keys[k]];
  }

  /** Batches that hold the members of distinct keys hold together the nodes with one of these keys. */
  lemma {:induction false} GroupsFlatten(g: Grouping, nodes: seq<TargetNode>, keys: seq<string>, bs: seq<Batch>, k: nat)
    requires k <= |keys| == |bs|
    requires forall i, j | 0 <= i < j < |keys| :: keys[i] != keys[j]
    requires forall i | 0 <= i < |keys| :: multiset(bs[i].nodes) == multiset(Members(g, nodes, keys[i]))
    ensures multiset(Flatten(bs[..k])) == multiset(MembersIn(g, nodes, KeySet(keys[..k])))
  {
    if k == 0 {
      MembersInNone(g, nodes);
      assert KeySet(keys[..k]) == {};
    } else {
      GroupsFlatten(g, nodes, keys, bs, k - 1);
      KeySetLast(keys, k - 1);
      GroupAdded(g, nodes, KeySet(keys[..k - 1]), keys[k - 1], bs, k - 1);
    }
  }

  lemma {:induction false} GroupAdded(g: Grouping, nodes: seq<TargetNode>, before: set<string>, key: string, bs: seq<Batch>, k: nat)
    requires k < |bs| && key !in before && multiset(bs[k].nodes) == multiset(Members(g, nodes, key))
    requires multiset(Flatten(bs[..k])) == multiset(MembersIn(g, nodes, before))
    ensures multiset(Flatten(bs[..k + 1])) == multiset(MembersIn(g, nodes, before + {key}))
  {
    MembersInAdd(g, nodes, before, key);
    FlattenStep(bs, k);
  }

  /** Whatever the strategy, the batches are numbered from 0, none is empty, each is sorted, and together
    * they hold each target node exactly as often as the target does. */
  lemma BatchesPartition(strategy: Strategy, nodes: seq<TargetNode>, batchSize: int, concurrency: int)
    ensures var bs := Batches(strategy, nodes, batchSize, concurrency);
            && multiset(Flatten(bs)) == multiset(Names(nodes))
            && (forall i | 0 <= i < |bs| :: bs[i].index == i && bs[i].nodes != [] && IsSorted(bs[i].nodes))
            && (strategy !in {StrategyByZone, StrategyByPool} ==> IsSorted(Flatten(bs)))
  {
    var bs := Batches(strategy, nodes, batchSize, concurrency);
    if strategy.StrategyByZone? || strategy.StrategyByPool? {
      var g := if strategy.StrategyByZone? then ByZone else ByPool;
      GroupMultiset(g, nodes);
      forall i | 0 <= i < |bs| ensures bs[i].index == i && bs[i].nodes != [] && IsSorted(bs[i].nodes) {
        GroupBatch(g, nodes, i);
      }
    } else {
      var names := SortStrings(Names(nodes));
      var size := if strategy.StrategyBatched? then BatchSizeOf(batchSize, concurrency) else 1;
      ChunkPartition(names, size);
      SortSorted(Names(nodes));
      assert Flatten(bs) == names;
      forall i | 0 <= i < |bs| ensures IsSorted(bs[i].nodes) {
        assert bs[i].nodes == ChunkAll(names, size)[i].nodes;
      }
    }
  }

  lemma ChunkPartition(names: seq<string>, size: nat)
    requires size > 0
    ensures Flatten(ChunkAll(names, size)) == names
    ensures var bs := ChunkAll(names, size);
            && (forall i | 0 <= i < |bs| :: bs[i].index == i && bs[i].nodes != [] && (IsSorted(names) ==> IsSorted(bs[i].nodes)))
  {
    ChunkCountCovers(|names|, size);
    var k := ChunkCount(|names|, size);
    ChunksFlatten(names, size, k);
    ChunkAt(names, size, k);
    if IsSorted(names) {
      ChunkSlices(names, size, k);
    }
  }

  lemma SliceSorted(s: seq<string>, lo: nat, hi: nat)
    requires lo <= hi <= |s| && IsSorted(s)
    ensures IsSorted(s[lo..hi])
  {
  }

  lemma {:induction false} ChunkSlices(names: seq<string>, size: nat, k: nat)
    requires size > 0 && IsSorted(names)
    requires k > 0 ==> (k - 1) * size < |names|
    ensures |Chunks(names, size, k)| == k
    ensures forall i | 0 <= i < k :: IsSorted(Chunks(names, size, k)[i].nodes)
  {
    if k > 0 {
      ChunkStart(k, size);
      ChunkSlices(names, size, k - 1);
      SliceSorted(names, (k - 1) * size, Min(k * size, |names|));
      var c := Chunks(names, size, k);
      assert c[..k - 1] == Chunks(names, size, k - 1);
      assert IsSorted(c[k - 1].nodes);
      forall i | 0 <= i < k - 1 ensures IsSorted(c[i].nodes) {
        assert c[i] == c[..k - 1][i];
      }
    }
  }

  /** The sorted keys are strictly increasing and are exactly the keys of the nodes. */
  lemma GroupKeys(g: Grouping, nodes: seq<TargetNode>) returns (keys: seq<string>)
    ensures keys == SortStrings(KeyOrder(g, nodes)) && |GroupAll(g, nodes)| == |keys|
    ensures StrictlySorted(keys)
    ensures forall i | 0 <= i < |nodes| :: KeyOf(g, nodes[i]) in keys
    ensures forall k | k in keys :: exists i :: 0 <= i < |nodes| && KeyOf(g, nodes[i]) == k
  {
    KeyOrderFacts(g, nodes);
    SortedDistinct(KeyOrder(g, nodes));
    keys := SortStrings(KeyOrder(g, nodes));
  }

  lemma GroupMultiset(g: Grouping, nodes: seq<TargetNode>)
    ensures multiset(Flatten(GroupAll(g, nodes))) == multiset(Names(nodes))
  {
    var keys := GroupKeys(g, nodes);
    AllGroupsFlatten(g, nodes, keys, GroupAll(g, nodes));
    MembersInAll(g, nodes, KeySet(keys));
  }

  lemma {:induction false} AllGroupsFlatten(g: Grouping, nodes: seq<TargetNode>, keys: seq<string>, bs: seq<Batch>)
    requires StrictlySorted(keys) && bs == Groups(g, nodes, keys)
    ensures multiset(Flatten(bs)) == multiset(MembersIn(g, nodes, KeySet(keys)))
  {
    GroupsFlatten(g, nodes, keys, bs, |keys|);
    assert bs[..|keys|] == bs && keys[..|keys|] == keys;
  }

  lemma {:induction false} GroupBatch(g: Grouping, nodes: seq<TargetNode>, i: nat)
    requires i < |GroupAll(g, nodes)|
    ensures var b := GroupAll(g, nodes)[i];
            b.index == i && b.nodes != [] && IsSorted(b.nodes) && b.group == SortStrings(KeyOrder(g, nodes))[i]
  {
    var keys := GroupKeys(g, nodes);
    assert keys[i] in keys;
    var m :| 0 <= m < |nodes| && KeyOf(g, nodes[m]) == keys[i];
    MemberOf(g, nodes, m);
    SortSorted(Members(g, nodes, keys[i]));
  }

  lemma GroupOrdered(g: Grouping, nodes: seq<TargetNode>, i: nat, j: nat)
    requires i < j < |GroupAll(g, nodes)|
    ensures StrLt(GroupAll(g, nodes)[i].group, GroupAll(g, nodes)[j].group)
  {
    var keys := GroupKeys(g, nodes);
    GroupBatch(g, nodes, i);
    GroupBatch(g, nodes, j);
  }

  /** Chunks have the exact batch size but for the last; groups have strictly increasing keys. */
  lemma BatchShapes(strategy: Strategy, nodes: seq<TargetNode>, batchSize: int, concurrency: int)
    ensures var bs := Batches(strategy, nodes, batchSize, concurrency);
            match strategy
            case StrategyByZone => forall i, j | 0 <= i < j < |bs| :: StrLt(bs[i].group, bs[j].group)
            case StrategyByPool => forall i, j | 0 <= i < j < |bs| :: StrLt(bs[i].group, bs[j].group)
            case StrategyBatched =>
              var size := if batchSize > 0 then batchSize else if concurrency > 0 then concurrency else 1;
              forall i | 0 <= i < |bs| :: if i < |bs| - 1 then |bs[i].nodes| == size else 1 <= |bs[i].nodes| <= size
            case _ => forall i | 0 <= i < |bs| :: |bs[i].nodes| == 1
  {
    var bs := Batches(strategy, nodes, batchSize, concurrency);
    if strategy.StrategyByZone? || strategy.StrategyByPool? {
      var g := if strategy.StrategyByZone? then ByZone else ByPool;
      forall i, j | 0 <= i < j < |bs| ensures StrLt(bs[i].group, bs[j].group) {
        GroupOrdered(g, nodes, i, j);
      }
    } else {
      var size := if strategy.StrategyBatched? then BatchSizeOf(batchSize, concurrency) else 1;
      ChunkSizes(SortStrings(Names(nodes)), size);
    }
  }

  // ----- what a group is -----

  /** The zone a node is grouped by; nodes without one make up a group of their own, with those that name it. */
  ghost predicate InZone(n: TargetNode, zone: string) {
    if n.zone == "" then zone == "unzoned" else zone == n.zone
  }

  ghost predicate InPool(n: TargetNode, pool: string) {
    if n.pool.None? then pool == "unpooled" else n.pool.value == pool
  }

  ghost predicate InGroup(g: Grouping, n: TargetNode, group: string) {
    match g
    case ByZone => InZone(n, group)
    case ByPool => InPool(n, group)
  }

  /** The positions of the nodes with the name that belong to the group. */
  ghost function Named(g: Grouping, nodes: seq<TargetNode>, group: string, name: string): set<nat> {
    set i: nat | i < |nodes| && nodes[i].name == name && InGroup(g, nodes[i], group)
  }

  lemma KeyIsGroup(g: Grouping, n: TargetNode, group: string)
    ensures KeyOf(g, n) == group <==> InGroup(g, n, group)
  {
  }

  lemma {:induction false} CountMembers(g: Grouping, nodes: seq<TargetNode>, group: string, name: string)
    ensures multiset(Members(g, nodes, group))[name] == |Named(g, nodes, group, name)|
  {
    if nodes == [] {
      assert Named(g, nodes, group, name) == {};
    } else {
      var n := |nodes| - 1;
      CountMembers(g, nodes[..n], group, name);
      KeyIsGroup(g, nodes[n], group);
      NamedLast(g, nodes, group, name);
    }
  }

  lemma NamedLast(g: Grouping, nodes: seq<TargetNode>, group: string, name: string)
    requires nodes != []
    ensures var n := |nodes| - 1;
            |Named(g, nodes, group, name)|
            == |Named(g, nodes[..n], group, name)| + (if nodes[n].name == name && InGroup(g, nodes[n], group) then 1 else 0)
  {
    var n := |nodes| - 1;
    var more := if nodes[n].name == name && InGroup(g, nodes[n], group) then {n} else {};
    NamedSplit(g, nodes, group, name, more);
    assert Named(g, nodes[..n], group, name) !! more;
  }

  lemma NamedSplit(g: Grouping, nodes: seq<TargetNode>, group: string, name: string, more: set<nat>)
    requires nodes != []
    requires var n := |nodes| - 1; more == if nodes[n].name == name && InGroup(g, nodes[n], group) then {n} else {}
    ensures Named(g, nodes, group, name) == Named(g, nodes[..|nodes| - 1], group, name) + more
  {
    var n := |nodes| - 1;
    forall i: nat ensures i in Named(g, nodes, group, name) <==> i in Named(g, nodes[..n], group, name) + more {
      if i < n {
        assert nodes[..n][i] == nodes[i];
      }
    }
  }

  /** Each group holds each name exactly as often as nodes with that name belong to it. */
  lemma GroupHolds(g: Grouping, nodes: seq<TargetNode>, bs: seq<Batch>, k: nat, name: string)
    requires bs == GroupAll(g, nodes) && k < |bs|
    ensures multiset(bs[k].nodes)[name] == |Named(g, nodes, bs[k].group, name)|
  {
    CountMembers(g, nodes, SortStrings(KeyOrder(g, nodes))[k], name);
  }

  /** The positions of the nodes with the name in the zone. */
  ghost function NamedInZone(nodes: seq<TargetNode>, zone: string, name: string): set<nat> {
    set i: nat | i < |nodes| && nodes[i].name == name && InZone(nodes[i], zone)
  }

  ghost function NamedInPool(nodes: seq<TargetNode>, pool: string, name: string): set<nat> {
    set i: nat | i < |nodes| && nodes[i].name == name && InPool(nodes[i], pool)
  }

  /** A batch by zone holds each name exactly as often as nodes with that name are in the zone the batch is named after. */
  lemma ZonesAre(nodes: seq<TargetNode>, batchSize: int, concurrency: int, bs: seq<Batch>, k: nat, name: string)
    requires bs == Batches(StrategyByZone, nodes, batchSize, concurrency) && k < |bs|
    ensures multiset(bs[k].nodes)[name] == |NamedInZone(nodes, bs[k].group, name)|
  {
    GroupHolds(ByZone, nodes, bs, k, name);
    NamedByZone(nodes, bs[k].group, name);
  }

  lemma NamedByZone(nodes: seq<TargetNode>, zone: string, name: string)
    ensures Named(ByZone, nodes, zone, name) == NamedInZone(nodes, zone, name)
  {
  }

  /** The same by pool. */
  lemma PoolsAre(nodes: seq<TargetNode>, batchSize: int, concurrency: int, bs: seq<Batch>, k: nat, name: string)
    requires bs == Batches(StrategyByPool, nodes, batchSize, concurrency) && k < |bs|
    ensures multiset(bs[k].nodes)[name] == |NamedInPool(nodes, bs[k].group, name)|
  {
    GroupHolds(ByPool, nodes, bs, k, name);
    NamedByPool(nodes, bs[k].group, name);
  }

  lemma NamedByPool(nodes: seq<TargetNode>, pool: string, name: string)
    ensures Named(ByPool, nodes, pool, name) == NamedInPool(nodes, pool, name)
  {
  }

  ghost predicate ShareBatch(bs: seq<Batch>, x: string, y: string) {
    exists k :: 0 <= k < |bs| && x in bs[k].nodes && y in bs[k].nodes
  }

  ghost predicate OnceEach(nodes: seq<TargetNode>) {
    forall x, y | 0 <= x < y < |nodes| :: nodes[x].name != nodes[y].name
  }

  lemma KeyTogether(g: Grouping, nodes: seq<TargetNode>, bs: seq<Batch>, i: nat, j: nat)
    requires bs == GroupAll(g, nodes) && i < |nodes| && j < |nodes| && OnceEach(nodes)
    ensures ShareBatch(bs, nodes[i].name, nodes[j].name) <==> KeyOf(g, nodes[i]) == KeyOf(g, nodes[j])
  {
    var keys := GroupKeys(g, nodes);
    if k :| 0 <= k < |bs| && nodes[i].name in bs[k].nodes && nodes[j].name in bs[k].nodes {
      InBatchIff(g, nodes, k, i);
      InBatchIff(g, nodes, k, j);
    }
    if KeyOf(g, nodes[i]) == KeyOf(g, nodes[j]) {
      assert KeyOf(g, nodes[i]) in keys;
      var k :| 0 <= k < |keys| && keys[k] == KeyOf(g, nodes[i]);
      InBatchIff(g, nodes, k, i);
      InBatchIff(g, nodes, k, j);
    }
  }

  lemma KeysAgree(g: Grouping, a: TargetNode, b: TargetNode)
    ensures KeyOf(g, a) == KeyOf(g, b) <==> exists key :: InGroup(g, a, key) && InGroup(g, b, key)
  {
    KeyIsGroup(g, a, KeyOf(g, a));
    KeyIsGroup(g, b, KeyOf(g, b));
    assert KeyOf(g, a) == KeyOf(g, b) ==> InGroup(g, a, KeyOf(g, a)) && InGroup(g, b, KeyOf(g, a));
    if key :| InGroup(g, a, key) && InGroup(g, b, key) {
      KeyIsGroup(g, a, key);
      KeyIsGroup(g, b, key);
    }
  }

  /** The two nodes belong to one zone. */
  ghost predicate SameZone(a: TargetNode, b: TargetNode) {
    exists zone :: InZone(a, zone) && InZone(b, zone)
  }

  ghost predicate SamePool(a: TargetNode, b: TargetNode) {
    exists pool :: InPool(a, pool) && InPool(b, pool)
  }

  lemma GroupsApart(a: TargetNode, b: TargetNode)
    ensures KeyOf(ByZone, a) == KeyOf(ByZone, b) <==> SameZone(a, b)
    ensures KeyOf(ByPool, a) == KeyOf(ByPool, b) <==> SamePool(a, b)
  {
    KeysAgree(ByZone, a, b);
    KeysAgree(ByPool, a, b);
    assert forall key :: InGroup(ByZone, a, key) <==> InZone(a, key);
    assert forall key :: InGroup(ByZone, b, key) <==> InZone(b, key);
    assert forall key :: InGroup(ByPool, a, key) <==> InPool(a, key);
    assert forall key :: InGroup(ByPool, b, key) <==> InPool(b, key);
  }

  /** Over distinct names, two nodes are in one batch by zone if and only if they are in the same zone. */
  lemma ZoneTogetherIff(nodes: seq<TargetNode>, batchSize: int, concurrency: int, bs: seq<Batch>, i: nat, j: nat)
    requires bs == Batches(StrategyByZone, nodes, batchSize, concurrency)
    requires i < |nodes| && j < |nodes| && OnceEach(nodes)
    ensures ShareBatch(bs, nodes[i].name, nodes[j].name) <==> SameZone(nodes[i], nodes[j])
  {
    KeyTogether(ByZone, nodes, bs, i, j);
    GroupsApart(nodes[i], nodes[j]);
  }

  /** And in one batch by pool if and only if they are in the same pool. */
  lemma PoolTogetherIff(nodes: seq<TargetNode>, batchSize: int, concurrency: int, bs: seq<Batch>, i: nat, j: nat)
    requires bs == Batches(StrategyByPool, nodes, batchSize, concurrency)
    requires i < |nodes| && j < |nodes| && OnceEach(nodes)
    ensures ShareBatch(bs, nodes[i].name, nodes[j].name) <==> SamePool(nodes[i], nodes[j])
  {
    KeyTogether(ByPool, nodes, bs, i, j);
    GroupsApart(nodes[i], nodes[j]);
  }

  lemma {:induction false} InBatchIff(g: Grouping, nodes: seq<TargetNode>, k: nat, x: nat)
    requires k < |GroupAll(g, nodes)| && x < |nodes| && OnceEach(nodes)
    ensures nodes[x].name in GroupAll(g, nodes)[k].nodes <==> KeyOf(g, nodes[x]) == SortStrings(KeyOrder(g, nodes))[k]
  {
    var key := SortStrings(KeyOrder(g, nodes))[k];
    var members := GroupAll(g, nodes)[k].nodes;
    InMembersIff(g, nodes, key, x);
    assert nodes[x].name in members <==> nodes[x].name in multiset(members);
  }

  lemma {:induction false} InMembersIff(g: Grouping, nodes: seq<TargetNode>, key: string, x: nat)
    requires x < |nodes| && OnceEach(nodes)
    ensures nodes[x].name in multiset(Members(g, nodes, key)) <==> KeyOf(g, nodes[x]) == key
  {
    CountMembers(g, nodes, key, nodes[x].name);
    KeyIsGroup(g, nodes[x], key);
    OnlyOneNamed(g, nodes, key, x);
  }

  lemma OnlyOneNamed(g: Grouping, nodes: seq<TargetNode>, group: string, x: nat)
    requires x < |nodes| && OnceEach(nodes)
    ensures Named(g, nodes, group, nodes[x].name) == if InGroup(g, nodes[x], group) then {x} else {}
  {
  }

  lemma ChunkSizes(names: seq<string>, size: nat)
    requires size > 0
    ensures var bs := ChunkAll(names, size);
            forall i | 0 <= i < |bs| :: if i < |bs| - 1 then |bs[i].nodes| == size else 1 <= |bs[i].nodes| <= size
  {
    var k := ChunkCount(|names|, size);
    ChunkCountCovers(|names|, size);
    ChunkAt(names, size, k);
    var bs := ChunkAll(names, size);
    forall i | 0 <= i < |bs| - 1 ensures |bs[i].nodes| == size {
      MulMonotone(i + 1, k - 1, size);
    }
  }

  // ----- the plan does not depend on the order of the input -----

  lemma WithoutOne<T>(b: seq<T>, j: nat)
    requires j < |b|
    ensures multiset(b[..j] + b[j + 1..]) == multiset(b) - multiset{b[j]}
  {
    assert b == b[..j] + [b[j]] + b[j + 1..];
  }

  /** Where the last element of a occurs in a permutation b of a. */
  lemma FindLast(a: seq<TargetNode>, b: seq<TargetNode>) returns (j: nat)
    requires multiset(a) == multiset(b) && a != []
    ensures j < |b| && b[j] == a[|a| - 1]
    ensures multiset(a[..|a| - 1]) == multiset(b[..j] + b[j + 1..])
  {
    var n := |a| - 1;
    assert a[n] in multiset(b);
    j :| 0 <= j < |b| && b[j] == a[n];
    WithoutOne(b, j);
    WithoutOne(a, n);
    assert a[..n] + a[n + 1..] == a[..n];
  }

  lemma {:induction false} MembersPermutation(g: Grouping, a: seq<TargetNode>, b: seq<TargetNode>, key: string)
    requires multiset(a) == multiset(b)
    ensures multiset(Members(g, a, key)) == multiset(Members(g, b, key))
  {
    if a == [] {
      assert |multiset(b)| == 0;
      assert b == [];
    } else {
      var n := |a| - 1;
      var j := FindLast(a, b);
      var rest := b[..j] + b[j + 1..];
      MembersPermutation(g, a[..n], rest, key);
      MembersRemove(g, b, j, key);
    }
  }

  lemma {:induction false} MembersConcat(g: Grouping, a: seq<TargetNode>, b: seq<TargetNode>, key: string)
    ensures Members(g, a + b, key) == Members(g, a, key) + Members(g, b, key)
  {
    if b == [] {
      assert a + b == a;
    } else {
      var m := |b| - 1;
      assert (a + b)[..|a + b| - 1] == a + b[..m];
      assert (a + b)[|a + b| - 1] == b[m];
      MembersConcat(g, a, b[..m], key);
    }
  }

  lemma {:induction false} MembersRemove(g: Grouping, b: seq<TargetNode>, j: nat, key: string)
    requires j < |b|
    ensures multiset(Members(g, b, key))
         == multiset(Members(g, b[..j] + b[j + 1..], key)) + multiset(if KeyOf(g, b[j]) == key then [b[j].name] else [])
  {
    assert b == b[..j] + [b[j]] + b[j + 1..];
    MembersMore(g, b[..j], b[j], key);
    MembersConcat(g, b[..j] + [b[j]], b[j + 1..], key);
    MembersConcat(g, b[..j], b[j + 1..], key);
  }

  lemma SortedNamesOrderFree(a: seq<TargetNode>, b: seq<TargetNode>)
    requires multiset(a) == multiset(b)
    ensures SortStrings(Names(a)) == SortStrings(Names(b))
  {
    NamesPermutation(a, b);
    SortPermutation(Names(a), Names(b));
  }

  /** The same nodes in any order give the same batches. */
  lemma BatchesOrderFree(strategy: Strategy, a: seq<TargetNode>, b: seq<TargetNode>, batchSize: int, concurrency: int)
    requires multiset(a) == multiset(b)
    ensures Batches(strategy, a, batchSize, concurrency) == Batches(strategy, b, batchSize, concurrency)
  {
    match strategy
    case StrategyByZone => GroupOrderFree(ByZone, a, b);
    case StrategyByPool => GroupOrderFree(ByPool, a, b);
    case _ => SortedNamesOrderFree(a, b);
  }

  lemma {:induction false} NamesPermutation(a: seq<TargetNode>, b: seq<TargetNode>)
    requires multiset(a) == multiset(b)
    ensures multiset(Names(a)) == multiset(Names(b))
  {
    if a == [] {
      assert |multiset(b)| == 0;
      assert b == [];
    } else {
      var n := |a| - 1;
      var j := FindLast(a, b);
      var rest := b[..j] + b[j + 1..];
      NamesPermutation(a[..n], rest);
      assert Names(a) == Names(a[..n]) + [a[n].name];
      assert Names(rest) == Names(b[..j]) + Names(b[j + 1..]);
      assert Names(b) == Names(b[..j]) + [b[j].name] + Names(b[j + 1..]);
    }
  }

  lemma {:induction false} SortPermutation(a: seq<string>, b: seq<string>)
    requires multiset(a) == multiset(b)
    ensures SortStrings(a) == SortStrings(b)
  {
    SortSorted(a);
    SortSorted(b);
    SortedUnique(SortStrings(a), SortStrings(b));
  }

  lemma {:induction false} KeysOrderFree(g: Grouping, a: seq<TargetNode>, b: seq<TargetNode>)
    requires multiset(a) == multiset(b)
    ensures SortStrings(KeyOrder(g, a)) == SortStrings(KeyOrder(g, b))
  {
    var oa, ob := KeyOrder(g, a), KeyOrder(g, b);
    KeyOrderFacts(g, a);
    KeyOrderFacts(g, b);
    forall k ensures k in oa <==> k in ob {
      KeysOfPermutation(g, a, b, k);
      KeysOfPermutation(g, b, a, k);
    }
    DistinctSameMultiset(oa, ob);
    SortPermutation(oa, ob);
  }

  lemma GroupOrderFree(g: Grouping, a: seq<TargetNode>, b: seq<TargetNode>)
    requires multiset(a) == multiset(b)
    ensures GroupAll(g, a) == GroupAll(g, b)
  {
    KeysOrderFree(g, a, b);
    var keys := SortStrings(KeyOrder(g, a));
    var bs := GroupAll(g, a);
    forall i | 0 <= i < |keys|
      ensures bs[i] == Batch(i, keys[i], SortStrings(Members(g, b, keys[i])))
    {
      MembersPermutation(g, a, b, keys[i]);
      SortPermutation(Members(g, a, keys[i]), Members(g, b, keys[i]));
    }
    GroupAllIs(g, b, bs);
  }

  lemma {:induction false} KeysOfPermutation(g: Grouping, a: seq<TargetNode>, b: seq<TargetNode>, k: string)
    requires multiset(a) == multiset(b)
    ensures k in KeyOrder(g, a) ==> k in KeyOrder(g, b)
  {
    if k in KeyOrder(g, a) {
      KeyOrderFacts(g, a);
      KeyOrderFacts(g, b);
      var i :| 0 <= i < |a| && KeyOf(g, a[i]) == k;
      assert a[i] in multiset(b);
      var j :| 0 <= j < |b| && b[j] == a[i];
    }
  }

  lemma DistinctSameMultiset(a: seq<string>, b: seq<string>)
    requires forall i, j | 0 <= i < j < |a| :: a[i] != a[j]
    requires forall i, j | 0 <= i < j < |b| :: b[i] != b[j]
    requires forall x :: x in a <==> x in b
    ensures multiset(a) == multiset(b)
  {
    forall x ensures multiset(a)[x] == multiset(b)[x] {
      DistinctCount(a, x);
      DistinctCount(b, x);
      assert x in a <==> x in multiset(a);
      assert x in b <==> x in multiset(b);
    }
  }

}

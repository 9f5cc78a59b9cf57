/**
 * The content-addressed store behind `machine/tape` and action outputs: raw blocks and
 * sequence nodes named by their hash, named roots, and reachability-based collection.
 */
module Knowledge {
  import opened Bytes

  type Hash = string

  datatype Entry = Block(hash: Hash) | Node(hash: Hash)

  /** The two uses of SHA-256: over block bytes and over a serialized sequence node. */
  datatype Hashing = Hashing(block: bytes -> Hash, node: seq<Entry> -> Hash)

  /** No two stored contents collide. */
  ghost predicate CollisionFree(h: Hashing)
  {
    && (forall a: bytes, b: bytes :: h.block(a) == h.block(b) ==> a == b)
    && (forall a: seq<Entry>, b: seq<Entry> :: h.node(a) == h.node(b) ==> a == b)
  }

  datatype Store = Store(blocks: map<Hash, bytes>, nodes: map<Hash, seq<Entry>>, roots: map<string, Hash>)

  datatype Fault = MissingBlock | MissingNode | UnknownRoot | HashMismatch | Cycle
  datatype Outcome<+T> = Good(value: T) | Bad(fault: Fault)

  const EMPTY := Store(map[], map[], map[])

  // ---------------------------------------------------------------- reading

  /** Verify and materialize the node `n`; `visiting` is the path from the root. */
  function Materialize(h: Hashing, st: Store, n: Hash, visiting: set<Hash>): Outcome<bytes>
    decreases |st.nodes.Keys - visiting|, 0
  {
    if n in visiting then Bad(Cycle)
    else if n !in st.nodes then Bad(MissingNode)
    else if h.node(st.nodes[n]) != n then Bad(HashMismatch)
    else
      assert st.nodes.Keys - (visiting + {n}) == (st.nodes.Keys - visiting) - {n};
      MaterializeAll(h, st, st.nodes[n], visiting + {n})
  }

  function MaterializeAll(h: Hashing, st: Store, entries: seq<Entry>, visiting: set<Hash>): Outcome<bytes>
    decreases |st.nodes.Keys - visiting|, |entries| + 1
  {
    if entries == [] then Good([])
    else
      var first := match entries[0]
        case Block(b) =>
          if b !in st.blocks then Bad(MissingBlock)
          else if h.block(st.blocks[b]) != b then Bad(HashMismatch)
          else Good(st.blocks[b])
        case Node(n) => Materialize(h, st, n, visiting);
      if first.Bad? then first
      else
        var rest := MaterializeAll(h, st, entries[1..], visiting);
        if rest.Bad? then rest else Good(first.value + rest.value)
  }

  function ReadRoot(h: Hashing, st: Store, name: string): Outcome<bytes>
  {
    if name !in st.roots then Bad(UnknownRoot) else Materialize(h, st, st.roots[name], {})
  }

  // ---------------------------------------------------------------- writing

  function PutBlock(h: Hashing, st: Store, data: bytes): Store
  {
    if h.block(data) in st.blocks then st else st.(blocks := st.blocks[h.block(data) := data])
  }

  function PutNode(h: Hashing, st: Store, entries: seq<Entry>): Store
  {
    if h.node(entries) in st.nodes then st else st.(nodes := st.nodes[h.node(entries) := entries])
  }

  /** Store one block and a node naming it alone, and bind that node. */
  function StoreBytes(h: Hashing, st: Store, name: string, data: bytes): (Store, Hash)
  {
    var entries := [Block(h.block(data))];
    var st1 := PutNode(h, PutBlock(h, st, data), entries);
    (st1.(roots := st1.roots[name := h.node(entries)]), h.node(entries))
  }

  /** Store one block, a node extending `base` by it, and bind that node. */
  function ForkAppend(h: Hashing, st: Store, name: string, base: Hash, data: bytes): Outcome<(Store, Hash)>
  {
    if base !in st.nodes then Bad(MissingNode)
    else
      var entries := [Node(base), Block(h.block(data))];
      var st1 := PutNode(h, PutBlock(h, st, data), entries);
      Good((st1.(roots := st1.roots[name := h.node(entries)]), h.node(entries)))
  }

  function Unbind(st: Store, name: string): Outcome<Store>
  {
    if name !in st.roots then Bad(UnknownRoot) else Good(st.(roots := st.roots - {name}))
  }

  // ------------------------------------------------------------- collection

  datatype Marks = Marks(nodes: set<Hash>, blocks: set<Hash>)

  ghost predicate Covers(m: Marks, entries: seq<Entry>)
  {
    forall i :: 0 <= i < |entries| ==>
      match entries[i] case Block(b) => b in m.blocks case Node(n) => n in m.nodes
  }

  /** Every node marked since `before` has all its entries marked. */
  ghost predicate ClosedSince(st: Store, before: Marks, m: Marks)
  {
    && before.nodes <= m.nodes && before.blocks <= m.blocks
    && forall n :: n in m.nodes && n !in before.nodes && n in st.nodes ==> Covers(m, st.nodes[n])
  }

  function Mark(st: Store, n: Hash, m: Marks): (r: Marks)
    ensures n in r.nodes && ClosedSince(st, m, r)
    decreases |st.nodes.Keys - m.nodes|, 0
  {
    if n in m.nodes then m
    else
      var m1 := m.(nodes := m.nodes + {n});
      if n !in st.nodes then m1
      else
        assert st.nodes.Keys - m1.nodes == (st.nodes.Keys - m.nodes) - {n};
        MarkAll(st, st.nodes[n], m1)
  }

  function MarkAll(st: Store, entries: seq<Entry>, m: Marks): (r: Marks)
    ensures Covers(r, entries) && ClosedSince(st, m, r)
    decreases |st.nodes.Keys - m.nodes|, |entries| + 1
  {
    if entries == [] then m
    else
      var m1 := match entries[0]
        case Block(b) => m.(blocks := m.blocks + {b})
        case Node(n) => Mark(st, n, m);
      KeysShrink(st, m, m1);
      MarkAll(st, entries[1..], m1)
  }

  lemma KeysShrink(st: Store, m: Marks, m1: Marks)
    requires m.nodes <= m1.nodes
    ensures |st.nodes.Keys - m1.nodes| <= |st.nodes.Keys - m.nodes|
  {
    SubsetCardinality(st.nodes.Keys - m1.nodes, st.nodes.Keys - m.nodes);
  }

  lemma SubsetCardinality<T>(a: set<T>, b: set<T>)
    requires a <= b
    ensures |a| <= |b|
  {
    assert b == a + (b - a);
  }

  /** `c` holds every bound root and, with a node, all of that node's entries. */
  ghost predicate Retains(st: Store, c: Marks)
  {
    && (forall name :: name in st.roots ==> st.roots[name] in c.nodes)
    && (forall n :: n in c.nodes && n in st.nodes ==> Covers(c, st.nodes[n]))
  }

  /** Reachable: held by every set that retains the roots. */
  ghost predicate LiveNode(st: Store, n: Hash) { forall c: Marks :: Retains(st, c) ==> n in c.nodes }
  ghost predicate LiveBlock(st: Store, b: Hash) { forall c: Marks :: Retains(st, c) ==> b in c.blocks }

  /** The store after collection: exactly the reachable content survives. */
  ghost function Collected(st: Store): Store
  {
    st.(blocks := map b | b in st.blocks && LiveBlock(st, b) :: st.blocks[b],
        nodes := map n | n in st.nodes && LiveNode(st, n) :: st.nodes[n])
  }

  /** Marking from a root never marks outside a retaining set. */
  lemma {:induction false} MarkWithin(st: Store, n: Hash, m: Marks, c: Marks)
    requires Retains(st, c) && n in c.nodes && m.nodes <= c.nodes && m.blocks <= c.blocks
    ensures Mark(st, n, m).nodes <= c.nodes && Mark(st, n, m).blocks <= c.blocks
    decreases |st.nodes.Keys - m.nodes|, 0
  {
    if n !in m.nodes && n in st.nodes {
      var m1 := m.(nodes := m.nodes + {n});
      assert st.nodes.Keys - m1.nodes == (st.nodes.Keys - m.nodes) - {n};
      MarkAllWithin(st, st.nodes[n], m1, c);
    }
  }

  lemma {:induction false} MarkAllWithin(st: Store, entries: seq<Entry>, m: Marks, c: Marks)
    requires Retains(st, c) && Covers(c, entries) && m.nodes <= c.nodes && m.blocks <= c.blocks
    ensures MarkAll(st, entries, m).nodes <= c.nodes && MarkAll(st, entries, m).blocks <= c.blocks
    decreases |st.nodes.Keys - m.nodes|, |entries| + 1
  {
    if entries != [] {
      var m1 := match entries[0]
        case Block(b) => m.(blocks := m.blocks + {b})
        case Node(n) => Mark(st, n, m);
      if entries[0].Node? { MarkWithin(st, entries[0].hash, m, c); }
      KeysShrink(st, m, m1);
      MarkAllWithin(st, entries[1..], m1, c);
    }
  }

  /** Mark from every root, in any order, then drop what is unmarked. */
  method CollectGarbage(st: Store) returns (r: Store)
    ensures r == Collected(st)
  {
    var m := Marks({}, {});
    var todo := st.roots.Keys;
    while todo != {}
      invariant todo <= st.roots.Keys
      invariant forall name :: name in st.roots && name !in todo ==> st.roots[name] in m.nodes
      invariant ClosedSince(st, Marks({}, {}), m)
      invariant forall c: Marks :: Retains(st, c) ==> m.nodes <= c.nodes && m.blocks <= c.blocks
      decreases |todo|
    {
      var name :| name in todo;
      ghost var before := m;
      m := Mark(st, st.roots[name], m);
      forall c: Marks | Retains(st, c) ensures m.nodes <= c.nodes && m.blocks <= c.blocks {
        MarkWithin(st, st.roots[name], before, c);
      }
      todo := todo - {name};
    }
    assert Retains(st, m);
    assert forall n :: n in m.nodes <==> LiveNode(st, n);
    assert forall b :: b in m.blocks <==> LiveBlock(st, b);
    r := st.(blocks := map b | b in st.blocks && b in m.blocks :: st.blocks[b],
             nodes := map n | n in st.nodes && n in m.nodes :: st.nodes[n]);
  }

  // ------------------------------------------------------------- invariant

  ghost predicate Present(st: Store, entries: seq<Entry>)
  {
    forall i :: 0 <= i < |entries| ==>
      match entries[i] case Block(b) => b in st.blocks case Node(n) => n in st.nodes
  }

  /** A topological order of the nodes: entries come strictly before the node naming them. */
  ghost predicate Ranked(st: Store, rank: map<Hash, nat>)
  {
    && st.nodes.Keys <= rank.Keys
    && forall n, i :: n in st.nodes && 0 <= i < |st.nodes[n]| && st.nodes[n][i].Node? ==>
         st.nodes[n][i].hash in rank && rank[st.nodes[n][i].hash] < rank[n]
  }

  ghost predicate Sound(h: Hashing, st: Store)
  {
    && (forall b :: b in st.blocks ==> h.block(st.blocks[b]) == b)
    && (forall n :: n in st.nodes ==> h.node(st.nodes[n]) == n && Present(st, st.nodes[n]))
    && (forall name :: name in st.roots ==> st.roots[name] in st.nodes)
    && (exists rank :: Ranked(st, rank))
  }

  ghost predicate Above(rank: map<Hash, nat>, visiting: set<Hash>, bound: nat)
  {
    forall v :: v in visiting ==> v in rank && rank[v] > bound
  }

  /** A sound store can be read from any of its nodes. */
  lemma {:induction false} SoundReads(h: Hashing, st: Store, rank: map<Hash, nat>, n: Hash, visiting: set<Hash>)
    requires Sound(h, st) && Ranked(st, rank) && n in st.nodes && Above(rank, visiting, rank[n])
    ensures Materialize(h, st, n, visiting).Good?
    decreases |st.nodes.Keys - visiting|, 0
  {
    assert st.nodes.Keys - (visiting + {n}) == (st.nodes.Keys - visiting) - {n};
    assert forall i :: 0 <= i < |st.nodes[n]| && st.nodes[n][i].Node? ==> rank[st.nodes[n][i].hash] < rank[n];
    SoundReadsAll(h, st, rank, st.nodes[n], rank[n], visiting + {n});
  }

  lemma {:induction false} SoundReadsAll(
      h: Hashing, st: Store, rank: map<Hash, nat>, entries: seq<Entry>, bound: nat, visiting: set<Hash>)
    requires Sound(h, st) && Ranked(st, rank) && Present(st, entries)
    requires forall v :: v in visiting ==> v in rank && rank[v] >= bound
    requires forall i :: 0 <= i < |entries| && entries[i].Node? ==> rank[entries[i].hash] < bound
    ensures MaterializeAll(h, st, entries, visiting).Good?
    decreases |st.nodes.Keys - visiting|, |entries| + 1
  {
    if entries != [] {
      if entries[0].Node? { SoundReads(h, st, rank, entries[0].hash, visiting); }
      assert forall i :: 0 <= i < |entries[1..]| ==> entries[1..][i] == entries[i + 1];
      SoundReadsAll(h, st, rank, entries[1..], bound, visiting);
    }
  }

  /** What is read does not depend on the path that led there. */
  lemma {:induction false} PathIrrelevant(h: Hashing, st: Store, n: Hash, v1: set<Hash>, v2: set<Hash>)
    requires Materialize(h, st, n, v1).Good? && Materialize(h, st, n, v2).Good?
    ensures Materialize(h, st, n, v1) == Materialize(h, st, n, v2)
    decreases |st.nodes.Keys - v1|, 0
  {
    assert st.nodes.Keys - (v1 + {n}) == (st.nodes.Keys - v1) - {n};
    PathIrrelevantAll(h, st, st.nodes[n], v1 + {n}, v2 + {n});
  }

  lemma {:induction false} PathIrrelevantAll(h: Hashing, st: Store, entries: seq<Entry>, v1: set<Hash>, v2: set<Hash>)
    requires MaterializeAll(h, st, entries, v1).Good? && MaterializeAll(h, st, entries, v2).Good?
    ensures MaterializeAll(h, st, entries, v1) == MaterializeAll(h, st, entries, v2)
    decreases |st.nodes.Keys - v1|, |entries| + 1
  {
    if entries != [] {
      if entries[0].Node? { PathIrrelevant(h, st, entries[0].hash, v1, v2); }
      PathIrrelevantAll(h, st, entries[1..], v1, v2);
    }
  }

  /** `keep` is closed in `st`, and `st2` holds the same content for it. */
  ghost predicate Agree(st: Store, st2: Store, keep: set<Hash>)
  {
    forall n :: n in keep ==>
      && n in st.nodes && n in st2.nodes && st2.nodes[n] == st.nodes[n]
      && forall i :: 0 <= i < |st.nodes[n]| ==>
           match st.nodes[n][i]
           case Block(b) => b in st.blocks && b in st2.blocks && st.blocks[b] == st2.blocks[b]
           case Node(k) => k in keep
  }

  lemma {:induction false} AgreeReads(h: Hashing, st: Store, st2: Store, keep: set<Hash>, n: Hash, visiting: set<Hash>)
    requires Agree(st, st2, keep) && n in keep
    ensures Materialize(h, st, n, visiting) == Materialize(h, st2, n, visiting)
    decreases |st.nodes.Keys - visiting|, 0
  {
    if n !in visiting && h.node(st.nodes[n]) == n {
      assert st.nodes.Keys - (visiting + {n}) == (st.nodes.Keys - visiting) - {n};
      AgreeReadsAll(h, st, st2, keep, n, 0, visiting + {n});
      assert st.nodes[n][0..] == st.nodes[n];
    }
  }

  lemma {:induction false} AgreeReadsAll(
      h: Hashing, st: Store, st2: Store, keep: set<Hash>, n: Hash, i: nat, visiting: set<Hash>)
    requires Agree(st, st2, keep) && n in keep && i <= |st.nodes[n]|
    ensures MaterializeAll(h, st, st.nodes[n][i..], visiting) == MaterializeAll(h, st2, st.nodes[n][i..], visiting)
    decreases |st.nodes.Keys - visiting|, |st.nodes[n]| - i + 1
  {
    var entries := st.nodes[n];
    if i < |entries| {
      assert entries[i..][0] == entries[i] && entries[i..][1..] == entries[i + 1..];
      if entries[i].Node? { AgreeReads(h, st, st2, keep, entries[i].hash, visiting); }
      AgreeReadsAll(h, st, st2, keep, n, i + 1, visiting);
    }
  }

  // ------------------------------------------- what each operation preserves

  ghost predicate SameRootsExcept(h: Hashing, st: Store, st2: Store, name: string)
  {
    forall r :: r != name ==>
      && (r in st.roots <==> r in st2.roots)
      && (r in st.roots ==> st2.roots[r] == st.roots[r] && ReadRoot(h, st2, r) == ReadRoot(h, st, r))
  }

  ghost predicate Extends(st: Store, st2: Store)
  {
    && (forall b :: b in st.blocks ==> b in st2.blocks && st2.blocks[b] == st.blocks[b])
    && (forall n :: n in st.nodes ==> n in st2.nodes && st2.nodes[n] == st.nodes[n])
  }

  /** Adding blocks and nodes changes nothing that was already readable. */
  lemma ExtensionReads(h: Hashing, st: Store, st2: Store, n: Hash)
    requires Sound(h, st) && Extends(st, st2) && n in st.nodes
    ensures Materialize(h, st2, n, {}) == Materialize(h, st, n, {})
  {
    AgreeReads(h, st, st2, st.nodes.Keys, n, {});
  }

  lemma PutBlockSound(h: Hashing, st: Store, data: bytes)
    requires CollisionFree(h) && Sound(h, st)
    ensures var st1 := PutBlock(h, st, data);
            Sound(h, st1) && Extends(st, st1) && h.block(data) in st1.blocks && st1.blocks[h.block(data)] == data
  {
    var st1 := PutBlock(h, st, data);
    var rank :| Ranked(st, rank);
    assert Ranked(st1, rank);
    forall n | n in st1.nodes ensures Present(st1, st1.nodes[n]) {
      assert Present(st, st.nodes[n]);
    }
  }

  lemma PutNodeRanked(h: Hashing, st: Store, entries: seq<Entry>, rank: map<Hash, nat>, r: nat)
    requires Sound(h, st) && Ranked(st, rank) && Present(st, entries) && h.node(entries) !in st.nodes
    requires forall i :: 0 <= i < |entries| && entries[i].Node? ==> rank[entries[i].hash] < r
    ensures Ranked(PutNode(h, st, entries), rank[h.node(entries) := r])
  {
    var st1, rank1 := PutNode(h, st, entries), rank[h.node(entries) := r];
    forall n, i | n in st1.nodes && 0 <= i < |st1.nodes[n]| && st1.nodes[n][i].Node?
      ensures st1.nodes[n][i].hash in rank1 && rank1[st1.nodes[n][i].hash] < rank1[n]
    {
      if n == h.node(entries) {
        assert entries[i].hash in st.nodes;
      } else {
        assert Present(st, st.nodes[n]);
      }
    }
  }

  /** Adding a node over present entries keeps the store sound; `r` ranks it above them. */
  lemma PutNodeSound(h: Hashing, st: Store, entries: seq<Entry>, rank: map<Hash, nat>, r: nat)
    requires CollisionFree(h) && Sound(h, st) && Ranked(st, rank) && Present(st, entries)
    requires forall i :: 0 <= i < |entries| && entries[i].Node? ==> rank[entries[i].hash] < r
    ensures var st1 := PutNode(h, st, entries);
            Sound(h, st1) && Extends(st, st1) && h.node(entries) in st1.nodes && st1.nodes[h.node(entries)] == entries
  {
    var st1 := PutNode(h, st, entries);
    if h.node(entries) !in st.nodes { PutNodeRanked(h, st, entries, rank, r); }
    forall n | n in st1.nodes ensures Present(st1, st1.nodes[n]) {
      if n != h.node(entries) { assert Present(st, st.nodes[n]); }
    }
  }

  lemma BindSound(h: Hashing, st: Store, name: string, root: Hash)
    requires Sound(h, st) && root in st.nodes
    ensures Sound(h, st.(roots := st.roots[name := root]))
  {
    var st1 := st.(roots := st.roots[name := root]);
    var rank :| Ranked(st, rank);
    assert Ranked(st1, rank);
    forall n | n in st1.nodes ensures Present(st1, st1.nodes[n]) {
      assert Present(st, st.nodes[n]);
    }
  }

  lemma BindingKeepsOthers(h: Hashing, st: Store, st2: Store, name: string, root: Hash)
    requires Sound(h, st) && Extends(st, st2) && st2.roots == st.roots[name := root]
    ensures SameRootsExcept(h, st, st2, name)
  {
    forall r | r != name && r in st.roots ensures ReadRoot(h, st2, r) == ReadRoot(h, st, r) {
      ExtensionReads(h, st, st2, st.roots[r]);
    }
  }

  /** A new node over one new block, and over `base` if there is one. */
  lemma NewNodeSound(h: Hashing, st: Store, data: bytes, base: Option<Hash>, entries: seq<Entry>)
    requires CollisionFree(h) && Sound(h, st) && (base.Some? ==> base.value in st.nodes)
    requires entries == (if base.Some? then [Node(base.value)] else []) + [Block(h.block(data))]
    ensures var st1 := PutNode(h, PutBlock(h, st, data), entries);
            && Sound(h, st1) && Extends(st, st1) && st1.roots == st.roots
            && h.block(data) in st1.blocks && st1.blocks[h.block(data)] == data
            && h.node(entries) in st1.nodes && st1.nodes[h.node(entries)] == entries
  {
    hide CollisionFree, Materialize, MaterializeAll, ReadRoot;
    var st0 := PutBlock(h, st, data);
    PutBlockSound(h, st, data);
    var rank :| Ranked(st0, rank);
    hide Sound;
    assert Present(st0, entries);
    PutNodeSound(h, st0, entries, rank, if base.Some? then rank[base.value] + 1 else 0);
  }

  /** Binding `name` to such a node. */
  lemma NewRootSound(h: Hashing, st: Store, name: string, data: bytes, base: Option<Hash>, entries: seq<Entry>)
    requires CollisionFree(h) && Sound(h, st) && (base.Some? ==> base.value in st.nodes)
    requires entries == (if base.Some? then [Node(base.value)] else []) + [Block(h.block(data))]
    ensures var st1 := PutNode(h, PutBlock(h, st, data), entries);
            var st2 := st1.(roots := st1.roots[name := h.node(entries)]);
            && Sound(h, st2) && SameRootsExcept(h, st, st2, name) && Extends(st, st2)
            && h.block(data) in st2.blocks && st2.blocks[h.block(data)] == data
            && h.node(entries) in st2.nodes && st2.nodes[h.node(entries)] == entries
  {
    hide CollisionFree, Sound, SameRootsExcept, PutNode, PutBlock, Materialize, ReadRoot;
    NewNodeSound(h, st, data, base, entries);
    var st1, root := PutNode(h, PutBlock(h, st, data), entries), h.node(entries);
    BindSound(h, st1, name, root);
    BindingKeepsOthers(h, st, st1.(roots := st1.roots[name := root]), name, root);
  }

  /** A stored document reads back exactly and disturbs no other root. */
  lemma StoreBytesSound(h: Hashing, st: Store, name: string, data: bytes)
    requires CollisionFree(h) && Sound(h, st)
    ensures var (st2, root) := StoreBytes(h, st, name, data);
            && Sound(h, st2) && SameRootsExcept(h, st, st2, name)
            && name in st2.roots && st2.roots[name] == root && ReadRoot(h, st2, name) == Good(data)
  {
    hide Sound, SameRootsExcept, Materialize, Extends;
    var entries := [Block(h.block(data))];
    assert [] + entries == entries;
    NewRootSound(h, st, name, data, None, entries);
    SingleBlockReads(h, StoreBytes(h, st, name, data).0, data);
  }

  lemma SingleBlockReads(h: Hashing, st: Store, data: bytes)
    requires h.block(data) in st.blocks && st.blocks[h.block(data)] == data
    requires var entries := [Block(h.block(data))]; h.node(entries) in st.nodes && st.nodes[h.node(entries)] == entries
    ensures Materialize(h, st, h.node([Block(h.block(data))]), {}) == Good(data)
  {
    var entries := [Block(h.block(data))];
    var root := h.node(entries);
    assert MaterializeAll(h, st, entries[1..], {root}) == Good([]);
    assert MaterializeAll(h, st, entries, {root}) == Good(data + []);
    assert data + [] == data && {} + {root} == {root};
  }

  /** Appending to a bound root yields the old bytes followed by the new ones. */
  lemma ForkAppendSound(h: Hashing, st: Store, name: string, data: bytes)
    requires CollisionFree(h) && Sound(h, st) && name in st.roots
    ensures var r := ForkAppend(h, st, name, st.roots[name], data);
            && r.Good? && Sound(h, r.value.0) && SameRootsExcept(h, st, r.value.0, name)
            && name in r.value.0.roots && r.value.0.roots[name] == r.value.1
            && ReadRoot(h, st, name).Good?
            && ReadRoot(h, r.value.0, name) == Good(ReadRoot(h, st, name).value + data)
  {
    hide SameRootsExcept, Materialize, Extends, Ranked;
    var base := st.roots[name];
    var entries := [Node(base), Block(h.block(data))];
    assert [Node(base)] + [Block(h.block(data))] == entries;
    NewRootSound(h, st, name, data, Some(base), entries);
    var st2 := ForkAppend(h, st, name, base, data).value.0;
    ReadsWhole(h, st, base);
    ExtensionReads(h, st, st2, base);
    ExtendedReads(h, st2, base, data);
  }

  /** A node over `base` and a block reads as the base followed by the block. */
  lemma ExtendedReads(h: Hashing, st: Store, base: Hash, data: bytes)
    requires Sound(h, st) && base in st.nodes && h.block(data) in st.blocks && st.blocks[h.block(data)] == data
    requires var entries := [Node(base), Block(h.block(data))];
             h.node(entries) in st.nodes && st.nodes[h.node(entries)] == entries
    ensures var root := h.node([Node(base), Block(h.block(data))]);
            && Materialize(h, st, base, {}).Good?
            && Materialize(h, st, root, {}) == Good(Materialize(h, st, base, {}).value + data)
  {
    hide Sound;
    var entries := [Node(base), Block(h.block(data))];
    var root := h.node(entries);
    ReadsWhole(h, st, root);
    ReadsWhole(h, st, base);
    assert entries[1..] == [Block(h.block(data))];
    assert MaterializeAll(h, st, entries[1..][1..], {root}) == Good([]);
    assert MaterializeAll(h, st, entries[1..], {root}) == Good(data + []);
    assert data + [] == data && {} + {root} == {root};
    assert MaterializeAll(h, st, entries, {root}).Good?;
    assert Materialize(h, st, base, {root}).Good?;
    PathIrrelevant(h, st, base, {root}, {});
  }

  lemma ReadsWhole(h: Hashing, st: Store, n: Hash)
    requires Sound(h, st) && n in st.nodes
    ensures Materialize(h, st, n, {}).Good?
  {
    var rank :| Ranked(st, rank);
    SoundReads(h, st, rank, n, {});
  }

  /** Unbinding one root and collecting garbage leaves every other root as it was. */
  lemma CollectSound(h: Hashing, st: Store, name: string)
    requires Sound(h, st) && name in st.roots
    ensures var st2 := Collected(Unbind(st, name).value);
            && Sound(h, st2) && SameRootsExcept(h, st, st2, name) && name !in st2.roots
  {
    var st1 := Unbind(st, name).value;
    var st2 := Collected(st1);
    forall n | n in st2.nodes ensures Present(st2, st2.nodes[n]) {
      LiveEntries(st1, n);
      assert Present(st, st.nodes[n]);
    }
    forall r | r in st1.roots ensures st1.roots[r] in st2.nodes {
      assert LiveNode(st1, st1.roots[r]);
    }
    var rank :| Ranked(st, rank);
    assert Ranked(st2, rank);
    forall r | r != name && r in st.roots ensures ReadRoot(h, st2, r) == ReadRoot(h, st, r) {
      assert Agree(st2, st, st2.nodes.Keys);
      AgreeReads(h, st2, st, st2.nodes.Keys, st2.roots[r], {});
    }
  }

  lemma LiveEntries(st: Store, n: Hash)
    requires n in st.nodes && LiveNode(st, n)
    ensures forall i :: 0 <= i < |st.nodes[n]| ==>
              match st.nodes[n][i] case Block(b) => LiveBlock(st, b) case Node(k) => LiveNode(st, k)
  {
    forall i | 0 <= i < |st.nodes[n]|
      ensures match st.nodes[n][i] case Block(b) => LiveBlock(st, b) case Node(k) => LiveNode(st, k)
    {
      forall c: Marks | Retains(st, c)
        ensures match st.nodes[n][i] case Block(b) => b in c.blocks case Node(k) => k in c.nodes
      {
        assert n in c.nodes;
        assert Covers(c, st.nodes[n]);
      }
    }
  }
}

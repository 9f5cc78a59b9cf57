/** Diffing two snapshots of reference context items. */
module ContextDiff {
  import opened Bytes

  datatype Item = Item(id: string, kind: string, title: string, content: string, fingerprint: string)

  datatype Delta = Delta(
    changed: bool, reordered: bool, revision: nat,
    added: seq<string>, updated: seq<string>, removed: seq<string>)

  /** A digest of a text. */
  type Digest = string -> string

  // ------------------------------------------------------------ fingerprints

  function Joined(i: Item): string { i.kind + "\n" + i.title + "\n" + i.content }

  function Normalized(digest: Digest, i: Item): Item { i.(fingerprint := digest(Joined(i))) }

  function NormalizedAll(digest: Digest, items: seq<Item>): (r: seq<Item>)
    ensures |r| == |items| && forall i :: 0 <= i < |r| ==> r[i] == Normalized(digest, items[i])
  {
    seq(|items|, i requires 0 <= i < |items| => Normalized(digest, items[i]))
  }

  method NormalizeContextItems(digest: Digest, items: seq<Item>) returns (r: seq<Item>)
    ensures r == NormalizedAll(digest, items)
  {
    r := items;
    for i := 0 to |items|
      invariant |r| == |items|
      invariant forall j :: 0 <= j < |items| ==> r[j] == if j < i then Normalized(digest, items[j]) else items[j]
    {
      var expected := digest(Joined(r[i]));
      if r[i].fingerprint != expected { r := r[i := r[i].(fingerprint := expected)]; }
    }
  }

  // -------------------------------------------------------------- the diff

  /** The fingerprint a snapshot records for each id; a later item replaces an earlier one. */
  function Index(items: seq<Item>): map<string, string>
  {
    if items == [] then map[]
    else Index(items[..|items| - 1])[items[|items| - 1].id := items[|items| - 1].fingerprint]
  }

  /** The index gives each id the fingerprint of its last item, and no other id any. */
  lemma {:induction false} IndexMeans(items: seq<Item>, id: string)
    ensures id in Index(items) <==> exists i :: 0 <= i < |items| && items[i].id == id
    ensures forall i :: 0 <= i < |items| && items[i].id == id && (forall j :: i < j < |items| ==> items[j].id != id) ==>
              id in Index(items) && Index(items)[id] == items[i].fingerprint
    decreases |items|
  {
    if items != [] {
      var front := items[..|items| - 1];
      IndexMeans(front, id);
      assert forall i :: 0 <= i < |front| ==> front[i] == items[i];
      if items[|items| - 1].id == id { assert items[|items| - 1].id == id; }
    }
  }

  function Ids(items: seq<Item>): (ids: seq<string>)
    ensures |ids| == |items| && forall i :: 0 <= i < |items| ==> ids[i] == items[i].id
  {
    seq(|items|, i requires 0 <= i < |items| => items[i].id)
  }

  /** How an item stands against the other snapshot. */
  datatype Standing = Missing | Differing | Same

  function StandingIn(other: map<string, string>, i: Item): Standing
  {
    if i.id !in other then Missing else if other[i.id] != i.fingerprint then Differing else Same
  }

  /** The ids of the items that stand as asked, in order. */
  function IdsWhere(items: seq<Item>, other: map<string, string>, standing: Standing): seq<string>
  {
    if items == [] then []
    else
      var last := items[|items| - 1];
      IdsWhere(items[..|items| - 1], other, standing) + if StandingIn(other, last) == standing then [last.id] else []
  }

  function Verdict(
      sameOrder: bool, revision: nat, added: seq<string>, updated: seq<string>, removed: seq<string>): Delta
  {
    var settled := added == [] && updated == [] && removed == [];
    var reordered := !sameOrder && settled;
    var changed := reordered || !settled;
    var next := if changed && revision + 1 < U64_LIMIT then revision + 1 else revision;
    Delta(changed, reordered, next, added, updated, removed)
  }

  function Diff(before: seq<Item>, after: seq<Item>, revision: nat): Delta
  {
    var o, n := Index(before), Index(after);
    Verdict(Ids(before) == Ids(after), revision,
            IdsWhere(after, o, Missing), IdsWhere(after, o, Differing), IdsWhere(before, n, Missing))
  }

  method BuildIndex(items: seq<Item>) returns (m: map<string, string>)
    ensures m == Index(items)
  {
    m := map[];
    for i := 0 to |items|
      invariant m == Index(items[..i])
    {
      m := m[items[i].id := items[i].fingerprint];
      assert items[..i + 1][..i] == items[..i];
    }
    assert items[..|items|] == items;
  }

  method DiffContextItems(before: seq<Item>, after: seq<Item>, revision: nat) returns (d: Delta)
    ensures d == Diff(before, after, revision)
  {
    var o := BuildIndex(before);
    var n := BuildIndex(after);
    var added, updated, removed := [], [], [];
    for i := 0 to |after|
      invariant added == IdsWhere(after[..i], o, Missing) && updated == IdsWhere(after[..i], o, Differing)
    {
      assert after[..i + 1][..i] == after[..i];
      if after[i].id !in o {
        added := added + [after[i].id];
      } else if o[after[i].id] != after[i].fingerprint {
        updated := updated + [after[i].id];
      }
    }
    for i := 0 to |before|
      invariant removed == IdsWhere(before[..i], n, Missing)
    {
      assert before[..i + 1][..i] == before[..i];
      if before[i].id !in n { removed := removed + [before[i].id]; }
    }
    assert after[..|after|] == after && before[..|before|] == before;
    d := Verdict(Ids(before) == Ids(after), revision, added, updated, removed);
  }

  // ------------------------------------------------- what the parts contain

  lemma {:induction false} IdsWhereMembers(items: seq<Item>, other: map<string, string>, standing: Standing, id: string)
    ensures id in IdsWhere(items, other, standing) <==>
              exists i :: 0 <= i < |items| && StandingIn(other, items[i]) == standing && items[i].id == id
  {
    if items != [] {
      var front := items[..|items| - 1];
      IdsWhereMembers(front, other, standing, id);
      assert forall i :: 0 <= i < |front| ==> front[i] == items[i];
    }
  }

  lemma IdsWhereEmpty(items: seq<Item>, other: map<string, string>, standing: Standing)
    ensures IdsWhere(items, other, standing) == [] <==>
            forall i :: 0 <= i < |items| ==> StandingIn(other, items[i]) != standing
  {
    forall i | 0 <= i < |items| && IdsWhere(items, other, standing) == []
      ensures StandingIn(other, items[i]) != standing
    {
      IdsWhereMembers(items, other, standing, items[i].id);
    }
    if IdsWhere(items, other, standing) != [] {
      IdsWhereMembers(items, other, standing, IdsWhere(items, other, standing)[0]);
    }
  }

  lemma {:induction false} IndexMembers(items: seq<Item>, id: string)
    ensures id in Index(items) <==> exists i :: 0 <= i < |items| && items[i].id == id
    ensures id in Index(items) ==>
            exists i :: 0 <= i < |items| && items[i].id == id && items[i].fingerprint == Index(items)[id]
  {
    if items != [] {
      var front := items[..|items| - 1];
      IndexMembers(front, id);
      assert forall i :: 0 <= i < |front| ==> front[i] == items[i];
    }
  }

  // --------------------------------------------------- when the diff is right

  /** Equal ids carry equal fingerprints; distinct ids are a special case. */
  predicate Consistent(items: seq<Item>)
  {
    forall i, j :: 0 <= i < |items| && 0 <= j < |items| && items[i].id == items[j].id ==>
      items[i].fingerprint == items[j].fingerprint
  }

  predicate Distinct(items: seq<Item>)
  {
    forall i, j :: 0 <= i < j < |items| ==> items[i].id != items[j].id
  }

  /** The two snapshots show the same ids with the same fingerprints in the same order. */
  predicate SameSequence(a: seq<Item>, b: seq<Item>)
  {
    |a| == |b| && forall i :: 0 <= i < |a| ==> a[i].id == b[i].id && a[i].fingerprint == b[i].fingerprint
  }

  /** A change is reported iff the id order differs or some new item differs from the indexed one. */
  lemma ChangedMeans(before: seq<Item>, after: seq<Item>, revision: nat)
    ensures Diff(before, after, revision).changed <==>
              Ids(before) != Ids(after) ||
                exists i :: 0 <= i < |after| && StandingIn(Index(before), after[i]) == Differing
  {
    var o, n := Index(before), Index(after);
    IdsWhereEmpty(after, o, Missing);
    IdsWhereEmpty(after, o, Differing);
    IdsWhereEmpty(before, n, Missing);
    if Ids(before) == Ids(after) {
      forall i | 0 <= i < |after| ensures after[i].id in o && before[i].id in n {
        assert Ids(before)[i] == Ids(after)[i];
        IndexMembers(before, after[i].id);
        IndexMembers(after, before[i].id);
      }
    }
  }

  lemma ConsistentIndex(items: seq<Item>, i: nat)
    requires Consistent(items) && i < |items|
    ensures items[i].id in Index(items) && Index(items)[items[i].id] == items[i].fingerprint
  {
    IndexMembers(items, items[i].id);
  }

  lemma InconsistentIndex(items: seq<Item>) returns (k: nat)
    requires !Consistent(items)
    ensures k < |items| && StandingIn(Index(items), items[k]) == Differing
  {
    var i, j :| 0 <= i < |items| && 0 <= j < |items| && items[i].id == items[j].id &&
      items[i].fingerprint != items[j].fingerprint;
    IndexMembers(items, items[i].id);
    k := if Index(items)[items[i].id] != items[i].fingerprint then i else j;
  }

  lemma SameIds(a: seq<Item>, b: seq<Item>)
    ensures Ids(a) == Ids(b) <==> |a| == |b| && forall i :: 0 <= i < |a| ==> a[i].id == b[i].id
  {
    if Ids(a) == Ids(b) {
      forall i | 0 <= i < |a| ensures a[i].id == b[i].id { assert Ids(a)[i] == Ids(b)[i]; }
    }
  }

  /** Against `before`, a change is reported exactly when the snapshots differ. */
  ghost predicate Exact(before: seq<Item>)
  {
    forall after: seq<Item>, revision: nat :: Diff(before, after, revision).changed <==> !SameSequence(before, after)
  }

  /**
   * The diff is exact against every new snapshot precisely when the old one gives each id one
   * fingerprint; one that gives an id two even reports a change against itself.
   */
  lemma DiffExact(before: seq<Item>)
    ensures Exact(before) <==> Consistent(before)
  {
    if Consistent(before) {
      forall after: seq<Item>, revision: nat
        ensures Diff(before, after, revision).changed <==> !SameSequence(before, after)
      {
        DiffExactOn(before, after, revision);
      }
    } else {
      var k := InconsistentIndex(before);
      ChangedMeans(before, before, 0);
      assert Diff(before, before, 0).changed && SameSequence(before, before);
    }
  }

  lemma DiffExactOn(before: seq<Item>, after: seq<Item>, revision: nat)
    requires Consistent(before)
    ensures Diff(before, after, revision).changed <==> !SameSequence(before, after)
  {
    ChangedMeans(before, after, revision);
    SameIds(before, after);
    if Ids(before) == Ids(after) {
      forall i | 0 <= i < |after|
        ensures StandingIn(Index(before), after[i]) == Differing <==> before[i].fingerprint != after[i].fingerprint
      {
        ConsistentIndex(before, i);
      }
    }
  }

  /**
   * For snapshots with distinct ids the three lists are the map differences, `reordered` means the
   * maps agree and only the order differs, and the revision rises by one exactly on a change,
   * until it saturates.
   */
  lemma DiffIsMapDifference(before: seq<Item>, after: seq<Item>, revision: nat, id: string)
    requires Distinct(before) && Distinct(after) && revision < U64_LIMIT
    ensures var d, o, n := Diff(before, after, revision), Index(before), Index(after);
            && (id in d.added <==> id in n && id !in o)
            && (id in d.updated <==> id in n && id in o && o[id] != n[id])
            && (id in d.removed <==> id in o && id !in n)
            && (d.reordered <==> o == n && Ids(before) != Ids(after))
            && d.revision == (if !SameSequence(before, after) && revision < U64_LIMIT - 1 then revision + 1
              else revision)
  {
    DiffExactOn(before, after, revision);
    ListsAreDifferences(before, after, revision, id);
    var d, o, n := Diff(before, after, revision), Index(before), Index(after);
    if d.added == [] && d.updated == [] && d.removed == [] {
      forall k
        ensures (k in o <==> k in n) && (k in o ==> o[k] == n[k])
      { ListsAreDifferences(before, after, revision, k); }
      assert o == n;
    } else {
      var k := if d.added != [] then d.added[0] else if d.updated != [] then d.updated[0] else d.removed[0];
      ListsAreDifferences(before, after, revision, k);
      assert o != n;
    }
  }

  lemma ListsAreDifferences(before: seq<Item>, after: seq<Item>, revision: nat, id: string)
    requires Distinct(before) && Distinct(after)
    ensures var d, o, n := Diff(before, after, revision), Index(before), Index(after);
            && (id in d.added <==> id in n && id !in o)
            && (id in d.updated <==> id in n && id in o && o[id] != n[id])
            && (id in d.removed <==> id in o && id !in n)
  {
    var o, n := Index(before), Index(after);
    IdsWhereMembers(after, o, Missing, id);
    IdsWhereMembers(after, o, Differing, id);
    IdsWhereMembers(before, n, Missing, id);
    IndexMembers(before, id);
    IndexMembers(after, id);
    forall i | 0 <= i < |after| && after[i].id == id
      ensures n[id] == after[i].fingerprint
    { ConsistentIndex(after, i); }
  }

  // --------------------------------------------------- when the tape is fresh

  ghost predicate Injective(digest: Digest)
  {
    forall a, b :: digest(a) == digest(b) ==> a == b
  }

  predicate Fingerprinted(digest: Digest, items: seq<Item>)
  {
    forall i :: 0 <= i < |items| ==> items[i] == Normalized(digest, items[i])
  }

  /** The items a tape holds after a snapshot is applied to it. */
  function Applied(digest: Digest, held: seq<Item>, items: seq<Item>, revision: nat): seq<Item>
  {
    var current := NormalizedAll(digest, items);
    if Diff(held, current, revision).changed then current else held
  }

  /** Applying any snapshot leaves the tape holding that snapshot. */
  ghost predicate Follows(digest: Digest, held: seq<Item>)
  {
    forall items: seq<Item>, revision: nat :: Applied(digest, held, items, revision) == NormalizedAll(digest, items)
  }

  /** The new items differ from the held ones only in how their joined texts divide into fields. */
  predicate Redivides(held: seq<Item>, items: seq<Item>)
  {
    && |held| == |items|
    && (forall i :: 0 <= i < |held| ==> held[i].id == items[i].id && Joined(held[i]) == Joined(items[i]))
    && exists i :: 0 <= i < |held| && !SameFields(held[i], items[i])
  }

  predicate SameFields(a: Item, b: Item) { a.kind == b.kind && a.title == b.title && a.content == b.content }

  /** No line break in any field, so the two that join the fields are the only ones. */
  predicate Unbroken(i: Item) { '\n' !in i.kind && '\n' !in i.title && '\n' !in i.content }

  predicate AllUnbroken(items: seq<Item>) { forall i :: 0 <= i < |items| ==> Unbroken(items[i]) }

  lemma SplitUnique(a: string, b: string, x: string, y: string)
    requires '\n' !in a && '\n' !in x && a + "\n" + b == x + "\n" + y
    ensures a == x && b == y
  {
    var s := a + "\n" + b;
    assert s[|a|] == '\n' && s[|x|] == '\n';
    assert forall i :: 0 <= i < |a| ==> s[i] == a[i];
    assert forall i :: 0 <= i < |x| ==> s[i] == x[i];
    assert |a| == |x|;
    assert a == s[..|a|] == x;
    assert b == s[|a| + 1..] == y;
  }

  /** A joined text with two line breaks divides in one way. */
  lemma UnbrokenDivides(a: Item, b: Item)
    requires Unbroken(a) && Joined(a) == Joined(b)
    ensures SameFields(a, b)
  {
    BreaksAddUp(a);
    BreaksAddUp(b);
    assert Unbroken(b);
    FieldsUnique(a, b);
  }

  lemma BreaksAddUp(i: Item)
    ensures multiset(Joined(i))['\n'] == 2 + multiset(i.kind)['\n'] + multiset(i.title)['\n'] +
            multiset(i.content)['\n']
  {
    assert multiset("\n")['\n'] == 1;
  }

  /** So do two texts whose kinds and titles hold no line break. */
  lemma FieldsUnique(a: Item, b: Item)
    requires '\n' !in a.kind && '\n' !in b.kind && '\n' !in a.title && '\n' !in b.title && Joined(a) == Joined(b)
    ensures SameFields(a, b)
  {
    assert Joined(a) == a.kind + "\n" + (a.title + "\n" + a.content);
    assert Joined(b) == b.kind + "\n" + (b.title + "\n" + b.content);
    SplitUnique(a.kind, a.title + "\n" + a.content, b.kind, b.title + "\n" + b.content);
    SplitUnique(a.title, a.content, b.title, b.content);
  }

  /** Any third line break allows another division. */
  lemma BrokenRedivides(a: Item) returns (b: Item)
    requires !Unbroken(a)
    ensures b.id == a.id && Joined(b) == Joined(a) && !SameFields(a, b)
  {
    if '\n' in a.kind {
      var p, q := BreakOf(a.kind);
      b := a.(kind := p, title := q + "\n" + a.title);
      assert Joined(b) == (p + "\n" + q) + "\n" + a.title + "\n" + a.content;
    } else if '\n' in a.title {
      var p, q := BreakOf(a.title);
      b := a.(kind := a.kind + "\n" + p, title := q);
      assert Joined(b) == a.kind + "\n" + (p + "\n" + q) + "\n" + a.content;
    } else {
      var p, q := BreakOf(a.content);
      b := a.(title := a.title + "\n" + p, content := q);
      assert Joined(b) == a.kind + "\n" + a.title + "\n" + (p + "\n" + q);
    }
  }

  lemma BreakOf(s: string) returns (p: string, q: string)
    requires '\n' in s
    ensures s == p + "\n" + q
  {
    var k :| 0 <= k < |s| && s[k] == '\n';
    p, q := s[..k], s[k + 1..];
  }

  /** An item with the same id as item `i` that carries the indexed fingerprint. */
  ghost function Shadow(held: seq<Item>, i: nat): (x: Item)
    requires i < |held|
    ensures x in held && x.id == held[i].id && StandingIn(Index(held), x) == Same
  {
    IndexMembers(held, held[i].id);
    var k: nat :| k < |held| && held[k].id == held[i].id && held[k].fingerprint == Index(held)[held[i].id];
    held[k]
  }

  ghost function Shadows(held: seq<Item>): (r: seq<Item>)
    ensures |r| == |held| && forall i :: 0 <= i < |r| ==>
            r[i] in held && r[i].id == held[i].id && StandingIn(Index(held), r[i]) == Same
  {
    seq(|held|, i requires 0 <= i < |held| => Shadow(held, i))
  }

  /**
   * With a collision-free digest, a tape follows every snapshot iff its items give each id one
   * fingerprint and hold no line break. Two held items with one id and different contents make
   * some later snapshot be taken for unchanged, and so does any line break: the fields of that
   * item can be divided differently under the same fingerprint.
   */
  lemma FollowsExactly(digest: Digest, held: seq<Item>)
    requires Injective(digest) && Fingerprinted(digest, held)
    ensures Follows(digest, held) <==> Consistent(held) && AllUnbroken(held)
  {
    if !Consistent(held) {
      var k := InconsistentIndex(held);
      StaleAgainst(digest, held, k);
    } else if !AllUnbroken(held) {
      var k :| 0 <= k < |held| && !Unbroken(held[k]);
      var items := BrokenLags(digest, held, k);
      assert Applied(digest, held, items, 0) == held && items[k] != held[k];
    } else {
      forall items: seq<Item>, revision: nat
        ensures Applied(digest, held, items, revision) == NormalizedAll(digest, items)
      {
        UnbrokenKeeps(held, items);
        FollowsOn(digest, held, items, revision);
      }
    }
  }

  /** Whatever the digest, a line break in any held item lets a snapshot with other fields pass for unchanged. */
  lemma BrokenLags(digest: Digest, held: seq<Item>, k: nat) returns (items: seq<Item>)
    requires Fingerprinted(digest, held) && Consistent(held) && k < |held| && !Unbroken(held[k])
    ensures |items| == |held| && NormalizedAll(digest, items) == items && !SameFields(held[k], items[k])
    ensures forall revision: nat :: Applied(digest, held, items, revision) == held
  {
    hide Diff, Consistent, Unbroken;
    var b := BrokenRedivides(held[k]);
    items := held[k := Normalized(digest, b)];
    assert held[k] == Normalized(digest, held[k]);
    forall i | 0 <= i < |items| ensures items[i] == Normalized(digest, items[i]) {
      if i == k { assert Joined(items[k]) == Joined(b); } else { assert items[i] == held[i]; }
    }
    assert NormalizedAll(digest, items) == items;
    assert SameSequence(held, items);
    forall revision: nat ensures Applied(digest, held, items, revision) == held {
      DiffExactOn(held, items, revision);
    }
  }

  /** Snapshot by snapshot: a consistent tape follows exactly those that do not redivide its items. */
  lemma FollowsOn(digest: Digest, held: seq<Item>, items: seq<Item>, revision: nat)
    requires Injective(digest) && Fingerprinted(digest, held) && Consistent(held)
    ensures Applied(digest, held, items, revision) == NormalizedAll(digest, items) <==> !Redivides(held, items)
  {
    hide Diff, Joined, Consistent;
    var n := NormalizedAll(digest, items);
    DiffExactOn(held, n, revision);
    if SameSequence(held, n) {
      forall i | 0 <= i < |n|
        ensures Joined(held[i]) == Joined(items[i]) && (held[i] == n[i] <==> SameFields(held[i], items[i]))
      {
        assert held[i] == Normalized(digest, held[i]) && n[i] == Normalized(digest, items[i]);
      }
      if forall i :: 0 <= i < |n| ==> held[i] == n[i] { assert held == n; }
    } else if |held| == |items| {
      var i :| 0 <= i < |n| && !(held[i].id == n[i].id && held[i].fingerprint == n[i].fingerprint);
      assert held[i] == Normalized(digest, held[i]) && n[i] == Normalized(digest, items[i]);
    }
  }

  /** Neither an unbroken tape nor plain titles and kinds on both sides leave room for redividing. */
  lemma UnbrokenKeeps(held: seq<Item>, items: seq<Item>)
    ensures AllUnbroken(held) || (Plain(held) && Plain(items)) ==> !Redivides(held, items)
  {
    hide Joined;
    if Redivides(held, items) {
      var i :| 0 <= i < |held| && !SameFields(held[i], items[i]);
      if AllUnbroken(held) { UnbrokenDivides(held[i], items[i]); }
      if Plain(held) && Plain(items) { FieldsUnique(held[i], items[i]); }
    }
  }

  /** Kind and title hold no line break; the content may. */
  predicate Plain(items: seq<Item>)
  {
    forall i :: 0 <= i < |items| ==> '\n' !in items[i].kind && '\n' !in items[i].title
  }

  lemma ShadowsUnchanged(digest: Digest, held: seq<Item>)
    requires Fingerprinted(digest, held)
    ensures NormalizedAll(digest, Shadows(held)) == Shadows(held) && !Diff(held, Shadows(held), 0).changed
  {
    hide Shadows, Index, Diff, Joined;
    var n := Shadows(held);
    forall i | 0 <= i < |held| ensures n[i] == Normalized(digest, n[i]) {
      var j :| 0 <= j < |held| && held[j] == n[i];
    }
    SameIds(held, n);
    ChangedMeans(held, n, 0);
  }

  lemma StaleAgainst(digest: Digest, held: seq<Item>, k: nat)
    requires Fingerprinted(digest, held) && k < |held| && StandingIn(Index(held), held[k]) == Differing
    ensures !Follows(digest, held)
  {
    hide Shadows, Index, Diff;
    ShadowsUnchanged(digest, held);
    assert Applied(digest, held, Shadows(held), 0) == held;
    assert Shadows(held)[k] != held[k];
  }

  /** A line break in a title can hide a change even from a collision-free digest. */
  lemma LineBreakHidesChange(digest: Digest)
    ensures var a := Normalized(digest, Item("x", "k", "t", "u\nv", ""));
            var b := Item("x", "k", "t\nu", "v", "");
            Fingerprinted(digest, [a]) && Consistent([a]) && Applied(digest, [a], [b], 0) == [a] &&
              a.content != b.content
  {
    var a := Normalized(digest, Item("x", "k", "t", "u\nv", ""));
    var b := Item("x", "k", "t\nu", "v", "");
    assert Joined(a) == Joined(b);
    var n := NormalizedAll(digest, [b]);
    assert SameSequence([a], n);
    DiffExactOn([a], n, 0);
  }
}

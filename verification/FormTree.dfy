/**
 The data tree that form values and uploads are mounted into, as values: what `mount` does to a
 tree, when it fails, and on what condition the result does not depend on the order in which Go
 happens to visit the form.
 */
module FormTree {
  import opened Text

  datatype Tree<V> = One(v: V) | Many(vs: seq<V>) | Node(kids: map<string, Tree<V>>)

  type Kids<V> = map<string, Tree<V>>

  /** Uploads and posted fields differ in the value a single-value field takes: the first or the last. */
  datatype Pick = First | Last

  function Single<V>(pick: Pick, v: seq<V>): Tree<V>
    requires v != []
  {
    One(if pick.First? then v[0] else v[|v| - 1])
  }

  /** `mount`; `None` is a failed type assertion. */
  function Mount<V>(d: Kids<V>, i: seq<string>, v: seq<V>, pick: Pick): Option<Kids<V>>
    requires i != [] && v != []
    decreases |i|
  {
    if |i| == 1 then Some(d[i[0] := Single(pick, v)])
    else if |i| == 2 && i[1] == "" then Some(d[i[0] := Many(v)])
    else if i[0] in d then
      if d[i[0]].Node? then
        var sub := Mount(d[i[0]].kids, i[1..], v, pick);
        if sub.Some? then Some(d[i[0] := Node(sub.value)]) else None
      else None
    else
      var sub := Mount(map[], i[1..], v, pick);
      if sub.Some? then Some(d[i[0] := Node(sub.value)]) else None
  }

  /** Where an index list points: a trailing empty index means "the whole list". */
  predicate WholeList(i: seq<string>)
  {
    |i| >= 2 && i[|i| - 1] == ""
  }

  function Slot(i: seq<string>): (p: seq<string>)
    requires i != []
    ensures p != []
  {
    if WholeList(i) then i[..|i| - 1] else i
  }

  function Leaf<V>(i: seq<string>, v: seq<V>, pick: Pick): (t: Tree<V>)
    requires v != []
    ensures !t.Node?
  {
    if WholeList(i) then Many(v) else Single(pick, v)
  }

  /** Puts a leaf at the end of a path and makes the nodes on the way. */
  function Place<V>(d: Kids<V>, p: seq<string>, x: Tree<V>): Option<Kids<V>>
    requires p != []
    decreases |p|, 1
  {
    var kid := Kid(d, p, x);
    if kid.Some? then Some(d[p[0] := kid.value]) else None
  }

  /** What comes to stand under the first key of the path. */
  function Kid<V>(d: Kids<V>, p: seq<string>, x: Tree<V>): Option<Tree<V>>
    requires p != []
    decreases |p|, 0
  {
    if |p| == 1 then Some(x)
    else if p[0] in d && !d[p[0]].Node? then None
    else
      var sub := Place(Below(d, p[0]), p[1..], x);
      if sub.Some? then Some(Node(sub.value)) else None
  }

  /** The children under a key: none when the key is missing. */
  function Below<V>(d: Kids<V>, k: string): Kids<V>
  {
    if k in d && d[k].Node? then d[k].kids else map[]
  }

  /** `mount` puts the leaf into the slot. */
  lemma {:induction false} MountIsPlace<V>(d: Kids<V>, i: seq<string>, v: seq<V>, pick: Pick)
    requires i != [] && v != []
    ensures Mount(d, i, v, pick) == Place(d, Slot(i), Leaf(i, v, pick))
    decreases |i|
  {
    if |i| == 1 {
    } else if |i| == 2 && i[1] == "" {
      assert Slot(i) == [i[0]];
    } else {
      assert WholeList(i) <==> WholeList(i[1..]);
      assert Slot(i)[0] == i[0] && Slot(i)[1..] == Slot(i[1..]);
      MountIsPlace(Below(d, i[0]), i[1..], v, pick);
    }
  }

  function Lookup<V>(d: Kids<V>, r: seq<string>): Option<Tree<V>>
    requires r != []
    decreases |r|
  {
    if r[0] !in d then None
    else if |r| == 1 then Some(d[r[0]])
    else if d[r[0]].Node? then Lookup(d[r[0]].kids, r[1..])
    else None
  }

  /** Some proper prefix of the path holds a value instead of a node. */
  ghost predicate Blocked<V>(d: Kids<V>, p: seq<string>)
  {
    exists n | 0 < n < |p| :: Lookup(d, p[..n]).Some? && !Lookup(d, p[..n]).value.Node?
  }

  lemma LookupPrefix<V>(d: Kids<V>, p: seq<string>, n: nat)
    requires 1 < n <= |p|
    ensures Lookup(d, p[..n]) == if p[0] in d && d[p[0]].Node? then Lookup(d[p[0]].kids, p[1..][..n - 1]) else None
  {
    assert p[..n][1..] == p[1..][..n - 1];
  }

  /** The type assertion fails exactly when a proper prefix of the slot holds a value. */
  lemma {:induction false} PlaceFailsExactly<V>(d: Kids<V>, p: seq<string>, x: Tree<V>)
    requires p != []
    ensures Place(d, p, x).None? <==> Blocked(d, p)
    decreases |p|
  {
    if |p| > 1 {
      var first := Lookup(d, p[..1]);
      if p[0] in d && !d[p[0]].Node? {
        assert first.Some? && !first.value.Node?;
      } else {
        var sub := Below(d, p[0]);
        PlaceFailsExactly(sub, p[1..], x);
        if Blocked(d, p) {
          var n :| 0 < n < |p| && Lookup(d, p[..n]).Some? && !Lookup(d, p[..n]).value.Node?;
          assert n > 1;
          LookupPrefix(d, p, n);
          assert Lookup(sub, p[1..][..n - 1]).Some? && !Lookup(sub, p[1..][..n - 1]).value.Node?;
        }
        if Blocked(sub, p[1..]) {
          var n :| 0 < n < |p[1..]| && Lookup(sub, p[1..][..n]).Some? && !Lookup(sub, p[1..][..n]).value.Node?;
          LookupPrefix(d, p, n + 1);
          assert Lookup(d, p[..n + 1]).Some? && !Lookup(d, p[..n + 1]).value.Node?;
        }
      }
    }
  }

  /** What a tree holds after a leaf is placed: the leaf, nodes above it, nothing below it, and the rest as before. */
  lemma {:induction false} LookupPlaced<V>(d: Kids<V>, p: seq<string>, x: Tree<V>, r: seq<string>)
    requires p != [] && r != [] && Place(d, p, x).Some? && !x.Node?
    ensures var found := Lookup(Place(d, p, x).value, r);
            if r == p then found == Some(x)
            else if r <= p then found.Some? && found.value.Node?
            else if p <= r then found == None
            else found == Lookup(d, r)
    decreases |p|
  {
    if |p| == 1 {
    } else if r[0] == p[0] && |r| > 1 {
      assert p == [p[0]] + p[1..] && r == [r[0]] + r[1..];
      LookupPlaced(Below(d, p[0]), p[1..], x, r[1..]);
    }
  }

  /**
   The value a field has in the end: with two indexes or more and an empty last one, the whole list under
   the others; otherwise, under all of them, its last value for a posted field and its first for an upload.
   */
  ghost predicate Found<V>(d: Kids<V>, i: seq<string>, v: seq<V>, pick: Pick)
    requires i != [] && v != []
  {
    if |i| >= 2 && i[|i| - 1] == "" then Lookup(d, i[..|i| - 1]) == Some(Many(v))
    else Lookup(d, i) == Some(One(if pick == Last then v[|v| - 1] else v[0]))
  }

  /** `mount` leaves the field's value where its name says. */
  lemma MountedIsFound<V>(d: Kids<V>, i: seq<string>, v: seq<V>, pick: Pick)
    requires i != [] && v != [] && Mount(d, i, v, pick).Some?
    ensures Found(Mount(d, i, v, pick).value, i, v, pick)
  {
    MountIsPlace(d, i, v, pick);
    LookupPlaced(d, Slot(i), Leaf(i, v, pick), Slot(i));
  }

  // Order of visiting

  predicate Incomparable(p: seq<string>, q: seq<string>)
  {
    !(p <= q) && !(q <= p)
  }

  datatype Entry<V> = Entry(slot: seq<string>, leaf: Tree<V>)

  predicate WellFormed<V>(e: Entry<V>)
  {
    e.slot != [] && !e.leaf.Node?
  }

  function PlaceIn<V>(d: Option<Kids<V>>, e: Entry<V>): Option<Kids<V>>
    requires e.slot != []
  {
    if d.Some? then Place(d.value, e.slot, e.leaf) else None
  }

  /** Placing two leaves whose slots do not lie above one another gives one result in either order, failure included. */
  lemma {:induction false} PlaceCommutes<V>(d: Kids<V>, p: seq<string>, x: Tree<V>, q: seq<string>, y: Tree<V>)
    requires p != [] && q != [] && Incomparable(p, q)
    ensures PlaceIn(Place(d, p, x), Entry(q, y)) == PlaceIn(Place(d, q, y), Entry(p, x))
    decreases |p|
  {
    var k := p[0];
    if k == q[0] {
      assert p == [k] + p[1..] && q == [k] + q[1..];
      assert |p| > 1 && |q| > 1;
      if !(k in d && !d[k].Node?) {
        PlaceCommutes(Below(d, k), p[1..], x, q[1..], y);
        PlaceTwice(d, p, x, q, y);
        PlaceTwice(d, q, y, p, x);
      }
    } else {
      PlaceApart(d, p, x, q, y);
    }
  }

  /** Under different first keys nothing meets. */
  lemma PlaceApart<V>(d: Kids<V>, p: seq<string>, x: Tree<V>, q: seq<string>, y: Tree<V>)
    requires p != [] && q != [] && p[0] != q[0]
    ensures PlaceIn(Place(d, p, x), Entry(q, y)) == PlaceIn(Place(d, q, y), Entry(p, x))
  {
    var a, b := Kid(d, p, x), Kid(d, q, y);
    KidElsewhere(d, p[0], a, q, y);
    KidElsewhere(d, q[0], b, p, x);
    if a.Some? && b.Some? {
      assert d[p[0] := a.value][q[0] := b.value] == d[q[0] := b.value][p[0] := a.value];
    }
  }

  /** What comes under a key depends on what stands there, not on the other keys. */
  lemma KidElsewhere<V>(d: Kids<V>, k: string, t: Option<Tree<V>>, q: seq<string>, y: Tree<V>)
    requires q != [] && k != q[0]
    ensures t.Some? ==> Kid(d[k := t.value], q, y) == Kid(d, q, y)
  {
    if t.Some? {
      assert Below(d[k := t.value], q[0]) == Below(d, q[0]);
    }
  }

  lemma PlaceTwice<V>(d: Kids<V>, p: seq<string>, x: Tree<V>, q: seq<string>, y: Tree<V>)
    requires |p| > 1 && |q| > 1 && p[0] == q[0] && !(p[0] in d && !d[p[0]].Node?)
    ensures var sub := PlaceIn(Place(Below(d, p[0]), p[1..], x), Entry(q[1..], y));
            PlaceIn(Place(d, p, x), Entry(q, y)) == if sub.Some? then Some(d[p[0] := Node(sub.value)]) else None
  {
    var k := p[0];
    var first := Place(Below(d, k), p[1..], x);
    if first.Some? {
      var d' := d[k := Node(first.value)];
      assert Place(d, p, x) == Some(d') && Below(d', k) == first.value;
      var both := Place(first.value, q[1..], y);
      assert Kid(d', q, y) == if both.Some? then Some(Node(both.value)) else None;
      if both.Some? {
        assert d'[k := Node(both.value)] == d[k := Node(both.value)];
      }
    }
  }

  ghost predicate AllWellFormed<V>(es: seq<Entry<V>>)
  {
    forall i | 0 <= i < |es| :: WellFormed(es[i])
  }

  ghost function PlaceAll<V>(d: Option<Kids<V>>, es: seq<Entry<V>>): Option<Kids<V>>
    requires AllWellFormed(es)
    decreases |es|
  {
    if es == [] then d else PlaceAll(PlaceIn(d, es[0]), es[1..])
  }

  /** Two fields that do not get into each other's way. */
  ghost predicate Compatible<V>(e: Entry<V>, f: Entry<V>)
  {
    Incomparable(e.slot, f.slot) || e == f
  }

  ghost predicate AllCompatible<V>(es: seq<Entry<V>>)
  {
    forall i, j | 0 <= i < j < |es| :: Compatible(es[i], es[j])
  }

  lemma PlaceInCommutes<V>(d: Option<Kids<V>>, e: Entry<V>, f: Entry<V>)
    requires WellFormed(e) && WellFormed(f) && Compatible(e, f)
    ensures PlaceIn(PlaceIn(d, e), f) == PlaceIn(PlaceIn(d, f), e)
  {
    if d.Some? && e != f {
      PlaceCommutes(d.value, e.slot, e.leaf, f.slot, f.leaf);
    }
  }

  /** A field may be moved to the front. */
  lemma {:induction false} MoveToFront<V>(d: Option<Kids<V>>, es: seq<Entry<V>>, k: nat)
    requires AllWellFormed(es) && k < |es| && forall i | 0 <= i < k :: Compatible(es[i], es[k])
    ensures AllWellFormed(es[..k] + es[k + 1..])
    ensures PlaceAll(d, es) == PlaceAll(PlaceIn(d, es[k]), es[..k] + es[k + 1..])
    decreases |es|
  {
    if k == 0 {
      assert es[..0] + es[1..] == es[1..];
    } else {
      var rest := es[1..];
      MoveToFront(PlaceIn(d, es[0]), rest, k - 1);
      PlaceInCommutes(d, es[0], es[k]);
      var moved := es[..k] + es[k + 1..];
      assert moved[1..] == rest[..k - 1] + rest[k..];
    }
  }

  /** A sequence without its element at `k`. */
  function Without<V>(es: seq<Entry<V>>, k: nat): seq<Entry<V>>
    requires k < |es|
  {
    es[..k] + es[k + 1..]
  }

  lemma WithoutKeeps<V>(es: seq<Entry<V>>, k: nat)
    requires k < |es|
    ensures AllWellFormed(es) ==> AllWellFormed(Without(es, k))
    ensures AllCompatible(es) ==> AllCompatible(Without(es, k))
    ensures multiset(Without(es, k)) == multiset(es) - multiset{es[k]}
  {
    assert es == es[..k] + [es[k]] + es[k + 1..];
  }

  /** Confluence: two orders of compatible fields give the same tree. */
  lemma {:induction false} OrderDoesNotMatter<V>(d: Option<Kids<V>>, es: seq<Entry<V>>, fs: seq<Entry<V>>)
    requires AllWellFormed(es) && AllWellFormed(fs) && AllCompatible(fs) && multiset(es) == multiset(fs)
    ensures PlaceAll(d, es) == PlaceAll(d, fs)
    decreases |es|
  {
    assert |multiset(es)| == |es| && |multiset(fs)| == |fs|;
    if es != [] {
      assert es[0] in multiset(fs);
      var k :| 0 <= k < |fs| && fs[k] == es[0];
      MoveToFront(d, fs, k);
      WithoutKeeps(fs, k);
      WithoutKeeps(es, 0);
      assert Without(es, 0) == es[1..];
      OrderDoesNotMatter(PlaceIn(d, es[0]), es[1..], Without(fs, k));
    }
  }

  // What the tree holds in the end

  /** Every field is found at its slot, and everything found is a field or a node above one. */
  ghost predicate Holds<V(!new)>(d: Kids<V>, es: seq<Entry<V>>)
  {
    && (forall e | e in es :: e.slot != [] && Lookup(d, e.slot) == Some(e.leaf))
    && (forall r: seq<string> | r != [] && Lookup(d, r).Some? :: Accounted(es, r, Lookup(d, r).value))
  }

  ghost predicate Accounted<V>(es: seq<Entry<V>>, r: seq<string>, t: Tree<V>)
  {
    if t.Node? then exists e | e in es :: r < e.slot else Entry(r, t) in es
  }

  lemma AccountedGrows<V>(es: seq<Entry<V>>, e: Entry<V>, r: seq<string>, t: Tree<V>)
    requires Accounted(es, r, t)
    ensures Accounted(es + [e], r, t)
  {
    if t.Node? {
      var f :| f in es && r < f.slot;
      assert f in es + [e];
    }
  }

  lemma CompatibleIsNotBlocked<V(!new)>(d: Kids<V>, es: seq<Entry<V>>, e: Entry<V>)
    requires Holds(d, es) && WellFormed(e) && forall f | f in es :: Compatible(f, e)
    ensures !Blocked(d, e.slot)
  {
  }

  lemma HoldsGrows<V(!new)>(d: Kids<V>, es: seq<Entry<V>>, e: Entry<V>)
    requires Holds(d, es) && WellFormed(e) && forall f | f in es :: WellFormed(f) && Compatible(f, e)
    ensures Place(d, e.slot, e.leaf).Some? && Holds(Place(d, e.slot, e.leaf).value, es + [e])
  {
    CompatibleIsNotBlocked(d, es, e);
    PlaceFailsExactly(d, e.slot, e.leaf);
    var d' := Place(d, e.slot, e.leaf).value;
    forall f | f in es + [e] ensures f.slot != [] && Lookup(d', f.slot) == Some(f.leaf) {
      LookupPlaced(d, e.slot, e.leaf, f.slot);
    }
    forall r: seq<string> | r != [] && Lookup(d', r).Some? ensures Accounted(es + [e], r, Lookup(d', r).value) {
      LookupPlaced(d, e.slot, e.leaf, r);
      if r <= e.slot {
        assert e in es + [e];
      } else {
        AccountedGrows(es, e, r, Lookup(d, r).value);
      }
    }
  }

  lemma {:induction false} PlaceAllHolds<V(!new)>(d: Kids<V>, done: seq<Entry<V>>, es: seq<Entry<V>>)
    requires Holds(d, done) && AllWellFormed(done + es) && AllCompatible(done + es) && AllWellFormed(es)
    ensures PlaceAll(Some(d), es).Some? && Holds(PlaceAll(Some(d), es).value, done + es)
    decreases |es|
  {
    if es == [] {
      assert done + es == done;
    } else {
      var all := done + es;
      forall f | f in done ensures WellFormed(f) && Compatible(f, es[0]) {
        var i :| 0 <= i < |done| && done[i] == f;
        assert all[i] == f && all[|done|] == es[0];
      }
      HoldsGrows(d, done, es[0]);
      assert (done + [es[0]]) + es[1..] == all;
      PlaceAllHolds(Place(d, es[0].slot, es[0].leaf).value, done + [es[0]], es[1..]);
    }
  }

  /** Compatible fields always mount, and each is found again where it belongs. */
  lemma CompatibleFieldsMount<V(!new)>(es: seq<Entry<V>>)
    requires AllWellFormed(es) && AllCompatible(es)
    ensures PlaceAll(Some(map[]), es).Some? && Holds(PlaceAll(Some(map[]), es).value, es)
  {
    assert [] + es == es;
    PlaceAllHolds(map[], [], es);
  }

  // Longer orders

  lemma {:induction false} PlaceAllAppend<V>(d: Option<Kids<V>>, es: seq<Entry<V>>, fs: seq<Entry<V>>)
    requires AllWellFormed(es) && AllWellFormed(fs)
    ensures AllWellFormed(es + fs) && PlaceAll(d, es + fs) == PlaceAll(PlaceAll(d, es), fs)
    decreases |es|
  {
    if es == [] {
      assert es + fs == fs;
    } else {
      assert (es + fs)[1..] == es[1..] + fs;
      PlaceAllAppend(PlaceIn(d, es[0]), es[1..], fs);
    }
  }

  lemma {:induction false} FailureIsFinal<V>(es: seq<Entry<V>>)
    requires AllWellFormed(es)
    ensures PlaceAll<V>(None, es) == None
    decreases |es|
  {
    if es != [] {
      FailureIsFinal(es[1..]);
    }
  }

  lemma {:induction false} SplitTwo<V>(es: seq<Entry<V>>, i: nat, j: nat) returns (rest: seq<Entry<V>>)
    requires i < j < |es| && AllWellFormed(es)
    ensures AllWellFormed(rest) && multiset(es) == multiset(rest + [es[i], es[j]])
  {
    WithoutKeeps(es, j);
    WithoutKeeps(Without(es, j), i);
    rest := Without(Without(es, j), i);
    assert Without(es, j)[i] == es[i];
  }

  lemma PlaceTwo<V>(d: Option<Kids<V>>, e: Entry<V>, f: Entry<V>)
    requires WellFormed(e) && WellFormed(f)
    ensures PlaceAll(d, [e, f]) == PlaceIn(PlaceIn(d, e), f)
  {
    assert [e, f][1..] == [f] && [f][1..] == [];
    assert PlaceAll(PlaceIn(d, e), [f]) == PlaceAll(PlaceIn(PlaceIn(d, e), f), []);
  }

  lemma LastOneWins<V>(rest: seq<Entry<V>>, e: Entry<V>, f: Entry<V>)
    requires AllWellFormed(rest) && WellFormed(e) && WellFormed(f)
    ensures AllWellFormed(rest + [e, f])
    ensures PlaceAll(Some(map[]), rest + [e, f]).Some? ==>
            Lookup(PlaceAll(Some(map[]), rest + [e, f]).value, f.slot) == Some(f.leaf)
  {
    PlaceAllAppend(Some(map[]), rest, [e, f]);
    var start := PlaceAll(Some(map[]), rest);
    PlaceTwo(start, e, f);
    var before := PlaceIn(start, e);
    if before.Some? && Place(before.value, f.slot, f.leaf).Some? {
      LookupPlaced(before.value, f.slot, f.leaf, f.slot);
    }
  }
}

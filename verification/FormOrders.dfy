/**
 Go visits a form as two maps, one wholly before the other, each in an order of its own choosing.
 This module says, for every form, exactly when parsing panics in all orders, when it panics in none,
 and when all orders give one tree.
 */
module FormOrders {
  import opened Text
  import opened FormTree
  import opened FormData

  /** The slot of the first lies strictly above the slot of the second. */
  predicate Above<V>(e: Entry<V>, f: Entry<V>)
  {
    e.slot < f.slot
  }

  ghost predicate SomeAbove<V>(es: seq<Entry<V>>)
  {
    exists i, j :: 0 <= i < j < |es| && Above(es[i], es[j])
  }

  // One order

  /** Every value in the tree is an entry. */
  ghost predicate LeavesFrom<V(!new)>(d: Kids<V>, es: seq<Entry<V>>)
  {
    forall r: seq<string> | r != [] && Lookup(d, r).Some? && !Lookup(d, r).value.Node? ::
      Entry(r, Lookup(d, r).value) in es
  }

  /** At or above the slot stands a value. */
  ghost predicate Sealed<V>(d: Kids<V>, p: seq<string>)
  {
    exists n | 0 < n <= |p| :: Lookup(d, p[..n]).Some? && !Lookup(d, p[..n]).value.Node?
  }

  lemma LeavesGrow<V(!new)>(d: Kids<V>, es: seq<Entry<V>>, e: Entry<V>)
    requires LeavesFrom(d, es) && WellFormed(e) && Place(d, e.slot, e.leaf).Some?
    ensures LeavesFrom(Place(d, e.slot, e.leaf).value, es + [e])
  {
    var d' := Place(d, e.slot, e.leaf).value;
    forall r: seq<string> | r != [] && Lookup(d', r).Some? && !Lookup(d', r).value.Node?
      ensures Entry(r, Lookup(d', r).value) in es + [e]
    {
      LookupPlaced(d, e.slot, e.leaf, r);
    }
  }

  lemma PlacedIsSealed<V>(d: Kids<V>, e: Entry<V>)
    requires WellFormed(e) && Place(d, e.slot, e.leaf).Some?
    ensures Sealed(Place(d, e.slot, e.leaf).value, e.slot)
  {
    LookupPlaced(d, e.slot, e.leaf, e.slot);
    assert e.slot[..|e.slot|] == e.slot;
  }

  /** What is sealed stays sealed: nothing can be placed below a value. */
  lemma SealedStays<V>(d: Kids<V>, e: Entry<V>, p: seq<string>)
    requires WellFormed(e) && Place(d, e.slot, e.leaf).Some? && Sealed(d, p)
    ensures Sealed(Place(d, e.slot, e.leaf).value, p)
  {
    var n :| 0 < n <= |p| && Lookup(d, p[..n]).Some? && !Lookup(d, p[..n]).value.Node?;
    var d', r, q := Place(d, e.slot, e.leaf).value, p[..n], e.slot;
    LookupPlaced(d, q, e.leaf, r);
    if q <= r {
      PlacedIsSealed(d, e);
      LookupPlaced(d, q, e.leaf, q);
      assert p[..|q|] == q;
    } else if r <= q {
      assert q[..n] == r;
      PlaceFailsExactly(d, q, e.leaf);
    }
  }

  lemma SealedBlocks<V>(d: Kids<V>, p: seq<string>, f: Entry<V>)
    requires WellFormed(f) && p < f.slot && Sealed(d, p)
    ensures Place(d, f.slot, f.leaf).None?
  {
    var n :| 0 < n <= |p| && Lookup(d, p[..n]).Some? && !Lookup(d, p[..n]).value.Node?;
    assert f.slot[..n] == p[..n];
    PlaceFailsExactly(d, f.slot, f.leaf);
  }

  /** The state of a visit: what has been placed is sealed, and nothing else stands in the tree. */
  ghost predicate Built<V(!new)>(d: Kids<V>, done: seq<Entry<V>>)
  {
    LeavesFrom(d, done) && forall i | 0 <= i < |done| :: Sealed(d, done[i].slot)
  }

  lemma BuiltGrows<V(!new)>(d: Kids<V>, done: seq<Entry<V>>, e: Entry<V>)
    requires Built(d, done) && WellFormed(e)
    ensures Place(d, e.slot, e.leaf).None? <==> exists i | 0 <= i < |done| :: Above(done[i], e)
    ensures Place(d, e.slot, e.leaf).Some? ==> Built(Place(d, e.slot, e.leaf).value, done + [e])
  {
    PlaceFailsExactly(d, e.slot, e.leaf);
    if Blocked(d, e.slot) {
      var n :| 0 < n < |e.slot| && Lookup(d, e.slot[..n]).Some? && !Lookup(d, e.slot[..n]).value.Node?;
      var f := Entry(e.slot[..n], Lookup(d, e.slot[..n]).value);
      var i :| 0 <= i < |done| && done[i] == f;
      assert Above(done[i], e);
    } else {
      forall i | 0 <= i < |done| ensures !Above(done[i], e) && Sealed(Place(d, e.slot, e.leaf).value, done[i].slot) {
        if Above(done[i], e) {
          SealedBlocks(d, done[i].slot, e);
        }
        SealedStays(d, e, done[i].slot);
      }
      LeavesGrow(d, done, e);
      PlacedIsSealed(d, e);
    }
  }

  lemma {:induction false} FailsFrom<V(!new)>(d: Kids<V>, done: seq<Entry<V>>, es: seq<Entry<V>>)
    requires Built(d, done) && AllWellFormed(es) && !SomeAbove(done)
    ensures PlaceAll(Some(d), es).None? <==> SomeAbove(done + es)
    decreases |es|
  {
    if es == [] {
      assert done + es == done;
    } else {
      BuiltGrows(d, done, es[0]);
      var all, next := done + es, done + [es[0]];
      assert next + es[1..] == all;
      if Place(d, es[0].slot, es[0].leaf).None? {
        var i :| 0 <= i < |done| && Above(done[i], es[0]);
        assert Above(all[i], all[|done|]);
        FailureIsFinal(es[1..]);
      } else {
        assert !SomeAbove(next);
        FailsFrom(Place(d, es[0].slot, es[0].leaf).value, next, es[1..]);
      }
    }
  }

  /** Visiting in a given order panics exactly when some slot comes after one that lies above it. */
  lemma FailsExactly<V(!new)>(es: seq<Entry<V>>)
    requires AllWellFormed(es)
    ensures PlaceAll(Some(map[]), es).None? <==> SomeAbove(es)
  {
    assert [] + es == es;
    FailsFrom(map[], [], es);
  }

  // All orders of two maps

  /** Some entry of the first lies above some entry of the second. */
  ghost predicate AnyAbove<V>(es: seq<Entry<V>>, fs: seq<Entry<V>>)
  {
    exists i, j :: 0 <= i < |es| && 0 <= j < |fs| && Above(es[i], fs[j])
  }

  ghost predicate OrderOf<V>(xs: seq<V>, ys: seq<V>)
  {
    multiset(xs) == multiset(ys)
  }

  ghost predicate AlwaysFails<V(!new)>(es: seq<Entry<V>>, fs: seq<Entry<V>>)
  {
    forall xs, ys | OrderOf(xs, es) && OrderOf(ys, fs) && AllWellFormed(xs + ys) ::
      PlaceAll(Some(map[]), xs + ys).None?
  }

  ghost predicate NeverFails<V(!new)>(es: seq<Entry<V>>, fs: seq<Entry<V>>)
  {
    forall xs, ys | OrderOf(xs, es) && OrderOf(ys, fs) && AllWellFormed(xs + ys) ::
      PlaceAll(Some(map[]), xs + ys).Some?
  }

  ghost predicate AlwaysGives<V(!new)>(es: seq<Entry<V>>, fs: seq<Entry<V>>, d: Kids<V>)
  {
    forall xs, ys | OrderOf(xs, es) && OrderOf(ys, fs) && AllWellFormed(xs + ys) ::
      PlaceAll(Some(map[]), xs + ys) == Some(d)
  }

  lemma IndexIn<V>(xs: seq<V>, ys: seq<V>, i: nat) returns (j: nat)
    requires OrderOf(xs, ys) && i < |xs|
    ensures j < |ys| && ys[j] == xs[i]
  {
    assert xs[i] in multiset(ys);
    j :| 0 <= j < |ys| && ys[j] == xs[i];
  }

  lemma WellFormedOrder<V>(xs: seq<Entry<V>>, es: seq<Entry<V>>)
    requires OrderOf(xs, es) && AllWellFormed(es)
    ensures AllWellFormed(xs)
  {
    forall i | 0 <= i < |xs| ensures WellFormed(xs[i]) {
      var j := IndexIn(xs, es, i);
    }
  }

  lemma AnyAboveOrder<V>(xs: seq<Entry<V>>, es: seq<Entry<V>>, ys: seq<Entry<V>>, fs: seq<Entry<V>>)
    requires OrderOf(xs, es) && OrderOf(ys, fs) && AnyAbove(xs, ys)
    ensures AnyAbove(es, fs)
  {
    var i, j :| 0 <= i < |xs| && 0 <= j < |ys| && Above(xs[i], ys[j]);
    var m := IndexIn(xs, es, i);
    var n := IndexIn(ys, fs, j);
    assert Above(es[m], fs[n]);
  }

  /** Where a slot comes after one above it: within the first list, within the second, or across. */
  lemma SomeAboveSplits<V>(xs: seq<Entry<V>>, ys: seq<Entry<V>>)
    ensures SomeAbove(xs + ys) <==> SomeAbove(xs) || SomeAbove(ys) || AnyAbove(xs, ys)
  {
    var all, n := xs + ys, |xs|;
    if SomeAbove(all) {
      var i, j :| 0 <= i < j < |all| && Above(all[i], all[j]);
      if j < n {
        assert Above(xs[i], xs[j]);
      } else if i >= n {
        assert Above(ys[i - n], ys[j - n]);
      } else {
        assert Above(xs[i], ys[j - n]);
      }
    }
    if SomeAbove(xs) {
      var i, j :| 0 <= i < j < |xs| && Above(xs[i], xs[j]);
      assert Above(all[i], all[j]);
    }
    if SomeAbove(ys) {
      var i, j :| 0 <= i < j < |ys| && Above(ys[i], ys[j]);
      assert Above(all[n + i], all[n + j]);
    }
    if AnyAbove(xs, ys) {
      var i, j :| 0 <= i < |xs| && 0 <= j < |ys| && Above(xs[i], ys[j]);
      assert Above(all[i], all[n + j]);
    }
  }

  ghost predicate Descending<V>(es: seq<Entry<V>>)
  {
    forall i, j | 0 <= i < j < |es| :: |es[i].slot| >= |es[j].slot|
  }

  lemma {:induction false} Deepest<V>(es: seq<Entry<V>>) returns (k: nat)
    requires es != []
    ensures k < |es| && forall i | 0 <= i < |es| :: |es[i].slot| <= |es[k].slot|
    decreases |es|
  {
    var n := |es| - 1;
    k := n;
    if n > 0 {
      var m := Deepest(es[..n]);
      assert forall i | 0 <= i < n :: es[..n][i] == es[i];
      k := if |es[m].slot| > |es[n].slot| then m else n;
    }
  }

  /** The deepest slots first: an order in which no slot comes after one above it. */
  lemma {:induction false} DeepestFirst<V>(es: seq<Entry<V>>) returns (xs: seq<Entry<V>>)
    ensures OrderOf(xs, es) && Descending(xs)
    decreases |es|
  {
    xs := [];
    if es != [] {
      var k := Deepest(es);
      var rest := DeepestFirst(Without(es, k));
      xs := [es[k]] + rest;
      FrontOfOrder(es, k, rest);
      forall j | 0 <= j < |rest| ensures |rest[j].slot| <= |es[k].slot| {
        NotDeeper(es, k, rest, j);
      }
    }
  }

  lemma NotDeeper<V>(es: seq<Entry<V>>, k: nat, rest: seq<Entry<V>>, j: nat)
    requires k < |es| && forall i | 0 <= i < |es| :: |es[i].slot| <= |es[k].slot|
    requires OrderOf(rest, Without(es, k)) && j < |rest|
    ensures |rest[j].slot| <= |es[k].slot|
  {
    var m := IndexIn(rest, Without(es, k), j);
    assert Without(es, k)[m] == es[if m < k then m else m + 1];
  }

  lemma DescendingHasNoneAbove<V>(xs: seq<Entry<V>>)
    requires Descending(xs)
    ensures !SomeAbove(xs)
  {
  }

  lemma FailsInOrder<V(!new)>(xs: seq<Entry<V>>, ys: seq<Entry<V>>)
    requires AllWellFormed(xs + ys)
    ensures PlaceAll(Some(map[]), xs + ys).None? <==> SomeAbove(xs) || SomeAbove(ys) || AnyAbove(xs, ys)
  {
    FailsExactly(xs + ys);
    SomeAboveSplits(xs, ys);
  }

  /** Parsing panics in every order, exactly when a slot of the first map lies above one of the second. */
  lemma AlwaysFailsExactly<V(!new)>(es: seq<Entry<V>>, fs: seq<Entry<V>>)
    requires AllWellFormed(es) && AllWellFormed(fs)
    ensures AlwaysFails(es, fs) <==> AnyAbove(es, fs)
  {
    if AnyAbove(es, fs) {
      forall xs, ys | OrderOf(xs, es) && OrderOf(ys, fs) && AllWellFormed(xs + ys)
        ensures PlaceAll(Some(map[]), xs + ys).None?
      {
        FailsInOrder(xs, ys);
        AnyAboveOrder(es, xs, fs, ys);
      }
    } else {
      var xs := DeepestFirst(es);
      var ys := DeepestFirst(fs);
      WellFormedOrder(xs, es);
      WellFormedOrder(ys, fs);
      FailsInOrder(xs, ys);
      DescendingHasNoneAbove(xs);
      DescendingHasNoneAbove(ys);
      if AnyAbove(xs, ys) {
        AnyAboveOrder(xs, es, ys, fs);
      }
      assert PlaceAll(Some(map[]), xs + ys).Some?;
    }
  }

  lemma ToFront<V>(es: seq<Entry<V>>, i: nat, j: nat) returns (xs: seq<Entry<V>>)
    requires i < |es| && j < |es| && Above(es[i], es[j])
    ensures OrderOf(xs, es) && SomeAbove(xs)
  {
    var rest := Without(es, i);
    xs := [es[i]] + rest;
    FrontOfOrder(es, i, rest);
    var n := if j < i then j else j - 1;
    assert rest[n] == es[j];
    assert Above(xs[0], xs[n + 1]);
  }

  lemma NoneAboveInOrder<V>(xs: seq<Entry<V>>, es: seq<Entry<V>>)
    requires OrderOf(xs, es) && SomeAbove(xs)
    ensures AnyAbove(es, es)
  {
    var i, j :| 0 <= i < j < |xs| && Above(xs[i], xs[j]);
    assert AnyAbove(xs, xs);
    AnyAboveOrder(xs, es, xs, es);
  }

  /** No two slots stand in each other's way, wherever they may meet. */
  ghost predicate NoneAbove<V>(es: seq<Entry<V>>, fs: seq<Entry<V>>)
  {
    !AnyAbove(es, es) && !AnyAbove(fs, fs) && !AnyAbove(es, fs)
  }

  /**
   Parsing panics in no order, exactly when no slot lies above another of its map, nor one of the first
   map above one of the second.
   */
  lemma NeverFailsExactly<V(!new)>(es: seq<Entry<V>>, fs: seq<Entry<V>>)
    requires AllWellFormed(es) && AllWellFormed(fs)
    ensures NeverFails(es, fs) <==> NoneAbove(es, fs)
  {
    if NoneAbove(es, fs) {
      forall xs, ys | OrderOf(xs, es) && OrderOf(ys, fs) && AllWellFormed(xs + ys)
        ensures PlaceAll(Some(map[]), xs + ys).Some?
      {
        NoneAboveGives(es, fs, xs, ys);
      }
    } else {
      var xs, ys := es, fs;
      if AnyAbove(es, es) {
        var i, j :| 0 <= i < |es| && 0 <= j < |es| && Above(es[i], es[j]);
        xs := ToFront(es, i, j);
      } else if AnyAbove(fs, fs) {
        var i, j :| 0 <= i < |fs| && 0 <= j < |fs| && Above(fs[i], fs[j]);
        ys := ToFront(fs, i, j);
      }
      WellFormedOrder(xs, es);
      WellFormedOrder(ys, fs);
      FailsInOrder(xs, ys);
      assert !PlaceAll(Some(map[]), xs + ys).Some?;
    }
  }

  lemma NoneAboveGives<V(!new)>(es: seq<Entry<V>>, fs: seq<Entry<V>>, xs: seq<Entry<V>>, ys: seq<Entry<V>>)
    requires NoneAbove(es, fs) && OrderOf(xs, es) && OrderOf(ys, fs) && AllWellFormed(xs + ys)
    ensures PlaceAll(Some(map[]), xs + ys).Some?
  {
    FailsInOrder(xs, ys);
    if SomeAbove(xs) {
      NoneAboveInOrder(xs, es);
    } else if SomeAbove(ys) {
      NoneAboveInOrder(ys, fs);
    } else if AnyAbove(xs, ys) {
      AnyAboveOrder(xs, es, ys, fs);
    }
  }

  // One tree

  /** Placing above or at a slot forgets what was placed there before. */
  lemma {:induction false} Absorbed<V>(d: Kids<V>, p: seq<string>, x: Tree<V>, q: seq<string>, y: Tree<V>)
    requires q != [] && q <= p && Place(d, p, x).Some?
    ensures Place(Place(d, p, x).value, q, y) == Place(d, q, y)
    decreases |q|
  {
    var k, d' := p[0], Place(d, p, x).value;
    if |q| == 1 {
      assert d'[k := y] == d[k := y];
    } else {
      assert q == [k] + q[1..] && p == [k] + p[1..];
      var sub := Place(Below(d, k), p[1..], x).value;
      assert d' == d[k := Node(sub)] && Below(d', k) == sub;
      Absorbed(Below(d, k), p[1..], x, q[1..], y);
      var kid := Kid(d, q, y);
      assert Kid(d', q, y) == kid;
      if kid.Some? {
        assert d'[k := kid.value] == d[k := kid.value];
      }
    }
  }

  /** An entry that is overwritten later, with nothing below it in between, may as well be left out. */
  lemma {:induction false} DropOverwritten<V>(d: Kids<V>, e: Entry<V>, es: seq<Entry<V>>, k: nat)
    requires WellFormed(e) && AllWellFormed(es) && k < |es| && es[k].slot <= e.slot
    requires forall i | 0 <= i < k :: !Above(e, es[i])
    requires PlaceIn(Some(d), e).Some? && PlaceAll(PlaceIn(Some(d), e), es).Some?
    ensures PlaceAll(PlaceIn(Some(d), e), es) == PlaceAll(Some(d), es)
    decreases k
  {
    var f, rest := es[0], es[1..];
    if f.slot <= e.slot {
      Absorbed(d, e.slot, e.leaf, f.slot, f.leaf);
    } else {
      assert Incomparable(e.slot, f.slot);
      PlaceCommutes(d, e.slot, e.leaf, f.slot, f.leaf);
      if PlaceIn(PlaceIn(Some(d), f), e).None? {
        FailureIsFinal(rest);
      } else {
        assert rest[k - 1] == es[k];
        DropOverwritten(PlaceIn(Some(d), f).value, e, rest, k - 1);
      }
    }
  }

  /** The entry is overwritten by one of these. */
  ghost predicate Covered<V>(e: Entry<V>, fs: seq<Entry<V>>)
  {
    exists j :: 0 <= j < |fs| && fs[j].slot <= e.slot
  }

  ghost function Uncovered<V>(es: seq<Entry<V>>, fs: seq<Entry<V>>): seq<Entry<V>>
    decreases |es|
  {
    if es == [] then []
    else if Covered(es[0], fs) then Uncovered(es[1..], fs)
    else [es[0]] + Uncovered(es[1..], fs)
  }

  lemma {:induction false} UncoveredAre<V>(es: seq<Entry<V>>, fs: seq<Entry<V>>, e: Entry<V>)
    ensures e in Uncovered(es, fs) <==> e in es && !Covered(e, fs)
    decreases |es|
  {
    if es != [] {
      UncoveredAre(es[1..], fs, e);
    }
  }

  /** The second map overwrites what it covers of the first. */
  lemma {:induction false} DropCovered<V>(d: Kids<V>, xs: seq<Entry<V>>, ys: seq<Entry<V>>)
    requires AllWellFormed(xs + ys) && !SomeAbove(xs + ys) && PlaceAll(Some(d), xs + ys).Some?
    ensures AllWellFormed(Uncovered(xs, ys) + ys)
    ensures PlaceAll(Some(d), xs + ys) == PlaceAll(Some(d), Uncovered(xs, ys) + ys)
    decreases |xs|
  {
    UncoveredWellFormed(xs, ys);
    if xs != [] {
      var e, rest, all := xs[0], xs[1..] + ys, xs + ys;
      assert all[0] == e && all[1..] == rest;
      if PlaceIn(Some(d), e).None? {
        FailureIsFinal(rest);
      }
      NoneAboveInRest(all);
      if Covered(e, ys) {
        var j :| 0 <= j < |ys| && ys[j].slot <= e.slot;
        var k := |xs| - 1 + j;
        assert rest[k] == ys[j];
        DropOverwritten(d, e, rest, k);
        DropCovered(d, xs[1..], ys);
      } else {
        DropCovered(PlaceIn(Some(d), e).value, xs[1..], ys);
        var kept := Uncovered(xs[1..], ys);
        assert Uncovered(xs, ys) + ys == [e] + (kept + ys);
        assert ([e] + (kept + ys))[1..] == kept + ys;
      }
    }
  }

  lemma UncoveredWellFormed<V>(xs: seq<Entry<V>>, ys: seq<Entry<V>>)
    requires AllWellFormed(xs + ys)
    ensures AllWellFormed(Uncovered(xs, ys) + ys)
  {
    var us := Uncovered(xs, ys);
    forall i | 0 <= i < |us + ys| ensures WellFormed((us + ys)[i]) {
      if i < |us| {
        UncoveredAre(xs, ys, us[i]);
        var k :| 0 <= k < |xs| && xs[k] == us[i];
        assert (xs + ys)[k] == us[i];
      } else {
        assert (us + ys)[i] == (xs + ys)[|xs| + i - |us|];
      }
    }
  }

  lemma NoneAboveInRest<V>(es: seq<Entry<V>>)
    requires es != [] && !SomeAbove(es)
    ensures !SomeAbove(es[1..]) && forall i | 0 <= i < |es[1..]| :: !Above(es[0], es[1..][i])
  {
    var rest := es[1..];
    forall i, j | 0 <= i < j < |rest| ensures !Above(rest[i], rest[j]) {
      assert !Above(es[i + 1], es[j + 1]);
    }
    forall i | 0 <= i < |rest| ensures !Above(es[0], rest[i]) {
      assert !Above(es[0], es[i + 1]);
    }
  }

  /** Fields of one slot agree, unless the second map overwrites them. */
  ghost predicate Agreeing<V>(es: seq<Entry<V>>, fs: seq<Entry<V>>)
  {
    && (forall i, j | 0 <= i < |es| && 0 <= j < |es| && es[i].slot == es[j].slot ::
          es[i] == es[j] || Covered(es[i], fs))
    && (forall i, j | 0 <= i < |fs| && 0 <= j < |fs| && fs[i].slot == fs[j].slot :: fs[i] == fs[j])
  }

  lemma CompatiblePair<V>(es: seq<Entry<V>>, fs: seq<Entry<V>>, e: Entry<V>, f: Entry<V>)
    requires NoneAbove(es, fs) && Agreeing(es, fs)
    requires (e in es && !Covered(e, fs)) || e in fs
    requires (f in es && !Covered(f, fs)) || f in fs
    ensures Compatible(e, f)
  {
    if e in fs && f in fs {
      var i, j :| 0 <= i < |fs| && 0 <= j < |fs| && fs[i] == e && fs[j] == f;
      assert !Above(fs[i], fs[j]) && !Above(fs[j], fs[i]);
    } else if e in fs {
      var i, j :| 0 <= i < |fs| && 0 <= j < |es| && fs[i] == e && es[j] == f;
      assert !Above(es[j], fs[i]) && !(fs[i].slot <= f.slot);
    } else if f in fs {
      var i, j :| 0 <= i < |es| && 0 <= j < |fs| && es[i] == e && fs[j] == f;
      assert !Above(es[i], fs[j]) && !(fs[j].slot <= e.slot);
    } else {
      var i, j :| 0 <= i < |es| && 0 <= j < |es| && es[i] == e && es[j] == f;
      assert !Above(es[i], es[j]) && !Above(es[j], es[i]);
    }
  }

  /** What is left after the overwritten entries are dropped is compatible. */
  lemma RestIsCompatible<V>(es: seq<Entry<V>>, fs: seq<Entry<V>>)
    requires NoneAbove(es, fs) && Agreeing(es, fs)
    ensures AllCompatible(Uncovered(es, fs) + fs)
  {
    var us := Uncovered(es, fs);
    forall i, j | 0 <= i < j < |us + fs| ensures Compatible((us + fs)[i], (us + fs)[j]) {
      var e, f := (us + fs)[i], (us + fs)[j];
      UncoveredAre(es, fs, e);
      UncoveredAre(es, fs, f);
      assert e in us || e in fs;
      assert f in us || f in fs;
      CompatiblePair(es, fs, e, f);
    }
  }

  lemma CoveredInOrder<V>(e: Entry<V>, ys: seq<Entry<V>>, fs: seq<Entry<V>>)
    requires OrderOf(ys, fs) && Covered(e, ys)
    ensures Covered(e, fs)
  {
    var j :| 0 <= j < |ys| && ys[j].slot <= e.slot;
    var k := IndexIn(ys, fs, j);
  }

  lemma {:induction false} UncoveredCount<V>(es: seq<Entry<V>>, fs: seq<Entry<V>>, e: Entry<V>)
    ensures multiset(Uncovered(es, fs))[e] == if Covered(e, fs) then 0 else multiset(es)[e]
    decreases |es|
  {
    if es != [] {
      UncoveredCount(es[1..], fs, e);
      assert es == [es[0]] + es[1..];
    }
  }

  lemma UncoveredInOrder<V(!new)>(xs: seq<Entry<V>>, es: seq<Entry<V>>, ys: seq<Entry<V>>, fs: seq<Entry<V>>)
    requires OrderOf(xs, es) && OrderOf(ys, fs)
    ensures multiset(Uncovered(xs, ys) + ys) == multiset(Uncovered(es, fs) + fs)
  {
    forall e: Entry<V> ensures multiset(Uncovered(xs, ys))[e] == multiset(Uncovered(es, fs))[e] {
      UncoveredCount(xs, ys, e);
      UncoveredCount(es, fs, e);
      if Covered(e, ys) {
        CoveredInOrder(e, ys, fs);
      } else if Covered(e, fs) {
        CoveredInOrder(e, fs, ys);
      }
    }
    assert multiset(Uncovered(xs, ys)) == multiset(Uncovered(es, fs));
  }

  lemma NoneAboveInAll<V>(es: seq<Entry<V>>, fs: seq<Entry<V>>, xs: seq<Entry<V>>, ys: seq<Entry<V>>)
    requires NoneAbove(es, fs) && OrderOf(xs, es) && OrderOf(ys, fs)
    ensures !SomeAbove(xs + ys)
  {
    SomeAboveSplits(xs, ys);
    if SomeAbove(xs) {
      NoneAboveInOrder(xs, es);
    } else if SomeAbove(ys) {
      NoneAboveInOrder(ys, fs);
    } else if AnyAbove(xs, ys) {
      AnyAboveOrder(xs, es, ys, fs);
    }
  }

  /** The tree of every order: the second map's fields, and those of the first that it does not overwrite. */
  lemma OneTree<V(!new)>(es: seq<Entry<V>>, fs: seq<Entry<V>>, xs: seq<Entry<V>>, ys: seq<Entry<V>>)
    requires NoneAbove(es, fs) && Agreeing(es, fs) && AllWellFormed(es + fs)
    requires OrderOf(xs, es) && OrderOf(ys, fs) && AllWellFormed(xs + ys)
    ensures AllWellFormed(Uncovered(es, fs) + fs)
    ensures PlaceAll(Some(map[]), xs + ys) == PlaceAll(Some(map[]), Uncovered(es, fs) + fs)
    ensures PlaceAll(Some(map[]), xs + ys).Some?
    ensures Holds(PlaceAll(Some(map[]), xs + ys).value, Uncovered(es, fs) + fs)
  {
    NoneAboveGives(es, fs, xs, ys);
    NoneAboveInAll(es, fs, xs, ys);
    DropCovered(map[], xs, ys);
    UncoveredInOrder(xs, es, ys, fs);
    UncoveredWellFormed(es, fs);
    RestIsCompatible(es, fs);
    OrderDoesNotMatter(Some(map[]), Uncovered(xs, ys) + ys, Uncovered(es, fs) + fs);
    CompatibleFieldsMount(Uncovered(es, fs) + fs);
  }

  lemma {:induction false} LookupElsewhere<V>(d: Kids<V>, fs: seq<Entry<V>>, r: seq<string>)
    requires AllWellFormed(fs) && r != [] && PlaceAll(Some(d), fs).Some?
    requires forall j | 0 <= j < |fs| :: Incomparable(fs[j].slot, r)
    ensures Lookup(PlaceAll(Some(d), fs).value, r) == Lookup(d, r)
    decreases |fs|
  {
    if fs != [] {
      if PlaceIn(Some(d), fs[0]).None? {
        FailureIsFinal(fs[1..]);
      }
      LookupPlaced(d, fs[0].slot, fs[0].leaf, r);
      LookupElsewhere(PlaceIn(Some(d), fs[0]).value, fs[1..], r);
    }
  }

  /** The last of two fields of one slot is found there, if the second map does not touch the slot. */
  lemma LastOfFirstWins<V>(rest: seq<Entry<V>>, e: Entry<V>, f: Entry<V>, fs: seq<Entry<V>>)
    requires AllWellFormed(rest) && WellFormed(e) && WellFormed(f) && AllWellFormed(fs)
    requires forall j | 0 <= j < |fs| :: Incomparable(fs[j].slot, f.slot)
    ensures AllWellFormed((rest + [e, f]) + fs)
    ensures PlaceAll(Some(map[]), (rest + [e, f]) + fs).Some? ==>
            Lookup(PlaceAll(Some(map[]), (rest + [e, f]) + fs).value, f.slot) == Some(f.leaf)
  {
    LastOneWins(rest, e, f);
    PlaceAllAppend(Some(map[]), rest + [e, f], fs);
    var mid := PlaceAll(Some(map[]), rest + [e, f]);
    if mid.None? {
      FailureIsFinal(fs);
    } else if PlaceAll(mid, fs).Some? {
      LookupElsewhere(mid.value, fs, f.slot);
    }
  }

  lemma FirstMustAgree<V(!new)>(es: seq<Entry<V>>, fs: seq<Entry<V>>, d: Kids<V>, i: nat, j: nat)
    requires AllWellFormed(es) && AllWellFormed(fs) && NoneAbove(es, fs) && AlwaysGives(es, fs, d)
    requires i < j < |es| && es[i].slot == es[j].slot && !Covered(es[i], fs)
    ensures es[i] == es[j]
  {
    var e, f := es[i], es[j];
    var rest := SplitTwo(es, i, j);
    forall k | 0 <= k < |fs| ensures Incomparable(fs[k].slot, f.slot) {
      assert !Above(es[j], fs[k]) && !(fs[k].slot <= e.slot);
    }
    LastOfFirstWins(rest, e, f, fs);
    LastOfFirstWins(rest, f, e, fs);
    assert multiset(rest + [f, e]) == multiset(rest + [e, f]);
    assert OrderOf(rest + [e, f], es) && OrderOf(rest + [f, e], es) && OrderOf(fs, fs);
    assert PlaceAll(Some(map[]), (rest + [e, f]) + fs) == Some(d);
    assert PlaceAll(Some(map[]), (rest + [f, e]) + fs) == Some(d);
  }

  lemma SecondMustAgree<V(!new)>(es: seq<Entry<V>>, fs: seq<Entry<V>>, d: Kids<V>, i: nat, j: nat)
    requires AllWellFormed(es) && AllWellFormed(fs) && AlwaysGives(es, fs, d)
    requires i < j < |fs| && fs[i].slot == fs[j].slot
    ensures fs[i] == fs[j]
  {
    var e, f := fs[i], fs[j];
    var rest := SplitTwo(fs, i, j);
    assert multiset(rest + [f, e]) == multiset(rest + [e, f]);
    LastOfSecondWins(es, fs, d, rest, e, f);
    LastOfSecondWins(es, fs, d, rest, f, e);
  }

  lemma LastOfSecondWins<V(!new)>(es: seq<Entry<V>>, fs: seq<Entry<V>>, d: Kids<V>, rest: seq<Entry<V>>, e: Entry<V>,
                                  f: Entry<V>)
    requires AllWellFormed(es) && AllWellFormed(rest) && WellFormed(e) && WellFormed(f) && AlwaysGives(es, fs, d)
    requires OrderOf(rest + [e, f], fs)
    ensures Lookup(d, f.slot) == Some(f.leaf)
  {
    LastOneWins(es + rest, e, f);
    assert es + (rest + [e, f]) == (es + rest) + [e, f];
    assert OrderOf(es, es) && AllWellFormed(es + (rest + [e, f]));
    assert PlaceAll(Some(map[]), es + (rest + [e, f])) == Some(d);
  }

  lemma MustAgree<V(!new)>(es: seq<Entry<V>>, fs: seq<Entry<V>>, d: Kids<V>)
    requires AllWellFormed(es) && AllWellFormed(fs) && NoneAbove(es, fs) && AlwaysGives(es, fs, d)
    ensures Agreeing(es, fs)
  {
    forall i, j | 0 <= i < |es| && 0 <= j < |es| && es[i].slot == es[j].slot
      ensures es[i] == es[j] || Covered(es[i], fs)
    {
      if i < j && !Covered(es[i], fs) {
        FirstMustAgree(es, fs, d, i, j);
      } else if j < i && !Covered(es[i], fs) {
        assert !Covered(es[j], fs);
        FirstMustAgree(es, fs, d, j, i);
      }
    }
    forall i, j | 0 <= i < |fs| && 0 <= j < |fs| && fs[i].slot == fs[j].slot ensures fs[i] == fs[j] {
      if i < j {
        SecondMustAgree(es, fs, d, i, j);
      } else if j < i {
        SecondMustAgree(es, fs, d, j, i);
      }
    }
  }

  ghost predicate GivesOneTree<V(!new)>(es: seq<Entry<V>>, fs: seq<Entry<V>>)
  {
    exists d: Kids<V> :: AlwaysGives(es, fs, d)
  }

  /**
   All orders give one tree, exactly when none panics and fields of one slot agree, save for fields of
   the first map that the second overwrites.
   */
  lemma OneTreeExactly<V(!new)>(es: seq<Entry<V>>, fs: seq<Entry<V>>)
    requires AllWellFormed(es) && AllWellFormed(fs)
    ensures GivesOneTree(es, fs) <==> NoneAbove(es, fs) && Agreeing(es, fs)
  {
    assert AllWellFormed(es + fs);
    if GivesOneTree(es, fs) {
      var d: Kids<V> :| AlwaysGives(es, fs, d);
      assert NeverFails(es, fs);
      NeverFailsExactly(es, fs);
      MustAgree(es, fs, d);
    } else if NoneAbove(es, fs) && Agreeing(es, fs) {
      OneTree(es, fs, es, fs);
      var d := PlaceAll(Some(map[]), es + fs).value;
      forall xs, ys | OrderOf(xs, es) && OrderOf(ys, fs) && AllWellFormed(xs + ys)
        ensures PlaceAll(Some(map[]), xs + ys) == Some(d)
      {
        OneTree(es, fs, xs, ys);
      }
      assert AlwaysGives(es, fs, d);
    }
  }

  // From entries to fields

  lemma {:induction false} FieldOf<V>(fields: seq<Field<V>>, e: Entry<V>, pick: Pick) returns (k: nat)
    requires AllUsable(fields) && e in Entries(fields, pick)
    ensures k < |fields| && Kept(fields[k]) && EntryOf(fields[k], pick) == e
    decreases |fields|
  {
    if Kept(fields[0]) && EntryOf(fields[0], pick) == e {
      k := 0;
    } else {
      var n := FieldOf(fields[1..], e, pick);
      k := n + 1;
    }
  }

  lemma EntriesOfOne<V>(f: Field<V>, pick: Pick)
    requires Usable(f) && Kept(f)
    ensures AllUsable([f]) && Entries([f], pick) == [EntryOf(f, pick)]
  {
    assert [f][1..] == [];
  }

  lemma RestOfOrder<T>(xs: seq<T>, rest: multiset<T>)
    requires xs != [] && multiset(xs) == multiset{xs[0]} + rest
    ensures multiset(xs[1..]) == rest
  {
    assert xs == [xs[0]] + xs[1..];
    assert multiset(xs) == multiset{xs[0]} + multiset(xs[1..]);
    assert multiset(xs[1..]) == multiset(xs) - multiset{xs[0]};
  }

  lemma FrontOfOrder<T>(xs: seq<T>, k: nat, more: seq<T>)
    requires k < |xs| && OrderOf(more, xs[..k] + xs[k + 1..])
    ensures OrderOf([xs[k]] + more, xs)
  {
    assert xs == xs[..k] + [xs[k]] + xs[k + 1..];
  }

  /** The field of the first entry, and the entries of the other fields. */
  lemma FieldOfFirst<V>(fields: seq<Field<V>>, xs: seq<Entry<V>>, pick: Pick) returns (k: nat)
    requires AllUsable(fields) && xs != [] && OrderOf(xs, Entries(fields, pick))
    ensures k < |fields| && Kept(fields[k]) && EntryOf(fields[k], pick) == xs[0]
    ensures AllUsable(fields[..k] + fields[k + 1..]) && OrderOf(xs[1..], Entries(fields[..k] + fields[k + 1..], pick))
  {
    assert xs[0] in multiset(Entries(fields, pick));
    k := FieldOf(fields, xs[0], pick);
    EntriesSplit(fields, k, pick);
    EntriesOfOne(fields[k], pick);
    assert multiset([xs[0]]) == multiset{xs[0]};
    RestOfOrder(xs, multiset(Entries(fields[..k] + fields[k + 1..], pick)));
  }

  lemma EntriesOfFront<V>(f: Field<V>, more: seq<Field<V>>, pick: Pick)
    requires Usable(f) && Kept(f) && AllUsable(more)
    ensures AllUsable([f] + more) && Entries([f] + more, pick) == [EntryOf(f, pick)] + Entries(more, pick)
  {
    EntriesOfOne(f, pick);
    EntriesAppend([f], more, pick);
  }

  lemma EmptyOrder<T>(xs: seq<T>, ys: seq<T>)
    requires OrderOf(xs, ys) && xs == []
    ensures ys == []
  {
    assert |multiset(ys)| == 0;
  }

  /** Every order of the entries comes from an order of the fields. */
  lemma {:induction false} EntriesLift<V>(fields: seq<Field<V>>, xs: seq<Entry<V>>, pick: Pick)
      returns (others: seq<Field<V>>)
    requires AllUsable(fields) && OrderOf(xs, Entries(fields, pick))
    ensures OrderOf(others, fields) && AllUsable(others) && Entries(others, pick) == xs
    decreases |xs|
  {
    if xs == [] {
      others := fields;
      EmptyOrder(xs, Entries(fields, pick));
    } else {
      var k := FieldOfFirst(fields, xs, pick);
      var more := EntriesLift(fields[..k] + fields[k + 1..], xs[1..], pick);
      LiftMore(fields, xs, k, more, pick);
      others := [fields[k]] + more;
    }
  }

  lemma LiftMore<V>(fields: seq<Field<V>>, xs: seq<Entry<V>>, k: nat, more: seq<Field<V>>, pick: Pick)
    requires k < |fields| && xs != [] && Usable(fields[k]) && Kept(fields[k]) && EntryOf(fields[k], pick) == xs[0]
    requires OrderOf(more, fields[..k] + fields[k + 1..]) && AllUsable(more) && Entries(more, pick) == xs[1..]
    ensures OrderOf([fields[k]] + more, fields) && AllUsable([fields[k]] + more)
    ensures Entries([fields[k]] + more, pick) == xs
  {
    FrontOfOrder(fields, k, more);
    EntriesOfFront(fields[k], more, pick);
    assert [xs[0]] + xs[1..] == xs;
  }

  lemma VisitBoth<V>(post: seq<Field<V>>, values: seq<Field<V>>, pick: Pick)
    requires AllUsable(post) && AllUsable(values)
    ensures AllUsable(post + values) && AllWellFormed(Entries(post, pick) + Entries(values, pick))
    ensures Visit(Some(map[]), post + values, pick) ==
            PlaceAll(Some(map[]), Entries(post, pick) + Entries(values, pick))
  {
    EntriesAppend(post, values, pick);
    VisitIsPlaceAll(Some(map[]), post + values, pick);
  }

  lemma UsableOrder<V>(p: seq<Field<V>>, post: seq<Field<V>>)
    requires OrderOf(p, post) && AllUsable(post)
    ensures AllUsable(p)
  {
    forall i | 0 <= i < |p| ensures Usable(p[i]) {
      var j := IndexIn(p, post, i);
    }
  }

  /** Every order of the posted fields, followed by every order of the multipart values, panics. */
  ghost predicate AlwaysPanics<V(!new)>(post: seq<Field<V>>, values: seq<Field<V>>, pick: Pick)
  {
    forall p, m | OrderOf(p, post) && OrderOf(m, values) && AllUsable(p + m) :: Visit(Some(map[]), p + m, pick).None?
  }

  ghost predicate NeverPanics<V(!new)>(post: seq<Field<V>>, values: seq<Field<V>>, pick: Pick)
  {
    forall p, m | OrderOf(p, post) && OrderOf(m, values) && AllUsable(p + m) :: Visit(Some(map[]), p + m, pick).Some?
  }

  ghost predicate AlwaysBuilds<V(!new)>(post: seq<Field<V>>, values: seq<Field<V>>, pick: Pick, d: Kids<V>)
  {
    forall p, m | OrderOf(p, post) && OrderOf(m, values) && AllUsable(p + m) ::
      Visit(Some(map[]), p + m, pick) == Some(d)
  }

  /** Orders of fields and orders of entries have the same outcomes. */
  lemma EntriesOrder<V(!new)>(post: seq<Field<V>>, values: seq<Field<V>>, p: seq<Field<V>>, m: seq<Field<V>>,
                              pick: Pick)
    requires AllUsable(post) && AllUsable(values) && OrderOf(p, post) && OrderOf(m, values)
    ensures AllUsable(p) && AllUsable(m) && AllUsable(p + m)
    ensures OrderOf(Entries(p, pick), Entries(post, pick)) && OrderOf(Entries(m, pick), Entries(values, pick))
    ensures AllWellFormed(Entries(p, pick) + Entries(m, pick))
    ensures Visit(Some(map[]), p + m, pick) == PlaceAll(Some(map[]), Entries(p, pick) + Entries(m, pick))
  {
    UsableOrder(p, post);
    UsableOrder(m, values);
    EntriesPermute(p, post, pick);
    EntriesPermute(m, values, pick);
    VisitBoth(p, m, pick);
  }

  lemma LiftBoth<V(!new)>(post: seq<Field<V>>, values: seq<Field<V>>, xs: seq<Entry<V>>, ys: seq<Entry<V>>, pick: Pick)
      returns (p: seq<Field<V>>, m: seq<Field<V>>)
    requires AllUsable(post) && AllUsable(values) && AllWellFormed(xs + ys)
    requires OrderOf(xs, Entries(post, pick)) && OrderOf(ys, Entries(values, pick))
    ensures OrderOf(p, post) && OrderOf(m, values) && AllUsable(p + m)
    ensures Visit(Some(map[]), p + m, pick) == PlaceAll(Some(map[]), xs + ys)
  {
    p := EntriesLift(post, xs, pick);
    m := EntriesLift(values, ys, pick);
    VisitBoth(p, m, pick);
  }

  /** Parsing panics in every order, exactly when a kept posted field's slot lies above a kept multipart value's. */
  lemma AlwaysPanicsExactly<V(!new)>(post: seq<Field<V>>, values: seq<Field<V>>, pick: Pick)
    requires AllUsable(post) && AllUsable(values)
    ensures AlwaysPanics(post, values, pick) <==> AnyAbove(Entries(post, pick), Entries(values, pick))
  {
    var es, fs := Entries(post, pick), Entries(values, pick);
    AlwaysFailsExactly(es, fs);
    if AlwaysFails(es, fs) {
      forall p, m | OrderOf(p, post) && OrderOf(m, values) && AllUsable(p + m)
        ensures Visit(Some(map[]), p + m, pick).None?
      {
        EntriesOrder(post, values, p, m, pick);
      }
    } else {
      var xs, ys :|
        OrderOf(xs, es) && OrderOf(ys, fs) && AllWellFormed(xs + ys) && PlaceAll(Some(map[]), xs + ys).Some?;
      var p, m := LiftBoth(post, values, xs, ys, pick);
      assert Visit(Some(map[]), p + m, pick).Some?;
    }
  }

  /** Parsing panics in no order, exactly when no two slots that may meet lie above one another. */
  lemma NeverPanicsExactly<V(!new)>(post: seq<Field<V>>, values: seq<Field<V>>, pick: Pick)
    requires AllUsable(post) && AllUsable(values)
    ensures NeverPanics(post, values, pick) <==> NoneAbove(Entries(post, pick), Entries(values, pick))
  {
    var es, fs := Entries(post, pick), Entries(values, pick);
    NeverFailsExactly(es, fs);
    if NeverFails(es, fs) {
      forall p, m | OrderOf(p, post) && OrderOf(m, values) && AllUsable(p + m)
        ensures Visit(Some(map[]), p + m, pick).Some?
      {
        EntriesOrder(post, values, p, m, pick);
      }
    } else {
      var xs, ys :|
        OrderOf(xs, es) && OrderOf(ys, fs) && AllWellFormed(xs + ys) && PlaceAll(Some(map[]), xs + ys).None?;
      var p, m := LiftBoth(post, values, xs, ys, pick);
      assert Visit(Some(map[]), p + m, pick).None?;
    }
  }

  lemma SameTree<V(!new)>(post: seq<Field<V>>, values: seq<Field<V>>, pick: Pick, d: Kids<V>)
    requires AllUsable(post) && AllUsable(values)
    ensures AlwaysBuilds(post, values, pick, d) <==> AlwaysGives(Entries(post, pick), Entries(values, pick), d)
  {
    var es, fs := Entries(post, pick), Entries(values, pick);
    if AlwaysGives(es, fs, d) {
      forall p, m | OrderOf(p, post) && OrderOf(m, values) && AllUsable(p + m)
        ensures Visit(Some(map[]), p + m, pick) == Some(d)
      {
        EntriesOrder(post, values, p, m, pick);
      }
    } else {
      var xs, ys :|
        OrderOf(xs, es) && OrderOf(ys, fs) && AllWellFormed(xs + ys) && PlaceAll(Some(map[]), xs + ys) != Some(d);
      var p, m := LiftBoth(post, values, xs, ys, pick);
      assert Visit(Some(map[]), p + m, pick) != Some(d);
    }
  }

  /** The same tree comes out in every order. */
  ghost predicate BuildsOneTree<V(!new)>(post: seq<Field<V>>, values: seq<Field<V>>, pick: Pick)
  {
    exists d: Kids<V> :: AlwaysBuilds(post, values, pick, d)
  }

  /**
   The order of visiting does not matter to the tree, exactly when no slots that may meet lie above one
   another and fields of one slot agree, save for those of the first map that the second overwrites.
   */
  lemma BuildsOneTreeExactly<V(!new)>(post: seq<Field<V>>, values: seq<Field<V>>, pick: Pick)
    requires AllUsable(post) && AllUsable(values)
    ensures BuildsOneTree(post, values, pick) <==>
            NoneAbove(Entries(post, pick), Entries(values, pick)) &&
            Agreeing(Entries(post, pick), Entries(values, pick))
  {
    OneTreeExactly(Entries(post, pick), Entries(values, pick));
    if BuildsOneTree(post, values, pick) {
      var d: Kids<V> :| AlwaysBuilds(post, values, pick, d);
      SameTree(post, values, pick, d);
    } else if GivesOneTree(Entries(post, pick), Entries(values, pick)) {
      var d: Kids<V> :| AlwaysGives(Entries(post, pick), Entries(values, pick), d);
      SameTree(post, values, pick, d);
    }
  }

  lemma CompatibleExactly<V>(es: seq<Entry<V>>)
    ensures AllCompatible(es) <==> NoneAbove(es, []) && Agreeing(es, [])
  {
    if AllCompatible(es) {
      forall i, j | 0 <= i < |es| && 0 <= j < |es|
        ensures !Above(es[i], es[j]) && (es[i].slot == es[j].slot ==> es[i] == es[j])
      {
        assert i < j ==> Compatible(es[i], es[j]);
        assert j < i ==> Compatible(es[j], es[i]);
      }
    } else {
      var i, j :| 0 <= i < j < |es| && !Compatible(es[i], es[j]);
      assert Above(es[i], es[j]) || Above(es[j], es[i]) || es[i].slot == es[j].slot;
    }
  }

  /** A form posted in one map: the order does not matter exactly when no two kept fields clash; some order succeeds. */
  lemma PostedFormExactly<V(!new)>(post: seq<Field<V>>, pick: Pick)
    requires AllUsable(post)
    ensures BuildsOneTree(post, [], pick) <==> AllCompatible(Entries(post, pick))
    ensures !AlwaysPanics(post, [], pick)
  {
    BuildsOneTreeExactly(post, [], pick);
    AlwaysPanicsExactly(post, [], pick);
    CompatibleExactly(Entries(post, pick));
  }

  /**
   A multipart form, whose values are found in both maps: with one slot above another it panics in
   every order, and otherwise in none.
   */
  lemma MultipartFormExactly<V(!new)>(fields: seq<Field<V>>, pick: Pick)
    requires AllUsable(fields)
    ensures AlwaysPanics(fields, fields, pick) <==> AnyAbove(Entries(fields, pick), Entries(fields, pick))
    ensures NeverPanics(fields, fields, pick) <==> !AnyAbove(Entries(fields, pick), Entries(fields, pick))
  {
    AlwaysPanicsExactly(fields, fields, pick);
    NeverPanicsExactly(fields, fields, pick);
  }
}

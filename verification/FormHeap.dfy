/**
 `dataTree` and `fileTree` as they are in memory: nested maps that `mount` changes in place, proved
 to act on the tree they stand for exactly as the function on values does.
 */
module FormHeap {
  import opened Text
  import opened FormKeys
  import opened FormTree
  import opened FormData

  datatype Item<V> = Single(v: V) | Several(vs: seq<V>) | Sub(tree: DataTree<V>)

  class DataTree<V> {
    var items: map<string, Item<V>>
    ghost var Repr: set<object>

    ghost predicate Valid()
      reads this, Repr
      decreases Repr
    {
      && this in Repr
      && (forall k | k in items && items[k].Sub? ::
            items[k].tree in Repr && items[k].tree.Repr <= Repr && this !in items[k].tree.Repr && items[k].tree.Valid())
      && (forall k, l | k in items && l in items && k != l && items[k].Sub? && items[l].Sub? ::
            items[k].tree.Repr !! items[l].tree.Repr)
    }

    /** The tree of values this map stands for. */
    ghost function View(): Kids<V>
      requires Valid()
      reads this, Repr
      decreases Repr
    {
      map k | k in items :: ItemView(k)
    }

    ghost function ItemView(k: string): Tree<V>
      requires Valid() && k in items
      reads this, Repr
      decreases Repr, 0
    {
      match items[k]
      case Single(v) => One(v)
      case Several(vs) => Many(vs)
      case Sub(t) => Node(t.View())
    }

    constructor ()
      ensures Valid() && Repr == {this} && View() == map[]
    {
      items := map[];
      Repr := {this};
    }

    /** Replaces what stands under a key by a value. */
    method Set(k: string, item: Item<V>)
      requires Valid() && !item.Sub?
      modifies this`items
      ensures Valid() && Repr == old(Repr)
      ensures View() == old(View())[k := if item.Single? then One(item.v) else Many(item.vs)]
    {
      items := items[k := item];
      forall x | x in items && x != k ensures ItemView(x) == old(ItemView(x)) {
      }
    }

    /** Puts a tree under a key that is missing. */
    method Attach(k: string, t: DataTree<V>)
      requires Valid() && k !in items && t.Valid() && t.Repr !! Repr
      modifies this
      ensures Valid() && Repr == old(Repr) + t.Repr && k in items && items[k] == Sub(t)
      ensures t.Valid() && t.View() == old(t.View()) && t.Repr == old(t.Repr)
      ensures View() == old(View())[k := Node(t.View())]
    {
      items := items[k := Sub(t)];
      Repr := Repr + t.Repr;
      assert Valid();
      forall x | x in items && x != k ensures ItemView(x) == old(ItemView(x)) {
      }
    }

    /** Puts an empty tree under a key that is missing. */
    method Open(k: string)
      requires Valid() && k !in items
      modifies this
      ensures Valid() && fresh(Repr - old(Repr)) && k in items && items[k].Sub?
      ensures View() == old(View())[k := Node(map[])] && items[k].tree.View() == map[]
    {
      var t := new DataTree<V>();
      Attach(k, t);
    }

    /** `mount` in place; it returns false where the type assertion panics. */
    method Mount(i: seq<string>, v: seq<V>, pick: Pick) returns (ok: bool)
      requires Valid() && i != [] && v != []
      modifies Repr
      ensures Valid() && fresh(Repr - old(Repr))
      ensures FormTree.Mount(old(View()), i, v, pick) == if ok then Some(View()) else None
      ensures !ok ==> View() == old(View())
      decreases |i|, 3
    {
      if |i| == 1 {
        Set(i[0], Single(if pick.First? then v[0] else v[|v| - 1]));
        return true;
      }
      if |i| == 2 && i[1] == "" {
        Set(i[0], Several(v));
        return true;
      }
      ok := MountNested(i, v, pick);
    }

    /** The last two cases: into the tree under the first key, which is made if it is missing. */
    method MountNested(i: seq<string>, v: seq<V>, pick: Pick) returns (ok: bool)
      requires Valid() && |i| > 1 && !(|i| == 2 && i[1] == "") && v != []
      modifies Repr
      ensures Valid() && fresh(Repr - old(Repr))
      ensures FormTree.Mount(old(View()), i, v, pick) == if ok then Some(View()) else None
      ensures !ok ==> View() == old(View())
      decreases |i|, 2
    {
      ghost var before := View();
      if i[0] !in items {
        Open(i[0]);
        MountOnEmpty<V>(i[1..], v, pick);
      } else if !items[i[0]].Sub? {
        assert before[i[0]] == ItemView(i[0]);
        return false;
      } else {
        assert before[i[0]] == ItemView(i[0]);
      }
      ghost var sub := FormTree.Mount(items[i[0]].tree.View(), i[1..], v, pick);
      ghost var middle := View();
      ok := Descend(i, v, pick);
      if ok {
        assert middle[i[0] := Node(sub.value)] == before[i[0] := Node(sub.value)];
      }
    }

    /** The recursive call on the tree under the first key. */
    method Descend(i: seq<string>, v: seq<V>, pick: Pick) returns (ok: bool)
      requires Valid() && |i| > 1 && v != [] && i[0] in items && items[i[0]].Sub?
      modifies Repr
      ensures Valid() && fresh(Repr - old(Repr))
      ensures var sub := FormTree.Mount(old(items[i[0]].tree.View()), i[1..], v, pick);
              && (ok <==> sub.Some?)
              && View() == if ok then old(View())[i[0] := Node(sub.value)] else old(View())
      decreases |i|, 1
    {
      ok := MountBelow(i, v, pick);
      assert View().Keys == old(View()).Keys;
    }

    /** The same, key by key. */
    method MountBelow(i: seq<string>, v: seq<V>, pick: Pick) returns (ok: bool)
      requires Valid() && |i| > 1 && v != [] && i[0] in items && items[i[0]].Sub?
      modifies Repr
      ensures Valid() && fresh(Repr - old(Repr)) && items == old(items)
      ensures var sub := FormTree.Mount(old(items[i[0]].tree.View()), i[1..], v, pick);
              && (ok <==> sub.Some?)
              && ItemView(i[0]) == if ok then Node(sub.value) else old(ItemView(i[0]))
      ensures forall x | x in items && x != i[0] :: ItemView(x) == old(ItemView(x))
      decreases |i|, 0
    {
      var t := items[i[0]].tree;
      ok := t.Mount(i[1..], v, pick);
      Repr := Repr + t.Repr;
      forall x | x in items && x != i[0] ensures ItemView(x) == old(ItemView(x)) {
        if items[x].Sub? {
          assert items[x].tree.Repr !! old(t.Repr);
        }
      }
    }
  }

  lemma {:induction false} MountOnEmpty<V>(i: seq<string>, v: seq<V>, pick: Pick)
    requires i != [] && v != []
    ensures FormTree.Mount(map[], i, v, pick).Some?
    decreases |i|
  {
    if |i| > 1 && !(|i| == 2 && i[1] == "") {
      MountOnEmpty(i[1..], v, pick);
    }
  }

  lemma VisitAfterFailure<V>(fields: seq<Field<V>>, pick: Pick)
    requires AllUsable(fields)
    ensures Visit<V>(None, fields, pick) == None
  {
    VisitIsPlaceAll<V>(None, fields, pick);
    FailureIsFinal(Entries(fields, pick));
  }

  /** The loop over one map, in one order; `ok` is false where it panics. */
  method VisitAll<V>(tree: DataTree<V>, fields: seq<Field<V>>, pick: Pick) returns (ok: bool)
    requires tree.Valid() && AllUsable(fields)
    modifies tree.Repr
    ensures tree.Valid() && fresh(tree.Repr - old(tree.Repr))
    ensures Visit(Some(old(tree.View())), fields, pick) == if ok then Some(tree.View()) else None
  {
    assert fields[0..] == fields;
    for n := 0 to |fields|
      invariant tree.Valid() && fresh(tree.Repr - old(tree.Repr))
      invariant Visit(Some(old(tree.View())), fields, pick) == Visit(Some(tree.View()), fields[n..], pick)
    {
      assert fields[n..][1..] == fields[n + 1..];
      var keys := FetchIndexes(fields[n].name);
      if |keys| <= MAX_LEVEL {
        var mounted := tree.Mount(keys, fields[n].values, pick);
        if !mounted {
          VisitAfterFailure(fields[n + 1..], pick);
          return false;
        }
      }
    }
    ok := true;
  }

  lemma {:induction false} VisitAppend<V>(d: Option<Kids<V>>, a: seq<Field<V>>, b: seq<Field<V>>, pick: Pick)
    requires AllUsable(a) && AllUsable(b)
    ensures AllUsable(a + b) && Visit(d, a + b, pick) == Visit(Visit(d, a, pick), b, pick)
    decreases |a|
  {
    if a == [] {
      assert a + b == b;
    } else {
      assert (a + b)[0] == a[0] && (a + b)[1..] == a[1..] + b;
      VisitAppend(PushField(d, a[0], pick), a[1..], b, pick);
    }
  }

  /**
   `parseData`: first the posted fields, then the multipart values, each in the order given.
   `parseUploads` has the second map only.
   */
  method Parse<V>(post: seq<Field<V>>, values: seq<Field<V>>, pick: Pick) returns (tree: DataTree<V>, ok: bool)
    requires AllUsable(post) && AllUsable(values)
    ensures tree.Valid() && fresh(tree.Repr) && AllUsable(post + values)
    ensures Visit(Some(map[]), post + values, pick) == if ok then Some(tree.View()) else None
  {
    VisitAppend(Some(map[]), post, values, pick);
    tree := new DataTree<V>();
    ok := VisitAll(tree, post, pick);
    if ok {
      ok := VisitAll(tree, values, pick);
    } else {
      VisitAfterFailure(values, pick);
    }
  }
}

/**
 Whole forms: `push`, `parseData` and `parseUploads` visit the fields of a form in some order and
 mount each under the indexes of its name.
 */
module FormData {
  import opened Text
  import opened FormKeys
  import opened FormTree

  const MAX_LEVEL: nat := 127

  /** A form field; the form maps of Go hold no field without a value. */
  datatype Field<V> = Field(name: string, values: seq<V>)

  predicate Usable<V>(f: Field<V>)
  {
    f.values != []
  }

  ghost predicate AllUsable<V>(fields: seq<Field<V>>)
  {
    forall i | 0 <= i < |fields| :: Usable(fields[i])
  }

  /** Names with too many indexes are dropped without a word. */
  predicate Kept<V>(f: Field<V>)
  {
    |Indexes(f.name)| <= MAX_LEVEL
  }

  function PushField<V>(d: Option<Kids<V>>, f: Field<V>, pick: Pick): Option<Kids<V>>
    requires Usable(f)
  {
    if d.None? then None
    else if Kept(f) then Mount(d.value, Indexes(f.name), f.values, pick)
    else d
  }

  ghost function Visit<V>(d: Option<Kids<V>>, fields: seq<Field<V>>, pick: Pick): Option<Kids<V>>
    requires AllUsable(fields)
    decreases |fields|
  {
    if fields == [] then d else Visit(PushField(d, fields[0], pick), fields[1..], pick)
  }

  function EntryOf<V>(f: Field<V>, pick: Pick): (e: Entry<V>)
    requires Usable(f)
    ensures WellFormed(e)
  {
    Entry(Slot(Indexes(f.name)), Leaf(Indexes(f.name), f.values, pick))
  }

  /** The slots and leaves of the fields that are kept. */
  ghost function Entries<V>(fields: seq<Field<V>>, pick: Pick): (es: seq<Entry<V>>)
    requires AllUsable(fields)
    ensures AllWellFormed(es)
    decreases |fields|
  {
    if fields == [] then []
    else (if Kept(fields[0]) then [EntryOf(fields[0], pick)] else []) + Entries(fields[1..], pick)
  }

  /** Visiting a form is placing its leaves. */
  lemma {:induction false} VisitIsPlaceAll<V>(d: Option<Kids<V>>, fields: seq<Field<V>>, pick: Pick)
    requires AllUsable(fields)
    ensures Visit(d, fields, pick) == PlaceAll(d, Entries(fields, pick))
    decreases |fields|
  {
    if fields != [] {
      var f, rest := fields[0], Entries(fields[1..], pick);
      VisitIsPlaceAll(PushField(d, f, pick), fields[1..], pick);
      if Kept(f) {
        if d.Some? {
          MountIsPlace(d.value, Indexes(f.name), f.values, pick);
        }
        assert ([EntryOf(f, pick)] + rest)[1..] == rest;
      } else {
        assert [] + rest == rest;
      }
    }
  }

  lemma {:induction false} EntriesAppend<V>(a: seq<Field<V>>, b: seq<Field<V>>, pick: Pick)
    requires AllUsable(a) && AllUsable(b)
    ensures AllUsable(a + b) && Entries(a + b, pick) == Entries(a, pick) + Entries(b, pick)
    decreases |a|
  {
    if a == [] {
      assert a + b == b;
    } else {
      assert (a + b)[0] == a[0] && (a + b)[1..] == a[1..] + b;
      EntriesAppend(a[1..], b, pick);
    }
  }

  lemma EntriesSplit<V>(fields: seq<Field<V>>, k: nat, pick: Pick)
    requires AllUsable(fields) && k < |fields|
    ensures AllUsable(fields[..k] + fields[k + 1..])
    ensures multiset(Entries(fields, pick)) ==
            multiset(Entries([fields[k]], pick)) + multiset(Entries(fields[..k] + fields[k + 1..], pick))
  {
    var a, f, b := fields[..k], [fields[k]], fields[k + 1..];
    assert AllUsable(a) && AllUsable(f) && AllUsable(b);
    EntriesAppend(a, f + b, pick);
    EntriesAppend(f, b, pick);
    EntriesAppend(a, b, pick);
    assert fields == a + (f + b);
    Rearranged(Entries(a, pick), Entries(f, pick), Entries(b, pick));
  }

  lemma Rearranged<V>(x: seq<Entry<V>>, y: seq<Entry<V>>, z: seq<Entry<V>>)
    ensures multiset(x + (y + z)) == multiset(y) + multiset(x + z)
  {
  }

  lemma FieldsSplit<V>(fields: seq<Field<V>>, others: seq<Field<V>>, k: nat)
    requires fields != [] && k < |others| && others[k] == fields[0] && multiset(fields) == multiset(others)
    ensures multiset(fields[1..]) == multiset(others[..k] + others[k + 1..])
  {
    var f := fields[0];
    assert fields == [f] + fields[1..];
    assert others == others[..k] + [f] + others[k + 1..];
    assert multiset(fields) == multiset{f} + multiset(fields[1..]);
    assert multiset(others) == multiset{f} + multiset(others[..k] + others[k + 1..]);
    assert multiset(fields[1..]) == multiset(fields) - multiset{f};
  }

  lemma EntriesOfRest<V>(fields: seq<Field<V>>, pick: Pick)
    requires AllUsable(fields) && fields != []
    ensures AllUsable(fields[1..]) && AllUsable([fields[0]])
    ensures multiset(Entries(fields, pick)) ==
            multiset(Entries([fields[0]], pick)) + multiset(Entries(fields[1..], pick))
  {
    assert fields == [fields[0]] + fields[1..];
    EntriesAppend([fields[0]], fields[1..], pick);
  }

  lemma Find<V>(f: Field<V>, fields: seq<Field<V>>) returns (k: nat)
    requires f in multiset(fields)
    ensures k < |fields| && fields[k] == f
  {
    k :| 0 <= k < |fields| && fields[k] == f;
  }

  /** Visiting the same fields in another order meets the same leaves. */
  lemma {:induction false} EntriesPermute<V>(fields: seq<Field<V>>, others: seq<Field<V>>, pick: Pick)
    requires AllUsable(fields) && AllUsable(others) && multiset(fields) == multiset(others)
    ensures multiset(Entries(fields, pick)) == multiset(Entries(others, pick))
    decreases |fields|
  {
    if fields == [] {
      assert |multiset(others)| == 0;
    } else {
      assert fields[0] in multiset(fields);
      var k := Find(fields[0], others);
      EntriesSplit(others, k, pick);
      EntriesOfRest(fields, pick);
      FieldsSplit(fields, others, k);
      EntriesPermute(fields[1..], others[..k] + others[k + 1..], pick);
    }
  }

  lemma {:induction false} EntryIsThere<V>(fields: seq<Field<V>>, f: Field<V>, pick: Pick)
    requires AllUsable(fields) && f in fields && |Indexes(f.name)| <= 127
    ensures Usable(f) && EntryOf(f, pick) in Entries(fields, pick)
    decreases |fields|
  {
    if f != fields[0] {
      EntryIsThere(fields[1..], f, pick);
    }
  }

  /** A name with more than 127 indexes is dropped, and any other is mounted. */
  lemma DroppedExactly<V>(d: Kids<V>, f: Field<V>, pick: Pick)
    requires f.values != []
    ensures |Indexes(f.name)| > 127 ==> PushField(Some(d), f, pick) == Some(d)
    ensures |Indexes(f.name)| <= 127 && PushField(Some(d), f, pick).Some? ==>
            Found(PushField(Some(d), f, pick).value, Indexes(f.name), f.values, pick)
  {
    if |Indexes(f.name)| <= 127 && PushField(Some(d), f, pick).Some? {
      MountedIsFound(d, Indexes(f.name), f.values, pick);
    }
  }

  /**
   Confluence of form parsing: when no two kept fields clash, every order of visiting mounts the
   whole form, all orders give one tree, and each field is found at its slot.
   */
  lemma FormIsOrderFree<V(!new)>(fields: seq<Field<V>>, others: seq<Field<V>>, pick: Pick)
    requires AllUsable(fields) && AllUsable(others) && multiset(fields) == multiset(others)
    requires AllCompatible(Entries(fields, pick))
    ensures Visit(Some(map[]), fields, pick).Some?
    ensures Visit(Some(map[]), others, pick) == Visit(Some(map[]), fields, pick)
    ensures Holds(Visit(Some(map[]), fields, pick).value, Entries(fields, pick))
    ensures forall f | f in fields && |Indexes(f.name)| <= 127 ::
              f.values != [] && Found(Visit(Some(map[]), fields, pick).value, Indexes(f.name), f.values, pick)
  {
    forall f | f in fields && |Indexes(f.name)| <= 127
      ensures Usable(f) && EntryOf(f, pick) in Entries(fields, pick)
    {
      EntryIsThere(fields, f, pick);
    }
    VisitIsPlaceAll(Some(map[]), fields, pick);
    VisitIsPlaceAll(Some(map[]), others, pick);
    EntriesPermute(fields, others, pick);
    OrderDoesNotMatter(Some(map[]), Entries(others, pick), Entries(fields, pick));
    CompatibleFieldsMount(Entries(fields, pick));
  }

  lemma PlainAndNested()
    ensures Indexes("a") == ["a"] && Indexes("a[b]") == ["a", "b"]
  {
    ParsePrinted(["a"]);
    assert Print(["a"]) == "a";
    ParsePrinted(["a", "b"]);
    assert ["a", "b"][1..] == ["b"] && ["b"][1..] == [];
    assert PrintRest([]) == "";
    assert PrintRest(["b"]) == "[" + ("b" + ("]" + "")) == "[b]";
    assert Print(["a", "b"]) == "a" + "[b]";
  }

  lemma VisitTwo<V>(d: Option<Kids<V>>, f: Field<V>, g: Field<V>, pick: Pick)
    requires Usable(f) && Usable(g)
    ensures AllUsable([f, g]) && Visit(d, [f, g], pick) == PushField(PushField(d, f, pick), g, pick)
  {
    assert [f, g][1..] == [g] && [g][1..] == [];
    assert Visit(PushField(d, f, pick), [g], pick) == Visit(PushField(PushField(d, f, pick), g, pick), [], pick);
  }

  /** A clash: with both `a` and `a[b]` one order panics and the other loses the nested value. */
  lemma PlainAndNestedClash(x: string, y: string)
    ensures AllUsable([Field("a", [x]), Field("a[b]", [y])]) && AllUsable([Field("a[b]", [y]), Field("a", [x])])
    ensures Visit(Some(map[]), [Field("a", [x]), Field("a[b]", [y])], Last) == None
    ensures Visit(Some(map[]), [Field("a[b]", [y]), Field("a", [x])], Last) == Some(map["a" := One(x)])
  {
    var f, g := Field("a", [x]), Field("a[b]", [y]);
    PlainAndNested();
    var empty: Kids<string> := map[];
    VisitTwo(Some(empty), f, g, Last);
    VisitTwo(Some(empty), g, f, Last);
    assert PushField(Some(empty), f, Last) == Some(map["a" := One(x)]);
    assert ["a", "b"][1..] == ["b"];
    assert Mount(empty, ["b"], [y], Last) == Some(map["b" := One(y)]);
    var nested: Kids<string> := map["a" := Node(map["b" := One(y)])];
    assert PushField(Some(empty), g, Last) == Some(nested);
    assert nested["a" := One(x)] == map["a" := One(x)];
    assert PushField(Some(nested), f, Last) == Some(nested["a" := One(x)]);
  }

  // Depth

  ghost predicate Shallow<V>(d: Kids<V>)
  {
    forall r: seq<string> | r != [] && Lookup(d, r).Some? :: |r| <= 127
  }

  lemma PushKeepsShallow<V>(d: Kids<V>, f: Field<V>, pick: Pick)
    requires Usable(f) && Shallow(d) && PushField(Some(d), f, pick).Some?
    ensures Shallow(PushField(Some(d), f, pick).value)
  {
    if Kept(f) {
      var e := EntryOf(f, pick);
      MountIsPlace(d, Indexes(f.name), f.values, pick);
      var d' := PushField(Some(d), f, pick).value;
      forall r: seq<string> | r != [] && Lookup(d', r).Some? ensures |r| <= 127 {
        LookupPlaced(d, e.slot, e.leaf, r);
      }
    }
  }

  /** No form, however it is visited, builds a tree deeper than the limit. */
  lemma {:induction false} DepthIsBounded<V>(d: Kids<V>, fields: seq<Field<V>>, pick: Pick)
    requires AllUsable(fields) && Shallow(d)
    ensures Visit(Some(d), fields, pick).Some? ==> Shallow(Visit(Some(d), fields, pick).value)
    decreases |fields|
  {
    if fields != [] {
      var next := PushField(Some(d), fields[0], pick);
      if next.Some? {
        PushKeepsShallow(d, fields[0], pick);
        DepthIsBounded(next.value, fields[1..], pick);
      } else {
        VisitIsPlaceAll(next, fields[1..], pick);
        FailureIsFinal(Entries(fields[1..], pick));
      }
    }
  }
}

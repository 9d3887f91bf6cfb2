/**
 `FetchIndexes`: how the name of a form field, such as `key[sub][]`, is split into a list of
 indexes.  A name is taken as the sequence of its characters.
 */
module FormKeys {
  import opened Text

  /** `keys` so far, never empty; `pos` 1 after an opening and 2 after a closing bracket, else 0. */
  datatype Scan = Scan(keys: seq<string>, pos: nat)

  function AppendToLast(keys: seq<string>, c: char): seq<string>
    requires keys != []
  {
    keys[|keys| - 1 := keys[|keys| - 1] + [c]]
  }

  function Feed(s: Scan, c: char): (r: Scan)
    requires s.keys != []
    ensures r.keys != []
  {
    if c == ' ' then s
    else if c == '[' then s.(pos := 1)
    else if c == ']' then Scan(if s.pos == 1 then s.keys + [""] else s.keys, 2)
    else Scan(AppendToLast(if s.pos == 1 || s.pos == 2 then s.keys + [""] else s.keys, c), 0)
  }

  function FeedAll(s: Scan, text: string): (r: Scan)
    requires s.keys != []
    ensures r.keys != []
    decreases |text|
  {
    if text == "" then s else FeedAll(Feed(s, text[0]), text[1..])
  }

  /** What `FetchIndexes` returns. */
  function Indexes(text: string): (keys: seq<string>)
    ensures keys != []
  {
    FeedAll(Scan([""], 0), text).keys
  }

  lemma {:induction false} FeedAppend(s: Scan, a: string, b: string)
    requires s.keys != []
    ensures FeedAll(s, a + b) == FeedAll(FeedAll(s, a), b)
    decreases |a|
  {
    if a == "" {
      assert a + b == b;
    } else {
      assert (a + b)[0] == a[0] && (a + b)[1..] == a[1..] + b;
      FeedAppend(Feed(s, a[0]), a[1..], b);
    }
  }

  method FetchIndexes(text: string) returns (keys: seq<string>)
    ensures keys == Indexes(text)
  {
    keys := [""];
    var pos := 0;
    for i := 0 to |text|
      invariant keys != []
      invariant Scan(keys, pos) == FeedAll(Scan([""], 0), text[..i])
    {
      var c := text[i];
      FeedAppend(Scan([""], 0), text[..i], [c]);
      assert text[..i + 1] == text[..i] + [c];
      assert FeedAll(Scan(keys, pos), [c]) == Feed(Scan(keys, pos), c);
      if c == ' ' {
        // spaces are ignored
      } else if c == '[' {
        pos := 1;
      } else if c == ']' {
        if pos == 1 {
          keys := keys + [""];
        }
        pos := 2;
      } else {
        if pos == 1 || pos == 2 {
          keys := keys + [""];
        }
        keys := keys[|keys| - 1 := keys[|keys| - 1] + [c]];
        pos := 0;
      }
    }
    assert text[..|text|] == text;
  }

  // What is kept and what is not

  predicate Plain(c: char)
  {
    c != ' ' && c != '[' && c != ']'
  }

  predicate Clean(s: string)
  {
    forall i | 0 <= i < |s| :: Plain(s[i])
  }

  function Stripped(text: string): string
  {
    if text == "" then ""
    else (if Plain(text[0]) then [text[0]] else "") + Stripped(text[1..])
  }

  function Brackets(text: string): nat
  {
    if text == "" then 0
    else (if text[0] == '[' || text[0] == ']' then 1 else 0) + Brackets(text[1..])
  }

  function Joined(keys: seq<string>): string
  {
    if keys == [] then "" else Joined(keys[..|keys| - 1]) + keys[|keys| - 1]
  }

  lemma JoinedGrows(keys: seq<string>, c: char)
    requires keys != []
    ensures Joined(keys + [""]) == Joined(keys)
    ensures Joined(AppendToLast(keys, c)) == Joined(keys) + [c]
  {
    var n := |keys| - 1;
    assert (keys + [""])[..n + 1] == keys;
    assert Joined(keys) + "" == Joined(keys);
    assert AppendToLast(keys, c)[..n] == keys[..n];
    assert Joined(keys[..n]) + (keys[n] + [c]) == (Joined(keys[..n]) + keys[n]) + [c];
  }

  lemma FeedJoins(s: Scan, c: char)
    requires s.keys != []
    ensures Joined(Feed(s, c).keys) == Joined(s.keys) + if Plain(c) then [c] else ""
  {
    JoinedGrows(s.keys, c);
    JoinedGrows(s.keys + [""], c);
  }

  lemma {:induction false} FeedAllJoins(s: Scan, text: string)
    requires s.keys != []
    ensures Joined(FeedAll(s, text).keys) == Joined(s.keys) + Stripped(text)
    decreases |text|
  {
    if text == "" {
      assert Joined(s.keys) + "" == Joined(s.keys);
    } else {
      var kept := if Plain(text[0]) then [text[0]] else "";
      FeedJoins(s, text[0]);
      FeedAllJoins(Feed(s, text[0]), text[1..]);
      assert (Joined(s.keys) + kept) + Stripped(text[1..]) == Joined(s.keys) + (kept + Stripped(text[1..]));
    }
  }

  /** No other character is lost or moved: the indexes in a row are the name without spaces and brackets. */
  lemma IndexesKeepTheText(text: string)
    ensures Joined(Indexes(text)) == Stripped(text)
  {
    FeedAllJoins(Scan([""], 0), text);
    assert Joined([""]) == "";
  }

  /** Each further index is paid for by a bracket, which opened it, or closed the one before. */
  lemma {:induction false} FeedAllCount(s: Scan, text: string)
    requires s.keys != []
    ensures |FeedAll(s, text).keys| <= |s.keys| + Brackets(text) + if s.pos == 0 then 0 else 1
    decreases |text|
  {
    if text != "" {
      FeedAllCount(Feed(s, text[0]), text[1..]);
    }
  }

  lemma IndexCount(text: string)
    ensures 1 <= |Indexes(text)| <= 1 + Brackets(text)
  {
    FeedAllCount(Scan([""], 0), text);
  }

  ghost predicate AllClean(keys: seq<string>)
  {
    forall i | 0 <= i < |keys| :: Clean(keys[i])
  }

  lemma {:induction false} FeedAllClean(s: Scan, text: string)
    requires s.keys != [] && AllClean(s.keys)
    ensures AllClean(FeedAll(s, text).keys)
    decreases |text|
  {
    if text != "" {
      FeedAllClean(Feed(s, text[0]), text[1..]);
    }
  }

  // One character more

  /** The last character that is not a space. */
  function LastVisible(text: string): Option<char>
  {
    if text == "" then None
    else if text[|text| - 1] == ' ' then LastVisible(text[..|text| - 1])
    else Some(text[|text| - 1])
  }

  lemma FeedLast(text: string)
    requires text != ""
    ensures var n := |text| - 1;
            FeedAll(Scan([""], 0), text) == Feed(FeedAll(Scan([""], 0), text[..n]), text[n])
  {
    var n := |text| - 1;
    assert text == text[..n] + [text[n]];
    FeedAppend(Scan([""], 0), text[..n], [text[n]]);
    assert [text[n]][1..] == "";
  }

  /** The scanner knows the last bracket, if no other character than a space came after it. */
  lemma {:induction false} PosIsLastVisible(text: string)
    ensures FeedAll(Scan([""], 0), text).pos ==
            if LastVisible(text) == Some('[') then 1 else if LastVisible(text) == Some(']') then 2 else 0
    decreases |text|
  {
    if text != "" {
      FeedLast(text);
      PosIsLastVisible(text[..|text| - 1]);
    }
  }

  /**
   How the indexes grow with the name: a space and an opening bracket add nothing; a closing bracket adds
   an empty index if it follows an opening one; any other character begins a new index after a bracket
   and otherwise goes to the last one.
   */
  lemma OneMoreCharacter(text: string, c: char)
    ensures Indexes("") == [""]
    ensures c == ' ' || c == '[' ==> Indexes(text + [c]) == Indexes(text)
    ensures c == ']' ==>
            Indexes(text + [c]) == if LastVisible(text) == Some('[') then Indexes(text) + [""] else Indexes(text)
    ensures c != ' ' && c != '[' && c != ']' ==>
            var keys, n := Indexes(text), |Indexes(text)| - 1;
            Indexes(text + [c]) ==
            if LastVisible(text) == Some('[') || LastVisible(text) == Some(']') then keys + [[c]]
            else keys[..n] + [keys[n] + [c]]
  {
    assert (text + [c])[..|text|] == text;
    FeedLast(text + [c]);
    PosIsLastVisible(text);
    var keys, n := Indexes(text), |Indexes(text)| - 1;
    assert "" + [c] == [c];
    assert AppendToLast(keys + [""], c) == keys + [[c]] && AppendToLast(keys, c) == keys[..n] + [keys[n] + [c]];
  }

  function NoSpaces(text: string): string
  {
    if text == "" then ""
    else NoSpaces(text[..|text| - 1]) + if text[|text| - 1] == ' ' then "" else [text[|text| - 1]]
  }

  /** Spaces do not matter, wherever they stand. */
  lemma {:induction false} SpacesDoNotMatter(text: string)
    ensures Indexes(text) == Indexes(NoSpaces(text))
    ensures FeedAll(Scan([""], 0), text) == FeedAll(Scan([""], 0), NoSpaces(text))
    decreases |text|
  {
    if text != "" {
      var n := |text| - 1;
      SpacesDoNotMatter(text[..n]);
      FeedLast(text);
      if text[n] == ' ' {
        assert NoSpaces(text[..n]) + "" == NoSpaces(text[..n]);
      } else {
        var t := NoSpaces(text[..n]) + [text[n]];
        FeedLast(t);
        assert t[..|t| - 1] == NoSpaces(text[..n]);
      }
    }
  }

  // Printing

  /** `k1]...[kn]`, each index in brackets. */
  function PrintRest(keys: seq<string>): string
  {
    if keys == [] then "" else "[" + (keys[0] + ("]" + PrintRest(keys[1..])))
  }

  /** `k0[k1]...[kn]`. */
  function Print(keys: seq<string>): string
    requires keys != []
  {
    keys[0] + PrintRest(keys[1..])
  }

  lemma {:induction false} FeedClean(s: Scan, k: string)
    requires s.keys != [] && s.pos == 0 && Clean(k)
    ensures FeedAll(s, k) == Scan(s.keys[|s.keys| - 1 := s.keys[|s.keys| - 1] + k], 0)
    decreases |k|
  {
    var n := |s.keys| - 1;
    if k == "" {
      assert s.keys[n] + k == s.keys[n];
      assert s.keys[n := s.keys[n] + k] == s.keys;
    } else {
      FeedClean(Feed(s, k[0]), k[1..]);
      assert (s.keys[n] + [k[0]]) + k[1..] == s.keys[n] + k;
    }
  }

  /** The characters of an index, after its opening bracket. */
  lemma FeedInside(keys: seq<string>, k: string)
    requires keys != [] && Clean(k) && k != ""
    ensures FeedAll(Scan(keys, 1), k) == Scan(keys + [k], 0)
  {
    var t := Feed(Scan(keys, 1), k[0]);
    assert Plain(k[0]) && "" + [k[0]] == [k[0]];
    assert (keys + [""])[|keys| := [k[0]]] == keys + [[k[0]]];
    assert t == Scan(keys + [[k[0]]], 0);
    FeedClean(t, k[1..]);
    assert [k[0]] + k[1..] == k;
    assert t.keys[|keys| := k] == keys + [k];
  }

  /** A bracketed index adds itself. */
  lemma FeedBracketed(s: Scan, k: string)
    requires s.keys != [] && Clean(k)
    ensures FeedAll(s, "[" + (k + "]")) == Scan(s.keys + [k], 2)
  {
    var begun := Scan(s.keys, 1);
    assert ("[" + (k + "]"))[1..] == k + "]";
    assert FeedAll(s, "[" + (k + "]")) == FeedAll(begun, k + "]");
    FeedAppend(begun, k, "]");
    if k != "" {
      FeedInside(s.keys, k);
    }
    var t := FeedAll(begun, k);
    FeedOne(t, ']');
  }

  lemma FeedOne(s: Scan, c: char)
    requires s.keys != []
    ensures FeedAll(s, [c]) == Feed(s, c)
  {
    assert [c][1..] == "";
  }

  lemma {:induction false} FeedPrinted(s: Scan, keys: seq<string>)
    requires s.keys != [] && AllClean(keys)
    ensures FeedAll(s, PrintRest(keys)).keys == s.keys + keys
    decreases |keys|
  {
    if keys != [] {
      FeedPrintedFront(s, keys);
      FeedPrinted(Scan(s.keys + [keys[0]], 2), keys[1..]);
      assert s.keys + [keys[0]] + keys[1..] == s.keys + keys;
    }
  }

  lemma PrintRestFront(keys: seq<string>)
    requires keys != []
    ensures PrintRest(keys) == ("[" + (keys[0] + "]")) + PrintRest(keys[1..])
  {
  }

  lemma FeedPrintedFront(s: Scan, keys: seq<string>)
    requires s.keys != [] && keys != [] && Clean(keys[0])
    ensures FeedAll(s, PrintRest(keys)) == FeedAll(Scan(s.keys + [keys[0]], 2), PrintRest(keys[1..]))
  {
    PrintRestFront(keys);
    FeedAppend(s, "[" + (keys[0] + "]"), PrintRest(keys[1..]));
    FeedBracketed(s, keys[0]);
  }

  /** Round trip: a list of indexes, printed in bracket notation and parsed, comes back. */
  lemma ParsePrinted(keys: seq<string>)
    requires keys != [] && AllClean(keys)
    ensures Indexes(Print(keys)) == keys
  {
    var start := Scan([""], 0);
    FeedAppend(start, keys[0], PrintRest(keys[1..]));
    FeedClean(start, keys[0]);
    assert "" + keys[0] == keys[0];
    assert [""][0 := keys[0]] == [keys[0]];
    FeedPrinted(Scan([keys[0]], 0), keys[1..]);
    assert [keys[0]] + keys[1..] == keys;
  }

  /** Printing what was parsed gives a name that parses the same. */
  lemma ParsePrintParse(text: string)
    ensures Indexes(Print(Indexes(text))) == Indexes(text)
  {
    FeedAllClean(Scan([""], 0), text);
    ParsePrinted(Indexes(text));
  }
}

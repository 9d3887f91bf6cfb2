/**
 Framing of a TCP stream: chunks are gathered until one ends with the delimiter, and make up a body.
 */
module TcpFrames {
  /** The chunk ends with the delimiter. */
  predicate Ends(c: string, delim: string)
  {
    |delim| <= |c| && c[|c| - |delim|..] == delim
  }

  /** The bodies that a list of chunks completes: each ends with the first chunk that ends with the delimiter. */
  function Frames(cs: seq<string>, delim: string): seq<string>
  {
    if cs == [] then []
    else
      var before, c := cs[..|cs| - 1], cs[|cs| - 1];
      Frames(before, delim) + if Ends(c, delim) then [Tail(before, delim) + c] else []
  }

  /** What is left over after the last completed body. */
  function Tail(cs: seq<string>, delim: string): string
  {
    if cs == [] then ""
    else
      var before, c := cs[..|cs| - 1], cs[|cs| - 1];
      if Ends(c, delim) then "" else Tail(before, delim) + c
  }

  function Flatten(cs: seq<string>): string
  {
    if cs == [] then "" else Flatten(cs[..|cs| - 1]) + cs[|cs| - 1]
  }

  lemma FlattenAppend(cs: seq<string>, c: string)
    ensures Flatten(cs + [c]) == Flatten(cs) + c
  {
    assert (cs + [c])[..|cs|] == cs;
  }

  lemma FramesMore(cs: seq<string>, c: string, delim: string)
    ensures Frames(cs + [c], delim) ==
            if Ends(c, delim) then Frames(cs, delim) + [Tail(cs, delim) + c] else Frames(cs, delim)
    ensures Tail(cs + [c], delim) == if Ends(c, delim) then "" else Tail(cs, delim) + c
  {
    assert (cs + [c])[..|cs|] == cs;
    assert Frames(cs, delim) + [] == Frames(cs, delim);
  }

  /** Conservation: the bodies in a row, and then the rest, are what arrived. */
  lemma {:induction false} FramesKeepTheStream(cs: seq<string>, delim: string)
    ensures Flatten(Frames(cs, delim)) + Tail(cs, delim) == Flatten(cs)
    decreases |cs|
  {
    if cs != [] {
      var before, c := cs[..|cs| - 1], cs[|cs| - 1];
      FramesKeepTheStream(before, delim);
      StreamMore(before, c, delim);
      assert before + [c] == cs;
    }
  }

  lemma StreamMore(cs: seq<string>, c: string, delim: string)
    requires Flatten(Frames(cs, delim)) + Tail(cs, delim) == Flatten(cs)
    ensures Flatten(Frames(cs + [c], delim)) + Tail(cs + [c], delim) == Flatten(cs + [c])
  {
    var fs, t := Frames(cs, delim), Tail(cs, delim);
    FramesMore(cs, c, delim);
    FlattenAppend(cs, c);
    FlattenAppend(fs, t + c);
    assert Flatten(fs) + (t + c) == (Flatten(fs) + t) + c;
    assert Flatten(fs + [t + c]) + "" == Flatten(fs + [t + c]);
  }

  /** Every completed body ends with the delimiter. */
  lemma {:induction false} FramesEndWithDelimiter(cs: seq<string>, delim: string, i: nat)
    requires i < |Frames(cs, delim)|
    ensures Ends(Frames(cs, delim)[i], delim)
    decreases |cs|
  {
    var before, c := cs[..|cs| - 1], cs[|cs| - 1];
    if i < |Frames(before, delim)| {
      FramesEndWithDelimiter(before, delim, i);
    } else {
      var t := Tail(before, delim);
      assert (t + c)[|t + c| - |delim|..] == c[|c| - |delim|..];
    }
  }

  /**
   Only the end of a chunk is looked at, so what counts as one body depends on how the bytes were cut:
   a list of accepted chunks is delivered as one body exactly when its last chunk, and no other, ends
   with the delimiter.
   */
  lemma OneBodyExactly(before: seq<string>, c: string, delim: string)
    requires 0 < |delim| <= |c|
    ensures Frames(before + [c], delim) == [Flatten(before + [c])]
       <==> Ends(c, delim) && forall i | 0 <= i < |before| :: !Ends(before[i], delim)
  {
    var fs, t := Frames(before, delim), Tail(before, delim);
    NoBodyExactly(before, delim);
    FramesMore(before, c, delim);
    FlattenAppend(before, c);
    if Ends(c, delim) {
      if fs == [] {
        FramesKeepTheStream(before, delim);
        assert Flatten(fs) + t == t;
        assert fs + [t + c] == [t + c];
      } else {
        assert |fs + [t + c]| >= 2;
      }
    } else if fs == [Flatten(before) + c] {
      FramesKeepTheStream(before, delim);
      assert false;
    }
  }

  lemma {:induction false} NoBodyExactly(cs: seq<string>, delim: string)
    ensures Frames(cs, delim) == [] <==> forall i | 0 <= i < |cs| :: !Ends(cs[i], delim)
    decreases |cs|
  {
    if cs != [] {
      var before := cs[..|cs| - 1];
      NoBodyExactly(before, delim);
      assert forall i | 0 <= i < |before| :: cs[i] == before[i];
    }
  }

  /** Where in the stream the bodies end: after each chunk that ends with the delimiter. */
  function Breaks(cs: seq<string>, delim: string): seq<nat>
  {
    if cs == [] then []
    else Breaks(cs[..|cs| - 1], delim) + if Ends(cs[|cs| - 1], delim) then [|Flatten(cs)|] else []
  }

  /** Where in a row of bodies each of them ends. */
  function Offsets(fs: seq<string>): (ns: seq<nat>)
    ensures |ns| == |fs|
  {
    if fs == [] then [] else Offsets(fs[..|fs| - 1]) + [|Flatten(fs)|]
  }

  lemma OffsetsMore(fs: seq<string>, f: string)
    ensures Offsets(fs + [f]) == Offsets(fs) + [|Flatten(fs)| + |f|]
  {
    var gs := fs + [f];
    FlattenAppend(fs, f);
    assert gs[..|gs| - 1] == fs;
  }

  lemma {:induction false} BreaksAreOffsets(cs: seq<string>, delim: string)
    ensures Breaks(cs, delim) == Offsets(Frames(cs, delim))
    decreases |cs|
  {
    if cs != [] {
      var before, c := cs[..|cs| - 1], cs[|cs| - 1];
      assert before + [c] == cs;
      BreaksAreOffsets(before, delim);
      FramesMore(before, c, delim);
      if Ends(c, delim) {
        FramesKeepTheStream(before, delim);
        FlattenAppend(before, c);
        OffsetsMore(Frames(before, delim), Tail(before, delim) + c);
      }
    }
  }

  /** Bodies are known by the stream they begin and by where they end in it. */
  lemma {:induction false} OffsetsDetermine(fs: seq<string>, gs: seq<string>, stream: string)
    requires Offsets(fs) == Offsets(gs) && Flatten(fs) <= stream && Flatten(gs) <= stream
    ensures fs == gs
    decreases |fs|
  {
    if fs != [] {
      var n := |fs| - 1;
      var x, y := Flatten(fs[..n]), Flatten(gs[..n]);
      assert |gs| == |Offsets(gs)| == n + 1;
      assert Offsets(fs)[n] == |Flatten(fs)| && Offsets(gs)[n] == |Flatten(gs)|;
      assert Flatten(fs) == Flatten(gs);
      assert Offsets(fs)[..n] == Offsets(fs[..n]) && Offsets(gs)[..n] == Offsets(gs[..n]);
      assert x <= stream && y <= stream;
      OffsetsDetermine(fs[..n], gs[..n], stream);
      assert fs[n] == Flatten(fs)[|x|..] && gs[n] == Flatten(gs)[|y|..];
      assert fs == fs[..n] + [fs[n]] && gs == gs[..n] + [gs[n]];
    }
  }

  /** Two cuttings of the same bytes are delivered as the same bodies, exactly when they break at the same places. */
  lemma SameBodiesExactly(cs: seq<string>, ds: seq<string>, delim: string)
    requires Flatten(cs) == Flatten(ds)
    ensures Frames(cs, delim) == Frames(ds, delim) <==> Breaks(cs, delim) == Breaks(ds, delim)
  {
    BreaksAreOffsets(cs, delim);
    BreaksAreOffsets(ds, delim);
    if Breaks(cs, delim) == Breaks(ds, delim) {
      FramesKeepTheStream(cs, delim);
      FramesKeepTheStream(ds, delim);
      OffsetsDetermine(Frames(cs, delim), Frames(ds, delim), Flatten(cs));
    }
  }

  /** The same bytes, cut in two ways: one body or two. */
  lemma CuttingMatters(x: string, y: string, delim: string)
    ensures Flatten([x + delim, y + delim]) == Flatten([x + delim + y + delim])
    ensures Frames([x + delim, y + delim], delim) != Frames([x + delim + y + delim], delim)
  {
    EndsWith(x, delim);
    EndsWith(y, delim);
    EndsWith(x + delim + y, delim);
    Regroup(x + delim, y, delim);
    CutsDiffer(x + delim, y + delim, x + delim + y + delim, delim);
  }

  lemma Regroup(a: string, b: string, c: string)
    ensures a + (b + c) == a + b + c
  {
  }

  lemma CutsDiffer(a: string, b: string, whole: string, delim: string)
    requires Ends(a, delim) && Ends(b, delim) && Ends(whole, delim) && a + b == whole
    ensures Flatten([a, b]) == Flatten([whole]) && Frames([a, b], delim) != Frames([whole], delim)
  {
    TwoBodies(a, b, delim);
    OneBody(whole, delim);
  }

  lemma OneBody(a: string, delim: string)
    requires Ends(a, delim)
    ensures Flatten([a]) == a && |Frames([a], delim)| == 1
  {
    assert [] + [a] == [a];
    FlattenAppend([], a);
    FramesMore([], a, delim);
  }

  lemma TwoBodies(a: string, b: string, delim: string)
    requires Ends(a, delim) && Ends(b, delim)
    ensures Flatten([a, b]) == a + b && |Frames([a, b], delim)| == 2
  {
    OneBody(a, delim);
    assert [a] + [b] == [a, b];
    FlattenAppend([a], b);
    FramesMore([a], b, delim);
  }

  lemma EndsWith(x: string, delim: string)
    ensures Ends(x + delim, delim)
  {
  }
}

/**
 What the worker hears of a connection, for all reads and all answers: the bodies that framing makes of
 the chunks, as many as the answers let through, the order of events, and the close that comes too early.
 */
module TcpLaws {
  import opened TcpFrames
  import opened TcpSession

  // From reads to bodies

  /** The chunks up to the first read that is an error, the end, or too short to hold the delimiter. */
  function Lead(delim: string, input: seq<Read>): (cs: seq<string>)
    ensures |cs| <= |input|
    decreases |input|
  {
    if input != [] && input[0].Chunk? && |input[0].bytes| >= |delim| then [input[0].bytes] + Lead(delim, input[1..])
    else []
  }

  function Datas(fs: seq<string>): (es: seq<Event>)
    ensures |es| == |fs| && forall i | 0 <= i < |es| :: es[i] == Data(fs[i])
  {
    if fs == [] then [] else Datas(fs[..|fs| - 1]) + [Data(fs[|fs| - 1])]
  }

  predicate LongEnough(delim: string, cs: seq<string>)
  {
    forall i | 0 <= i < |cs| :: |cs[i]| >= |delim|
  }

  /** The reads begin with these chunks. */
  predicate Begins(input: seq<Read>, cs: seq<string>)
  {
    |cs| <= |input| && forall i | 0 <= i < |cs| :: input[i] == Chunk(cs[i])
  }

  /** The leading chunks are the reads so far, and the next one is no acceptable chunk. */
  lemma {:induction false} LeadIsExact(delim: string, input: seq<Read>)
    ensures Begins(input, Lead(delim, input)) && LongEnough(delim, Lead(delim, input))
    ensures var n := |Lead(delim, input)|; n < |input| && input[n].Chunk? ==> |input[n].bytes| < |delim|
    decreases |input|
  {
    var cs := Lead(delim, input);
    if cs != [] {
      var rest := Lead(delim, input[1..]);
      LeadIsExact(delim, input[1..]);
      forall i | 0 <= i < |cs| ensures input[i] == Chunk(cs[i]) && |cs[i]| >= |delim| {
        if i > 0 {
          assert cs[i] == rest[i - 1] && input[1..][i - 1] == input[i];
        }
      }
    }
  }

  /** One chunk more is gathered. */
  lemma PlayChunk(delim: string, buf: string, input: seq<Read>)
    requires input != [] && input[0].Chunk? && |input[0].bytes| >= |delim|
    ensures var c := input[0].bytes;
            Play(delim, buf, input) ==
            if Ends(c, delim) then After([Data(buf + c)], Play(delim, "", input[1..]))
            else Play(delim, buf + c, input[1..])
  {
  }

  /** Framing is what reading amounts to: chunks are told as the bodies they make up, and the rest is kept. */
  lemma {:induction false} PlayFrames(delim: string, cs: seq<string>, input: seq<Read>)
    requires Begins(input, cs) && LongEnough(delim, cs)
    ensures Play(delim, "", input) == After(Datas(Frames(cs, delim)), Play(delim, Tail(cs, delim), input[|cs|..]))
    decreases |cs|
  {
    if cs == [] {
      assert input[0..] == input;
      AfterNothing(Play(delim, "", input));
    } else {
      var n := |cs| - 1;
      PlayFrames(delim, cs[..n], input);
      assert input[n..][0] == Chunk(cs[n]) && input[n..][1..] == input[n + 1..];
      PlayFramesStep(delim, cs[..n], cs[n], input[n..]);
      assert cs[..n] + [cs[n]] == cs;
    }
  }

  lemma PlayFramesStep(delim: string, before: seq<string>, c: string, input: seq<Read>)
    requires input != [] && input[0] == Chunk(c) && |c| >= |delim|
    ensures After(Datas(Frames(before, delim)), Play(delim, Tail(before, delim), input)) ==
            After(Datas(Frames(before + [c], delim)), Play(delim, Tail(before + [c], delim), input[1..]))
  {
    PlayChunk(delim, Tail(before, delim), input);
    PlayFramesMore(delim, before, c, input[1..]);
  }

  lemma PlayFramesMore(delim: string, before: seq<string>, c: string, more: seq<Read>)
    ensures var fs, t, cs := Frames(before, delim), Tail(before, delim), before + [c];
            After(Datas(fs), if Ends(c, delim) then After([Data(t + c)], Play(delim, "", more))
                             else Play(delim, t + c, more))
            == After(Datas(Frames(cs, delim)), Play(delim, Tail(cs, delim), more))
  {
    var fs, t := Frames(before, delim), Tail(before, delim);
    FramesMore(before, c, delim);
    if Ends(c, delim) {
      AfterAfter(Datas(fs), [Data(t + c)], Play(delim, "", more));
      DatasMore(fs, t + c);
    }
  }

  lemma DatasMore(fs: seq<string>, f: string)
    ensures Datas(fs + [f]) == Datas(fs) + [Data(f)]
  {
    assert (fs + [f])[..|fs|] == fs;
  }

  /** What is told at the read after the leading chunks, `t` being left of them. */
  function Ending(delim: string, t: string, rest: seq<Read>): Story
  {
    if rest == [] then Story([], Waiting)
    else
      match rest[0]
      case Eof =>
        if t == "" then Story([Close(AtEof)], Returned(false))
        else After([Close(AtEof), Data(t)], Play(delim, "", rest[1..]))
      case ReadError => Story([Close(AtReadError)], Returned(true))
      case Chunk(_) => Story([Close(TooShort)], Returned(true))
  }

  /** What the worker would be told, in closed form: the bodies of the leading chunks, and then the ending. */
  lemma PlayInClosedForm(delim: string, input: seq<Read>)
    ensures var cs := Lead(delim, input);
            Play(delim, "", input) ==
            After(Datas(Frames(cs, delim)), Ending(delim, Tail(cs, delim), input[|cs|..]))
  {
    var cs := Lead(delim, input);
    LeadIsExact(delim, input);
    PlayFrames(delim, cs, input);
  }

  // Answers

  /** How many answers go along before the first that does not. */
  function Willing(answers: seq<Answer>): (n: nat)
    ensures n <= |answers|
    decreases |answers|
  {
    if answers != [] && Goes(answers[0]) then 1 + Willing(answers[1..]) else 0
  }

  function Bodies(log: seq<Event>): seq<string>
  {
    if log == [] then [] else (if log[0].Data? then [log[0].body] else []) + Bodies(log[1..])
  }

  function Closes(log: seq<Event>): nat
  {
    if log == [] then 0 else (if log[0].Close? then 1 else 0) + Closes(log[1..])
  }

  lemma BodiesFront(e: Event, log: seq<Event>)
    ensures Bodies([e] + log) == (if e.Data? then [e.body] else []) + Bodies(log)
    ensures Closes([e] + log) == (if e.Close? then 1 else 0) + Closes(log)
  {
    assert ([e] + log)[1..] == log;
  }

  lemma {:induction false} BodiesAppend(a: seq<Event>, b: seq<Event>)
    ensures Bodies(a + b) == Bodies(a) + Bodies(b) && Closes(a + b) == Closes(a) + Closes(b)
    decreases |a|
  {
    if a == [] {
      assert a + b == b;
    } else {
      var e, rest := a[0], a[1..];
      assert a == [e] + rest && a + b == [e] + (rest + b);
      BodiesAppend(rest, b);
      BodiesFront(e, rest);
      BodiesFront(e, rest + b);
      assert ((if e.Data? then [e.body] else []) + Bodies(rest)) + Bodies(b) ==
             (if e.Data? then [e.body] else []) + (Bodies(rest) + Bodies(b));
    }
  }

  lemma {:induction false} BodiesOfDatas(fs: seq<string>)
    ensures Bodies(Datas(fs)) == fs && Closes(Datas(fs)) == 0
    decreases |fs|
  {
    if fs != [] {
      var n := |fs| - 1;
      BodiesOfDatas(fs[..n]);
      BodiesAppend(Datas(fs[..n]), [Data(fs[n])]);
      BodiesFront(Data(fs[n]), []);
      assert [Data(fs[n])] + [] == [Data(fs[n])];
      assert fs[..n] + [fs[n]] == fs;
    }
  }

  function Min(a: nat, b: nat): nat
  {
    if a < b then a else b
  }

  predicate NoConnected(log: seq<Event>)
  {
    forall i | 0 <= i < |log| :: !log[i].Connected?
  }

  lemma TakeFront(x: seq<string>, rest: seq<string>, n: nat)
    requires |x| <= 1
    ensures x + rest[..Min(|rest|, n)] == (x + rest)[..Min(|x + rest|, |x| + n)]
  {
  }

  /** The answers let one body more through than they go along with: the last one is told before it is answered. */
  lemma {:induction false} BodiesHeard(s: Story, answers: seq<Answer>)
    requires NoConnected(s.log)
    ensures Bodies(Heard(s, answers).log) == Bodies(s.log)[..Min(|Bodies(s.log)|, Willing(answers) + 1)]
    decreases |s.log|
  {
    if s.log != [] {
      var e, rest := s.log[0], Story(s.log[1..], s.end);
      if e.Close? {
        BodiesHeard(rest, answers);
        BodiesFront(e, Heard(rest, answers).log);
        assert [] + Bodies(rest.log) == Bodies(rest.log);
      } else if answers != [] && Goes(answers[0]) {
        BodiesHeard(rest, answers[1..]);
        BodiesFront(e, Heard(rest, answers[1..]).log);
        TakeFront([e.body], Bodies(rest.log), Willing(answers[1..]) + 1);
      } else {
        LastBody(e);
        TakeFront([e.body], Bodies(rest.log), 0);
      }
    }
  }

  lemma LastBody(e: Event)
    requires e.Data?
    ensures Bodies([e]) == [e.body] && Bodies([e, Close(Directed)]) == [e.body]
  {
    BodiesFront(e, []);
    assert [e] + [] == [e];
    BodiesFront(e, [Close(Directed)]);
    BodiesFront(Close(Directed), []);
    assert [e] + [Close(Directed)] == [e, Close(Directed)] && [Close(Directed)] + [] == [Close(Directed)];
  }

  /** All the bodies a connection has in store, if nothing follows an end of file. */
  function InStore(delim: string, input: seq<Read>): seq<string>
  {
    var cs := Lead(delim, input);
    Frames(cs, delim) +
    if |cs| < |input| && input[|cs|].Eof? && Tail(cs, delim) != "" then [Tail(cs, delim)] else []
  }

  /** After an end of file no more bytes arrive. */
  ghost predicate EofIsFinal(input: seq<Read>)
  {
    forall i, j | 0 <= i < j < |input| && input[i].Eof? :: !input[j].Chunk?
  }

  /** What is told after the rest has been delivered at an end of file: a close at most. */
  lemma SecondEnding(delim: string, rest: seq<Read>)
    requires rest == [] || !rest[0].Chunk?
    ensures var s := Play(delim, "", rest);
            s.log == if rest == [] then [] else [Close(if rest[0].Eof? then AtEof else AtReadError)]
  {
  }

  lemma FinalRest(input: seq<Read>, n: nat)
    requires EofIsFinal(input) && n < |input| && input[n].Eof?
    ensures input[n..][1..] == [] || !input[n..][1..][0].Chunk?
  {
    if n + 1 < |input| {
      assert input[n..][1..][0] == input[n + 1];
    }
  }

  lemma BodiesOfEnding(delim: string, t: string, rest: seq<Read>)
    requires rest != [] && rest[0].Eof? ==> rest[1..] == [] || !rest[1..][0].Chunk?
    ensures Bodies(Ending(delim, t, rest).log) == if rest != [] && rest[0].Eof? && t != "" then [t] else []
  {
    if rest != [] {
      if rest[0].Eof? && t != "" {
        SecondEnding(delim, rest[1..]);
        BodiesOfEarlyClose(t, Play(delim, "", rest[1..]).log);
      } else {
        BodiesFront(Ending(delim, t, rest).log[0], []);
        assert [Ending(delim, t, rest).log[0]] + [] == Ending(delim, t, rest).log;
      }
    }
  }

  lemma BodiesOfEarlyClose(t: string, second: seq<Event>)
    requires second == [] || (|second| == 1 && second[0].Close?)
    ensures Bodies([Close(AtEof), Data(t)] + second) == [t]
  {
    BodiesFront(Close(AtEof), [Data(t)] + second);
    BodiesFront(Data(t), second);
    assert [Close(AtEof)] + ([Data(t)] + second) == [Close(AtEof), Data(t)] + second;
    if second != [] {
      BodiesFront(second[0], []);
      assert [second[0]] + [] == second;
    }
  }

  lemma BodiesOfPlay(delim: string, input: seq<Read>)
    requires EofIsFinal(input)
    ensures Bodies(Play(delim, "", input).log) == InStore(delim, input)
  {
    var cs := Lead(delim, input);
    var fs, t, rest := Frames(cs, delim), Tail(cs, delim), input[|cs|..];
    PlayInClosedForm(delim, input);
    BodiesAppend(Datas(fs), Ending(delim, t, rest).log);
    BodiesOfDatas(fs);
    if |cs| < |input| && input[|cs|].Eof? {
      FinalRest(input, |cs|);
    }
    BodiesOfEnding(delim, t, rest);
  }

  lemma {:induction false} PlayHasNoConnected(delim: string, buf: string, input: seq<Read>)
    ensures NoConnected(Play(delim, buf, input).log)
    decreases |input|
  {
    if input != [] {
      PlayHasNoConnected(delim, "", input[1..]);
      if input[0].Chunk? {
        PlayHasNoConnected(delim, buf + input[0].bytes, input[1..]);
      }
    }
  }

  /**
   What the worker is given, exactly: of the bodies that the leading chunks make up, and the rest of
   them if the end of file follows, as many as its answers go along with.
   */
  lemma BodiesExactly(delim: string, input: seq<Read>, answers: seq<Answer>)
    requires EofIsFinal(input)
    ensures var all := InStore(delim, input);
            Bodies(Session(delim, input, answers).log) == all[..Min(|all|, Willing(answers))]
  {
    var p := Play(delim, "", input);
    HeardQuestion(Connected, p, answers);
    BodiesOfPlay(delim, input);
    if answers != [] && Goes(answers[0]) {
      PlayHasNoConnected(delim, "", input);
      BodiesHeard(p, answers[1..]);
      BodiesFront(Connected, Heard(p, answers[1..]).log);
    } else {
      OnlyConnected();
    }
  }

  lemma OnlyConnected()
    ensures Bodies([Connected]) == [] && Bodies([Connected, Close(Directed)]) == []
    ensures Closes([Connected]) == 0 && Closes([Connected, Close(Directed)]) == 1
  {
    BodiesFront(Connected, []);
    assert [Connected] + [] == [Connected];
    BodiesFront(Connected, [Close(Directed)]);
    BodiesFront(Close(Directed), []);
    assert [Connected] + [Close(Directed)] == [Connected, Close(Directed)];
    assert [Close(Directed)] + [] == [Close(Directed)];
  }

  /**
   Conservation: a worker that goes along is given every byte of the leading chunks, in order, and
   without an end of file after them all but the rest that no delimiter has ended.
   */
  lemma NothingIsLost(delim: string, input: seq<Read>, answers: seq<Answer>)
    requires EofIsFinal(input) && Willing(answers) >= |InStore(delim, input)|
    ensures var cs := Lead(delim, input);
            var kept := if |cs| < |input| && input[|cs|].Eof? then "" else Tail(cs, delim);
            Flatten(Bodies(Session(delim, input, answers).log)) + kept == Flatten(cs)
  {
    BodiesExactly(delim, input, answers);
    assert InStore(delim, input)[..|InStore(delim, input)|] == InStore(delim, input);
    StoreKeepsTheStream(delim, input);
  }

  lemma StoreKeepsTheStream(delim: string, input: seq<Read>)
    ensures var cs := Lead(delim, input);
            var kept := if |cs| < |input| && input[|cs|].Eof? then "" else Tail(cs, delim);
            Flatten(InStore(delim, input)) + kept == Flatten(cs)
  {
    var cs := Lead(delim, input);
    FramesKeepTheStream(cs, delim);
    WithTheRest(Frames(cs, delim), Tail(cs, delim), Flatten(cs));
  }

  lemma WithTheRest(fs: seq<string>, t: string, all: string)
    requires Flatten(fs) + t == all
    ensures Flatten(fs + [t]) + "" == all && Flatten(fs + []) + t == all
    ensures t == "" ==> Flatten(fs + []) + "" == all
  {
    FlattenAppend(fs, t);
    assert fs + [] == fs;
  }

  // Order of events

  lemma {:induction false} HeardHasNoConnected(s: Story, answers: seq<Answer>)
    requires NoConnected(s.log)
    ensures NoConnected(Heard(s, answers).log)
    decreases |s.log|
  {
    if s.log != [] {
      var rest := Story(s.log[1..], s.end);
      HeardHasNoConnected(rest, answers);
      if answers != [] {
        HeardHasNoConnected(rest, answers[1..]);
      }
    }
  }

  /** The worker hears of the connection first and once. */
  lemma ConnectedFirst(delim: string, input: seq<Read>, answers: seq<Answer>)
    ensures var log := Session(delim, input, answers).log;
            log != [] && log[0] == Connected && NoConnected(log[1..])
  {
    var p := Play(delim, "", input);
    HeardQuestion(Connected, p, answers);
    PlayHasNoConnected(delim, "", input);
    if answers != [] {
      HeardHasNoConnected(p, answers[1..]);
      assert ([Connected] + Heard(p, answers[1..]).log)[1..] == Heard(p, answers[1..]).log;
    }
  }

  predicate NoClose(log: seq<Event>)
  {
    forall i | 0 <= i < |log| :: !log[i].Close?
  }

  /** Questions up front: with enough answers that go along they are all told, and otherwise the log ends among them. */
  lemma {:induction false} HeardThrough(pre: seq<Event>, s: Story, answers: seq<Answer>)
    requires NoClose(pre)
    ensures var w, h := Willing(answers), Heard(After(pre, s), answers);
            if w >= |pre| then h == After(pre, Heard(s, answers[|pre|..]))
            else h.log == pre[..w + 1] || h.log == pre[..w + 1] + [Close(Directed)]
    decreases |pre|
  {
    if pre == [] {
      AfterNothing(s);
      AfterNothing(Heard(s, answers));
      assert answers[0..] == answers;
    } else {
      var e, rest := pre[0], pre[1..];
      assert [e] + rest == pre;
      AfterAfter([e], rest, s);
      HeardQuestion(e, After(rest, s), answers);
      if answers != [] && Goes(answers[0]) {
        HeardThrough(rest, s, answers[1..]);
        ThroughFront(e, rest, s, answers);
      } else {
        assert pre[..1] == [e] && [e] + [Close(Directed)] == [e, Close(Directed)];
      }
    }
  }

  lemma ThroughFront(e: Event, rest: seq<Event>, s: Story, answers: seq<Answer>)
    requires answers != [] && Goes(answers[0])
    ensures var w := Willing(answers[1..]);
            Willing(answers) == w + 1 &&
            (w >= |rest| ==>
              After([e], After(rest, Heard(s, answers[1..][|rest|..]))) ==
              After([e] + rest, Heard(s, answers[|rest| + 1..]))) &&
            (w < |rest| ==>
              [e] + rest[..w + 1] == ([e] + rest)[..w + 2] &&
              [e] + (rest[..w + 1] + [Close(Directed)]) == ([e] + rest)[..w + 2] + [Close(Directed)])
  {
    if Willing(answers[1..]) >= |rest| {
      assert answers[1..][|rest|..] == answers[|rest| + 1..];
      AfterAfter([e], rest, Heard(s, answers[|rest| + 1..]));
    }
  }

  /** What is told before the ending. */
  function Opening(delim: string, input: seq<Read>): (log: seq<Event>)
    ensures NoClose(log) && |log| == 1 + |Frames(Lead(delim, input), delim)|
  {
    [Connected] + Datas(Frames(Lead(delim, input), delim))
  }

  lemma SessionOpens(delim: string, input: seq<Read>, answers: seq<Answer>)
    ensures var cs, pre := Lead(delim, input), Opening(delim, input);
            var end := Ending(delim, Tail(cs, delim), input[|cs|..]);
            Session(delim, input, answers) == Heard(After(pre, end), answers)
  {
    var cs := Lead(delim, input);
    PlayInClosedForm(delim, input);
    AfterAfter([Connected], Datas(Frames(cs, delim)), Ending(delim, Tail(cs, delim), input[|cs|..]));
  }

  /** The worker is given data after it was told of the close. */
  predicate DataAfterClose(log: seq<Event>)
  {
    exists i, j :: 0 <= i < j < |log| && log[i].Close? && log[j].Data?
  }

  /** The end of file follows the leading chunks and finds a rest of them. */
  predicate EndsWithRest(delim: string, input: seq<Read>)
  {
    var cs := Lead(delim, input);
    |cs| < |input| && input[|cs|].Eof? && Tail(cs, delim) != ""
  }

  /** How a log goes on from the first close. */
  predicate Finale(x: seq<Event>)
  {
    || x == []
    || (|x| == 1 && x[0].Close?)
    || (|x| == 2 && x[0] == Close(AtEof) && x[1].Data?)
    || (|x| == 3 && x[0] == Close(AtEof) && x[1].Data? && x[2].Close?)
  }

  /** What the answers leave of an ending without a rest: all of it. */
  lemma HeardSimpleEnding(s: Story, answers: seq<Answer>)
    requires s.log == [] || (|s.log| == 1 && s.log[0].Close?)
    ensures Heard(s, answers) == s
  {
    if s.log != [] {
      assert s.log[1..] == [] && [s.log[0]] + [] == s.log;
    }
  }

  /** And of one with a rest: the close and the rest, whatever is answered. */
  lemma HeardEarlyClose(t: string, s: Story, answers: seq<Answer>)
    ensures var log := Heard(After([Close(AtEof), Data(t)], s), answers).log;
            |log| >= 2 && log[0] == Close(AtEof) && log[1] == Data(t)
    ensures s.log == [] || (|s.log| == 1 && s.log[0].Close?) ==>
            Finale(Heard(After([Close(AtEof), Data(t)], s), answers).log)
  {
    var d := After([Data(t)], s);
    AfterAfter([Close(AtEof)], [Data(t)], s);
    assert [Close(AtEof)] + [Data(t)] == [Close(AtEof), Data(t)];
    HeardClose(Close(AtEof), d, answers);
    HeardQuestion(Data(t), s, answers);
    if answers != [] && (s.log == [] || (|s.log| == 1 && s.log[0].Close?)) {
      HeardSimpleEnding(s, answers[1..]);
    }
  }

  lemma NoDataAfterClose(pre: seq<Event>, x: seq<Event>)
    requires NoClose(pre) && (x == [] || (|x| == 1 && x[0].Close?))
    ensures !DataAfterClose(pre + x)
  {
  }

  lemma DataComesAfter(pre: seq<Event>, x: seq<Event>)
    requires |x| >= 2 && x[0].Close? && x[1].Data?
    ensures DataAfterClose(pre + x)
  {
    assert (pre + x)[|pre|] == x[0] && (pre + x)[|pre| + 1] == x[1];
  }

  /**
   The close comes before data, exactly when the end of file finds a rest and the worker has gone along
   until then.
   */
  lemma ClosedTooEarlyExactly(delim: string, input: seq<Read>, answers: seq<Answer>)
    ensures DataAfterClose(Session(delim, input, answers).log) <==>
            EndsWithRest(delim, input) && Willing(answers) > |Frames(Lead(delim, input), delim)|
  {
    var cs, pre := Lead(delim, input), Opening(delim, input);
    var end := Ending(delim, Tail(cs, delim), input[|cs|..]);
    SessionOpens(delim, input, answers);
    HeardThrough(pre, end, answers);
    var w := Willing(answers);
    if w < |pre| {
      var finale := CutFinale(pre[..w + 1], Session(delim, input, answers).log);
    } else {
      TooEarlyAfter(pre, delim, Tail(cs, delim), input[|cs|..], answers[|pre|..]);
    }
  }

  lemma TooEarlyAfter(pre: seq<Event>, delim: string, t: string, rest: seq<Read>, answers: seq<Answer>)
    requires NoClose(pre)
    ensures DataAfterClose(pre + Heard(Ending(delim, t, rest), answers).log) <==> rest != [] && rest[0].Eof? && t != ""
  {
    var end := Ending(delim, t, rest);
    if rest != [] && rest[0].Eof? && t != "" {
      HeardEarlyClose(t, Play(delim, "", rest[1..]), answers);
      DataComesAfter(pre, Heard(end, answers).log);
    } else {
      HeardSimpleEnding(end, answers);
      NoDataAfterClose(pre, end.log);
    }
  }

  /**
   The order of events: no close in the opening; after the first close nothing, or, at an end of file,
   the rest and at most one more close.
   */
  lemma FinaleOfSession(delim: string, input: seq<Read>, answers: seq<Answer>)
      returns (opening: seq<Event>, finale: seq<Event>)
    requires EofIsFinal(input)
    ensures Session(delim, input, answers).log == opening + finale && NoClose(opening) && Finale(finale)
    ensures |finale| >= 2 <==> DataAfterClose(Session(delim, input, answers).log)
  {
    var cs, pre := Lead(delim, input), Opening(delim, input);
    var end := Ending(delim, Tail(cs, delim), input[|cs|..]);
    SessionOpens(delim, input, answers);
    HeardThrough(pre, end, answers);
    var w := Willing(answers);
    if w < |pre| {
      opening := pre[..w + 1];
      finale := CutFinale(opening, Session(delim, input, answers).log);
    } else {
      opening, finale := pre, Heard(end, answers[|pre|..]).log;
      if |cs| < |input| && input[|cs|].Eof? {
        FinalRest(input, |cs|);
      }
      FinaleOfEnding(delim, Tail(cs, delim), input[|cs|..], answers[|pre|..]);
      TooEarlyAfter(pre, delim, Tail(cs, delim), input[|cs|..], answers[|pre|..]);
    }
  }

  lemma FinaleOfEnding(delim: string, t: string, rest: seq<Read>, answers: seq<Answer>)
    requires rest != [] && rest[0].Eof? ==> rest[1..] == [] || !rest[1..][0].Chunk?
    ensures var log := Heard(Ending(delim, t, rest), answers).log;
            Finale(log) && (|log| >= 2 <==> rest != [] && rest[0].Eof? && t != "")
  {
    if rest != [] && rest[0].Eof? && t != "" {
      EarlyCloseFinale(delim, t, rest[1..], answers);
    } else {
      HeardSimpleEnding(Ending(delim, t, rest), answers);
    }
  }

  /** What follows where the answers have cut a log short. */
  lemma CutFinale(pre: seq<Event>, log: seq<Event>) returns (finale: seq<Event>)
    requires NoClose(pre) && (log == pre || log == pre + [Close(Directed)])
    ensures log == pre + finale && Finale(finale) && |finale| <= 1 && !DataAfterClose(log)
  {
    finale := if log == pre then [] else [Close(Directed)];
    NoDataAfterClose(pre, finale);
  }

  lemma EarlyCloseFinale(delim: string, t: string, rest: seq<Read>, answers: seq<Answer>)
    requires rest == [] || !rest[0].Chunk?
    ensures var log := Heard(After([Close(AtEof), Data(t)], Play(delim, "", rest)), answers).log;
            Finale(log) && |log| >= 2 && log[0].Close? && log[1].Data?
  {
    SecondEnding(delim, rest);
    HeardEarlyClose(t, Play(delim, "", rest), answers);
  }

  lemma {:induction false} NoCloseCounts(log: seq<Event>)
    requires NoClose(log)
    ensures Closes(log) == 0
    decreases |log|
  {
    if log != [] {
      NoCloseCounts(log[1..]);
    }
  }

  lemma FinaleCloses(x: seq<Event>)
    requires Finale(x)
    ensures Closes(x) <= 2 && (Closes(x) == 2 <==> |x| == 3)
  {
    if |x| >= 2 {
      assert x[1..][1..] == x[2..];
      assert |x| == 3 ==> x[2..][1..] == [];
    }
  }

  /** At most two close events are sent, and a second one only after the rest was delivered. */
  lemma AtMostTwoCloses(delim: string, input: seq<Read>, answers: seq<Answer>)
    requires EofIsFinal(input)
    ensures Closes(Session(delim, input, answers).log) <= 2
    ensures Closes(Session(delim, input, answers).log) == 2 ==> DataAfterClose(Session(delim, input, answers).log)
  {
    var opening, finale := FinaleOfSession(delim, input, answers);
    BodiesAppend(opening, finale);
    NoCloseCounts(opening);
    FinaleCloses(finale);
  }

  /** Two bytes without a delimiter and the end of file: the close is told, then the bytes, then the close again. */
  lemma EarlyCloseHappens()
    ensures Session("\n", [Chunk("ab"), Eof, Eof], [Answer(Continue, "", true), Answer(Continue, "", true)]) ==
            Story([Connected, Close(AtEof), Data("ab"), Close(AtEof)], Returned(false))
  {
    var go := Answer(Continue, "", true);
    var input := [Chunk("ab"), Eof, Eof];
    assert input[1..] == [Eof, Eof] && [Eof, Eof][1..] == [Eof];
    assert Play("\n", "", [Eof]) == Story([Close(AtEof)], Returned(false));
    assert Play("\n", "ab", [Eof, Eof]) == Story([Close(AtEof), Data("ab"), Close(AtEof)], Returned(false));
    assert "" + "ab" == "ab";
    var p := Play("\n", "", input);
    assert p == Story([Close(AtEof), Data("ab"), Close(AtEof)], Returned(false));
    HeardEarly(go);
    HeardQuestion(Connected, p, [go, go]);
    assert [go, go][1..] == [go];
  }

  lemma HeardEarly(go: Answer)
    requires Goes(go)
    ensures var p := Story([Close(AtEof), Data("ab"), Close(AtEof)], Returned(false)); Heard(p, [go]) == p
  {
    var p := Story([Close(AtEof), Data("ab"), Close(AtEof)], Returned(false));
    assert [go][1..] == [];
    HeardClose(Close(AtEof), Story([Data("ab"), Close(AtEof)], Returned(false)), [go]);
    assert After([Close(AtEof)], Story([Data("ab"), Close(AtEof)], Returned(false))) == p;
    HeardQuestion(Data("ab"), Story([Close(AtEof)], Returned(false)), [go]);
    assert After([Data("ab")], Story([Close(AtEof)], Returned(false))) ==
           Story([Data("ab"), Close(AtEof)], Returned(false));
    HeardSimpleEnding(Story([Close(AtEof)], Returned(false)), []);
  }

  // Answers, one by one

  /** How many events the worker is to answer. */
  function Questions(log: seq<Event>): nat
  {
    if log == [] then 0 else (if log[0].Close? then 0 else 1) + Questions(log[1..])
  }

  /** The log up to its question number `k`, counted from zero. */
  function Through(log: seq<Event>, k: nat): seq<Event>
  {
    if log == [] then []
    else if log[0].Close? then [log[0]] + Through(log[1..], k)
    else if k == 0 then [log[0]]
    else [log[0]] + Through(log[1..], k - 1)
  }

  /** What the answers put through to the connection. */
  function AllSends(answers: seq<Answer>): seq<string>
  {
    if answers == [] then []
    else
      (if answers[0].Answer? && answers[0].directive in {Write, WriteClose} then [answers[0].body] else [])
      + AllSends(answers[1..])
  }

  /** A worker that goes along: it answers CONTINUE, or WRITE and the write succeeds. */
  ghost predicate GoAlong(answers: seq<Answer>)
  {
    forall i | 0 <= i < |answers| ::
      answers[i].Answer? && (answers[i].directive == Continue || (answers[i].directive == Write && answers[i].written))
  }

  lemma {:induction false} HeardAll(s: Story, answers: seq<Answer>)
    requires GoAlong(answers) && Questions(s.log) <= |answers|
    ensures Heard(s, answers) == s
    decreases |s.log|
  {
    if s.log != [] {
      var e, rest := s.log[0], Story(s.log[1..], s.end);
      assert [e] + rest.log == s.log;
      HeardAll(rest, if e.Close? then answers else answers[1..]);
    }
  }

  lemma {:induction false} WrittenAll(log: seq<Event>, answers: seq<Answer>)
    requires GoAlong(answers) && Questions(log) <= |answers|
    ensures Written(log, answers) == AllSends(answers[..Questions(log)])
    decreases |log|
  {
    if log != [] {
      if log[0].Close? {
        WrittenAll(log[1..], answers);
      } else {
        WrittenAll(log[1..], answers[1..]);
        var n := Questions(log[1..]);
        assert answers[..n + 1][1..] == answers[1..][..n];
      }
    }
  }

  /** Where the worker does not go along with question `k`: the log ends there, after a close if it was told to stop. */
  lemma {:induction false} HeardStops(s: Story, answers: seq<Answer>, k: nat)
    requires k < Questions(s.log) && k <= |answers| && GoAlong(answers[..k])
    requires |answers| > k ==> !GoAlong([answers[k]])
    ensures Heard(s, answers) ==
            if |answers| == k then Story(Through(s.log, k), Waiting)
            else if answers[k].WorkerError? then Story(Through(s.log, k), Returned(true))
            else Story(Through(s.log, k) + [Close(Directed)], Returned(true))
    ensures Written(s.log, answers) == AllSends(answers[..Min(|answers|, k + 1)])
    decreases |s.log|
  {
    var e, rest := s.log[0], Story(s.log[1..], s.end);
    if e.Close? {
      HeardStops(rest, answers, k);
      assert [e] + (Through(rest.log, k) + [Close(Directed)]) == [e] + Through(rest.log, k) + [Close(Directed)];
    } else if k == 0 {
      StopsAtOnce(e, rest, answers);
    } else {
      assert answers[..k][0] == answers[0] && answers[1..][..k - 1] == answers[..k][1..];
      HeardStops(rest, answers[1..], k - 1);
      StopsLater(e, rest, answers, k);
    }
  }

  lemma StopsAtOnce(e: Event, rest: Story, answers: seq<Answer>)
    requires !e.Close? && (answers != [] ==> !GoAlong([answers[0]]))
    ensures answers != [] ==> !Goes(answers[0])
    ensures AllSends(answers[..Min(|answers|, 1)]) == if answers == [] then [] else Sends(answers[0])
    ensures [e] + [Close(Directed)] == [e, Close(Directed)]
  {
    if answers != [] {
      assert answers[..1] == [answers[0]] && [answers[0]][1..] == [];
    }
  }

  lemma StopsLater(e: Event, rest: Story, answers: seq<Answer>, k: nat)
    requires 0 < k <= |answers|
    ensures [e] + (Through(rest.log, k - 1) + [Close(Directed)]) == [e] + Through(rest.log, k - 1) + [Close(Directed)]
    ensures AllSends(answers[..Min(|answers|, k + 1)]) ==
            Sends(answers[0]) + AllSends(answers[1..][..Min(|answers| - 1, k)])
  {
    var n := Min(|answers|, k + 1);
    assert answers[..n][1..] == answers[1..][..n - 1];
  }

  lemma {:induction false} QuestionsOf(log: seq<Event>)
    requires NoConnected(log)
    ensures Questions(log) == |Bodies(log)|
    decreases |log|
  {
    if log != [] {
      QuestionsOf(log[1..]);
    }
  }

  /** All the worker would be told. */
  function Script(delim: string, input: seq<Read>): seq<Event>
  {
    [Connected] + Play(delim, "", input).log
  }

  lemma ScriptQuestions(delim: string, input: seq<Read>)
    requires EofIsFinal(input)
    ensures Questions(Script(delim, input)) == 1 + |InStore(delim, input)|
  {
    PlayHasNoConnected(delim, "", input);
    QuestionsOf(Play(delim, "", input).log);
    BodiesOfPlay(delim, input);
    assert Script(delim, input)[1..] == Play(delim, "", input).log;
  }

  /**
   A worker that goes along is told everything: the connection, all bodies in store, and how the reads
   end, which decides whether the handler waits, has returned, and has closed the connection.
   */
  lemma WillingWorker(delim: string, input: seq<Read>, answers: seq<Answer>)
    requires EofIsFinal(input) && GoAlong(answers) && |answers| > |InStore(delim, input)|
    ensures Bodies(Session(delim, input, answers).log) == InStore(delim, input)
    ensures var cs, s := Lead(delim, input), Session(delim, input, answers);
            var opening, t, rest := [Connected] + Datas(Frames(cs, delim)), Tail(cs, delim), input[|cs|..];
            if rest == [] then s == Story(opening, Waiting)
            else if rest[0].ReadError? then s == Story(opening + [Close(AtReadError)], Returned(true))
            else if rest[0].Chunk? then s == Story(opening + [Close(TooShort)], Returned(true))
            else if t == "" then s == Story(opening + [Close(AtEof)], Returned(false))
            else if |rest| == 1 then s == Story(opening + [Close(AtEof), Data(t)], Waiting)
            else if rest[1].Eof? then s == Story(opening + [Close(AtEof), Data(t), Close(AtEof)], Returned(false))
            else s == Story(opening + [Close(AtEof), Data(t), Close(AtReadError)], Returned(true))
    ensures Written(Script(delim, input), answers) == AllSends(answers[..1 + |InStore(delim, input)|])
  {
    var p := Play(delim, "", input);
    var full := After([Connected], p);
    ScriptQuestions(delim, input);
    HeardAll(full, answers);
    WrittenAll(full.log, answers);
    PlayInClosedForm(delim, input);
    BodiesOfPlay(delim, input);
    BodiesFront(Connected, p.log);
    EndingSpelledOut(delim, input);
  }

  lemma EndingSpelledOut(delim: string, input: seq<Read>)
    requires EofIsFinal(input)
    ensures var cs := Lead(delim, input);
            var opening, t, rest := [Connected] + Datas(Frames(cs, delim)), Tail(cs, delim), input[|cs|..];
            After([Connected], After(Datas(Frames(cs, delim)), Ending(delim, t, rest))) ==
            if rest == [] then Story(opening, Waiting)
            else if rest[0].ReadError? then Story(opening + [Close(AtReadError)], Returned(true))
            else if rest[0].Chunk? then Story(opening + [Close(TooShort)], Returned(true))
            else if t == "" then Story(opening + [Close(AtEof)], Returned(false))
            else if |rest| == 1 then Story(opening + [Close(AtEof), Data(t)], Waiting)
            else if rest[1].Eof? then Story(opening + [Close(AtEof), Data(t), Close(AtEof)], Returned(false))
            else Story(opening + [Close(AtEof), Data(t), Close(AtReadError)], Returned(true))
  {
    var cs := Lead(delim, input);
    var opening, t, rest := [Connected] + Datas(Frames(cs, delim)), Tail(cs, delim), input[|cs|..];
    AfterAfter([Connected], Datas(Frames(cs, delim)), Ending(delim, t, rest));
    if rest == [] {
      assert opening + [] == opening;
    } else if rest[0].Eof? && t != "" {
      FinalRest(input, |cs|);
      SecondPlay(delim, rest[1..]);
      var second := Play(delim, "", rest[1..]);
      assert [Close(AtEof), Data(t)] + second.log ==
             if |rest| == 1 then [Close(AtEof), Data(t)] else [Close(AtEof), Data(t), second.log[0]];
    }
  }

  lemma SecondPlay(delim: string, rest: seq<Read>)
    requires rest == [] || !rest[0].Chunk?
    ensures Play(delim, "", rest) ==
            if rest == [] then Story([], Waiting)
            else if rest[0].Eof? then Story([Close(AtEof)], Returned(false))
            else Story([Close(AtReadError)], Returned(true))
  {
  }

  /**
   The first answer that does not go along, or does not come, ends the log: an answer of any other
   directive or a failed write is followed by exactly one close event, a worker error by none, and where
   no answer comes the handler waits.
   */
  lemma FirstRefusal(delim: string, input: seq<Read>, answers: seq<Answer>, k: nat)
    requires EofIsFinal(input) && k <= |InStore(delim, input)| && k <= |answers| && GoAlong(answers[..k])
    requires |answers| > k ==> !GoAlong([answers[k]])
    ensures var x := Through(Script(delim, input), k);
            Session(delim, input, answers) ==
            if |answers| == k then Story(x, Waiting)
            else if answers[k].WorkerError? then Story(x, Returned(true))
            else Story(x + [Close(Directed)], Returned(true))
    ensures Bodies(Through(Script(delim, input), k)) == InStore(delim, input)[..k]
    ensures Written(Script(delim, input), answers) == AllSends(answers[..Min(|answers|, k + 1)])
  {
    var p := Play(delim, "", input);
    ScriptQuestions(delim, input);
    HeardStops(After([Connected], p), answers, k);
    PlayHasNoConnected(delim, "", input);
    BodiesOfPlay(delim, input);
    BodiesThroughScript(p.log, k);
  }

  lemma {:induction false} BodiesThrough(log: seq<Event>, k: nat)
    requires NoConnected(log) && k < |Bodies(log)|
    ensures Bodies(Through(log, k)) == Bodies(log)[..k + 1]
    decreases |log|
  {
    var e, rest := log[0], log[1..];
    if e.Close? {
      BodiesThrough(rest, k);
      BodiesFront(e, Through(rest, k));
    } else if k == 0 {
      BodiesFront(e, []);
      assert [e] + [] == [e];
    } else {
      BodiesThrough(rest, k - 1);
      BodiesFront(e, Through(rest, k - 1));
    }
  }

  lemma BodiesThroughScript(log: seq<Event>, k: nat)
    requires NoConnected(log) && k <= |Bodies(log)|
    ensures Bodies(Through([Connected] + log, k)) == Bodies(log)[..k]
  {
    assert ([Connected] + log)[1..] == log;
    if k == 0 {
      BodiesFront(Connected, []);
      assert [Connected] + [] == [Connected];
    } else {
      BodiesThrough(log, k - 1);
      BodiesFront(Connected, Through(log, k - 1));
    }
  }
}

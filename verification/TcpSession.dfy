/**
 One TCP connection: the worker is told of it, is given the bodies that the chunks make up, and says
 after each how to go on.

 What arrives and what the worker answers is input: a list of reads and a list of answers.  When either
 runs out the handler is still waiting, and what is proved holds of that moment too.  The handler is
 specified in two parts: what the worker would be told if it always went along, which depends on the
 reads alone, and where its answers cut that short.
 */
module TcpSession {
  import opened TcpFrames

  datatype Read = Chunk(bytes: string) | Eof | ReadError

  datatype Directive = Continue | Write | WriteClose | CloseIt | Unknown

  /** The worker's answer; `written` says whether writing its body to the connection, if it comes to that, succeeds. */
  datatype Answer = WorkerError | Answer(directive: Directive, body: string, written: bool)

  datatype Reason = AtEof | AtReadError | TooShort | Directed

  /** What the worker is told, in order; a close event carries the reason it was sent for. */
  datatype Event = Connected | Data(body: string) | Close(reason: Reason)

  /** How a session stands: waiting for a read or an answer, or over, the connection closed by the handler or not. */
  datatype End = Waiting | Returned(closed: bool)

  datatype Story = Story(log: seq<Event>, end: End)

  function After(log: seq<Event>, s: Story): Story
  {
    Story(log + s.log, s.end)
  }

  lemma AfterAfter(a: seq<Event>, b: seq<Event>, s: Story)
    ensures After(a, After(b, s)) == After(a + b, s)
  {
    assert a + (b + s.log) == (a + b) + s.log;
  }

  lemma AfterNothing(s: Story)
    ensures After([], s) == s
  {
    assert [] + s.log == s.log;
  }

  // What the reads make of it

  /** What the worker is told of the reads if it always goes along; `buf` has been gathered before. */
  function Play(delim: string, buf: string, input: seq<Read>): Story
    decreases |input|
  {
    if input == [] then Story([], Waiting)
    else
      match input[0]
      case Eof =>
        if buf == "" then Story([Close(AtEof)], Returned(false))
        else After([Close(AtEof), Data(buf)], Play(delim, "", input[1..]))
      case ReadError => Story([Close(AtReadError)], Returned(true))
      case Chunk(c) =>
        if |c| < |delim| then Story([Close(TooShort)], Returned(true))
        else if Ends(c, delim) then After([Data(buf + c)], Play(delim, "", input[1..]))
        else Play(delim, buf + c, input[1..])
  }

  // What the answers make of it

  /** The handler goes on after this answer. */
  predicate Goes(a: Answer)
  {
    a.Answer? && (a.directive == Continue || (a.directive == Write && a.written))
  }

  /** A story cut short by the first answer that does not go along or does not come; close events have no answer. */
  function Heard(s: Story, answers: seq<Answer>): Story
    decreases |s.log|
  {
    if s.log == [] then s
    else
      var e, rest := s.log[0], Story(s.log[1..], s.end);
      if e.Close? then After([e], Heard(rest, answers))
      else if answers == [] then Story([e], Waiting)
      else if Goes(answers[0]) then After([e], Heard(rest, answers[1..]))
      else if answers[0].WorkerError? then Story([e], Returned(true))
      else Story([e, Close(Directed)], Returned(true))
  }

  /** What is handed to the connection on account of an answer. */
  function Sends(a: Answer): seq<string>
  {
    if a.Answer? && (a.directive == Write || a.directive == WriteClose) then [a.body] else []
  }

  /** What is handed to the connection in the course of a story. */
  function Written(log: seq<Event>, answers: seq<Answer>): seq<string>
    decreases |log|
  {
    if log == [] then []
    else if log[0].Close? then Written(log[1..], answers)
    else if answers == [] then []
    else Sends(answers[0]) + if Goes(answers[0]) then Written(log[1..], answers[1..]) else []
  }

  function Session(delim: string, input: seq<Read>, answers: seq<Answer>): Story
  {
    Heard(After([Connected], Play(delim, "", input)), answers)
  }

  lemma HeardClose(e: Event, s: Story, answers: seq<Answer>)
    requires e.Close?
    ensures Heard(After([e], s), answers) == After([e], Heard(s, answers))
  {
    assert After([e], s).log[1..] == s.log;
  }

  lemma HeardQuestion(e: Event, s: Story, answers: seq<Answer>)
    requires !e.Close?
    ensures Heard(After([e], s), answers) ==
            if answers == [] then Story([e], Waiting)
            else if Goes(answers[0]) then After([e], Heard(s, answers[1..]))
            else if answers[0].WorkerError? then Story([e], Returned(true))
            else Story([e, Close(Directed)], Returned(true))
  {
    assert After([e], s).log[1..] == s.log;
  }

  lemma WrittenClose(e: Event, log: seq<Event>, answers: seq<Answer>)
    requires e.Close?
    ensures Written([e] + log, answers) == Written(log, answers)
  {
    assert ([e] + log)[1..] == log;
  }

  lemma WrittenQuestion(e: Event, log: seq<Event>, answers: seq<Answer>)
    requires !e.Close?
    ensures Written([e] + log, answers) ==
            if answers == [] then []
            else Sends(answers[0]) + if Goes(answers[0]) then Written(log, answers[1..]) else []
  {
    assert ([e] + log)[1..] == log;
  }

  // The handler

  /** How gathering a body ends: not yet, with a delimiter, at the end of file, or given up. */
  datatype Gathered = Partial | Framed | Ended | Aborted

  class Handler {
    const delim: string
    const input: seq<Read>
    const answers: seq<Answer>
    var pos: nat       // reads done
    var asked: nat     // answers used
    var closed: bool   // the handler has closed the connection
    var resbuf: string
    var log: seq<Event>
    var out: seq<string>  // what was handed to the connection

    constructor (delim: string, input: seq<Read>, answers: seq<Answer>)
      ensures this.delim == delim && this.input == input && this.answers == answers
      ensures pos == 0 && asked == 0 && resbuf == "" && log == [] && out == [] && !closed
    {
      this.delim, this.input, this.answers := delim, input, answers;
      pos, asked, closed, resbuf, log, out := 0, 0, false, "", [], [];
    }

    /** What the reads still to come would tell. */
    function Ahead(): Story
      requires pos <= |input|
      reads `pos, `resbuf
    {
      Play(delim, resbuf, input[pos..])
    }

    method SendClose(reason: Reason)
      modifies `log
      ensures log == old(log) + [Close(reason)]
    {
      log := log + [Close(reason)];
    }

    /**
     What the answer makes of the connection; true when the handler goes on reading.  CONTINUE goes on;
     WRITE writes, and goes on unless that fails; WRITECLOSE writes and stops; the others stop.
     */
    method HandleAndContinue(a: Answer) returns (go: bool)
      requires a.Answer?
      modifies `log, `closed, `out
      ensures a.directive == Continue ==> go && out == old(out)
      ensures a.directive == Write ==> (go <==> a.written) && out == old(out) + [a.body]
      ensures a.directive == WriteClose ==> !go && out == old(out) + [a.body]
      ensures a.directive == CloseIt || a.directive == Unknown ==> !go && out == old(out)
      ensures go ==> log == old(log) && closed == old(closed)
      ensures !go ==> closed && log == old(log) + [Close(Directed)]
    {
      match a.directive
      case Continue =>
        go := true;
      case Write =>
        out := out + [a.body];
        go := a.written;
        if !go {
          closed := true;
          SendClose(Directed);
        }
      case WriteClose =>
        out := out + [a.body];
        closed := true;
        SendClose(Directed);
        go := false;
      case _ =>
        closed := true;
        SendClose(Directed);
        go := false;
    }

    /** What a gathering has found, against what lay ahead of it. */
    ghost predicate Found(g: Gathered, before: seq<Event>, ahead: Story)
      requires pos <= |input|
      reads this
    {
      match g
      case Partial => log == before && pos == |input| && ahead == Story([], Waiting)
      case Framed =>
        log == before && resbuf != "" && ahead == After([Data(resbuf)], Play(delim, "", input[pos..]))
      case Ended =>
        && log == before + [Close(AtEof)]
        && ahead == if resbuf == "" then Story([Close(AtEof)], Returned(false))
                    else After([Close(AtEof), Data(resbuf)], Play(delim, "", input[pos..]))
      case Aborted =>
        closed && |log| == |before| + 1 && log[..|before|] == before && log[|before|].Close?
        && ahead == Story([log[|before|]], Returned(true))
    }

    /** The inner loop: read until a body is complete. */
    method Gather() returns (g: Gathered)
      requires pos <= |input| && delim != ""
      modifies `pos, `closed, `resbuf, `log
      ensures old(pos) <= pos <= |input| && (g != Partial ==> old(pos) < pos)
      ensures g != Aborted ==> closed == old(closed)
      ensures Found(g, old(log), old(Ahead()))
    {
      while pos < |input|
        invariant old(pos) <= pos <= |input| && log == old(log) && closed == old(closed)
        invariant Ahead() == old(Ahead())
        decreases |input| - pos
      {
        var r := input[pos];
        assert input[pos..][0] == r && input[pos..][1..] == input[pos + 1..];
        pos := pos + 1;
        if r.Eof? {
          SendClose(AtEof);
          return Ended;
        }
        if r.ReadError? || |r.bytes| < |delim| {
          closed := true;
          SendClose(if r.ReadError? then AtReadError else TooShort);
          return Aborted;
        }
        resbuf := resbuf + r.bytes;
        if Ends(r.bytes, delim) {
          return Framed;
        }
      }
      return Partial;
    }

    /**
     Tell the worker and act on its answer, before the story that is still to come.  `go` when the handler
     goes on; otherwise `end` says how it stands.
     */
    method Ask(e: Event, ghost s: Story) returns (go: bool, end: End)
      requires asked <= |answers| && !e.Close? && !closed
      modifies `asked, `closed, `log, `out
      ensures asked <= |answers| && (end.Returned? && !go ==> closed == end.closed)
      ensures go ==> !closed && log == old(log) + [e]
      ensures After(old(log), Heard(After([e], s), answers[old(asked)..])) ==
              if go then After(log, Heard(s, answers[asked..])) else Story(log, end)
      ensures old(out) + Written([e] + s.log, answers[old(asked)..]) ==
              if go then out + Written(s.log, answers[asked..]) else out
    {
      ghost var before, given := log, answers[asked..];
      log := log + [e];
      end := Waiting;
      go := false;
      if asked < |answers| {
        var a := answers[asked];
        asked := asked + 1;
        assert given[0] == a && given[1..] == answers[asked..];
        if a.WorkerError? {
          closed := true;
        } else {
          go := HandleAndContinue(a);
        }
        end := Returned(true);
      }
      HeardQuestion(e, s, given);
      AfterAfter(before, [e], Heard(s, answers[asked..]));
      assert before + [e, Close(Directed)] == before + [e] + [Close(Directed)];
      WrittenQuestion(e, s.log, given);
    }

    /** The outer loop tells what the reads have in store, as far as the answers let it. */
    method ReadLoop() returns (end: End)
      requires pos <= |input| && asked <= |answers| && resbuf == "" && !closed && delim != ""
      modifies this
      ensures Story(log, end) == After(old(log), Heard(old(Ahead()), answers[old(asked)..]))
      ensures out == old(out) + Written(old(Ahead()).log, answers[old(asked)..])
      ensures end.Returned? ==> closed == end.closed
    {
      ghost var goal := After(log, Heard(Ahead(), answers[asked..]));
      ghost var write := out + Written(Ahead().log, answers[asked..]);
      while true
        invariant pos <= |input| && asked <= |answers| && resbuf == "" && !closed
        invariant goal == After(log, Heard(Ahead(), answers[asked..]))
        invariant write == out + Written(Ahead().log, answers[asked..])
        decreases |input| - pos
      {
        ghost var before, ahead, given := log, Ahead(), answers[asked..];
        var g := Gather();
        if g == Partial {
          return Waiting;
        }
        if g == Aborted {
          AbortedStory(before, log, given);
          return Returned(true);
        }
        if resbuf == "" {
          EndedStory(before, given);
          return Returned(false);
        }
        ghost var rest := Play(delim, "", input[pos..]);
        if g == Ended {
          EndedWithRest(before, resbuf, rest, given);
        }
        assert goal == After(log, Heard(After([Data(resbuf)], rest), given));
        assert write == out + Written([Data(resbuf)] + rest.log, given);
        var go;
        go, end := Ask(Data(resbuf), rest);
        if !go {
          return;
        }
        resbuf := "";
      }
    }

    /** The whole connection: the log, and how it ends, are those of the session. */
    method Start() returns (end: End)
      requires pos == 0 && asked == 0 && resbuf == "" && log == [] && out == [] && !closed && delim != ""
      modifies this
      ensures Story(log, end) == Session(delim, input, answers)
      ensures out == Written([Connected] + Play(delim, "", input).log, answers)
      ensures end.Returned? ==> closed == end.closed
    {
      ghost var rest := Ahead();
      assert input[0..] == input && answers[0..] == answers;
      AfterNothing(Session(delim, input, answers));
      var go;
      go, end := Ask(Connected, rest);
      assert Session(delim, input, answers) == Heard(After([Connected], rest), answers[0..]);
      assert [] + Written([Connected] + rest.log, answers[0..]) == Written([Connected] + rest.log, answers);
      if go {
        end := ReadLoop();
      }
    }
  }

  lemma AbortedStory(before: seq<Event>, log: seq<Event>, answers: seq<Answer>)
    requires |log| == |before| + 1 && log[..|before|] == before && log[|before|].Close?
    ensures After(before, Heard(Story([log[|before|]], Returned(true)), answers)) == Story(log, Returned(true))
    ensures Written([log[|before|]], answers) == []
  {
    var e := log[|before|];
    WrittenClose(e, [], answers);
    assert [e] + [] == [e];
    HeardClose(e, Story([], Returned(true)), answers);
    assert After([e], Story([], Returned(true))) == Story([e], Returned(true));
    assert before + [e] == log;
  }

  lemma EndedStory(before: seq<Event>, answers: seq<Answer>)
    ensures After(before, Heard(Story([Close(AtEof)], Returned(false)), answers)) ==
            Story(before + [Close(AtEof)], Returned(false))
    ensures Written([Close(AtEof)], answers) == []
  {
    WrittenClose(Close(AtEof), [], answers);
    assert [Close(AtEof)] + [] == [Close(AtEof)];
    HeardClose(Close(AtEof), Story([], Returned(false)), answers);
    assert After([Close(AtEof)], Story([], Returned(false))) == Story([Close(AtEof)], Returned(false));
  }

  lemma EndedWithRest(before: seq<Event>, body: string, rest: Story, answers: seq<Answer>)
    ensures After(before, Heard(After([Close(AtEof), Data(body)], rest), answers)) ==
            After(before + [Close(AtEof)], Heard(After([Data(body)], rest), answers))
    ensures Written([Close(AtEof), Data(body)] + rest.log, answers) == Written([Data(body)] + rest.log, answers)
  {
    assert [Close(AtEof), Data(body)] + rest.log == [Close(AtEof)] + ([Data(body)] + rest.log);
    WrittenClose(Close(AtEof), [Data(body)] + rest.log, answers);
    var s := After([Data(body)], rest);
    AfterAfter([Close(AtEof)], [Data(body)], rest);
    assert [Close(AtEof)] + [Data(body)] == [Close(AtEof), Data(body)];
    HeardClose(Close(AtEof), s, answers);
    AfterAfter(before, [Close(AtEof)], Heard(s, answers));
  }
}

/**
 The publishing channel of the AMQP driver, kept in a one-slot Go channel that serves as a token:
 who holds it publishes, and the redialer destroys it before it replaces the connection.

 Any number of callers interleave with the redialer.  `handleItem` and `State` take the token and
 put it back; `Run`, `Pause` and `Resume` take the mutex.  Dialling, declaring queues and publishing
 succeed or fail as they please.
 */
module AmqpToken {
  import opened Text
  import Sets

  type Pid = nat

  /** An AMQP channel, by the number of the connection it was opened on. */
  datatype Channel = Channel(conn: nat)

  /** A caller inside the driver: holding the token, waiting for the mutex, holding it, or sending the stop signal. */
  datatype Caller = Holding(ch: Channel) | Waiting | Locked | Stopping

  datatype Redialer =
    | Listening               // waiting for a close notification or a stop signal
    | WantsLock
    | WantsToken              // the mutex is held, the broken channel is awaited
    | Dialing(connected: bool) // the mutex is held; connected: this attempt has dialled
    | Restored                // the fresh channel is out, the mutex still held
    | GaveUp                  // the retries ran out
    | WantsLastToken          // stopping
    | Stopped
    | Gone                    // the connection was closed without an error

  datatype Owner = Driver | Client(p: Pid)

  datatype State = State(
    slot: Option<Channel>,    // the buffered element of `publishChan`
    conn: Option<nat>,        // `c.conn`; a failed dial leaves none
    dialed: nat,              // connections made so far
    mutex: Option<Owner>,
    redialer: Redialer,
    callers: map<Pid, Caller>)

  datatype Step =
    | Take(p: Pid) | TimeOut(p: Pid) | Return(p: Pid)
    | Ask(p: Pid) | Lock(p: Pid) | Unlock(p: Pid)
    | Closed | ClosedQuietly | RedialLock | Trash
    | DialFails | DialSucceeds | InitFails | Restore | Release | GiveUp
    | AskStop(p: Pid) | Stop(p: Pid) | TakeLast

  predicate Initial(s: State)
  {
    s == State(Some(Channel(0)), Some(0), 1, None, Listening, map[])
  }

  /** When a step can be taken; a send into the full slot and a receive from the empty one block. */
  predicate Enabled(s: State, a: Step)
  {
    match a
    case Take(p) => p !in s.callers && s.slot.Some?
    case TimeOut(p) => p !in s.callers
    case Return(p) => p in s.callers && s.callers[p].Holding? && s.slot.None?
    case Ask(p) => p !in s.callers
    case Lock(p) => p in s.callers && s.callers[p].Waiting? && s.mutex.None?
    case Unlock(p) => p in s.callers && s.callers[p].Locked?
    case Closed => s.redialer.Listening?
    case ClosedQuietly => s.redialer.Listening?
    case RedialLock => s.redialer.WantsLock? && s.mutex.None?
    case Trash => s.redialer.WantsToken? && s.slot.Some?
    case DialFails => s.redialer == Dialing(false)
    case DialSucceeds => s.redialer == Dialing(false)
    case InitFails => s.redialer == Dialing(true)
    case Restore => s.redialer == Dialing(true) && s.conn.Some? && s.slot.None?
    case Release => s.redialer.Restored?
    case GiveUp => s.redialer == Dialing(false)
    case AskStop(p) => p !in s.callers
    case Stop(p) => p in s.callers && s.callers[p].Stopping? && s.redialer.Listening?
    case TakeLast => s.redialer.WantsLastToken? && s.slot.Some?
  }

  function Next(s: State, a: Step): State
    requires Enabled(s, a)
  {
    match a
    case Take(p) => s.(slot := None, callers := s.callers[p := Holding(s.slot.value)])
    case TimeOut(_) => s
    case Return(p) => s.(slot := Some(s.callers[p].ch), callers := s.callers - {p})
    case Ask(p) => s.(callers := s.callers[p := Waiting])
    case Lock(p) => s.(mutex := Some(Client(p)), callers := s.callers[p := Locked])
    case Unlock(p) => s.(mutex := None, callers := s.callers - {p})
    case Closed => s.(redialer := WantsLock)
    case ClosedQuietly => s.(redialer := Gone)
    case RedialLock => s.(mutex := Some(Driver), redialer := WantsToken)
    case Trash => s.(slot := None, redialer := Dialing(false))
    case DialFails => s.(conn := None)
    case DialSucceeds => s.(conn := Some(s.dialed), dialed := s.dialed + 1, redialer := Dialing(true))
    case InitFails => s.(redialer := Dialing(false))
    case Restore => s.(slot := Some(Channel(s.conn.value)), redialer := Restored)
    case Release => s.(mutex := None, redialer := Listening)
    case GiveUp => s.(mutex := None, redialer := GaveUp)
    case AskStop(p) => s.(callers := s.callers[p := Stopping])
    case Stop(p) => s.(redialer := WantsLastToken, callers := s.callers - {p})
    case TakeLast => s.(slot := None, redialer := Stopped)
  }

  ghost predicate Follows(ss: seq<State>, steps: seq<Step>, i: nat)
    requires i + 1 < |ss| && i < |steps|
  {
    Enabled(ss[i], steps[i]) && ss[i + 1] == Next(ss[i], steps[i])
  }

  ghost predicate Run(ss: seq<State>, steps: seq<Step>)
  {
    |ss| == |steps| + 1 && Initial(ss[0]) && forall i | 0 <= i < |steps| :: Follows(ss, steps, i)
  }

  // The token

  function HoldersOf(callers: map<Pid, Caller>): set<Pid>
  {
    set p | p in callers && callers[p].Holding?
  }

  function Holders(s: State): set<Pid>
  {
    HoldersOf(s.callers)
  }

  /** Channels in the slot and in callers' hands. */
  function Tokens(s: State): nat
  {
    |Holders(s)| + if s.slot.Some? then 1 else 0
  }

  /** No channel is about while the redialer dials, nor after it gave up or stopped. */
  predicate TokenGone(r: Redialer)
  {
    r.Dialing? || r.GaveUp? || r.Stopped?
  }

  ghost predicate Counted(s: State)
  {
    Tokens(s) == if TokenGone(s.redialer) then 0 else 1
  }

  /** Every channel about was opened on the connection the driver has. */
  ghost predicate Current(s: State)
  {
    && (s.slot.Some? ==> s.conn == Some(s.slot.value.conn))
    && (forall p | p in s.callers && s.callers[p].Holding? :: s.conn == Some(s.callers[p].ch.conn))
  }

  predicate RedialerLocks(r: Redialer)
  {
    r.WantsToken? || r.Dialing? || r.Restored?
  }

  /** The mutex has one owner, and it is where its owner thinks it is. */
  ghost predicate Locks(s: State)
  {
    && (s.mutex == Some(Driver) <==> RedialerLocks(s.redialer))
    && (forall p :: p in s.callers && s.callers[p].Locked? <==> s.mutex == Some(Client(p)))
    && (s.redialer == Dialing(true) ==> s.conn.Some?)
  }

  ghost predicate Good(s: State)
  {
    Counted(s) && Current(s) && Locks(s)
  }

  lemma NoHolders(s: State)
    requires Tokens(s) == 0
    ensures s.slot.None? && forall p | p in s.callers :: !s.callers[p].Holding?
  {
    assert Holders(s) == {};
    assert forall p | p in s.callers && s.callers[p].Holding? :: p in Holders(s);
  }

  lemma OneMore(callers: map<Pid, Caller>, p: Pid, ch: Channel)
    requires p !in callers
    ensures |HoldersOf(callers[p := Holding(ch)])| == |HoldersOf(callers)| + 1
  {
    assert HoldersOf(callers[p := Holding(ch)]) == HoldersOf(callers) + {p};
  }

  lemma OneLess(callers: map<Pid, Caller>, p: Pid)
    requires p in callers && callers[p].Holding?
    ensures |HoldersOf(callers - {p})| == |HoldersOf(callers)| - 1
  {
    assert HoldersOf(callers - {p}) == HoldersOf(callers) - {p};
    assert p in HoldersOf(callers);
  }

  lemma HoldersStay(s: State, a: Step)
    requires Enabled(s, a) && !a.Take? && !a.Return?
    ensures Holders(Next(s, a)) == Holders(s)
  {
  }

  lemma TokensMove(s: State, a: Step)
    requires Enabled(s, a)
    ensures Tokens(Next(s, a)) == Tokens(s) + (if a.Restore? then 1 else if a.Trash? || a.TakeLast? then -1 else 0)
  {
    if a.Take? {
      OneMore(s.callers, a.p, s.slot.value);
    } else if a.Return? {
      OneLess(s.callers, a.p);
    } else {
      HoldersStay(s, a);
    }
  }

  lemma StepKeepsCurrent(s: State, a: Step)
    requires Good(s) && Enabled(s, a)
    ensures Current(Next(s, a))
  {
    if a.DialFails? || a.DialSucceeds? || a.Restore? {
      NoHolders(s);
    }
  }

  lemma StepKeepsGood(s: State, a: Step)
    requires Good(s) && Enabled(s, a)
    ensures Good(Next(s, a))
  {
    TokensMove(s, a);
    StepKeepsCurrent(s, a);
  }

  lemma {:induction false} ReachableIsGood(ss: seq<State>, steps: seq<Step>, i: nat)
    requires Run(ss, steps) && i <= |steps|
    ensures Good(ss[i])
    decreases i
  {
    if i == 0 {
      assert Holders(ss[0]) == {};
    } else {
      ReachableIsGood(ss, steps, i - 1);
      assert Follows(ss, steps, i - 1);
      StepKeepsGood(ss[i - 1], steps[i - 1]);
    }
  }

  /** At most one caller publishes at a time, and only on the connection the driver has. */
  lemma OnePublisher(ss: seq<State>, steps: seq<Step>, i: nat, p: Pid, r: Pid)
    requires Run(ss, steps) && i <= |steps|
    requires p in ss[i].callers && ss[i].callers[p].Holding? && r in ss[i].callers && ss[i].callers[r].Holding?
    ensures p == r && ss[i].slot.None? && ss[i].conn == Some(ss[i].callers[p].ch.conn)
  {
    ReachableIsGood(ss, steps, i);
    assert {p, r} <= Holders(ss[i]);
    Sets.SubsetSize({p, r}, Holders(ss[i]));
  }

  /** Connections are numbered in the order they are made. */
  lemma {:induction false} ConnIsBelow(ss: seq<State>, steps: seq<Step>, i: nat, j: nat)
    requires Run(ss, steps) && i <= j <= |steps| && ss[i].conn.Some?
    ensures ss[i].conn.value < ss[j].dialed
    decreases j
  {
    if j > 0 {
      assert Follows(ss, steps, j - 1);
      if i < j {
        ConnIsBelow(ss, steps, i, j - 1);
      } else if ss[j - 1].conn == ss[j].conn {
        ConnIsBelow(ss, steps, j - 1, j - 1);
      }
    }
  }

  /**
   The connection is replaced or lost only while no channel of it is about: lost by a failed dial, and
   replaced by a successful one, with a connection that the driver never had before.
   */
  lemma ReplacedWithoutToken(ss: seq<State>, steps: seq<Step>, i: nat)
    requires Run(ss, steps) && i < |steps|
    ensures ss[i + 1].conn != ss[i].conn ==>
            Tokens(ss[i]) == 0 && Tokens(ss[i + 1]) == 0 && ss[i].mutex == Some(Driver)
    ensures steps[i].DialFails? ==> ss[i + 1].conn.None?
    ensures steps[i].DialSucceeds? ==> ss[i + 1].conn.Some? && forall j | 0 <= j <= i :: ss[j].conn != ss[i + 1].conn
    ensures !steps[i].DialFails? && !steps[i].DialSucceeds? ==> ss[i + 1].conn == ss[i].conn
  {
    ReachableIsGood(ss, steps, i);
    ReachableIsGood(ss, steps, i + 1);
    assert Follows(ss, steps, i);
    forall j | 0 <= j <= i && ss[j].conn.Some? ensures ss[j].conn.value < ss[i].dialed {
      ConnIsBelow(ss, steps, j, i);
    }
  }

  /** Channels seen so far are older than the connection dialled last. */
  lemma {:induction false} SlotIsOlder(ss: seq<State>, steps: seq<Step>, j: nat, i: nat)
    requires Run(ss, steps) && j <= i <= |steps| && ss[j].slot.Some?
    ensures ss[j].slot.value.conn < ss[i].dialed
    ensures ss[i].redialer == Dialing(true) ==>
            ss[i].conn == Some(ss[i].dialed - 1) && ss[j].slot.value.conn < ss[i].dialed - 1
    decreases i
  {
    ReachableIsGood(ss, steps, i);
    if i == j {
      ConnIsBelow(ss, steps, i, i);
    } else {
      SlotIsOlder(ss, steps, j, i - 1);
      assert Follows(ss, steps, i - 1);
    }
  }

  /** The channel that a redial puts out is of the connection the driver has, and newer than every one before. */
  lemma RestoredIsNew(ss: seq<State>, steps: seq<Step>, i: nat, j: nat)
    requires Run(ss, steps) && j <= i < |steps| && steps[i].Restore? && ss[j].slot.Some?
    ensures ss[i + 1].slot.Some? && ss[i + 1].conn == Some(ss[i + 1].slot.value.conn)
    ensures ss[j].slot.value.conn < ss[i + 1].slot.value.conn
  {
    assert Follows(ss, steps, i);
    SlotIsOlder(ss, steps, j, i);
    ReachableIsGood(ss, steps, i + 1);
  }

  /**
   A close without an error ends the redialer: the connection is never replaced, and callers go on taking
   the channel of the closed one, one at a time.
   */
  lemma {:induction false} QuietCloseIsFinal(ss: seq<State>, steps: seq<Step>, i: nat, j: nat)
    requires Run(ss, steps) && i < j <= |steps| && steps[i].ClosedQuietly?
    ensures ss[j].redialer.Gone? && ss[j].conn == ss[i].conn && Tokens(ss[j]) == 1
    ensures ss[j].slot.Some? ==> ss[i].conn == Some(ss[j].slot.value.conn)
    ensures forall p | p in ss[j].callers && ss[j].callers[p].Holding? :: ss[i].conn == Some(ss[j].callers[p].ch.conn)
    decreases j
  {
    assert Follows(ss, steps, j - 1);
    if j > i + 1 {
      QuietCloseIsFinal(ss, steps, i, j - 1);
    }
    ReachableIsGood(ss, steps, j);
  }

  /** Putting the channel back, and putting a fresh one out, never blocks. */
  lemma SendsFindTheSlotEmpty(ss: seq<State>, steps: seq<Step>, i: nat, p: Pid)
    requires Run(ss, steps) && i <= |steps|
    ensures p in ss[i].callers && ss[i].callers[p].Holding? ==> Enabled(ss[i], Return(p))
    ensures ss[i].redialer == Dialing(true) ==> Enabled(ss[i], Restore)
  {
    ReachableIsGood(ss, steps, i);
    if p in ss[i].callers && ss[i].callers[p].Holding? {
      OnePublisher(ss, steps, i, p, p);
    }
    if ss[i].redialer == Dialing(true) {
      NoHolders(ss[i]);
    }
  }

  /** The redialer, waiting for the channel with the mutex in hand, is not waited for in return. */
  lemma RedialerIsNotStuck(ss: seq<State>, steps: seq<Step>, i: nat)
    requires Run(ss, steps) && i <= |steps| && (ss[i].redialer.WantsToken? || ss[i].redialer.WantsLastToken?)
    ensures ss[i].slot.Some? ||
            exists p | p in ss[i].callers :: Enabled(ss[i], Return(p)) && Next(ss[i], Return(p)).slot.Some?
  {
    ReachableIsGood(ss, steps, i);
    if ss[i].slot.None? {
      var p :| p in Holders(ss[i]);
      assert p in ss[i].callers && Enabled(ss[i], Return(p)) && Next(ss[i], Return(p)).slot.Some?;
    }
  }

  // The course of a caller and of the redialer

  predicate OfCallers(a: Step)
  {
    a.Take? || a.TimeOut? || a.Return? || a.Ask? || a.Lock? || a.Unlock? || a.AskStop?
  }

  /** The last step that a caller took. */
  function LastOf(steps: seq<Step>, n: nat, p: Pid): Option<Step>
    requires n <= |steps|
  {
    if n == 0 then None
    else if (OfCallers(steps[n - 1]) || steps[n - 1].Stop?) && steps[n - 1].p == p then Some(steps[n - 1])
    else LastOf(steps, n - 1, p)
  }

  /**
   A caller holds the token from taking it to putting it back, waits for the mutex from asking for it to
   getting it, has it until it gives it up, and is kept from stopping until the redialer takes the signal.
   */
  lemma {:induction false} CallersCourse(ss: seq<State>, steps: seq<Step>, n: nat, p: Pid)
    requires Run(ss, steps) && n <= |steps|
    ensures var last, cs := LastOf(steps, n, p), ss[n].callers;
            && (p in cs && cs[p].Holding? <==> last == Some(Take(p)))
            && (p in cs && cs[p].Waiting? <==> last == Some(Ask(p)))
            && (p in cs && cs[p].Locked? <==> last == Some(Lock(p)))
            && (p in cs && cs[p].Stopping? <==> last == Some(AskStop(p)))
    decreases n
  {
    if n > 0 {
      CallersCourse(ss, steps, n - 1, p);
      assert Follows(ss, steps, n - 1);
    }
  }

  /** What the redialer has done since it last listened, without the attempts that failed. */
  function Course(steps: seq<Step>, n: nat): seq<Step>
    requires n <= |steps|
  {
    if n == 0 then []
    else
      var a, before := steps[n - 1], Course(steps, n - 1);
      if OfCallers(a) || a.DialFails? then before
      else if a.Closed? || a.ClosedQuietly? || a.Stop? then [a]
      else if a.InitFails? then if before == [] then [] else before[..|before| - 1]
      else before + [a]
  }

  /** Where the redialer is tells what it has done. */
  ghost predicate OnCourse(r: Redialer, course: seq<Step>)
  {
    match r
    case Listening => course == [] || course == [Closed, RedialLock, Trash, DialSucceeds, Restore, Release]
    case WantsLock => course == [Closed]
    case WantsToken => course == [Closed, RedialLock]
    case Dialing(connected) => course == [Closed, RedialLock, Trash] + if connected then [DialSucceeds] else []
    case Restored => course == [Closed, RedialLock, Trash, DialSucceeds, Restore]
    case GaveUp => course == [Closed, RedialLock, Trash, GiveUp]
    case WantsLastToken => |course| == 1 && course[0].Stop?
    case Stopped => |course| == 2 && course[0].Stop? && course[1] == TakeLast
    case Gone => course == [ClosedQuietly]
  }

  lemma CourseStep(s: State, a: Step, course: seq<Step>)
    requires Enabled(s, a) && !OfCallers(a) && OnCourse(s.redialer, course)
    ensures OnCourse(Next(s, a).redialer,
                     if a.DialFails? then course
                     else if a.Closed? || a.ClosedQuietly? || a.Stop? then [a]
                     else if a.InitFails? then if course == [] then [] else course[..|course| - 1]
                     else course + [a])
  {
  }

  /**
   The redialer, in every reachable state: it trashes the broken channel under the mutex before it dials,
   puts a fresh one out only on a connection that it has just dialled and set up, and gives up or leaves
   only by running out of retries, by the stop signal or by a close without an error.
   */
  lemma {:induction false} RedialersCourse(ss: seq<State>, steps: seq<Step>, n: nat)
    requires Run(ss, steps) && n <= |steps|
    ensures OnCourse(ss[n].redialer, Course(steps, n))
    decreases n
  {
    if n > 0 {
      RedialersCourse(ss, steps, n - 1);
      assert Follows(ss, steps, n - 1);
      if !OfCallers(steps[n - 1]) {
        CourseStep(ss[n - 1], steps[n - 1], Course(steps, n - 1));
      }
    }
  }

  // The end

  /** The redialer is past the point where it would make a channel anew. */
  predicate Ended(r: Redialer)
  {
    r.GaveUp? || r.Stopped?
  }

  /** The steps can be taken one after the other. */
  ghost predicate CanFollow(s: State, more: seq<Step>)
    decreases |more|
  {
    more == [] || (Enabled(s, more[0]) && CanFollow(Next(s, more[0]), more[1..]))
  }

  /** Whatever happens, no caller ever takes a channel. */
  ghost predicate NoTakeAhead(s: State)
  {
    forall more: seq<Step> | CanFollow(s, more) && more != [] :: !more[|more| - 1].Take?
  }

  lemma {:induction false} EndedStaysSo(s: State, more: seq<Step>)
    requires Good(s) && Ended(s.redialer) && CanFollow(s, more) && more != []
    ensures !more[|more| - 1].Take?
    decreases |more|
  {
    NoHolders(s);
    if |more| > 1 {
      StepKeepsGood(s, more[0]);
      assert more[1..][|more| - 2] == more[|more| - 1];
      EndedStaysSo(Next(s, more[0]), more[1..]);
    }
  }

  /** With a channel about, it is in the slot or one step away from it. */
  lemma TakeAhead(s: State) returns (more: seq<Step>)
    requires Good(s) && !TokenGone(s.redialer)
    ensures CanFollow(s, more) && more != [] && more[|more| - 1].Take?
  {
    var p := Sets.BeyondAll(s.callers.Keys);
    if s.slot.Some? {
      more := [Take(p)];
      assert CanFollow(Next(s, Take(p)), more[1..]);
    } else {
      var h :| h in Holders(s);
      var s' := Next(s, Return(h));
      more := [Return(h), Take(p)];
      assert CanFollow(Next(s', Take(p)), more[1..][1..]);
      assert CanFollow(s', more[1..]);
    }
  }

  /** While the redialer dials, a success brings a channel back. */
  lemma TakeAfterDialling(s: State) returns (more: seq<Step>)
    requires Good(s) && s.redialer.Dialing?
    ensures CanFollow(s, more) && more != [] && more[|more| - 1].Take?
    decreases !s.redialer.connected
  {
    NoHolders(s);
    var a := if s.redialer.connected then Restore else DialSucceeds;
    StepKeepsGood(s, a);
    var rest: seq<Step>;
    if s.redialer.connected {
      rest := TakeAhead(Next(s, a));
    } else {
      rest := TakeAfterDialling(Next(s, a));
    }
    more := [a] + rest;
    assert more[1..] == rest;
  }

  /**
   When the channel is lost for good: some continuation lets a caller take it, exactly until the
   redialer has given up or stopped.
   */
  lemma LostForGoodExactly(ss: seq<State>, steps: seq<Step>, i: nat)
    requires Run(ss, steps) && i <= |steps|
    ensures NoTakeAhead(ss[i]) <==> Ended(ss[i].redialer)
  {
    ReachableIsGood(ss, steps, i);
    if Ended(ss[i].redialer) {
      forall more: seq<Step> | CanFollow(ss[i], more) && more != [] ensures !more[|more| - 1].Take? {
        EndedStaysSo(ss[i], more);
      }
    } else {
      var more: seq<Step>;
      if ss[i].redialer.Dialing? {
        more := TakeAfterDialling(ss[i]);
      } else {
        more := TakeAhead(ss[i]);
      }
      assert CanFollow(ss[i], more) && more != [];
    }
  }

  // Stopping

  /** The redialer is or will be where it can receive the stop signal. */
  predicate WillListen(r: Redialer)
  {
    !Ended(r) && !r.WantsLastToken? && !r.Gone?
  }

  /** Whatever happens, the caller of `Stop` does not get through. */
  ghost predicate StopHangs(s: State, p: Pid)
  {
    forall more: seq<Step> | CanFollow(s, more) && more != [] :: more[|more| - 1] != Stop(p)
  }

  lemma {:induction false} NoListeningAhead(s: State, more: seq<Step>, p: Pid)
    requires !WillListen(s.redialer) && CanFollow(s, more) && more != []
    ensures more[|more| - 1] != Stop(p)
    decreases |more|
  {
    if |more| > 1 {
      assert more[1..][|more| - 2] == more[|more| - 1];
      NoListeningAhead(Next(s, more[0]), more[1..], p);
    }
  }

  /** How far the redialer is from listening. */
  function Distance(r: Redialer): nat
  {
    match r
    case WantsLock => 5
    case WantsToken => 4
    case Dialing(connected) => if connected then 2 else 3
    case Restored => 1
    case _ => 0
  }

  /** A step or two that bring the redialer closer to listening, and leave the caller alone. */
  lemma CloserToListening(s: State, p: Pid) returns (more: seq<Step>, r: State)
    requires Good(s) && WillListen(s.redialer) && !s.redialer.Listening? && p in s.callers && s.callers[p].Stopping?
    ensures 1 <= |more| <= 2 && Enabled(s, more[0])
    ensures |more| == 2 ==> Enabled(Next(s, more[0]), more[1])
    ensures r == if |more| == 1 then Next(s, more[0]) else Next(Next(s, more[0]), more[1])
    ensures Good(r) && WillListen(r.redialer) && Distance(r.redialer) < Distance(s.redialer)
    ensures p in r.callers && r.callers[p].Stopping?
  {
    var clear, a := Obstacle(s, p);
    if clear.Some? {
      more, r := [clear.value, a], Next(Next(s, clear.value), a);
      StepKeepsGood(s, clear.value);
      StepKeepsGood(Next(s, clear.value), a);
      ProgressStep(Next(s, clear.value), a, p);
    } else {
      more, r := [a], Next(s, a);
      StepKeepsGood(s, a);
      ProgressStep(s, a, p);
    }
  }

  /** The steps that bring the redialer closer to listening. */
  predicate Advances(r: Redialer, a: Step)
  {
    match r
    case WantsLock => a.RedialLock?
    case WantsToken => a.Trash?
    case Dialing(connected) => if connected then a.Restore? else a.DialSucceeds?
    case Restored => a.Release?
    case _ => false
  }

  lemma ProgressStep(s: State, a: Step, p: Pid)
    requires Enabled(s, a) && Advances(s.redialer, a) && p in s.callers && s.callers[p].Stopping?
    ensures var r := Next(s, a);
            WillListen(r.redialer) && Distance(r.redialer) < Distance(s.redialer)
            && p in r.callers && r.callers[p].Stopping?
  {
  }

  /** What stands in the redialer's way, if anything, and the step it would take. */
  lemma Obstacle(s: State, p: Pid) returns (clear: Option<Step>, a: Step)
    requires Good(s) && WillListen(s.redialer) && !s.redialer.Listening? && p in s.callers && s.callers[p].Stopping?
    ensures Advances(s.redialer, a)
    ensures clear.None? ==> Enabled(s, a)
    ensures clear.Some? ==> Enabled(s, clear.value) && Enabled(Next(s, clear.value), a)
    ensures clear.Some? ==> var r := Next(s, clear.value);
                            r.redialer == s.redialer && p in r.callers && r.callers[p].Stopping?
  {
    clear := None;
    match s.redialer {
      case WantsLock =>
        a := RedialLock;
        if s.mutex.Some? {
          clear := Some(Unlock(s.mutex.value.p));
        }
      case WantsToken =>
        a := Trash;
        if s.slot.None? {
          var q :| q in Holders(s);
          clear := Some(Return(q));
        }
      case Dialing(connected) =>
        NoHolders(s);
        a := if connected then Restore else DialSucceeds;
      case Restored => a := Release;
    }
  }

  lemma {:induction false} StopAhead(s: State, p: Pid) returns (more: seq<Step>)
    requires Good(s) && WillListen(s.redialer) && p in s.callers && s.callers[p].Stopping?
    ensures CanFollow(s, more) && more != [] && more[|more| - 1] == Stop(p)
    decreases Distance(s.redialer)
  {
    if s.redialer.Listening? {
      more := [Stop(p)];
      assert CanFollow(Next(s, Stop(p)), more[1..]);
    } else {
      var first, r := CloserToListening(s, p);
      var rest := StopAhead(r, p);
      more := first + rest;
      if |first| == 1 {
        assert more[1..] == rest;
      } else {
        assert more[1..] == [first[1]] + rest && more[1..][1..] == rest;
        assert CanFollow(Next(s, first[0]), more[1..]);
      }
    }
  }

  /** `Stop` hangs for good, exactly when the redialer has ended, has been stopped, or has left. */
  lemma StopHangsExactly(ss: seq<State>, steps: seq<Step>, i: nat, p: Pid)
    requires Run(ss, steps) && i <= |steps| && p in ss[i].callers && ss[i].callers[p].Stopping?
    ensures StopHangs(ss[i], p) <==> !WillListen(ss[i].redialer)
  {
    ReachableIsGood(ss, steps, i);
    if WillListen(ss[i].redialer) {
      var more := StopAhead(ss[i], p);
      assert CanFollow(ss[i], more) && more != [];
    } else {
      forall more: seq<Step> | CanFollow(ss[i], more) && more != [] ensures more[|more| - 1] != Stop(p) {
        NoListeningAhead(ss[i], more, p);
      }
    }
  }

  /** A broken connection and a dial that fails until the retries run out. */
  lemma GivingUpHappens() returns (ss: seq<State>, steps: seq<Step>)
    ensures Run(ss, steps) && steps == [Closed, RedialLock, Trash, DialFails, GiveUp]
    ensures ss[5].redialer.GaveUp? && NoTakeAhead(ss[5])
  {
    ss, steps := GivingUp();
    LostForGoodExactly(ss, steps, 5);
  }

  lemma Extend(ss: seq<State>, steps: seq<Step>, a: Step)
    requires Run(ss, steps) && Enabled(ss[|steps|], a)
    ensures Run(ss + [Next(ss[|steps|], a)], steps + [a])
  {
    var ss', steps' := ss + [Next(ss[|steps|], a)], steps + [a];
    forall i | 0 <= i < |steps'| ensures Follows(ss', steps', i) {
      if i < |steps| {
        assert Follows(ss, steps, i);
      }
    }
  }

  lemma Trashing() returns (ss: seq<State>, steps: seq<Step>)
    ensures Run(ss, steps) && steps == [Closed, RedialLock, Trash]
    ensures ss[3] == State(None, Some(0), 1, Some(Driver), Dialing(false), map[])
  {
    var s := State(Some(Channel(0)), Some(0), 1, None, Listening, map[]);
    ss, steps := [s], [];
    Extend(ss, steps, Closed);
    s := s.(redialer := WantsLock);
    ss, steps := ss + [s], steps + [Closed];
    Extend(ss, steps, RedialLock);
    s := s.(mutex := Some(Driver), redialer := WantsToken);
    ss, steps := ss + [s], steps + [RedialLock];
    Extend(ss, steps, Trash);
    ss, steps := ss + [s.(slot := None, redialer := Dialing(false))], steps + [Trash];
  }

  lemma GivingUp() returns (ss: seq<State>, steps: seq<Step>)
    ensures Run(ss, steps) && steps == [Closed, RedialLock, Trash, DialFails, GiveUp] && ss[5].redialer.GaveUp?
  {
    ss, steps := Trashing();
    var s := Next(ss[3], DialFails);
    Extend(ss, steps, DialFails);
    ss, steps := ss + [s], steps + [DialFails];
    Extend(ss, steps, GiveUp);
    ss, steps := ss + [Next(s, GiveUp)], steps + [GiveUp];
  }

  /** Once the redialer has given up or stopped, no caller ever gets a channel again. */
  lemma {:induction false} AfterTheEnd(ss: seq<State>, steps: seq<Step>, i: nat, j: nat)
    requires Run(ss, steps) && i <= j <= |steps| && Ended(ss[i].redialer)
    ensures ss[j].redialer == ss[i].redialer && Tokens(ss[j]) == 0
    ensures j < |steps| ==> !steps[j].Take?
    decreases j
  {
    if j > i {
      AfterTheEnd(ss, steps, i, j - 1);
      assert Follows(ss, steps, j - 1);
    }
    ReachableIsGood(ss, steps, j);
    NoHolders(ss[j]);
    if j < |steps| {
      assert Follows(ss, steps, j);
    }
  }
}

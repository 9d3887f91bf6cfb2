/**
 The beanstalk connection pool: operations share two connections, a tube and a tube set under a
 read/write lock, and whoever meets a broken connection gives the read lock up, replaces all four
 under the write lock, and tries once more.

 Any number of clients interleave, and the four fields are written one at a time.
 */
module BeanstalkPool {
  import opened Text

  type Pid = nat

  /** A connection, by the dial it comes from and the one of the two it is. */
  datatype Conn = Conn(dial: nat, second: bool)

  /** The fields of the pool; a tube and a tube set are known by the connection they were made for. */
  datatype Pool = Pool(t: Conn, ts: Conn, conn: Conn, connT: Conn)

  datatype Op = Put | Reserve | Delete | Stats

  /** The connection an operation talks to. */
  function Used(pool: Pool, op: Op): Conn
  {
    match op
    case Put => pool.t
    case Reserve => pool.ts
    case Delete => pool.conn
    case Stats => pool.conn
  }

  datatype Client =
    | FirstTry(op: Op)                          // read lock held
    | WantsWrite(op: Op)                        // no lock held
    | Dialing(op: Op)                           // write lock held
    | Storing(op: Op, dial: nat, done: nat)     // write lock held, `done` of four fields replaced
    | WantsRead(op: Op, redialed: Option<nat>)  // no lock held
    | SecondTry(op: Op, dial: nat)              // read lock held
    | Finishing                                 // read lock held, about to be given up

  /** Contacts with the server and successful redials in the operation under way. */
  datatype Tally = Tally(contacts: nat, redials: nat)

  datatype State = State(
    pool: Pool,
    dials: nat,
    readers: set<Pid>,
    pending: Option<Pid>,    // the writer that waits for the readers to leave; new readers wait for it
    writer: Option<Pid>,
    clients: map<Pid, Client>,
    tally: map<Pid, Tally>)

  /** The pool as one dial makes it. */
  function Made(d: nat): Pool
  {
    Pool(Conn(d, false), Conn(d, true), Conn(d, true), Conn(d, false))
  }

  /** The pool when `n` of the fields have been replaced, in the order of the source. */
  function Mixed(before: nat, d: nat, n: nat): Pool
  {
    Pool(Conn(if n >= 1 then d else before, false), Conn(if n >= 2 then d else before, true),
         Conn(if n >= 3 then d else before, true), Conn(if n >= 4 then d else before, false))
  }

  function Store(pool: Pool, d: nat, n: nat): Pool
  {
    match n
    case 0 => pool.(t := Conn(d, false))
    case 1 => pool.(ts := Conn(d, true))
    case 2 => pool.(conn := Conn(d, true))
    case _ => pool.(connT := Conn(d, false))
  }

  datatype Step =
    | Begin(p: Pid, op: Op)
    | Answered(p: Pid)       // success, or an error that is not the connection's
    | Broken(p: Pid)         // a network error or an unexpected end
    | AskWrite(p: Pid) | TakeWrite(p: Pid)
    | DialFails(p: Pid) | Dialed(p: Pid) | GiveUp(p: Pid)
    | StoreField(p: Pid) | GiveWrite(p: Pid)
    | TakeRead(p: Pid)
    | AnsweredAgain(p: Pid)
    | End(p: Pid)

  predicate Initial(s: State)
  {
    s == State(Made(0), 1, {}, None, None, map[], map[])
  }

  predicate At(s: State, p: Pid)
  {
    p in s.clients && p in s.tally
  }

  /** Nobody writes or is next to write, as the lock demands of whoever comes. */
  predicate Open(s: State)
  {
    s.pending.None? && s.writer.None?
  }

  predicate Enabled(s: State, a: Step)
  {
    match a
    case Begin(p, _) => p !in s.clients && Open(s)
    case Answered(p) => At(s, p) && s.clients[p].FirstTry?
    case Broken(p) => At(s, p) && s.clients[p].FirstTry?
    case AskWrite(p) => At(s, p) && s.clients[p].WantsWrite? && Open(s)
    case TakeWrite(p) => At(s, p) && s.clients[p].WantsWrite? && s.pending == Some(p) && s.readers == {}
    case DialFails(p) => At(s, p) && s.clients[p].Dialing?
    case Dialed(p) => At(s, p) && s.clients[p].Dialing?
    case GiveUp(p) => At(s, p) && s.clients[p].Dialing?
    case StoreField(p) => At(s, p) && s.clients[p].Storing? && s.clients[p].done < 4
    case GiveWrite(p) => At(s, p) && s.clients[p].Storing? && s.clients[p].done == 4
    case TakeRead(p) => At(s, p) && s.clients[p].WantsRead? && Open(s)
    case AnsweredAgain(p) => At(s, p) && s.clients[p].SecondTry?
    case End(p) => At(s, p) && s.clients[p].Finishing?
  }

  function Move(s: State, p: Pid, c: Client): State
  {
    s.(clients := s.clients[p := c])
  }

  function Contact(s: State, p: Pid): State
    requires p in s.tally
  {
    s.(tally := s.tally[p := s.tally[p].(contacts := s.tally[p].contacts + 1)])
  }

  function Next(s: State, a: Step): State
    requires Enabled(s, a)
  {
    match a
    case Begin(p, op) => Move(s, p, FirstTry(op)).(readers := s.readers + {p}, tally := s.tally[p := Tally(0, 0)])
    case Answered(p) => Move(Contact(s, p), p, Finishing)
    case Broken(p) => Move(Contact(s, p), p, WantsWrite(s.clients[p].op)).(readers := s.readers - {p})
    case AskWrite(p) => s.(pending := Some(p))
    case TakeWrite(p) => Move(s, p, Dialing(s.clients[p].op)).(pending := None, writer := Some(p))
    case DialFails(p) => s
    case Dialed(p) => Move(s, p, Storing(s.clients[p].op, s.dials, 0)).(dials := s.dials + 1)
    case GiveUp(p) => Move(s, p, WantsRead(s.clients[p].op, None)).(writer := None)
    case StoreField(p) =>
      var c := s.clients[p];
      Move(s, p, c.(done := c.done + 1)).(pool := Store(s.pool, c.dial, c.done))
    case GiveWrite(p) =>
      var c := s.clients[p];
      Move(s, p, WantsRead(c.op, Some(c.dial)))
        .(writer := None, tally := s.tally[p := s.tally[p].(redials := s.tally[p].redials + 1)])
    case TakeRead(p) =>
      var c := s.clients[p];
      Move(s, p, if c.redialed.Some? then SecondTry(c.op, c.redialed.value) else Finishing).(readers := s.readers + {p})
    case AnsweredAgain(p) => Move(Contact(s, p), p, Finishing)
    case End(p) => s.(clients := s.clients - {p}, readers := s.readers - {p})
  }

  ghost predicate Follows(ss: seq<State>, steps: seq<Step>, i: nat)
    requires i + 1 < |ss| && i < |steps|
  {
    Enabled(ss[i], steps[i]) && ss[i + 1] == Next(ss[i], steps[i])
  }

  ghost predicate Run(ss: seq<State>, steps: seq<Step>)
  {
    |ss| == |steps| + 1 && Initial(ss[0]) && forall i | 0 <= i < |steps| :: Follows(ss, steps, i)
  }

  // What every step keeps

  predicate Reads(c: Client)
  {
    c.FirstTry? || c.SecondTry? || c.Finishing?
  }

  predicate Writes(c: Client)
  {
    c.Dialing? || c.Storing?
  }

  ghost predicate Locks(s: State)
  {
    && (forall p :: p in s.readers <==> p in s.clients && Reads(s.clients[p]))
    && (forall p :: s.writer == Some(p) <==> p in s.clients && Writes(s.clients[p]))
    && (s.writer.Some? ==> s.readers == {} && s.pending.None?)
    && (s.pending.Some? ==> s.pending.value in s.clients && s.clients[s.pending.value].WantsWrite?)
  }

  /** The fields belong together, except while a writer is between its first and last store. */
  ghost predicate Fields(s: State)
  {
    if s.writer.Some? && s.writer.value in s.clients && s.clients[s.writer.value].Storing? then
      var c := s.clients[s.writer.value];
      c.done <= 4 && s.pool == Mixed(s.pool.connT.dial, c.dial, c.done) && c.dial < s.dials
      && (c.done < 4 ==> s.pool.connT.dial < c.dial)
    else
      s.pool == Made(s.pool.connT.dial) && s.pool.connT.dial < s.dials
  }

  /** How far an operation has come, and what it has done by then. */
  predicate Accounted(c: Client, t: Tally, current: nat)
  {
    match c
    case FirstTry(_) => t == Tally(0, 0)
    case WantsWrite(_) => t == Tally(1, 0)
    case Dialing(_) => t == Tally(1, 0)
    case Storing(_, _, _) => t == Tally(1, 0)
    case WantsRead(_, r) => if r.Some? then t == Tally(1, 1) && r.value <= current else t == Tally(1, 0)
    case SecondTry(_, d) => t == Tally(1, 1) && d <= current
    case Finishing => t == Tally(1, 0) || t == Tally(2, 1)
  }

  ghost predicate Counted(s: State)
  {
    forall p | p in s.clients :: p in s.tally && Accounted(s.clients[p], s.tally[p], s.pool.connT.dial)
  }

  ghost predicate Good(s: State)
  {
    Locks(s) && Fields(s) && Counted(s)
  }

  lemma StepKeepsLocks(s: State, a: Step)
    requires Locks(s) && Enabled(s, a)
    ensures Locks(Next(s, a))
  {
    if a.Begin? || a.TakeRead? || a.End? || a.Broken? {
      ReaderKeepsLocks(s, a);
    } else if a.AskWrite? || a.TakeWrite? || a.GiveUp? || a.GiveWrite? {
      WriterKeepsLocks(s, a);
    } else {
      OthersKeepLocks(s, a);
    }
  }

  lemma ReaderKeepsLocks(s: State, a: Step)
    requires Locks(s) && Enabled(s, a) && (a.Begin? || a.TakeRead? || a.End? || a.Broken?)
    ensures Locks(Next(s, a))
  {
  }

  lemma WriterKeepsLocks(s: State, a: Step)
    requires Locks(s) && Enabled(s, a) && (a.AskWrite? || a.TakeWrite? || a.GiveUp? || a.GiveWrite?)
    ensures Locks(Next(s, a))
  {
    assert a.p in s.clients && Writes(s.clients[a.p]) ==> s.writer == Some(a.p);
  }

  /** Steps that leave the locks alone. */
  lemma OthersKeepLocks(s: State, a: Step)
    requires Locks(s) && Enabled(s, a)
    requires a.Answered? || a.DialFails? || a.Dialed? || a.StoreField? || a.AnsweredAgain?
    ensures Locks(Next(s, a))
  {
  }

  lemma StepKeepsFields(s: State, a: Step)
    requires Locks(s) && Fields(s) && Enabled(s, a)
    ensures Fields(Next(s, a)) && s.pool.connT.dial <= Next(s, a).pool.connT.dial
  {
    StepKeepsLocks(s, a);
    assert a.p in s.clients && Writes(s.clients[a.p]) ==> s.writer == Some(a.p);
  }

  lemma StepKeepsCounted(s: State, a: Step)
    requires Good(s) && Enabled(s, a)
    ensures Counted(Next(s, a))
  {
    StepKeepsFields(s, a);
    if a.GiveWrite? {
      assert s.writer == Some(a.p);
    }
  }

  lemma {:induction false} ReachableIsGood(ss: seq<State>, steps: seq<Step>, i: nat)
    requires Run(ss, steps) && i <= |steps|
    ensures Good(ss[i])
    decreases i
  {
    if i > 0 {
      ReachableIsGood(ss, steps, i - 1);
      assert Follows(ss, steps, i - 1);
      StepKeepsLocks(ss[i - 1], steps[i - 1]);
      StepKeepsFields(ss[i - 1], steps[i - 1]);
      StepKeepsCounted(ss[i - 1], steps[i - 1]);
    }
  }

  /**
   Coherence: whoever holds the read lock finds all four fields from one and the same dial, and talks over
   one of its two connections to put a job and over the other to do anything else.
   */
  lemma ReadersSeeOneDial(ss: seq<State>, steps: seq<Step>, i: nat, p: Pid)
    requires Run(ss, steps) && i <= |steps| && p in ss[i].readers
    ensures ss[i].pool == Made(ss[i].pool.connT.dial) && ss[i].writer.None?
    ensures ss[i].pool.t == ss[i].pool.connT && ss[i].pool.ts == ss[i].pool.conn
    ensures ss[i].pool.t != ss[i].pool.ts && ss[i].pool.t.dial == ss[i].pool.ts.dial
    ensures forall op :: Used(ss[i].pool, op) == if op == Put then ss[i].pool.connT else ss[i].pool.conn
  {
    ReachableIsGood(ss, steps, i);
  }

  /** A retry talks to a connection of its own redial or of a later one. */
  lemma RetryUsesAFreshConnection(ss: seq<State>, steps: seq<Step>, i: nat, p: Pid)
    requires Run(ss, steps) && i <= |steps| && p in ss[i].clients && ss[i].clients[p].SecondTry?
    ensures ss[i].clients[p].dial <= Used(ss[i].pool, ss[i].clients[p].op).dial
  {
    ReachableIsGood(ss, steps, i);
    ReadersSeeOneDial(ss, steps, i, p);
  }

  /**
   Locks come and go in order: who waits for the write lock has no read lock, who is idle has
   neither, and nobody reads while somebody writes.
   */
  lemma LocksAreLeftAsFound(ss: seq<State>, steps: seq<Step>, i: nat, p: Pid)
    requires Run(ss, steps) && i <= |steps|
    ensures p !in ss[i].clients ==> p !in ss[i].readers && ss[i].writer != Some(p)
    ensures p in ss[i].clients && (ss[i].clients[p].WantsWrite? || ss[i].clients[p].WantsRead?) ==>
            p !in ss[i].readers && ss[i].writer != Some(p)
    ensures ss[i].writer.Some? ==> ss[i].readers == {}
  {
    ReachableIsGood(ss, steps, i);
  }

  /**
   The protocol never comes to a standstill: whoever is inside, some lock holder, or whoever is next to
   write, can go on, although a writer that waits holds back all new readers.
   */
  lemma SomeoneCanMove(ss: seq<State>, steps: seq<Step>, i: nat, p: Pid)
    requires Run(ss, steps) && i <= |steps| && p in ss[i].clients
    ensures exists a: Step {:trigger Enabled(ss[i], a)} :: Enabled(ss[i], a) && !a.Begin? && !a.DialFails?
  {
    ReachableIsGood(ss, steps, i);
    var s := ss[i];
    var q := p;
    if s.writer.Some? {
      q := s.writer.value;
    } else if s.readers != {} {
      q :| q in s.readers;
    } else if s.pending.Some? {
      q := s.pending.value;
    }
    assert At(s, q);
    match s.clients[q] {
      case FirstTry(_) => assert Enabled(s, Answered(q));
      case WantsWrite(_) => assert Enabled(s, if s.pending.Some? then TakeWrite(q) else AskWrite(q));
      case Dialing(_) => assert Enabled(s, Dialed(q));
      case Storing(_, _, n) =>
        if n < 4 {
          assert Enabled(s, StoreField(q));
        } else {
          assert Enabled(s, GiveWrite(q));
        }
      case WantsRead(_, _) => assert Enabled(s, TakeRead(q));
      case SecondTry(_, _) => assert Enabled(s, AnsweredAgain(q));
      case Finishing => assert Enabled(s, End(q));
    }
  }

  // The course of an operation

  /** The steps of the operation that a client has under way, or had last, without the dials that failed. */
  function Trail(steps: seq<Step>, n: nat, p: Pid): seq<Step>
    requires n <= |steps|
  {
    if n == 0 then []
    else
      var a := steps[n - 1];
      if a.p != p || a.DialFails? then Trail(steps, n - 1, p)
      else if a.Begin? then [a]
      else Trail(steps, n - 1, p) + [a]
  }

  /** As far as the write lock, which is asked for when the server does not answer. */
  function ToTheLock(p: Pid, op: Op): seq<Step>
  {
    [Begin(p, op), Broken(p), AskWrite(p), TakeWrite(p)]
  }

  function Stores(p: Pid, n: nat): seq<Step>
  {
    seq(n, _ => StoreField(p))
  }

  function Redialed(p: Pid, op: Op): seq<Step>
  {
    ToTheLock(p, op) + [Dialed(p)] + Stores(p, 4) + [GiveWrite(p), TakeRead(p)]
  }

  /** The three ways an operation can go before it ends. */
  ghost predicate Went(trail: seq<Step>, p: Pid, op: Op)
  {
    || trail == [Begin(p, op), Answered(p)]
    || trail == ToTheLock(p, op) + [GiveUp(p), TakeRead(p)]
    || trail == Redialed(p, op) + [AnsweredAgain(p)]
  }

  /** Where a client is tells what it has done. */
  ghost predicate OnTrack(c: Client, asked: bool, p: Pid, trail: seq<Step>)
  {
    match c
    case FirstTry(op) => trail == [Begin(p, op)]
    case WantsWrite(op) => trail == [Begin(p, op), Broken(p)] + if asked then [AskWrite(p)] else []
    case Dialing(op) => trail == ToTheLock(p, op)
    case Storing(op, _, n) => trail == ToTheLock(p, op) + [Dialed(p)] + Stores(p, n)
    case WantsRead(op, r) =>
      trail == ToTheLock(p, op) + if r.Some? then [Dialed(p)] + Stores(p, 4) + [GiveWrite(p)] else [GiveUp(p)]
    case SecondTry(op, _) => trail == Redialed(p, op)
    case Finishing => exists op :: Went(trail, p, op)
  }

  lemma OwnStepOnTrack(s: State, a: Step, trail: seq<Step>)
    requires Enabled(s, a) && !a.Begin? && !a.DialFails? && !a.End? && Locks(s)
    requires OnTrack(s.clients[a.p], s.pending == Some(a.p), a.p, trail)
    ensures OnTrack(Next(s, a).clients[a.p], Next(s, a).pending == Some(a.p), a.p, trail + [a])
  {
    if a.Answered? || a.AnsweredAgain? || a.TakeRead? {
      ReadsOnTrack(s, a, trail);
    } else {
      WritesOnTrack(s, a, trail);
    }
  }

  lemma ReadsOnTrack(s: State, a: Step, trail: seq<Step>)
    requires Enabled(s, a) && (a.Answered? || a.AnsweredAgain? || a.TakeRead?)
    requires OnTrack(s.clients[a.p], s.pending == Some(a.p), a.p, trail)
    ensures OnTrack(Next(s, a).clients[a.p], Next(s, a).pending == Some(a.p), a.p, trail + [a])
  {
    var op := s.clients[a.p].op;
    if Next(s, a).clients[a.p].Finishing? {
      assert Went(trail + [a], a.p, op);
    }
  }

  lemma WritesOnTrack(s: State, a: Step, trail: seq<Step>)
    requires Enabled(s, a) && Locks(s)
    requires a.Broken? || a.AskWrite? || a.TakeWrite? || a.Dialed? || a.GiveUp? || a.StoreField? || a.GiveWrite?
    requires OnTrack(s.clients[a.p], s.pending == Some(a.p), a.p, trail)
    ensures OnTrack(Next(s, a).clients[a.p], Next(s, a).pending == Some(a.p), a.p, trail + [a])
  {
    if a.StoreField? {
      assert Stores(a.p, s.clients[a.p].done + 1) == Stores(a.p, s.clients[a.p].done) + [a];
    }
  }

  lemma OthersStepOnTrack(s: State, a: Step, p: Pid)
    requires Enabled(s, a) && Locks(s) && a.p != p && p in s.clients
    ensures p in Next(s, a).clients && Next(s, a).clients[p] == s.clients[p]
    ensures s.clients[p].WantsWrite? ==> (Next(s, a).pending == Some(p) <==> s.pending == Some(p))
  {
  }

  lemma {:induction false} AlwaysOnTrack(ss: seq<State>, steps: seq<Step>, n: nat, p: Pid)
    requires Run(ss, steps) && n <= |steps| && p in ss[n].clients
    ensures OnTrack(ss[n].clients[p], ss[n].pending == Some(p), p, Trail(steps, n, p))
    decreases n
  {
    assert n > 0;
    var s, a := ss[n - 1], steps[n - 1];
    assert Follows(ss, steps, n - 1);
    ReachableIsGood(ss, steps, n - 1);
    if a.p != p {
      AlwaysOnTrack(ss, steps, n - 1, p);
      OthersStepOnTrack(s, a, p);
    } else if !a.Begin? {
      AlwaysOnTrack(ss, steps, n - 1, p);
      if !a.DialFails? {
        OwnStepOnTrack(s, a, Trail(steps, n - 1, p));
      }
    }
  }

  /**
   An operation that ends went one of three ways, with the same operation tried throughout: answered at once;
   broken, and given up when no dial succeeded; or broken, dialled anew, all four fields replaced, and
   tried once more.
   */
  lemma EveryOperationsCourse(ss: seq<State>, steps: seq<Step>, n: nat, p: Pid)
    requires Run(ss, steps) && n < |steps| && steps[n] == End(p)
    ensures exists op :: Went(Trail(steps, n, p), p, op)
  {
    assert Follows(ss, steps, n);
    AlwaysOnTrack(ss, steps, n, p);
  }

  /** At most two contacts, the second only after this operation's own successful redial. */
  lemma AtMostTwoContacts(ss: seq<State>, steps: seq<Step>, i: nat, p: Pid)
    requires Run(ss, steps) && i <= |steps| && p in ss[i].clients
    ensures p in ss[i].tally && ss[i].tally[p].contacts <= 1 + ss[i].tally[p].redials <= 2
    ensures ss[i].clients[p].Finishing? ==> ss[i].tally[p].contacts == 1 + ss[i].tally[p].redials
  {
    ReachableIsGood(ss, steps, i);
  }
}

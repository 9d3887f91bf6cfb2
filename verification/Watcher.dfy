/**
 The file watcher of the reload plugin: `pollEvents` compares a snapshot of the watched paths with
 the files tracked so far, sends an event for each difference and brings the tracked files up to
 date.  Maps are visited in any order.
 */
module Watcher {
  import opened Text

  datatype Info = Info(modTime: int, mode: int, isDir: bool)

  type Files = map<string, Info>

  datatype Event = Event(path: string, info: Info)

  predicate Differs(a: Info, b: Info)
  {
    a.modTime != b.modTime || a.mode != b.mode
  }

  predicate Vanished(tracked: Files, snap: Files, p: string)
  {
    p in tracked && p !in snap
  }

  predicate Created(tracked: Files, snap: Files, p: string)
  {
    p in snap && !snap[p].isDir && p !in tracked
  }

  predicate Updated(tracked: Files, snap: Files, p: string)
  {
    p in snap && !snap[p].isDir && p in tracked && Differs(tracked[p], snap[p])
  }

  /** The event a path deserves: the new information, or the last known one of a path that vanished. */
  function Due(tracked: Files, snap: Files, p: string): Option<Event>
  {
    if Vanished(tracked, snap, p) then Some(Event(p, tracked[p]))
    else if Created(tracked, snap, p) || Updated(tracked, snap, p) then Some(Event(p, snap[p]))
    else None
  }

  /** What is tracked after a poll. */
  function Polled(tracked: Files, snap: Files): Files
  {
    map p | p in snap && (p in tracked || !snap[p].isDir) ::
      if p in tracked && (snap[p].isDir || !Differs(tracked[p], snap[p])) then tracked[p] else snap[p]
  }

  /** One event for each path that deserves one, and no other. */
  ghost predicate Exactly(events: seq<Event>, tracked: Files, snap: Files)
  {
    && (forall i | 0 <= i < |events| :: Due(tracked, snap, events[i].path) == Some(events[i]))
    && (forall p | Due(tracked, snap, p).Some? :: Due(tracked, snap, p).value in events)
    && (forall i, j | 0 <= i < j < |events| :: events[i].path != events[j].path)
  }

  /**
   What a poll reports: a path that is gone, with its last known information, and a file that is new or
   whose time or mode is another than the one known, with the new information; nothing else.
   */
  ghost predicate Reports(events: seq<Event>, tracked: Files, snap: Files)
  {
    forall e ::
      e in events <==>
      || (e.path in tracked && e.path !in snap && e.info == tracked[e.path])
      || (&& e.path in snap && !snap[e.path].isDir && e.info == snap[e.path]
          && (e.path in tracked ==>
                tracked[e.path].modTime != snap[e.path].modTime || tracked[e.path].mode != snap[e.path].mode))
  }

  lemma ExactlyReports(events: seq<Event>, tracked: Files, snap: Files)
    requires Exactly(events, tracked, snap)
    ensures Reports(events, tracked, snap)
  {
    forall e ensures e in events <==> Due(tracked, snap, e.path) == Some(e) {
      if e in events {
        var i :| 0 <= i < |events| && events[i] == e;
      }
    }
  }

  /** One event for each entry of a map, in some order. */
  ghost predicate OnePer(events: seq<Event>, m: Files)
  {
    && (forall i | 0 <= i < |events| :: events[i].path in m && events[i].info == m[events[i].path])
    && (forall p | p in m :: Event(p, m[p]) in events)
    && (forall i, j | 0 <= i < j < |events| :: events[i].path != events[j].path)
  }

  lemma OnePerMore(events: seq<Event>, m: Files, p: string, info: Info)
    requires OnePer(events, m) && p !in m
    ensures OnePer(events + [Event(p, info)], m[p := info])
  {
    var es, m' := events + [Event(p, info)], m[p := info];
    forall x | x in m' ensures Event(x, m'[x]) in es {
      if x == p {
        assert es[|events|] == Event(x, m'[x]);
      } else {
        assert Event(x, m[x]) in events;
      }
    }
  }

  lemma OnePerBoth(a: seq<Event>, m: Files, b: seq<Event>, n: Files)
    requires OnePer(a, m) && OnePer(b, n) && m.Keys !! n.Keys
    ensures OnePer(a + b, m + n)
  {
    var es, mn := a + b, m + n;
    forall x | x in mn ensures Event(x, mn[x]) in es {
      if x in n {
        assert Event(x, n[x]) in b;
      } else {
        assert Event(x, m[x]) in a;
      }
    }
  }

  /** The entries of a map whose keys have been visited. */
  function Visited(m: Files, rest: set<string>): Files
  {
    map p | p in m && p !in rest :: m[p]
  }

  lemma VisitKey(m: Files, rest: set<string>, p: string)
    requires p in rest
    ensures p !in Visited(m, rest)
    ensures Visited(m, rest - {p}) == if p in m then Visited(m, rest)[p := m[p]] else Visited(m, rest)
  {
  }

  /** Visiting one more key: its entry, if the map has one, is added and sent. */
  lemma VisitOne(base: Files, m: Files, rest: set<string>, p: string, events: seq<Event>)
    requires p in rest && OnePer(events, Visited(m, rest))
    ensures p !in Visited(m, rest)
    ensures p in m ==> OnePer(events + [Event(p, m[p])], Visited(m, rest - {p}))
    ensures p in m ==> base + Visited(m, rest - {p}) == (base + Visited(m, rest))[p := m[p]]
    ensures p in m ==> base - Visited(m, rest - {p}).Keys == base - Visited(m, rest).Keys - {p}
    ensures p !in m ==> Visited(m, rest - {p}) == Visited(m, rest)
  {
    VisitKey(m, rest, p);
    if p in m {
      OnePerMore(events, Visited(m, rest), p, m[p]);
      AddAndDrop(base, Visited(m, rest), p, m[p]);
    }
  }

  lemma AddAndDrop(base: Files, v: Files, p: string, info: Info)
    ensures base + v[p := info] == (base + v)[p := info]
    ensures base - v[p := info].Keys == base - v.Keys - {p}
  {
  }

  lemma VisitEnds(m: Files, rest: set<string>)
    ensures rest == {} ==> Visited(m, rest) == m
    ensures m.Keys <= rest ==> Visited(m, rest) == map[]
  {
  }

  function Updates(tracked: Files, snap: Files): Files
  {
    map p | p in snap && Updated(tracked, snap, p) :: snap[p]
  }

  function Creations(tracked: Files, snap: Files): Files
  {
    map p | p in snap && Created(tracked, snap, p) :: snap[p]
  }

  function Removals(tracked: Files, snap: Files): Files
  {
    map p | p in tracked && Vanished(tracked, snap, p) :: tracked[p]
  }

  lemma AllDifferences(events: seq<Event>, tracked: Files, snap: Files)
    requires OnePer(events, Updates(tracked, snap) + Creations(tracked, snap) + Removals(tracked, snap))
    ensures Exactly(events, tracked, snap)
  {
    var m := Updates(tracked, snap) + Creations(tracked, snap) + Removals(tracked, snap);
    forall i | 0 <= i < |events| ensures Due(tracked, snap, events[i].path) == Some(events[i]) {
      DueIsDifference(tracked, snap, events[i].path);
    }
    forall p | Due(tracked, snap, p).Some? ensures Due(tracked, snap, p).value in events {
      DueIsDifference(tracked, snap, p);
      assert Event(p, m[p]) in events;
    }
  }

  /** The differences are what is due. */
  lemma DueIsDifference(tracked: Files, snap: Files, p: string)
    ensures var m := Updates(tracked, snap) + Creations(tracked, snap) + Removals(tracked, snap);
            Due(tracked, snap, p) == if p in m then Some(Event(p, m[p])) else None
  {
  }

  lemma AllSent(was: Files, snap: Files, updates: seq<Event>, created: seq<Event>, removed: seq<Event>)
    requires OnePer(updates, Updates(was, snap)) && OnePer(created, Creations(was, snap))
    requires OnePer(removed, Removals(was, snap))
    ensures Exactly(updates + created + removed, was, snap)
  {
    OnePerBoth(updates, Updates(was, snap), created, Creations(was, snap));
    OnePerBoth(updates + created, Updates(was, snap) + Creations(was, snap), removed, Removals(was, snap));
    AllDifferences(updates + created + removed, was, snap);
  }

  lemma Regroup(a: seq<Event>, b: seq<Event>, c: seq<Event>, d: seq<Event>)
    ensures a + b + c + d == a + (b + c + d)
  {
  }

  lemma TrackedInTheEnd(tracked: Files, snap: Files)
    ensures (tracked + Updates(tracked, snap) + Creations(tracked, snap)) - Removals(tracked, snap).Keys ==
            Polled(tracked, snap)
  {
  }

  class Watch {
    var files: Files
    var sent: seq<Event>    // the events sent so far, in order

    constructor (initial: Files)
      ensures files == initial && sent == []
    {
      files, sent := initial, [];
    }

    method PollEvents(snap: Files) returns (events: seq<Event>)
      modifies this
      ensures files == Polled(old(files), snap)
      ensures forall p :: p in files <==> p in snap && (p in old(files) || !snap[p].isDir)
      ensures sent == old(sent) + events && Exactly(events, old(files), snap) && Reports(events, old(files), snap)
    {
      var removes := FindRemoved(snap);
      var updates, creates := SendUpdates(snap);
      var created := SendCreated(creates);
      var removed := SendRemoved(removes);
      events := updates + created + removed;
      Regroup(old(sent), updates, created, removed);
      AllSent(old(files), snap, updates, created, removed);
      ExactlyReports(events, old(files), snap);
      TrackedInTheEnd(old(files), snap);
    }

    /** First loop: the paths that are gone. */
    method FindRemoved(snap: Files) returns (removes: Files)
      ensures removes == Removals(files, snap)
    {
      removes := map[];
      var rest := files.Keys;
      while rest != {}
        invariant rest <= files.Keys
        invariant removes == map p | p in files && p !in snap && p !in rest :: files[p]
        decreases |rest|
      {
        var p :| p in rest;
        if p !in snap {
          removes := removes[p := files[p]];
        }
        rest := rest - {p};
      }
    }

    /** Second loop: changed files are updated and sent at once, new ones collected. */
    method SendUpdates(snap: Files) returns (events: seq<Event>, creates: Files)
      modifies this
      ensures files == old(files) + Updates(old(files), snap)
      ensures creates == Creations(old(files), snap)
      ensures sent == old(sent) + events && OnePer(events, Updates(old(files), snap))
    {
      events, creates := [], map[];
      var rest := snap.Keys;
      ghost var was, u, c := files, Updates(files, snap), Creations(files, snap);
      VisitEnds(u, rest);
      VisitEnds(c, rest);
      while rest != {}
        invariant rest <= snap.Keys
        invariant creates == Visited(c, rest) && files == was + Visited(u, rest)
        invariant sent == old(sent) + events && OnePer(events, Visited(u, rest))
        decreases |rest|
      {
        var p :| p in rest;
        VisitOne(was, u, rest, p, events);
        VisitKey(c, rest, p);
        UpdateIsKnown(was, snap, rest, p);
        rest := rest - {p};
        var created, event := VisitFile(p, snap[p]);
        events := events + event;
        if created {
          creates := creates[p := snap[p]];
        }
      }
      VisitEnds(u, rest);
      VisitEnds(c, rest);
    }

    /** A file that changed is tracked and sent at once; `created` when it is new. */
    method VisitFile(p: string, info: Info) returns (created: bool, event: seq<Event>)
      modifies this
      ensures created <==> !info.isDir && p !in old(files)
      ensures event == if !info.isDir && p in old(files) && Differs(old(files)[p], info) then [Event(p, info)] else []
      ensures files == (if event == [] then old(files) else old(files)[p := info]) && sent == old(sent) + event
    {
      created, event := false, [];
      if !info.isDir {
        if p !in files {
          created := true;
        } else if Differs(files[p], info) {
          Send(p, info);
          event := [Event(p, info)];
        }
      }
    }

    /** Tracks a file and sends its event. */
    method Send(p: string, info: Info)
      modifies this
      ensures files == old(files)[p := info] && sent == old(sent) + [Event(p, info)]
    {
      files := files[p := info];
      sent := sent + [Event(p, info)];
    }

    method SendCreated(creates: Files) returns (events: seq<Event>)
      modifies this
      ensures files == old(files) + creates
      ensures sent == old(sent) + events && OnePer(events, creates)
    {
      events := [];
      var rest := creates.Keys;
      ghost var was := files;
      VisitEnds(creates, rest);
      while rest != {}
        invariant rest <= creates.Keys
        invariant files == was + Visited(creates, rest)
        invariant sent == old(sent) + events && OnePer(events, Visited(creates, rest))
        decreases |rest|
      {
        var p :| p in rest;
        VisitOne(was, creates, rest, p, events);
        rest := rest - {p};
        Send(p, creates[p]);
        events := events + [Event(p, creates[p])];
      }
      VisitEnds(creates, rest);
    }

    method SendRemoved(removes: Files) returns (events: seq<Event>)
      modifies this
      ensures files == old(files) - removes.Keys
      ensures sent == old(sent) + events && OnePer(events, removes)
    {
      events := [];
      var rest := removes.Keys;
      ghost var was := files;
      VisitEnds(removes, rest);
      while rest != {}
        invariant rest <= removes.Keys
        invariant files == was - Visited(removes, rest).Keys
        invariant sent == old(sent) + events && OnePer(events, Visited(removes, rest))
        decreases |rest|
      {
        var p :| p in rest;
        VisitOne(was, removes, rest, p, events);
        rest := rest - {p};
        files := files - {p};
        sent := sent + [Event(p, removes[p])];
        events := events + [Event(p, removes[p])];
      }
      VisitEnds(removes, rest);
    }
  }

  /** Files visited earlier do not change what is known of a path. */
  lemma UpdateIsKnown(was: Files, snap: Files, rest: set<string>, p: string)
    requires p in rest && p in snap
    ensures var files := was + Visited(Updates(was, snap), rest);
            && (p in files <==> p in was) && (p in was ==> files[p] == was[p])
            && (p in Updates(was, snap) <==> !snap[p].isDir && p in files && Differs(files[p], snap[p]))
            && (p in Creations(was, snap) <==> !snap[p].isDir && p !in files)
  {
  }

  // Many polls

  ghost predicate NothingDue(tracked: Files, snap: Files)
  {
    forall p :: Due(tracked, snap, p).None?
  }

  /** The tracked files agree with a snapshot: on time and mode of every file, and on no path beyond it. */
  ghost predicate Agrees(tracked: Files, snap: Files)
  {
    && (forall p | p in tracked :: p in snap)
    && (forall p | p in snap && !snap[p].isDir ::
          p in tracked && tracked[p].modTime == snap[p].modTime && tracked[p].mode == snap[p].mode)
  }

  /** A poll is silent exactly when the snapshot agrees with what is tracked. */
  lemma SilentExactly(tracked: Files, snap: Files)
    ensures NothingDue(tracked, snap) <==> Agrees(tracked, snap)
  {
    if NothingDue(tracked, snap) {
      forall p | p in tracked ensures p in snap {
        assert Due(tracked, snap, p).None?;
      }
      forall p | p in snap && !snap[p].isDir ensures p in tracked && !Differs(tracked[p], snap[p]) {
        assert Due(tracked, snap, p).None?;
      }
    }
  }

  lemma PollAgrees(tracked: Files, snap: Files)
    ensures Agrees(Polled(tracked, snap), snap)
  {
  }

  function PolledAll(tracked: Files, snaps: seq<Files>): Files
  {
    if snaps == [] then tracked else Polled(PolledAll(tracked, snaps[..|snaps| - 1]), snaps[|snaps| - 1])
  }

  /** After any polls the tracked files agree with the last snapshot, and showing it again sends nothing. */
  lemma LastSnapshotWins(tracked: Files, snaps: seq<Files>)
    requires snaps != []
    ensures Agrees(PolledAll(tracked, snaps), snaps[|snaps| - 1])
    ensures NothingDue(PolledAll(tracked, snaps), snaps[|snaps| - 1])
    ensures Polled(PolledAll(tracked, snaps), snaps[|snaps| - 1]) == PolledAll(tracked, snaps)
  {
    var last := snaps[|snaps| - 1];
    PollAgrees(PolledAll(tracked, snaps[..|snaps| - 1]), last);
    SilentExactly(PolledAll(tracked, snaps), last);
  }
}

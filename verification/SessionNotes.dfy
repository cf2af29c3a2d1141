// The notifications about sessions, over all interleavings of the sections of activations and
// closings: how many there are, and when they alternate for a connection.
module SessionNotes {
  import opened Prelude
  import opened Sessions

  /* Counting notifications. */

  // Opened (Closed) notes about connections with c.
  function OpenedNotes(notes: seq<Note>, c: Conn): nat
  {
    if notes == [] then 0
    else OpenedNotes(notes[..|notes| - 1], c) +
         (if notes[|notes| - 1].Opened? && notes[|notes| - 1].conn == c then 1 else 0)
  }

  function ClosedNotes(notes: seq<Note>, c: Conn): nat
  {
    if notes == [] then 0
    else ClosedNotes(notes[..|notes| - 1], c) +
         (if notes[|notes| - 1].Closed? && notes[|notes| - 1].conn == c then 1 else 0)
  }

  function ActiveFds(m: Maps, c: Conn): set<Fd>
  {
    set fd | fd in m.activeConns && m.activeConns[fd] == c
  }

  // Sessions with c that are announced and not yet told closed.
  function Shown(s: System, c: Conn): set<Fd>
  {
    set fd | fd in s.opening && fd in s.conn && s.conn[fd] == c && s.opening[fd] == Announced
             && !(fd in s.closing && s.closing[fd] == Told)
  }

  // Sessions with c that are told closed and not yet announced.
  function Early(s: System, c: Conn): set<Fd>
  {
    set fd | fd in s.closing && fd in s.conn && s.conn[fd] == c && s.closing[fd] == Told
             && !(fd in s.opening && s.opening[fd] == Announced)
  }

  ghost predicate Balanced(s: System, c: Conn)
  {
    OpenedNotes(s.maps.notes, c) + |Early(s, c)| == ClosedNotes(s.maps.notes, c) + |Shown(s, c)|
  }

  lemma TellCounts(m: Maps, n: Note, c: Conn)
    ensures OpenedNotes(Tell(m, n).notes, c) == OpenedNotes(m.notes, c) + if n.Opened? && n.conn == c then 1 else 0
    ensures ClosedNotes(Tell(m, n).notes, c) == ClosedNotes(m.notes, c) + if n.Closed? && n.conn == c then 1 else 0
  {
  }

  predicate IsAnnounced(s: System, fd: Fd)
  {
    fd in s.opening && s.opening[fd] == Announced
  }

  // The step announces an opening.
  predicate Announcing(s: System, step: Step)
  {
    step.OpenSection? && step.fd in s.conn && step.fd in s.opening && s.opening[step.fd] == HasQueue
  }

  // The step tells about a closing.
  predicate Telling(s: System, step: Step)
  {
    step.FinishSection? && step.fd in s.conn && step.fd in s.closing && s.closing[step.fd] == LostQueue
  }

  lemma ActivateKeepsSets(s: System, fd: Fd, d: Conn, c: Conn)
    requires Core(s) && Enabled(s, ActivateSection(fd, d))
    ensures Shown(ActivateNext(s, fd, d), c) == Shown(s, c) && Early(ActivateNext(s, fd, d), c) == Early(s, c)
  {
  }

  lemma CloseKeepsSets(s: System, fd: Fd, c: Conn)
    requires Core(s)
    ensures Shown(CloseNext(s, fd), c) == Shown(s, c) && Early(CloseNext(s, fd), c) == Early(s, c)
  {
  }

  lemma OpenKeepsSets(s: System, fd: Fd, c: Conn)
    requires Core(s) && fd in s.opening && (s.opening[fd] == HasActive || s.opening[fd] == HasConn)
    ensures Shown(OpenNext(s, fd), c) == Shown(s, c) && Early(OpenNext(s, fd), c) == Early(s, c)
  {
  }

  lemma FinishKeepsSets(s: System, fd: Fd, c: Conn)
    requires Core(s) && fd in s.closing && (s.closing[fd] == LostActive || s.closing[fd] == LostConn)
    ensures Shown(FinishNext(s, fd), c) == Shown(s, c) && Early(FinishNext(s, fd), c) == Early(s, c)
  {
  }

  lemma SilentKeepsSets(s: System, step: Step, c: Conn)
    requires Core(s) && Enabled(s, step) && !Announcing(s, step) && !Telling(s, step)
    ensures var u := Next(s, step);
            Shown(u, c) == Shown(s, c) && Early(u, c) == Early(s, c) && u.maps.notes == s.maps.notes
  {
    if step.ActivateSection? {
      ActivateKeepsSets(s, step.fd, step.conn, c);
    } else if step.OpenSection? {
      OpenKeepsSets(s, step.fd, c);
    } else if step.FinishSection? {
      FinishKeepsSets(s, step.fd, c);
    } else if step.CloseFound? {
      CloseKeepsSets(s, s.closers[step.ticket], c);
    }
  }

  lemma AnnouncingMoves(s: System, fd: Fd, c: Conn)
    requires Core(s) && Announcing(s, OpenSection(fd))
    ensures var u := OpenNext(s, fd);
            u.maps.notes == s.maps.notes + [Opened(SessionOf(s.maps, fd), s.conn[fd])]
            && (s.conn[fd] != c ==> Shown(u, c) == Shown(s, c) && Early(u, c) == Early(s, c))
            && (s.conn[fd] == c && fd in Early(s, c) ==> Shown(u, c) == Shown(s, c) && Early(u, c) == Early(s, c) - {fd})
            && (s.conn[fd] == c && fd !in Early(s, c) ==>
                  Shown(u, c) == Shown(s, c) + {fd} && Early(u, c) == Early(s, c) && fd !in Shown(s, c))
  {
  }

  lemma TellingMoves(s: System, fd: Fd, c: Conn)
    requires Core(s) && Telling(s, FinishSection(fd))
    ensures var u := FinishNext(s, fd);
            u.maps.notes == s.maps.notes + [Closed(SessionOf(s.maps, fd), s.conn[fd])]
            && (s.conn[fd] != c ==> Shown(u, c) == Shown(s, c) && Early(u, c) == Early(s, c))
            && (s.conn[fd] == c && fd in Shown(s, c) ==> Shown(u, c) == Shown(s, c) - {fd} && Early(u, c) == Early(s, c))
            && (s.conn[fd] == c && fd !in Shown(s, c) ==>
                  Shown(u, c) == Shown(s, c) && Early(u, c) == Early(s, c) + {fd} && fd !in Early(s, c))
  {
  }

  lemma RemovalSize(fds: set<Fd>, fd: Fd)
    ensures |fds - {fd}| == |fds| - if fd in fds then 1 else 0
  {
  }

  lemma AnnouncingKeepsBalance(s: System, fd: Fd, c: Conn)
    requires Core(s) && Announcing(s, OpenSection(fd)) && Balanced(s, c)
    ensures Balanced(OpenNext(s, fd), c)
  {
    AnnouncingMoves(s, fd, c);
    RemovalSize(Early(s, c), fd);
    TellCounts(s.maps, Opened(SessionOf(s.maps, fd), s.conn[fd]), c);
  }

  lemma TellingKeepsBalance(s: System, fd: Fd, c: Conn)
    requires Core(s) && Telling(s, FinishSection(fd)) && Balanced(s, c)
    ensures Balanced(FinishNext(s, fd), c)
  {
    TellingMoves(s, fd, c);
    RemovalSize(Shown(s, c), fd);
    TellCounts(s.maps, Closed(SessionOf(s.maps, fd), s.conn[fd]), c);
  }

  lemma StepKeepsBalance(s: System, step: Step, c: Conn)
    requires Core(s) && Enabled(s, step) && Balanced(s, c)
    ensures Balanced(Next(s, step), c)
  {
    if Announcing(s, step) {
      AnnouncingKeepsBalance(s, step.fd, c);
    } else if Telling(s, step) {
      TellingKeepsBalance(s, step.fd, c);
    } else {
      SilentKeepsSets(s, step, c);
    }
  }

  lemma {:induction false} RunKeepsBalance(s: System, steps: seq<Step>, c: Conn)
    requires MapInv(s) && CanRun(s, steps) && Balanced(s, c)
    ensures Balanced(Run(s, steps), c)
    decreases |steps|
  {
    if steps == [] {
    } else {
      StepKeepsMapInv(s, steps[0]);
      StepKeepsBalance(s, steps[0], c);
      RunKeepsBalance(Next(s, steps[0]), steps[1..], c);
    }
  }

  lemma StartBalanced(c: Conn)
    ensures Balanced(START, c)
  {
  }

  // Opened minus closed notifications is the number of active sessions, for every peer and
  // direction, in every interleaving, whenever no operation is under way.
  lemma NotificationsConserved(steps: seq<Step>, c: Conn)
    requires CanRun(START, steps) && Quiescent(Run(START, steps))
    ensures var m := Run(START, steps).maps;
            OpenedNotes(m.notes, c) - ClosedNotes(m.notes, c) == |ActiveFds(m, c)|
  {
    StartBalanced(c);
    RunKeepsBalance(START, steps, c);
    RunKeepsMapInv(START, steps);
    QuiescentSets(Run(START, steps), c);
  }

  lemma QuiescentSets(s: System, c: Conn)
    requires Core(s) && Quiescent(s)
    ensures Early(s, c) == {} && Shown(s, c) == ActiveFds(s.maps, c)
  {
    forall fd ensures fd !in Early(s, c) && (fd in Shown(s, c) <==> fd in ActiveFds(s.maps, c)) {
    }
  }

  /* Alternation of the notifications of one connection. */

  // The last note about c is that it opened.
  predicate NotedOpen(notes: seq<Note>, c: Conn)
  {
    notes != [] &&
    var last := notes[|notes| - 1];
    if last.conn == c then last.Opened? else NotedOpen(notes[..|notes| - 1], c)
  }

  // For every connection the notes are Opened, Closed, Opened, ...
  predicate Alternating(notes: seq<Note>)
  {
    notes == [] ||
    var before, last := notes[..|notes| - 1], notes[|notes| - 1];
    Alternating(before) && (last.Opened? <==> !NotedOpen(before, last.conn))
  }

  lemma NotesSnoc(notes: seq<Note>, n: Note, c: Conn)
    ensures NotedOpen(notes + [n], c) <==> if n.conn == c then n.Opened? else NotedOpen(notes, c)
    ensures Alternating(notes + [n]) <==> Alternating(notes) && (n.Opened? <==> !NotedOpen(notes, n.conn))
  {
  }

  // Alternating notes are balanced by whether the connection is open.
  lemma {:induction false} AlternatingCounts(notes: seq<Note>, c: Conn)
    requires Alternating(notes)
    ensures OpenedNotes(notes, c) - ClosedNotes(notes, c) == if NotedOpen(notes, c) then 1 else 0
  {
    if notes == [] {
    } else {
      AlternatingCounts(notes[..|notes| - 1], c);
    }
  }

  // An opening is announced when as many sessions of the connection are announced open as are
  // told closed too early, a closing told when there is one more of the former.
  predicate Orderly(s: System, step: Step)
  {
    && (Announcing(s, step) ==> |Shown(s, s.conn[step.fd])| == |Early(s, s.conn[step.fd])|)
    && (Telling(s, step) ==> |Shown(s, s.conn[step.fd])| == |Early(s, s.conn[step.fd])| + 1)
  }

  predicate AllOrderly(s: System, steps: seq<Step>)
    requires CanRun(s, steps)
    decreases |steps|
  {
    steps == [] || (Orderly(s, steps[0]) && AllOrderly(Next(s, steps[0]), steps[1..]))
  }

  // What a step adds to the notes.
  function NoteOf(s: System, step: Step): Option<Note>
  {
    if Announcing(s, step) then Some(Opened(SessionOf(s.maps, step.fd), s.conn[step.fd]))
    else if Telling(s, step) then Some(Closed(SessionOf(s.maps, step.fd), s.conn[step.fd]))
    else None
  }

  lemma StepNotes(s: System, step: Step)
    requires Enabled(s, step)
    ensures Next(s, step).maps.notes
            == if NoteOf(s, step).Some? then s.maps.notes + [NoteOf(s, step).value] else s.maps.notes
  {
    match step
    case OpenSection(fd) =>
    case FinishSection(fd) =>
    case _ =>
  }

  lemma StepAlternatesIff(s: System, step: Step)
    requires Core(s) && Enabled(s, step) && Alternating(s.maps.notes) && forall c :: Balanced(s, c)
    ensures Alternating(Next(s, step).maps.notes) <==> Orderly(s, step)
  {
    StepNotes(s, step);
    var note := NoteOf(s, step);
    if note.Some? {
      var c := note.value.conn;
      NotesSnoc(s.maps.notes, note.value, c);
      AlternatingCounts(s.maps.notes, c);
      assert Balanced(s, c);
    }
  }

  lemma {:induction false} BrokenStays(s: System, steps: seq<Step>)
    requires CanRun(s, steps) && !Alternating(s.maps.notes)
    ensures !Alternating(Run(s, steps).maps.notes)
    decreases |steps|
  {
    if steps == [] {
    } else {
      StepNotes(s, steps[0]);
      var note := NoteOf(s, steps[0]);
      if note.Some? {
        NotesSnoc(s.maps.notes, note.value, note.value.conn);
      }
      BrokenStays(Next(s, steps[0]), steps[1..]);
    }
  }

  lemma {:induction false} AlternatesIff(s: System, steps: seq<Step>)
    requires MapInv(s) && CanRun(s, steps) && Alternating(s.maps.notes) && forall c :: Balanced(s, c)
    ensures Alternating(Run(s, steps).maps.notes) <==> AllOrderly(s, steps)
    decreases |steps|
  {
    if steps == [] {
    } else {
      StepAlternatesIff(s, steps[0]);
      StepKeepsMapInv(s, steps[0]);
      forall c ensures Balanced(Next(s, steps[0]), c) {
        StepKeepsBalance(s, steps[0], c);
      }
      if Orderly(s, steps[0]) {
        AlternatesIff(Next(s, steps[0]), steps[1..]);
      } else {
        BrokenStays(Next(s, steps[0]), steps[1..]);
      }
    }
  }

  // In every interleaving, the notifications of every connection alternate, starting with an
  // opening, if and only if all announcements are orderly.
  lemma NotesAlternateIff(steps: seq<Step>)
    requires CanRun(START, steps)
    ensures Alternating(Run(START, steps).maps.notes) <==> AllOrderly(START, steps)
  {
    forall c ensures Balanced(START, c) {
      StartBalanced(c);
    }
    AlternatesIff(START, steps);
  }

  /* Sessions closed only once announced. */

  // Every CloseFD that finds its session finds it announced: nobody closes a session before
  // OnLinkEstablishing has told about it.
  predicate Patient(s: System, steps: seq<Step>)
    requires CanRun(s, steps)
    decreases |steps|
  {
    steps == [] ||
    ((FindsSession(s, steps[0]) ==> IsAnnounced(s, s.closers[steps[0].ticket]))
     && Patient(Next(s, steps[0]), steps[1..]))
  }

  ghost predicate PatientInv(s: System)
  {
    Core(s) && forall fd :: fd in s.closing ==> s.opening[fd] == Announced
  }

  lemma StepKeepsPatient(s: System, step: Step)
    requires PatientInv(s) && Enabled(s, step)
    requires FindsSession(s, step) ==> IsAnnounced(s, s.closers[step.ticket])
    ensures PatientInv(Next(s, step))
  {
    StepKeepsCore(s, step);
  }

  // Every opening is announced when no session of the connection is announced and not yet
  // told closed.
  predicate AllSingle(s: System, steps: seq<Step>)
    requires CanRun(s, steps)
    decreases |steps|
  {
    steps == [] ||
    ((Announcing(s, steps[0]) ==> Shown(s, s.conn[steps[0].fd]) == {}) && AllSingle(Next(s, steps[0]), steps[1..]))
  }

  predicate AtMostOne(fds: set<Fd>)
  {
    forall a, b :: a in fds && b in fds ==> a == b
  }

  lemma OneMember(fds: set<Fd>, fd: Fd)
    requires AtMostOne(fds) && fd in fds
    ensures |fds| == 1
  {
    forall x | x in fds ensures x == fd {
    }
    assert fds == {fd};
  }

  lemma NoneEarly(s: System, c: Conn)
    requires PatientInv(s)
    ensures Early(s, c) == {}
  {
    forall fd ensures fd !in Early(s, c) {
    }
  }

  lemma SingleStep(s: System, step: Step)
    requires PatientInv(s) && Enabled(s, step) && forall c :: AtMostOne(Shown(s, c))
    ensures Orderly(s, step) <==> (Announcing(s, step) ==> Shown(s, s.conn[step.fd]) == {})
    ensures Orderly(s, step) ==> forall c :: AtMostOne(Shown(Next(s, step), c))
  {
    forall c {
      NoneEarly(s, c);
    }
    if Announcing(s, step) {
      forall c {
        AnnouncingMoves(s, step.fd, c);
      }
    } else if Telling(s, step) {
      OneMember(Shown(s, s.conn[step.fd]), step.fd);
      forall c {
        TellingMoves(s, step.fd, c);
      }
    } else {
      forall c {
        SilentKeepsSets(s, step, c);
      }
    }
  }

  lemma {:induction false} OrderlyIffSingle(s: System, steps: seq<Step>)
    requires PatientInv(s) && CanRun(s, steps) && Patient(s, steps) && forall c :: AtMostOne(Shown(s, c))
    ensures AllOrderly(s, steps) <==> AllSingle(s, steps)
    decreases |steps|
  {
    if steps == [] {
    } else {
      StepKeepsPatient(s, steps[0]);
      SingleStep(s, steps[0]);
      if Orderly(s, steps[0]) {
        OrderlyIffSingle(Next(s, steps[0]), steps[1..]);
      }
    }
  }

  // In every interleaving in which sessions are closed only once announced, the notifications
  // of every connection alternate if and only if every opening is announced when no other
  // session of the connection is announced and not yet told closed.
  lemma PatientNotesAlternateIff(steps: seq<Step>)
    requires CanRun(START, steps) && Patient(START, steps)
    ensures Alternating(Run(START, steps).maps.notes) <==> AllSingle(START, steps)
  {
    NotesAlternateIff(steps);
    OrderlyIffSingle(START, steps);
  }

  /* A second session between the first one's end in activeConns and its notification. */

  // Sessions are closed only once announced, and set up only when activeConns has none of the
  // same connection.
  predicate Careful(s: System, steps: seq<Step>)
    requires CanRun(s, steps)
    decreases |steps|
  {
    steps == [] || (CarefulStep(s, steps[0]) && Careful(Next(s, steps[0]), steps[1..]))
  }

  predicate CarefulStep(s: System, step: Step)
  {
    && (FindsSession(s, step) ==> IsAnnounced(s, s.closers[step.ticket]))
    && (step.ActivateSection? ==> ActiveFds(s.maps, step.conn) == {})
  }

  lemma {:induction false} CarefulIsPatient(s: System, steps: seq<Step>)
    requires CanRun(s, steps) && Careful(s, steps)
    ensures Patient(s, steps)
    decreases |steps|
  {
    if steps == [] {
    } else {
      CarefulIsPatient(Next(s, steps[0]), steps[1..]);
    }
  }

  function OverlapSteps(c: Conn): seq<Step>
  {
    OverlapFirst(c) + OverlapSecond(c)
  }

  function OverlapFirst(c: Conn): seq<Step>
  {
    [ActivateSection(1, c), OpenSection(1), OpenSection(1), OpenSection(1), LookUpConn(c), CloseFound(0)]
  }

  function OverlapSecond(c: Conn): seq<Step>
  {
    [ActivateSection(2, c), OpenSection(2), FinishSection(1), FinishSection(1), OpenSection(2), OpenSection(2),
     FinishSection(1)]
  }

  lemma CarefulConcat(s: System, first: seq<Step>, second: seq<Step>)
    requires CanRun(s, first) && CanRun(Run(s, first), second)
    requires Careful(s, first) && Careful(Run(s, first), second)
    ensures CanRun(s, first + second) && Careful(s, first + second)
    decreases |first|
  {
    RunConcat(s, first, second);
    if first == [] {
      assert first + second == second;
    } else {
      assert (first + second)[1..] == first[1..] + second;
      CarefulConcat(Next(s, first[0]), first[1..], second);
    }
  }

  lemma CarefulOne(s: System, step: Step, rest: seq<Step>)
    requires Enabled(s, step) && CanRun(Next(s, step), rest) && Careful(Next(s, step), rest)
    requires CarefulStep(s, step)
    ensures CanRun(s, [step] + rest) && Run(s, [step] + rest) == Run(Next(s, step), rest) && Careful(s, [step] + rest)
  {
  }

  // The first session, announced and erased from activeConns.
  function FirstErased(c: Conn): System
  {
    System(Maps(map[], map[c := 1], map[1 := []], map[1 := 0], 1, [Opened(0, c)]),
           map[1 := c], map[1 := Announced], map[1 := LostActive], {}, map[], map[], 1)
  }

  lemma ErasesFirst(c: Conn, s: System)
    requires s == System(Maps(map[1 := c], map[c := 1], map[1 := []], map[1 := 0], 1, [Opened(0, c)]),
                         map[1 := c], map[1 := Announced], map[], {}, map[], map[], 0)
    ensures CanRun(s, [LookUpConn(c), CloseFound(0)]) && Careful(s, [LookUpConn(c), CloseFound(0)])
    ensures Run(s, [LookUpConn(c), CloseFound(0)]) == FirstErased(c)
  {
    var s1 := s.(closers := map[0 := 1], asked := 1);
    assert Next(s, LookUpConn(c)) == s1;
    assert map[1 := c] - {1} == map[] && s1.closers - {0} == map[];
    assert Next(s1, CloseFound(0)) == FirstErased(c);
    CarefulOne(s1, CloseFound(0), []);
    CarefulOne(s, LookUpConn(c), [CloseFound(0)]);
  }

  lemma FirstHalf(c: Conn)
    ensures CanRun(START, OverlapFirst(c)) && Careful(START, OverlapFirst(c))
    ensures Run(START, OverlapFirst(c)) == FirstErased(c)
  {
    var open := OpenSection(1);
    var s1 := System(Maps(map[1 := c], map[], map[], map[1 := 0], 1, []),
                     map[1 := c], map[1 := HasActive], map[], {}, map[], map[], 0);
    var s2 := s1.(maps := s1.maps.(connToFd := map[c := 1]), opening := map[1 := HasConn]);
    var s3 := s2.(maps := s2.maps.(sendQueues := map[1 := []]), opening := map[1 := HasQueue]);
    var s4 := s3.(maps := s3.maps.(notes := [Opened(0, c)]), opening := map[1 := Announced]);
    assert Next(START, ActivateSection(1, c)) == s1;
    assert Next(s1, open) == s2 && Next(s2, open) == s3 && Next(s3, open) == s4;
    ErasesFirst(c, s4);
    CarefulOne(s3, open, [LookUpConn(c), CloseFound(0)]);
    CarefulOne(s2, open, [open, LookUpConn(c), CloseFound(0)]);
    CarefulOne(s1, open, [open, open, LookUpConn(c), CloseFound(0)]);
    CarefulOne(START, ActivateSection(1, c), [open, open, open, LookUpConn(c), CloseFound(0)]);
  }

  // The second session, in activeConns and connToFd but for the first one's entry; the first
  // session's connection and queue are erased.
  function SecondMapped(c: Conn): System
  {
    System(Maps(map[2 := c], map[], map[], map[1 := 0, 2 := 1], 2, [Opened(0, c)]),
           map[1 := c, 2 := c], map[1 := Announced, 2 := HasConn], map[1 := LostQueue], {}, map[], map[], 1)
  }

  lemma SecondArrives(c: Conn)
    ensures var steps := [ActivateSection(2, c), OpenSection(2), FinishSection(1), FinishSection(1)];
            CanRun(FirstErased(c), steps) && Careful(FirstErased(c), steps) && Run(FirstErased(c), steps) == SecondMapped(c)
  {
    var open, finish := OpenSection(2), FinishSection(1);
    var s1 := System(Maps(map[2 := c], map[c := 1], map[1 := []], map[1 := 0, 2 := 1], 2, [Opened(0, c)]),
                     map[1 := c, 2 := c], map[1 := Announced, 2 := HasActive], map[1 := LostActive], {}, map[], map[], 1);
    var s2 := s1.(opening := map[1 := Announced, 2 := HasConn]);
    var s3 := s2.(maps := s2.maps.(connToFd := map[]), closing := map[1 := LostConn]);
    assert Next(FirstErased(c), ActivateSection(2, c)) == s1;
    assert Next(s1, open) == s2;
    assert map[c := 1] - {c} == map[];
    assert Next(s2, finish) == s3;
    assert s3.maps.sendQueues - {1} == map[];
    assert Next(s3, finish) == SecondMapped(c);
    CarefulOne(s3, finish, []);
    CarefulOne(s2, finish, [finish]);
    CarefulOne(s1, open, [finish, finish]);
    CarefulOne(FirstErased(c), ActivateSection(2, c), [open, finish, finish]);
  }

  lemma SecondStays(c: Conn)
    ensures var steps := [OpenSection(2), OpenSection(2), FinishSection(1)];
            CanRun(SecondMapped(c), steps) && Careful(SecondMapped(c), steps)
            && var u := Run(SecondMapped(c), steps);
            Quiescent(u) && u.maps.notes == [Opened(0, c), Opened(1, c), Closed(0, c)]
            && u.maps.activeConns == map[2 := c] && u.maps.connToFd == map[]
  {
  }

  lemma SecondHalf(c: Conn)
    ensures CanRun(FirstErased(c), OverlapSecond(c)) && Careful(FirstErased(c), OverlapSecond(c))
    ensures var u := Run(FirstErased(c), OverlapSecond(c));
            Quiescent(u) && u.maps.notes == [Opened(0, c), Opened(1, c), Closed(0, c)]
            && u.maps.activeConns == map[2 := c] && u.maps.connToFd == map[]
  {
    var arrives := [ActivateSection(2, c), OpenSection(2), FinishSection(1), FinishSection(1)];
    var stays := [OpenSection(2), OpenSection(2), FinishSection(1)];
    SecondArrives(c);
    SecondStays(c);
    assert OverlapSecond(c) == arrives + stays;
    CarefulConcat(FirstErased(c), arrives, stays);
    RunConcat(FirstErased(c), arrives, stays);
  }

  lemma OpenedTwice(c: Conn)
    ensures !Alternating([Opened(0, c), Opened(1, c), Closed(0, c)])
  {
  }

  // A session set up after another one of the same connection left activeConns, but before its
  // CloseFD erased the connection and told about it: sessions are closed only once announced
  // and never set up beside an active one, yet two openings are announced in a row, and the
  // second session ends up active without an entry in connToFd.
  lemma OverlapBreaksAlternation(c: Conn)
    ensures CanRun(START, OverlapSteps(c)) && Careful(START, OverlapSteps(c))
    ensures var u := Run(START, OverlapSteps(c));
            Quiescent(u) && !Alternating(u.maps.notes) && !AllSingle(START, OverlapSteps(c))
            && u.maps.notes == [Opened(0, c), Opened(1, c), Closed(0, c)]
            && u.maps.activeConns == map[2 := c] && u.maps.connToFd == map[]
  {
    FirstHalf(c);
    SecondHalf(c);
    RunConcat(START, OverlapFirst(c), OverlapSecond(c));
    CarefulConcat(START, OverlapFirst(c), OverlapSecond(c));
    OpenedTwice(c);
    CarefulIsPatient(START, OverlapSteps(c));
    PatientNotesAlternateIff(OverlapSteps(c));
  }
}

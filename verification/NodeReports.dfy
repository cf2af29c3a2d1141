// The lines a node logs are the notifications of its two managers: when they make a
// well-formed log.
module NodeReports {
  import opened Trace
  import opened WellFormedTraces
  import D = Discovery
  import S = Sessions
  import SN = SessionNotes

  // A line of a node's own log.
  datatype Note = Sight(sight: D.Note) | Session(session: S.Note)
  datatype Report = Report(time: int, note: Note)

  // Peers by their node numbers.
  function EventOf(me: Node, r: Report): Event
  {
    match r.note
    case Sight(Found(peer)) => Event(r.time, me, Saw, peer)
    case Sight(Lost(peer)) => Event(r.time, me, LostSight, peer)
    case Session(Opened(_, c)) => Event(r.time, me, Open(Direction(c.dir)), c.peer)
    case Session(Closed(_, c)) => Event(r.time, me, Close(Direction(c.dir)), c.peer)
  }

  function Direction(dir: S.LinkDirection): LinkDirection
  {
    if dir.INCOMING? then INCOMING else OUTGOING
  }

  function TraceOf(me: Node, reports: seq<Report>): seq<Event>
  {
    if reports == [] then []
    else TraceOf(me, reports[..|reports| - 1]) + [EventOf(me, reports[|reports| - 1])]
  }

  function Sights(reports: seq<Report>): seq<D.Note>
  {
    if reports == [] then []
    else
      var front, last := Sights(reports[..|reports| - 1]), reports[|reports| - 1].note;
      if last.Sight? then front + [last.sight] else front
  }

  function SessionNotes(reports: seq<Report>): seq<S.Note>
  {
    if reports == [] then []
    else
      var front, last := SessionNotes(reports[..|reports| - 1]), reports[|reports| - 1].note;
      if last.Session? then front + [last.session] else front
  }

  /* Session notifications. */

  predicate NotesAboutOthers(me: Node, notes: seq<S.Note>)
  {
    forall i :: 0 <= i < |notes| ==> notes[i].conn.peer != me
  }

  // For every connection the notes are Opened, Closed, Opened, ... and none is with the node
  // itself.
  predicate ProperNotes(me: Node, notes: seq<S.Note>)
  {
    SN.Alternating(notes) && NotesAboutOthers(me, notes)
  }

  lemma NotesSnoc(me: Node, notes: seq<S.Note>, n: S.Note, c: S.Conn)
    ensures SN.NotedOpen(notes + [n], c) <==> if n.conn == c then n.Opened? else SN.NotedOpen(notes, c)
    ensures ProperNotes(me, notes + [n])
            <==> ProperNotes(me, notes) && n.conn.peer != me && (n.Opened? <==> !SN.NotedOpen(notes, n.conn))
  {
  }

  /* The log is well-formed when both kinds of notifications are. */

  predicate NeverAbout(me: Node, sights: seq<D.Note>)
  {
    forall i :: 0 <= i < |sights| ==> sights[i].peer != me
  }

  ghost predicate ProperSights(me: Node, sights: seq<D.Note>)
  {
    NeverAbout(me, sights) && D.AllAlternate(sights)
  }

  lemma SightsSnoc(me: Node, sights: seq<D.Note>, n: D.Note)
    ensures ProperSights(me, sights + [n])
            <==> ProperSights(me, sights) && n.peer != me && (n.Found? <==> !D.LastIsFound(sights, n.peer))
  {
    assert (sights + [n])[|sights|] == n;
    assert forall i :: 0 <= i < |sights| ==> (sights + [n])[i] == sights[i];
    forall p ensures D.Alternates(sights + [n], p)
                     <==> D.Alternates(sights, p) && (n.peer == p ==> (n.Found? <==> !D.LastIsFound(sights, p)))
    {
      D.NoteEffect(sights, n, p);
    }
  }

  lemma {:induction false} ReportsSeen(me: Node, reports: seq<Report>, c: S.Conn)
    ensures Sees(TraceOf(me, reports), me, c.peer) <==> D.LastIsFound(Sights(reports), c.peer)
    ensures IsOpen(TraceOf(me, reports), me, Direction(c.dir), c.peer) <==> SN.NotedOpen(SessionNotes(reports), c)
  {
    if reports == [] {
    } else {
      var front, last := reports[..|reports| - 1], reports[|reports| - 1];
      ReportsSeen(me, front, c);
      assert Front(TraceOf(me, reports)) == TraceOf(me, front);
      match last.note
      case Sight(n) => D.NoteEffect(Sights(front), n, c.peer);
      case Session(n) => NotesSnoc(me, SessionNotes(front), n, c);
    }
  }

  lemma {:induction false} WellFormedByKind(me: Node, reports: seq<Report>)
    ensures WellFormed(TraceOf(me, reports)) <==> ProperSights(me, Sights(reports)) && ProperNotes(me, SessionNotes(reports))
  {
    if reports == [] {
    } else {
      var front, last := reports[..|reports| - 1], reports[|reports| - 1];
      WellFormedByKind(me, front);
      assert Front(TraceOf(me, reports)) == TraceOf(me, front);
      match last.note
      case Sight(n) =>
        SightsSnoc(me, Sights(front), n);
        ReportsSeen(me, front, S.Conn(n.peer, S.INCOMING));
      case Session(n) =>
        NotesSnoc(me, SessionNotes(front), n, n.conn);
        ReportsSeen(me, front, n.conn);
    }
  }

  /* Sessions with other nodes. */

  // No opening or closing of a session with the node itself is announced.
  predicate TellsOfOthers(me: Node, s: S.System, steps: seq<S.Step>)
    requires S.CanRun(s, steps)
    decreases |steps|
  {
    steps == []
    || ((SN.NoteOf(s, steps[0]).Some? ==> SN.NoteOf(s, steps[0]).value.conn.peer != me)
        && TellsOfOthers(me, S.Next(s, steps[0]), steps[1..]))
  }

  lemma {:induction false} AboutOthersIff(me: Node, s: S.System, steps: seq<S.Step>)
    requires S.CanRun(s, steps)
    ensures NotesAboutOthers(me, S.Run(s, steps).maps.notes)
            <==> NotesAboutOthers(me, s.maps.notes) && TellsOfOthers(me, s, steps)
    decreases |steps|
  {
    if steps == [] {
    } else {
      SN.StepNotes(s, steps[0]);
      var note, notes := SN.NoteOf(s, steps[0]), s.maps.notes;
      if note.Some? {
        assert (notes + [note.value])[|notes|] == note.value;
        assert forall i :: 0 <= i < |notes| ==> (notes + [note.value])[i] == notes[i];
      }
      AboutOthersIff(me, S.Next(s, steps[0]), steps[1..]);
    }
  }

  // Sessions are set up with other nodes only.
  predicate WithOthers(me: Node, steps: seq<S.Step>)
  {
    forall i :: 0 <= i < |steps| && steps[i].ActivateSection? ==> steps[i].conn.peer != me
  }

  lemma {:induction false} WithOthersTells(me: Node, s: S.System, steps: seq<S.Step>)
    requires S.CanRun(s, steps) && WithOthers(me, steps) && forall fd :: fd in s.conn ==> s.conn[fd].peer != me
    ensures TellsOfOthers(me, s, steps)
    decreases |steps|
  {
    if steps == [] {
    } else {
      assert steps[0].ActivateSection? ==> steps[0].conn.peer != me;
      assert forall i :: 0 <= i < |steps| - 1 ==> steps[1..][i] == steps[i + 1];
      WithOthersTells(me, S.Next(s, steps[0]), steps[1..]);
    }
  }

  /* A node never sights itself. */

  ghost predicate OthersOnly(t: D.Tables)
  {
    D.Inv(t) && NeverAbout(t.self, t.notes) && forall name :: name in t.ifToPeer ==> t.ifToPeer[name] != t.self
  }

  lemma StepKeepsOthers(s: D.System, step: D.Step)
    requires OthersOnly(s.tables) && D.Enabled(s, step)
    ensures OthersOnly(D.Next(s, step).tables)
  {
    D.StepKeepsInv(s, step);
  }

  lemma {:induction false} RunKeepsOthers(s: D.System, steps: seq<D.Step>)
    requires OthersOnly(s.tables) && D.CanRun(s, steps)
    ensures OthersOnly(D.Run(s, steps).tables) && D.Run(s, steps).tables.self == s.tables.self
    decreases |steps|
  {
    if steps == [] {
    } else {
      StepKeepsOthers(s, steps[0]);
      D.StepKeepsInv(s, steps[0]);
      RunKeepsOthers(D.Next(s, steps[0]), steps[1..]);
    }
  }

  /* Main results. */

  // The reports of a node are the notifications of a run of its discovery and of a run of the
  // sections of its session operations, however these alternate in the log.
  predicate Reports(me: Node, reports: seq<Report>, steps: seq<D.Step>, sections: seq<S.Step>)
  {
    && D.CanRun(D.Start(me), steps) && Sights(reports) == D.Run(D.Start(me), steps).tables.notes
    && S.CanRun(S.START, sections) && SessionNotes(reports) == S.Run(S.START, sections).maps.notes
  }

  // The log a node leaves is well-formed if and only if its discovery reports only announced
  // peers lost, the announcements about its sessions are orderly, and none is with the node
  // itself.
  lemma NodeLogWellFormedIff(me: Node, reports: seq<Report>, steps: seq<D.Step>, sections: seq<S.Step>)
    requires Reports(me, reports, steps, sections)
    ensures WellFormed(TraceOf(me, reports))
            <==> D.LossesAnnounced(D.Start(me), steps, {}) && SN.AllOrderly(S.START, sections)
                 && TellsOfOthers(me, S.START, sections)
  {
    WellFormedByKind(me, reports);
    RunKeepsOthers(D.Start(me), steps);
    assert NeverAbout(me, Sights(reports));
    D.FoundLostAlternateIff(me, steps);
    SN.NotesAlternateIff(sections);
    AboutOthersIff(me, S.START, sections);
  }

  // Sessions are closed only once announced, and announced only when no session of the same
  // connection is announced and not yet told closed.
  predicate SingleSessions(me: Node, sections: seq<S.Step>)
  {
    S.CanRun(S.START, sections) && WithOthers(me, sections) && SN.Patient(S.START, sections)
    && SN.AllSingle(S.START, sections)
  }

  // A node that hears of its peers by broadcast only, keeps its interfaces and has single
  // sessions leaves a well-formed log.
  lemma PoliteNodeLogWellFormed(me: Node, reports: seq<Report>, steps: seq<D.Step>, sections: seq<S.Step>)
    requires Reports(me, reports, steps, sections)
    requires D.AllPolite(D.Start(me), steps) && SingleSessions(me, sections)
    ensures WellFormed(TraceOf(me, reports))
  {
    D.NeighbourEventsAlternateIff(me, steps);
    DisciplinedAtEnd(D.Start(me), steps);
    D.FoundLostAlternateIff(me, steps);
    SN.OrderlyIffSingle(S.START, sections);
    WithOthersTells(me, S.START, sections);
    NodeLogWellFormedIff(me, reports, steps, sections);
  }

  // Sessions closed only once announced and never set up beside an active one do not suffice:
  // the log is ill-formed when a session is set up while the closing of the one before is not
  // yet told.
  lemma OverlapLeavesIllFormedLog(me: Node, peer: Node, reports: seq<Report>)
    requires peer != me && Reports(me, reports, [], SN.OverlapSteps(S.Conn(peer, S.OUTGOING)))
    ensures SN.Careful(S.START, SN.OverlapSteps(S.Conn(peer, S.OUTGOING)))
    ensures !WellFormed(TraceOf(me, reports))
  {
    SN.OverlapBreaksAlternation(S.Conn(peer, S.OUTGOING));
    WellFormedByKind(me, reports);
  }

  lemma {:induction false} DisciplinedAtEnd(s: D.System, steps: seq<D.Step>)
    requires D.CanRun(s, steps) && D.AlwaysDisciplined(s, steps)
    ensures D.Disciplined(D.Run(s, steps).tables)
    decreases |steps|
  {
    if steps == [] {
    } else {
      DisciplinedAtEnd(D.Next(s, steps[0]), steps[1..]);
    }
  }
}

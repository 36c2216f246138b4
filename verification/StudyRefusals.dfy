/** Events that are refused, interrupted or stale, and all that they change. */
module StudyRefusals {
  import opened Wrappers
  import opened SessionQuota
  import opened StudySession
  import opened StudySafety
  import opened StudyScreen

  /******* Refused events *******/

  /** An event that is turned away before its gate. */
  predicate TurnedAway(w: World, e: Event) {
    match e
    case Starting(c) => c.blocked
    case Grading(c) => c.throttled && !(w.mem.Some? && w.mem.value.date != Some(c.tapDay))
    case Revealing(_) => false
    case Deleting(_) => false
    case Restart => false
    case Midnight(_) => true
  }

  function GateOf(e: Event): GateChoice
    requires !e.Restart? && !e.Midnight?
  {
    match e
    case Starting(c) => c.gate
    case Grading(c) => c.gate
    case Revealing(c) => c.gate
    case Deleting(c) => c.gate
  }

  /** An event that is refused after its gate: a start over the limit, a resume that
      cannot be announced, a tap that is late, failed, on another card or cannot be
      checked, a reveal or a delete that does not apply. */
  predicate Refused(w: World, e: Event) {
    match e
    case Starting(c) =>
      !c.blocked &&
      if LiveSession(w, c.gate).Some? then !c.resume.notifyOk
      else !c.bypass && !(c.consumeOk && Used(w.used, c.slotDay) < c.limit)
    case Grading(c) =>
      !c.throttled && !(w.mem.Some? && w.mem.value.date != Some(c.tapDay)) && TapRefused(w, c)
    case Revealing(c) => LiveSession(w, c.gate).None? || !Reveals(w, LiveSession(w, c.gate).value, c)
    case Deleting(c) => LiveSession(w, c.gate).None? || !Deletes(LiveSession(w, c.gate).value, c)
    case Restart => false
    case Midnight(_) => false
  }

  predicate TapRefused(w: World, c: GradeChoice) {
    match LiveSession(w, c.gate)
    case Some(s) =>
      !HeadIs(s, c.word, c.activity) ||
      if c.word in s.graded || (c.ledgerOk && (c.word, c.activity) in w.ledger) then !c.notifyOk
      else !c.ledgerOk || !c.result.Graded?
    case None =>
      !c.ledgerOk || ((c.word, c.activity) in w.ledger && !GateWipes(w, c.gate)) ||
      (!c.result.Graded? && !(c.snapshotOk && PersistedStale(w.row, c.snapshotDay)))
  }

  predicate Deletes(s: Session, c: DeleteChoice) {
    s.nodes != [] && s.nodes[0].word == c.word && s.msgId.Some? && c.dbOk
  }

  /** A refused event changes nothing beyond what its gate does: no session is begun or
      moved on, nothing is shown, saved, graded or charged. */
  lemma RefusedEventChangesNothing(w: World, e: Event)
    requires Inv(w)
    ensures TurnedAway(w, e) ==> Handle(w, e) == w
    ensures Refused(w, e) ==> Handle(w, e) == AfterGate(w, GateOf(e))
  {
    match e
    case Starting(c) => GateAnswers(w, c.gate);
    case Grading(c) => GateAnswers(w, c.gate);
    case Revealing(c) => GateAnswers(w, c.gate);
    case Deleting(c) => GateAnswers(w, c.gate);
    case Restart =>
    case Midnight(_) =>
  }

  /******* Interrupted events *******/

  /** A grade whose save or answer fails is recorded and noted, and goes no further: the
      session stays at its head, and the row is the noted session or the old one. */
  lemma InterruptedGradeStays(w: World, s: Session, c: GradeChoice)
    requires w.mem == Some(s) && HeadIs(s, c.word, c.activity) && c.ledgerOk && c.result.Graded?
    requires c.word !in s.graded && (c.word, c.activity) !in w.ledger && !(c.persistOk && c.notifyOk)
    ensures var v := GradeInSession(w, s, c);
      && v.mem == Some(s.(graded := s.graded + [c.word])) && v.views == w.views
      && v.ledger == w.ledger + {(c.word, c.activity)} && |v.events| == |w.events| + 1
      && v.row == if c.persistOk then
          Some(Row(PersistDay(s.date, s, c.gate.restoreDay), Encoded(v.mem.value)))
        else w.row
  {
  }

  /** So does a delete: the session keeps its head, with at most the first unlisted due
      card behind its last, and nothing is shown. */
  lemma InterruptedDeleteStays(w: World, c: DeleteChoice)
    requires LiveSession(w, c.gate).Some? && Deletes(LiveSession(w, c.gate).value, c)
    requires !(c.persistOk && c.notifyOk)
    ensures var (s, v) := (LiveSession(w, c.gate).value, DeleteTap(w, c));
      && v.mem.Some? && v.mem.value == s.(nodes := v.mem.value.nodes) && s.nodes <= v.mem.value.nodes
      && (v.mem.value.nodes != s.nodes ==> exists i: nat ::
            FirstUnlisted(s.nodes, c.due, i) && v.mem.value.nodes == s.nodes + [c.due[i]])
      && (v.mem.value.nodes == s.nodes ==> forall n <- c.due :: Listed(s.nodes, n.word))
      && v.views == w.views && v.events == w.events && v.ledger == AfterGate(w, c.gate).ledger
      && v.row == if c.persistOk then
          Some(Row(PersistDay(s.date, s, c.gate.restoreDay), Encoded(v.mem.value)))
        else w.row
  {
    GateAnswers(w, c.gate);
    var s := LiveSession(w, c.gate).value;
    if NextDue(s.nodes, c.due).Some? {
      var i := FirstUnlistedExists(s.nodes, c.due);
      NextDueIsFirst(s.nodes, c.due, i);
    }
  }

  /** A tap on the head card that is answered leaves its word noted once, in whatever
      session it leaves in memory, whether it graded the card or found it graded. */
  lemma TappedWordIsNoted(w: World, s: Session, c: GradeChoice)
    requires w.mem == Some(s) && HeadIs(s, c.word, c.activity)
    requires c.ledgerOk && c.result.Graded? && c.notifyOk
    ensures var v := GradeInSession(w, s, c);
      v.mem.Some? ==> v.mem.value.graded == if c.word in s.graded then s.graded else s.graded + [c.word]
  {
    AdvanceKeepsNotes(w.(mem := Some(s)), c.advance);
    var s1 := s.(graded := s.graded + [c.word]);
    AdvanceKeepsNotes(w.(mem := Some(s1)), c.advance);
    var w1 := RecordGrade(w, c.word, c.activity).(mem := Some(s1));
    AdvanceKeepsNotes(Persist(w1, s1, PersistDay(s1.date, s1, c.gate.restoreDay), true), c.advance);
  }

  lemma AdvanceKeepsNotes(w: World, c: AdvanceChoice)
    requires w.mem.Some? && w.mem.value.nodes != []
    ensures Advance(w, c).mem.Some? ==> Advance(w, c).mem.value.graded == w.mem.value.graded
  {
    if w.mem.value.date == Some(c.gate.today) {
      AdvanceShape(w, c);
    }
  }

  /** A tap that finds its card graded and the session empty ends the session. */
  lemma EmptySessionEnds(w: World, s: Session, c: GradeChoice)
    requires w.mem == Some(s) && s.nodes == [] && s.date == Some(c.advance.gate.today)
    requires c.word in s.graded || (c.ledgerOk && (c.word, c.activity) in w.ledger)
    requires c.notifyOk && !c.advance.edit.Transient?
    ensures var v := GradeInSession(w, s, c);
      v.mem.None? && v.row == (if c.advance.clearOk then None else w.row) && v.events == w.events
  {
  }

  /******* Stale taps *******/

  /** The tap that finds memory stale drops it, and row and ledger with it if it can. */
  lemma StaleMemoryRejects(w: World, c: GradeChoice)
    requires w.mem.Some? && w.mem.value.date != Some(c.tapDay)
    ensures GradeTap(w, c) ==
      if c.rejectOk then w.(mem := None, row := None, ledger := {}, epoch := w.epoch + 1) else w.(mem := None)
  {
  }

  /** A steady tap on yesterday's card whose discards succeed leaves nothing of it: no
      session, no row and an empty ledger, so the next start is a fresh one. */
  lemma StaleTapClears(w: World, c: GradeChoice, today: Day)
    requires SteadyTap(c, today) && OnlyStale(w, today) && !c.throttled
    requires c.rejectOk && c.ledgerOk && c.dropOk && (c.word, c.activity) !in w.ledger
    ensures var v := GradeTap(w, c);
      v.mem.None? && v.row.None? && v.ledger == {} && v.epoch > w.epoch && v.events == w.events
  {
    GateAnswers(w, c.gate);
    StaleTapNeverGrades(w, c, today);
  }
}

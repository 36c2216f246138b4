/** Safety of the study protocol over every run: what is graded, and when. */
module StudySafety {
  import opened Wrappers
  import opened SessionQuota
  import opened StudySession

  /******* The invariant *******/

  /** No (word, activity) pair has two review events in one life of the ledger, and
      the ledger holds exactly the pairs graded in its current life. */
  ghost predicate LedgerOk(w: World) {
    && (forall i, j :: 0 <= i < j < |w.events| ==> w.events[i] != w.events[j])
    && (forall e <- w.events :: e.epoch <= w.epoch)
    && (forall word, activity :: (word, activity) in w.ledger <==> ReviewEvent(word, activity, w.epoch) in w.events)
  }

  predicate SessionOk(s: Session, upTo: Day) {
    s.nodes != [] && s.date.Some? && s.date.value <= upTo
  }

  /** A persisted row is dated by the session inside it. */
  predicate RowOk(r: Row, upTo: Day) {
    r.blob.Encoded? && r.blob.state.date == Some(r.date) && SessionOk(r.blob.state, upTo)
  }

  predicate SessionsOk(w: World, upTo: Day) {
    (w.mem.Some? ==> SessionOk(w.mem.value, upTo)) && (w.row.Some? ==> RowOk(w.row.value, upTo))
  }

  ghost predicate Inv(w: World) {
    LedgerOk(w) && SessionsOk(w, w.day)
  }

  /** A user nobody has seen yet. */
  function NewUser(today: Day): (w: World)
    ensures Inv(w)
  {
    World(None, None, {}, [], 0, map[], [], [], {}, [], today)
  }

  ghost predicate Ok(w: World, upTo: Day) {
    LedgerOk(w) && SessionsOk(w, upTo)
  }

  /******* Every handler keeps it *******/

  lemma GateKeeps(w: World, c: GateChoice, upTo: Day)
    requires Ok(w, upTo)
    ensures Ok(Gate(w, c).0, upTo)
    ensures var (w1, got) := Gate(w, c);
      got.Some? ==> w1.mem == got && got.value.date == Some(c.today) && got.value.nodes != []
  {
  }

  /** The row an advance writes is dated `c.today`, read before the gate. Since no
      session is dated in the future, a session that passes the gate on a later
      reading proves that the day did not change in between. */
  lemma AdvanceKeeps(w: World, c: AdvanceChoice, upTo: Day)
    requires Ok(w, upTo) && AdvanceClock(upTo, c)
    ensures Ok(Advance(w, c), upTo)
  {
    GateKeeps(w, c.gate, upTo);
    AdvanceFrame(w, c);
    assert LedgerOk(Advance(w, c));
    AdvanceSessions(w, c, upTo);
  }

  /** After its gate an advance touches neither ledger nor events. */
  lemma AdvanceFrame(w: World, c: AdvanceChoice)
    ensures var (v, w1) := (Advance(w, c), Gate(w, c.gate).0);
      v.events == w1.events && v.ledger == w1.ledger && v.epoch == w1.epoch
  {
    var (w1, got) := Gate(w, c.gate);
    if got.Some? {
      var p := PopNext(got.value);
      if p.state.nodes != [] {
        var b := Build(p.state, w1.flipped, p.state.nodes[0], c.build);
        assert b.view.None? ==> Advance(w, c) == w1.(mem := Some(b.state), flipped := b.flipped);
      }
    }
  }

  lemma AdvanceSessions(w: World, c: AdvanceChoice, upTo: Day)
    requires SessionsOk(w, upTo) && AdvanceClock(upTo, c)
    ensures SessionsOk(Advance(w, c), upTo)
  {
    var (w1, got) := Gate(w, c.gate);
    GateSessions(w, c.gate, upTo);
    if got.Some? {
      assert Gate(w1, c.gate) == (w1, got);
      assert Advance(w, c) == Advance(w1, c);
      AdvanceShape(w1, c);
    }
  }

  lemma GateSessions(w: World, c: GateChoice, upTo: Day)
    requires SessionsOk(w, upTo)
    ensures var (w1, got) := Gate(w, c);
      SessionsOk(w1, upTo) && (got.Some? ==> w1.mem == got && got.value.date == Some(c.today))
  {
  }

  /** The build fails after the pop, or the card is shown and not saved. */
  predicate PopsUnsaved(c: AdvanceChoice) {
    !c.build.fault.NoFault? || ((c.edit.Done? || c.edit.NotModified?) && !c.persistOk)
  }

  /** What an advance does to both copies of a fresh memory session, exactly: it ends
      it, pops its head with or without saving, or leaves everything as it was. */
  lemma AdvanceShape(w: World, c: AdvanceChoice)
    requires w.mem.Some? && w.mem.value.nodes != [] && w.mem.value.date == Some(c.gate.today)
    ensures var v := Advance(w, c);
      if |w.mem.value.nodes| == 1 && !c.edit.Transient? then
        v.mem.None? && v.row == if c.clearOk then None else w.row
      else if |w.mem.value.nodes| == 1 then v.mem == w.mem && v.row == w.row
      else if !c.build.fault.NoFault? then
        v.mem.Some? && PoppedFrom(v.mem.value, w.mem.value) && v.row == w.row
      else if c.edit.Done? || c.edit.NotModified? then
        && v.mem.Some? && PoppedFrom(v.mem.value, w.mem.value)
        && v.row == if c.persistOk then Some(Row(c.today, Encoded(v.mem.value))) else w.row
      else v.mem == w.mem && v.row == w.row
  {
    var s := w.mem.value;
    var p := PopNext(s);
    assert [s.nodes[0]] + s.nodes[1..] == s.nodes;
    if p.state.nodes != [] {
      BuildFrame(p.state, w.flipped, p.state.nodes[0], c.build);
    }
  }

  /** `s` without its head, with the freeze of another card. */
  predicate PoppedFrom(s': Session, s: Session) {
    |s.nodes| > 1 && s'.nodes == s.nodes[1..] && s'.graded == s.graded && s'.date == s.date && s'.msgId == s.msgId
  }

  /** A card build writes the freeze fields only. */
  lemma BuildFrame(s: Session, flipped: set<int>, node: Node, c: BuildChoice)
    ensures var s' := Build(s, flipped, node, c).state;
      s' == s.(revealed := s'.revealed, prompt := s'.prompt, promptWord := s'.promptWord)
  {
  }

  lemma RecordKeeps(w: World, word: int, activity: Activity, upTo: Day)
    requires Ok(w, upTo) && (word, activity) !in w.ledger
    ensures Ok(RecordGrade(w, word, activity), upTo)
  {
  }

  lemma GradeTapKeeps(w: World, c: GradeChoice, upTo: Day)
    requires Ok(w, upTo) && Clock(upTo, Grading(c))
    ensures Ok(GradeTap(w, c), upTo)
  {
    var (w1, got) := Gate(w, c.gate);
    GateKeeps(w, c.gate, upTo);
    match got
    case Some(s) => GradeInSessionKeeps(w1, s, c, upTo);
    case None =>
      if (c.word, c.activity) !in w1.ledger {
        RecordKeeps(w1, c.word, c.activity, upTo);
        AdvanceKeeps(RecordGrade(w1, c.word, c.activity), c.advance, upTo);
      }
  }

  lemma GradeInSessionKeeps(w: World, s: Session, c: GradeChoice, upTo: Day)
    requires Ok(w, upTo) && w.mem == Some(s) && Clock(upTo, Grading(c))
    ensures Ok(GradeInSession(w, s, c), upTo)
  {
    var s1 := s.(graded := s.graded + [c.word]);
    AdvanceKeeps(w, c.advance, upTo);
    AdvanceKeeps(w.(mem := Some(s1)), c.advance, upTo);
    if (c.word, c.activity) !in w.ledger {
      RecordKeeps(w, c.word, c.activity, upTo);
      var w1 := RecordGrade(w, c.word, c.activity).(mem := Some(s1));
      AdvanceKeeps(Persist(w1, s1, PersistDay(s1.date, s1, c.gate.restoreDay), true), c.advance, upTo);
    }
  }

  lemma StartKeeps(w: World, c: StartChoice, upTo: Day)
    requires Ok(w, upTo) && Clock(upTo, Starting(c))
    ensures Ok(Start(w, c), c.releaseDay)
  {
    GateKeeps(w, c.gate, upTo);
    var (w1, got) := Gate(w, c.gate);
    if got.Some? {
      ResumeKeeps(w1, got.value, c.gate.restoreDay, c.resume, upTo);
    } else {
      FreshKeeps(w1, c);
      FreshKeeps(w1.(used := Consumed(w1.used, c.slotDay)), c);
    }
    var v := Start(w, c);
    assert LedgerOk(v) && (SessionsOk(v, upTo) || SessionsOk(v, c.today));
  }

  lemma ResumeKeeps(w: World, s: Session, now: Day, c: ResumeChoice, upTo: Day)
    requires Ok(w, upTo) && SessionOk(s, upTo)
    ensures Ok(Resume(w, s, now, c), upTo)
  {
    BuildFrame(s, w.flipped, s.nodes[0], c.build);
    var v := Resume(w, s, now, c);
    assert v.events == w.events && v.ledger == w.ledger && v.epoch == w.epoch;
    assert SessionsOk(v, upTo);
  }

  lemma FreshKeeps(w: World, c: StartChoice)
    requires Ok(w, c.today)
    ensures Ok(FreshBody(w, c), c.today)
  {
    FreshLedger(w, c);
    if c.nodes != [] {
      var s := Session(c.nodes, [], false, None, None, None, Some(c.today));
      BuildFrame(s, w.flipped, c.nodes[0], c.build);
    }
    assert SessionsOk(FreshBody(w, c), c.today);
  }

  lemma FreshLedger(w: World, c: StartChoice)
    requires LedgerOk(w)
    ensures LedgerOk(FreshBody(w, c))
  {
    FreshFrame(w, c);
    LedgerFrame(w, FreshBody(w, c));
  }

  lemma FreshFrame(w: World, c: StartChoice)
    ensures var v := FreshBody(w, c);
      v.events == w.events
      && ((v.ledger == w.ledger && v.epoch == w.epoch) || (v.ledger == {} && v.epoch == w.epoch + 1))
  {
  }

  /** Leaving the ledger alone or clearing it keeps it in order. */
  lemma LedgerFrame(w: World, v: World)
    requires LedgerOk(w) && v.events == w.events
    requires (v.ledger == w.ledger && v.epoch == w.epoch) || (v.ledger == {} && v.epoch == w.epoch + 1)
    ensures LedgerOk(v)
  {
  }

  lemma StepKeeps(w: World, e: Event)
    requires Inv(w) && Clock(w.day, e)
    ensures Inv(Step(w, e))
  {
    match e
    case Starting(c) => StartKeeps(w, c, w.day);
    case Grading(c) => GradeTapKeeps(w, c, w.day);
    case Revealing(c) => GateKeeps(w, c.gate, w.day);
    case Deleting(c) => DeleteKeeps(w, c, w.day);
    case Restart =>
    case Midnight(_) =>
  }

  lemma DeleteKeeps(w: World, c: DeleteChoice, upTo: Day)
    requires Ok(w, upTo) && Clock(upTo, Deleting(c))
    ensures Ok(DeleteTap(w, c), upTo)
  {
    GateKeeps(w, c.gate, upTo);
    var (w1, got) := Gate(w, c.gate);
    if got.Some? {
      var s := got.value;
      var s1 := Refilled(s, c.due);
      var w2 := Persist(w1.(mem := Some(s1)), s1, PersistDay(s1.date, s1, c.gate.restoreDay), true);
      AdvanceKeeps(w2, c.advance, upTo);
    }
  }

  lemma {:induction false} RunKeeps(w: World, es: seq<Event>)
    requires Inv(w) && Timely(w, es)
    ensures Inv(Run(w, es))
  {
    if es != [] {
      RunKeeps(w, es[..|es| - 1]);
      StepKeeps(Run(w, es[..|es| - 1]), es[|es| - 1]);
    }
  }

  /******* Graded at most once *******/

  /** Over every run of starts, taps, deletes, restarts and day changes, with any
      failing save, edit or read: between two clears of the ledger no pair is
      graded twice. */
  lemma GradedAtMostOnce(w: World, es: seq<Event>, i: nat, j: nat)
    requires Inv(w) && Timely(w, es)
    requires i < j < |Run(w, es).events|
    requires Run(w, es).events[i].epoch == Run(w, es).events[j].epoch
    ensures Run(w, es).events[i].word != Run(w, es).events[j].word
         || Run(w, es).events[i].activity != Run(w, es).events[j].activity
  {
    RunKeeps(w, es);
  }

  /** Over every run, each persisted row carries the date of the session in it. */
  lemma RowsStampedByTheirSession(w: World, es: seq<Event>)
    requires Inv(w) && Timely(w, es)
    ensures var r := Run(w, es).row;
      r.Some? ==>
        r.value.blob.Encoded? && r.value.blob.state.date == Some(r.value.date) && r.value.date <= Run(w, es).day
  {
    RunKeeps(w, es);
  }

  /******* Exactly when a tap grades *******/

  /** What the gate will answer, said without running it: the memory session if it
      is fresh, else the row if it was loaded and is fresh on both readings. */
  function LiveSession(w: World, c: GateChoice): Option<Session> {
    if w.mem.Some? then
      if w.mem.value.date == Some(c.today) then w.mem else None
    else if c.loadOk && w.row.Some? && w.row.value.date == c.restoreDay && w.row.value.blob.Encoded?
      && w.row.value.blob.state.nodes != [] && w.row.value.blob.state.date == Some(c.today) then
      Some(Decode(w.row.value.blob.state))
    else None
  }

  /** A start that finds no live session and goes on to build a fresh one. */
  predicate Reached(w: World, c: StartChoice) {
    && !c.blocked && LiveSession(w, c.gate).None?
    && (c.bypass || (c.consumeOk && CanConsume(w.used, c.slotDay, c.limit)))
  }

  /** The body of a fresh start gets as far as storing its own list. */
  predicate Writes(c: StartChoice) {
    c.nodes != [] && (c.end.RaisedSending? || c.end.NotRaised?)
  }

  /** It ends in its cleanup, which clears storage. */
  predicate Removes(c: StartChoice) {
    c.cleanupOk && (c.end.RaisedBuilding? || (c.nodes != [] && !Delivers(c)))
  }

  /** The gate wiped the ledger on its way to answering None. */
  predicate GateWipes(w: World, c: GateChoice) {
    c.invalidateOk && LiveSession(w, c).None? && (w.mem.Some? || (c.loadOk && w.row.Some?))
  }

  /** The world as the gate leaves it. */
  function AfterGate(w: World, c: GateChoice): World {
    var wiped := GateWipes(w, c);
    w.(mem := LiveSession(w, c), row := if wiped then None else w.row,
       ledger := if wiped then {} else w.ledger, epoch := w.epoch + if wiped then 1 else 0)
  }

  predicate WillGrade(w: World, c: GradeChoice) {
    && !(w.mem.Some? && w.mem.value.date != Some(c.tapDay))
    && !c.throttled && c.ledgerOk && c.result.Graded?
    && var live := LiveSession(w, c.gate);
      if live.Some? then
        && HeadIs(live.value, c.word, c.activity)
        && c.word !in live.value.graded && (c.word, c.activity) !in w.ledger
      else
        && ((c.word, c.activity) !in w.ledger || GateWipes(w, c.gate))
        && !(c.snapshotOk && PersistedStale(w.row, c.snapshotDay))
  }

  /** A tap adds a review event if and only if `WillGrade`, and then exactly the one
      tapped. With a live session that is its head card, never another. */
  lemma GradesExactlyWhen(w: World, c: GradeChoice)
    ensures |GradeTap(w, c).events| == |w.events| + 1 <==> WillGrade(w, c)
    ensures GradeTap(w, c).events ==
      if WillGrade(w, c) then
        w.events + [ReviewEvent(c.word, c.activity,
          w.epoch + if GateWipes(w, c.gate) then 1 else 0)]
      else w.events
  {
    var (w1, got) := Gate(w, c.gate);
    GateAnswers(w, c.gate);
    forall v: World ensures Advance(v, c.advance).events == v.events {
      AdvanceGradesNothing(v, c.advance);
    }
    assert w1.events == w.events;
  }

  lemma GateAnswers(w: World, c: GateChoice)
    ensures Gate(w, c) == (AfterGate(w, c), LiveSession(w, c))
    ensures Gate(w, c).1 == LiveSession(w, c) == Gate(w, c).0.mem
    ensures Gate(w, c).0.row == if GateWipes(w, c) then None else w.row
    ensures Gate(w, c).0.epoch == w.epoch + if GateWipes(w, c) then 1 else 0
    ensures Gate(w, c).0.ledger == if GateWipes(w, c) then {} else w.ledger
    ensures Gate(w, c).0.events == w.events
    ensures Gate(w, c).0.views == w.views && Gate(w, c).0.flipped == w.flipped
  {
  }

  lemma AdvanceGradesNothing(w: World, c: AdvanceChoice)
    ensures Advance(w, c).events == w.events
  {
    GateAnswers(w, c.gate);
  }

  /** A grade tapped while a session is live lands on that session's head card. */
  lemma GradeLandsOnHead(w: World, c: GradeChoice)
    requires GradeTap(w, c).events != w.events && LiveSession(w, c.gate).Some?
    ensures HeadIs(LiveSession(w, c.gate).value, c.word, c.activity)
  {
    GradesExactlyWhen(w, c);
  }

  /******* Yesterday's card *******/

  /** All readings of a tap fall on one day and its reads succeed. */
  predicate SteadyTap(c: GradeChoice, today: Day) {
    && c.tapDay == c.snapshotDay == c.gate.today == c.gate.restoreDay == today
    && c.snapshotOk && c.gate.loadOk
  }

  /** The session the tap would meet first is from another day, undated or unreadable. */
  predicate OnlyStale(w: World, today: Day) {
    if w.mem.Some? then IsStale(w.mem.value, today) else PersistedStale(w.row, today)
  }

  /** A steady tap never grades onto a stale session, and leaves none in memory. */
  lemma StaleTapNeverGrades(w: World, c: GradeChoice, today: Day)
    requires SteadyTap(c, today) && OnlyStale(w, today)
    ensures GradeTap(w, c).events == w.events && GradeTap(w, c).mem.None?
  {
    GradesExactlyWhen(w, c);
  }

  /** Steadiness is needed, first half: if the snapshot read fails, the gate discards
      yesterday's row and its ledger and the tap is graded as sessionless. */
  lemma FailedSnapshotGradesStaleTap(w: World, c: GradeChoice, today: Day)
    requires w.mem.None? && w.row.Some? && PersistedStale(w.row, today)
    requires c.tapDay == c.snapshotDay == c.gate.today == c.gate.restoreDay == today
    requires !c.snapshotOk && c.gate.loadOk && c.gate.invalidateOk
    requires !c.throttled && c.ledgerOk && c.result.Graded?
    ensures |GradeTap(w, c).events| == |w.events| + 1
  {
    GradesExactlyWhen(w, c);
  }

  /** Second half: a fresh row read just before midnight and discarded by the gate
      just after it. The word may already be graded: its ledger entry went as well. */
  lemma MidnightGradesStaleTap(w: World, c: GradeChoice)
    requires w.mem.None? && w.row.Some? && RowOk(w.row.value, c.snapshotDay) && w.row.value.date == c.snapshotDay
    requires c.snapshotDay < c.gate.today <= c.gate.restoreDay
    requires c.gate.loadOk && c.gate.invalidateOk && !c.throttled && c.ledgerOk && c.result.Graded?
    ensures |GradeTap(w, c).events| == |w.events| + 1
  {
    GradesExactlyWhen(w, c);
  }

  /** A word graded earlier in a session and dealt again by a refill is never graded
      there: its tap counts as a duplicate, whatever the ledger says. */
  lemma RefilledWordIsSkipped(w: World, c: GradeChoice)
    requires LiveSession(w, c.gate).Some? && c.word in LiveSession(w, c.gate).value.graded
    ensures GradeTap(w, c).events == w.events
  {
    GradesExactlyWhen(w, c);
  }

  /** With such a word at the head, a tap in which nothing fails shows the next card and
      saves: the dealt card leaves memory and storage without a review event. */
  lemma RefilledHeadLeavesUngraded(w: World, c: GradeChoice)
    requires LiveSession(w, c.gate).Some?
    requires var s := LiveSession(w, c.gate).value;
      HeadIs(s, c.word, c.activity) && c.word in s.graded && |s.nodes| > 1
    requires (w.mem.Some? ==> w.mem.value.date == Some(c.tapDay)) && !c.throttled && c.notifyOk
    requires c.advance.gate.today == c.gate.today && c.advance.build.fault.NoFault?
    requires (c.advance.edit.Done? || c.advance.edit.NotModified?) && c.advance.persistOk
    ensures var (s, v) := (LiveSession(w, c.gate).value, GradeTap(w, c));
      && v.events == w.events && v.ledger == w.ledger
      && v.mem.Some? && v.mem.value.nodes == s.nodes[1..]
      && v.row == Some(Row(c.advance.today, Encoded(v.mem.value)))
  {
    RefilledWordIsSkipped(w, c);
    GateAnswers(w, c.gate);
    var (w1, got) := Gate(w, c.gate);
    var s := got.value;
    assert GradeTap(w, c) == GradeInSession(w1, s, c) == RepeatedGrade(w1, s, c);
    assert Gate(w1, c.advance.gate) == (w1, Some(s));
    BuildFrame(PopNext(s).state, w1.flipped, s.nodes[1], c.advance.build);
  }

  /** Candidate number `i` is the first whose word is not among the session's cards. */
  predicate FirstUnlisted(nodes: seq<Node>, due: seq<Node>, i: nat) {
    i < |due| && !Listed(nodes, due[i].word) && forall j :: 0 <= j < i ==> Listed(nodes, due[j].word)
  }

  lemma {:induction false} NextDueIsFirst(nodes: seq<Node>, due: seq<Node>, i: nat)
    requires FirstUnlisted(nodes, due, i)
    ensures NextDue(nodes, due) == Some(due[i])
  {
    if i > 0 {
      assert forall j :: 0 <= j < i - 1 ==> due[1..][j] == due[j + 1];
      NextDueIsFirst(nodes, due[1..], i - 1);
    }
  }

  lemma {:induction false} FirstUnlistedExists(nodes: seq<Node>, due: seq<Node>) returns (i: nat)
    requires NextDue(nodes, due).Some?
    ensures FirstUnlisted(nodes, due, i)
  {
    i := 0;
    if Listed(nodes, due[0].word) {
      var k := FirstUnlistedExists(nodes, due[1..]);
      i := k + 1;
      assert due[i] == due[1..][k] && forall j :: 0 < j < i ==> due[j] == due[1..][j - 1];
    }
  }

  /** Which graded words a refill deals again: those of a due word that comes before every
      other due word missing from the session. Nothing excludes a word the session graded
      and popped. */
  lemma RefillDealsGradedExactlyWhen(s: Session, due: seq<Node>)
    ensures (exists n :: Refilled(s, due).nodes == s.nodes + [n] && n.word in s.graded) <==>
      exists i: nat :: FirstUnlisted(s.nodes, due, i) && due[i].word in s.graded
  {
    if NextDue(s.nodes, due).Some? {
      var i := FirstUnlistedExists(s.nodes, due);
      NextDueIsFirst(s.nodes, due, i);
      assert Refilled(s, due).nodes == s.nodes + [due[i]];
      forall n | s.nodes + [n] == s.nodes + [due[i]] ensures n == due[i] {
        assert (s.nodes + [n])[|s.nodes|] == n;
      }
      forall k: nat | FirstUnlisted(s.nodes, due, k) ensures k == i {
        NextDueIsFirst(s.nodes, due, k);
      }
    } else {
      assert forall i: nat :: i < |due| ==> due[i] in due;
      assert forall n :: |s.nodes + [n]| == |s.nodes| + 1;
    }
  }

  /** A delete in which nothing fails drops the head and appends the first due card whose
      word is not among the session's cards, graded before or not, in memory and storage. */
  lemma DeleteDealsNextDue(w: World, c: DeleteChoice, i: nat)
    requires LiveSession(w, c.gate).Some?
    requires var s := LiveSession(w, c.gate).value;
      && s.nodes != [] && s.nodes[0].word == c.word && s.msgId.Some? && FirstUnlisted(s.nodes, c.due, i)
    requires c.dbOk && c.persistOk && c.notifyOk && c.advance.gate.today == c.gate.today
    requires c.advance.build.fault.NoFault? && c.advance.edit.Done? && c.advance.persistOk
    ensures var (s, v) := (LiveSession(w, c.gate).value, DeleteTap(w, c));
      && v.mem.Some? && v.mem.value.nodes == s.nodes[1..] + [c.due[i]] && v.mem.value.graded == s.graded
      && v.row == Some(Row(c.advance.today, Encoded(v.mem.value))) && v.events == w.events
  {
    GateAnswers(w, c.gate);
    var (w1, got) := Gate(w, c.gate);
    var s := got.value;
    NextDueIsFirst(s.nodes, c.due, i);
    var s1 := s.(nodes := s.nodes + [c.due[i]]);
    assert Refilled(s, c.due) == s1;
    var w2 := Persist(w1.(mem := Some(s1)), s1, PersistDay(s1.date, s1, c.gate.restoreDay), true);
    assert DeleteTap(w, c) == Advance(w2, c.advance);
    assert Gate(w2, c.advance.gate) == (w2, Some(s1));
    assert s1.nodes[1..] == s.nodes[1..] + [c.due[i]];
    AdvanceShape(w2, c.advance);
    AdvanceFrame(w2, c.advance);
  }

  /** With no such card the session only gets shorter, and ends with its last card. */
  lemma DeleteWithoutDue(w: World, c: DeleteChoice)
    requires LiveSession(w, c.gate).Some?
    requires var s := LiveSession(w, c.gate).value;
      && s.nodes != [] && s.nodes[0].word == c.word && s.msgId.Some?
      && forall n <- c.due :: Listed(s.nodes, n.word)
    requires c.dbOk && c.persistOk && c.notifyOk && c.advance.gate.today == c.gate.today
    requires c.advance.build.fault.NoFault? && c.advance.edit.Done? && c.advance.persistOk && c.advance.clearOk
    ensures var (s, v) := (LiveSession(w, c.gate).value, DeleteTap(w, c));
      if |s.nodes| == 1 then v.mem.None? && v.row.None?
      else v.mem.Some? && v.mem.value.nodes == s.nodes[1..] && v.row == Some(Row(c.advance.today, Encoded(v.mem.value)))
  {
    GateAnswers(w, c.gate);
    var (w1, got) := Gate(w, c.gate);
    var s := got.value;
    var w2 := Persist(w1.(mem := Some(s)), s, PersistDay(s.date, s, c.gate.restoreDay), true);
    assert Refilled(s, c.due) == s && DeleteTap(w, c) == Advance(w2, c.advance);
    AdvanceShape(w2, c.advance);
  }

  /** So a graded word that is first in line is in the session again, noted as graded. */
  lemma DeleteDealsGradedWord(w: World, c: DeleteChoice, i: nat)
    requires LiveSession(w, c.gate).Some?
    requires var s := LiveSession(w, c.gate).value;
      && s.nodes != [] && s.nodes[0].word == c.word && s.msgId.Some?
      && FirstUnlisted(s.nodes, c.due, i) && c.due[i].word in s.graded
    requires c.dbOk && c.persistOk && c.notifyOk && c.advance.gate.today == c.gate.today
    requires c.advance.build.fault.NoFault? && c.advance.edit.Done? && c.advance.persistOk
    ensures var (s, v) := (LiveSession(w, c.gate).value, DeleteTap(w, c));
      && v.mem.Some? && v.mem.value.nodes == s.nodes[1..] + [c.due[i]]
      && c.due[i].word in v.mem.value.graded
      && v.row == Some(Row(c.advance.today, Encoded(v.mem.value)))
  {
    DeleteDealsNextDue(w, c, i);
  }

  /******* The stored form *******/

  /** A session comes back from storage as it went in if and only if its freeze is whole:
      a known prompt, a word only with a prompt, a reveal only with both. */
  lemma StoredFormExactlyWhen(s: Session)
    ensures Decode(s) == s <==>
      && (s.prompt.Some? ==>
            s.prompt.value in {"standard", "fill_blank", "meaning", "synonym", "direct_translate"})
      && (s.promptWord.Some? ==> s.prompt.Some?) && (s.revealed ==> s.promptWord.Some?)
    ensures Decode(Decode(s)) == Decode(s)
    ensures Decode(s).nodes == s.nodes && Decode(s).graded == s.graded && Decode(s).date == s.date
    ensures Decode(s).msgId == s.msgId
  {
  }
}

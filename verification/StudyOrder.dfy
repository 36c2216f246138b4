/** Recovery of the study protocol: memory never runs ahead of the ledger, a failed
    edit undoes its advance exactly, and a session grades its cards in order, each
    once, until all are graded. */
module StudyOrder {
  import opened Wrappers
  import opened SessionQuota
  import opened StudySession
  import opened StudySafety

  /******* Exact rollback *******/

  /** An advance whose edit fails (the last card's report: transiently) leaves the
      session it found, nodes and freeze fields included, and the stored row alone. */
  lemma FailedEditRestoresSession(w: World, c: AdvanceChoice)
    requires LiveSession(w, c.gate).Some? && c.build.fault.NoFault?
    requires c.edit.Transient? || (c.edit.Permanent? && |LiveSession(w, c.gate).value.nodes| > 1)
    requires LiveSession(w, c.gate).value.nodes != []
    ensures Advance(w, c).mem == LiveSession(w, c.gate) && Advance(w, c).row == w.row
  {
    GateAnswers(w, c.gate);
    var (w1, got) := Gate(w, c.gate);
    var p := PopNext(got.value);
    if p.state.nodes != [] {
      BuildFrame(p.state, w1.flipped, p.state.nodes[0], c.build);
    }
    assert [got.value.nodes[0]] + got.value.nodes[1..] == got.value.nodes;
  }

  /******* Memory is a suffix of storage *******/

  predicate SuffixOf(s: Session, stored: Session) {
    && s.date == stored.date && |s.nodes| <= |stored.nodes|
    && s.nodes == stored.nodes[|stored.nodes| - |s.nodes|..]
    && forall i :: 0 <= i < |stored.nodes| - |s.nodes| ==> stored.nodes[i].word in s.graded
  }

  /** When both copies exist they are of one day, memory holds a suffix of the stored cards, and each
      card it lacks has a word this session graded. */
  predicate SuffixOk(w: World) {
    w.mem.Some? && w.row.Some? ==> w.row.value.blob.Encoded? && SuffixOf(w.mem.value, w.row.value.blob.state)
  }

  lemma GateSuffix(w: World, c: GateChoice)
    requires SuffixOk(w)
    ensures SuffixOk(Gate(w, c).0)
  {
  }

  lemma AdvanceSuffix(w: World, c: AdvanceChoice)
    requires SuffixOk(w) && w.mem.Some? && w.mem.value.nodes != []
    requires w.mem.value.nodes[0].word in w.mem.value.graded
    ensures SuffixOk(Advance(w, c))
  {
    if w.mem.value.date == Some(c.gate.today) {
      AdvanceShape(w, c);
      var v := Advance(w, c);
      if v.mem.Some? && v.mem != w.mem && w.row.Some? {
        PopSuffix(w.mem.value, v.mem.value, w.row.value.blob.state);
      }
    }
  }

  lemma PopSuffix(s: Session, s': Session, stored: Session)
    requires SuffixOf(s, stored) && PoppedFrom(s', s) && s.nodes[0].word in s.graded
    ensures SuffixOf(s', stored)
  {
  }

  /** Days only move forward, so what one gate found stale a later one does too. */
  lemma StaleStays(w: World, c: GateChoice, later: GateChoice, upTo: Day)
    requires SessionsOk(w, upTo) && SuffixOk(w) && GateClock(upTo, c) && GateClock(c.restoreDay, later)
    requires Gate(w, c).1.None? && (c.loadOk || w.mem.Some?)
    ensures Gate(Gate(w, c).0, later).1.None?
  {
  }

  /** The tap grades without a session although one is stored, because its restore
      failed; the advance behind it restores that session, pops a head this session has
      not noted as graded, and does not get to save. */
  predicate BreaksSuffix(w: World, c: GradeChoice) {
    && w.mem.None? && !c.gate.loadOk && WillGrade(w, c) && c.notifyOk
    && var live := LiveSession(w, c.advance.gate);
    && live.Some? && |live.value.nodes| > 1 && live.value.nodes[0].word !in live.value.graded
    && PopsUnsaved(c.advance)
  }

  /** A grade tap keeps the suffix relation if and only if it is not the tap described.
      Whether it loses a card is another question: see `StudyCards`. */
  lemma GradeKeepsSuffixExactlyWhen(w: World, c: GradeChoice)
    requires Inv(w) && SuffixOk(w) && Clock(w.day, Grading(c))
    ensures SuffixOk(GradeTap(w, c)) <==> !BreaksSuffix(w, c)
  {
    GateSuffix(w, c.gate);
    GateKeeps(w, c.gate, w.day);
    GateAnswers(w, c.gate);
    var (w1, got) := Gate(w, c.gate);
    if got.Some? {
      GradeInSessionSuffix(w1, got.value, c);
    } else {
      GradeWithoutSessionSuffix(w, w1, c);
    }
  }

  lemma GradeWithoutSessionSuffix(w: World, w1: World, c: GradeChoice)
    requires Inv(w) && SuffixOk(w) && Clock(w.day, Grading(c)) && Gate(w, c.gate) == (w1, None)
    ensures SuffixOk(GradeTap(w, c)) <==> !BreaksSuffix(w, c)
  {
    GateAnswers(w, c.gate);
    var w2 := RecordGrade(w1, c.word, c.activity);
    assert w1.mem.None?;
    if c.gate.loadOk || w.mem.Some? {
      StaleStays(w, c.gate, c.advance.gate, w.day);
      NoSessionAdvance(w1, w2, c.advance);
    } else {
      assert w1 == w;
      RestoringAdvance(w2, c.advance);
    }
  }

  /** An advance that finds no session leaves none. */
  lemma NoSessionAdvance(w1: World, w2: World, c: AdvanceChoice)
    requires w1.mem.None? && w2.mem.None? && w1.row == w2.row && Gate(w1, c.gate).1.None?
    ensures Advance(w2, c).mem.None?
  {
  }

  /** An advance that restores the stored session itself. */
  lemma RestoringAdvance(w: World, c: AdvanceChoice)
    requires w.mem.None?
    ensures var live := LiveSession(w, c.gate);
      SuffixOk(Advance(w, c)) <==>
        !(live.Some? && |live.value.nodes| > 1 && live.value.nodes[0].word !in live.value.graded && PopsUnsaved(c))
  {
    var live := LiveSession(w, c.gate);
    GateAnswers(w, c.gate);
    if live.Some? {
      var w1 := w.(mem := live);
      assert Advance(w, c) == Advance(w1, c);
      AdvanceShape(w1, c);
      var (s, stored) := (live.value, w.row.value.blob.state);
      assert s == Decode(stored);
      if |s.nodes| > 1 && PopsUnsaved(c) {
        PoppedSuffix(s, Advance(w, c).mem.value, stored);
      }
    }
  }

  lemma PoppedSuffix(s: Session, s': Session, stored: Session)
    requires s == Decode(stored) && PoppedFrom(s', s)
    ensures SuffixOf(s', stored) <==> s.nodes[0].word in s.graded
  {
  }

  lemma GradeInSessionSuffix(w: World, s: Session, c: GradeChoice)
    requires SuffixOk(w) && w.mem == Some(s) && s.nodes != []
    ensures SuffixOk(GradeInSession(w, s, c))
  {
    if HeadIs(s, c.word, c.activity) {
      RepeatedGradeSuffix(w, s, c);
      FirstGradeSuffix(w, s, c);
    }
  }

  lemma RepeatedGradeSuffix(w: World, s: Session, c: GradeChoice)
    requires SuffixOk(w) && w.mem == Some(s) && HeadIs(s, c.word, c.activity)
    ensures SuffixOk(RepeatedGrade(w, s, c))
  {
    var s1 := if c.word in s.graded then s else s.(graded := s.graded + [c.word]);
    AdvanceSuffix(w.(mem := Some(s1)), c.advance);
  }

  lemma FirstGradeSuffix(w: World, s: Session, c: GradeChoice)
    requires SuffixOk(w) && w.mem == Some(s) && HeadIs(s, c.word, c.activity)
    ensures SuffixOk(FirstGrade(w, s, c))
  {
    var s1 := s.(graded := s.graded + [c.word]);
    var w1 := RecordGrade(w, c.word, c.activity).(mem := Some(s1));
    AdvanceSuffix(Persist(w1, s1, PersistDay(s1.date, s1, c.gate.restoreDay), true), c.advance);
  }

  lemma StartSuffix(w: World, c: StartChoice)
    requires SuffixOk(w)
    ensures SuffixOk(Start(w, c))
  {
    var (w1, got) := Gate(w, c.gate);
    GateSuffix(w, c.gate);
    if got.Some? && got.value.nodes != [] {
      ResumeSuffix(w1, got.value, c.gate.restoreDay, c.resume);
    } else {
      FreshSuffix(w1, c);
      FreshSuffix(w1.(used := Consumed(w1.used, c.slotDay)), c);
    }
  }

  lemma ResumeSuffix(w: World, s: Session, now: Day, c: ResumeChoice)
    requires SuffixOk(w) && w.mem == Some(s) && s.nodes != []
    ensures SuffixOk(Resume(w, s, now, c))
  {
    ResumeShape(w, s, now, c);
  }

  predicate SameCards(s': Session, s: Session) {
    s'.nodes == s.nodes && s'.graded == s.graded && s'.date == s.date
  }

  /** A resume changes freeze fields and the message id, in memory and perhaps in storage. */
  lemma ResumeShape(w: World, s: Session, now: Day, c: ResumeChoice)
    requires w.mem == Some(s) && s.nodes != []
    ensures var v := Resume(w, s, now, c);
      && v.mem.Some? && SameCards(v.mem.value, s)
      && (v.row == w.row || v.row == Some(Row(PersistDay(s.date, s, now), Encoded(v.mem.value))))
      && v.events == w.events && v.ledger == w.ledger && v.epoch == w.epoch && v.day == w.day
  {
    BuildFrame(s, w.flipped, s.nodes[0], c.build);
  }

  lemma FreshSuffix(w: World, c: StartChoice)
    requires SuffixOk(w)
    ensures SuffixOk(FreshBody(w, c))
  {
    if c.nodes != [] {
      BuildFrame(Session(c.nodes, [], false, None, None, None, Some(c.today)), w.flipped, c.nodes[0], c.build);
    }
  }

  /** A run without deletes in which no grade tap breaks the relation. */
  predicate SuffixSafe(w: World, es: seq<Event>) {
    es == [] ||
    (var (before, e) := (es[..|es| - 1], es[|es| - 1]);
     SuffixSafe(w, before) && !e.Deleting? && !(e.Grading? && BreaksSuffix(Run(w, before), e.g)))
  }

  /** Over every such run, whatever saves and edits fail, memory stays a suffix of
      storage. */
  lemma {:induction false} MemoryIsSuffixOfStorage(w: World, es: seq<Event>)
    requires Inv(w) && SuffixOk(w) && Timely(w, es) && SuffixSafe(w, es)
    ensures SuffixOk(Run(w, es))
  {
    if es != [] {
      var (before, e) := (es[..|es| - 1], es[|es| - 1]);
      MemoryIsSuffixOfStorage(w, before);
      RunKeeps(w, before);
      StepSuffix(Run(w, before), e);
    }
  }

  lemma StepSuffix(w: World, e: Event)
    requires Inv(w) && SuffixOk(w) && Clock(w.day, e) && !e.Deleting? && !(e.Grading? && BreaksSuffix(w, e.g))
    ensures SuffixOk(Step(w, e))
  {
    match e
    case Starting(c) => StartSuffix(w, c);
    case Grading(c) => GradeKeepsSuffixExactlyWhen(w, c);
    case Revealing(c) => GateSuffix(w, c.gate);
    case Restart =>
    case Midnight(_) =>
  }

  /** Such a tap exists: on a fresh two-card session that only the database remembers. */
  lemma FailedRestoreBreaksSuffix(w: World, s: Session, c: GradeChoice)
    requires Inv(w) && w.mem.None? && w.row == Some(Row(w.day, Encoded(s))) && |s.nodes| > 1
    requires s.nodes[0].word !in s.graded && s.nodes[0].word != c.word
    requires SteadyTap(c.(gate := c.gate.(loadOk := true)), w.day) && !c.gate.loadOk
    requires !c.throttled && c.ledgerOk && c.result.Graded? && c.notifyOk && (c.word, c.activity) !in w.ledger
    requires c.advance.today == w.day && c.advance.gate == GateChoice(w.day, w.day, true, true)
    requires c.advance.build.fault.NoFault? && c.advance.edit.Done? && !c.advance.persistOk
    ensures !SuffixOk(GradeTap(w, c))
  {
    GradeKeepsSuffixExactlyWhen(w, c);
  }

  /******* One session, graded in order *******/

  /** Positions of the first cards in storage and memory, and cards graded so far. */
  function Stored(w: World, deck: seq<Node>): int
    requires w.row.Some? && w.row.value.blob.Encoded?
  {
    |deck| - |w.row.value.blob.state.nodes|
  }

  predicate DistinctWords(deck: seq<Node>) {
    forall i, j :: 0 <= i < j < |deck| ==> deck[i].word != deck[j].word
  }

  /** `s` is what remains of `deck` from a position at most `g`, and it remembers
      only words among the first `g`. */
  ghost predicate PartOf(s: Session, deck: seq<Node>, g: nat, today: Day) {
    && g <= |deck| && s.date == Some(today)
    && 0 < |s.nodes| <= |deck| && |deck| - |s.nodes| <= g
    && s.nodes == deck[|deck| - |s.nodes|..]
    && forall x <- s.graded :: exists i :: 0 <= i < g && deck[i].word == x
  }

  /** Since event number `base`, exactly the first cards of `deck` were graded, in deck order. */
  ghost predicate GradedFirst(events: seq<ReviewEvent>, epoch: nat, deck: seq<Node>, base: nat) {
    && base <= |events| <= base + |deck|
    && (forall i :: 0 <= i < base ==> events[i].epoch < epoch)
    && (forall i :: base <= i < |events| ==>
          events[i] == ReviewEvent(deck[i - base].word, deck[i - base].activity, epoch))
  }

  /** Storage is not ahead of memory and neither is ahead of the `g` grades. The row is
      gone only once the whole deck is graded. */
  ghost predicate CopiesOk(mem: Option<Session>, row: Option<Row>, deck: seq<Node>, g: nat, today: Day) {
    && (row.None? ==> mem.None? && g == |deck|)
    && (row.Some? ==> row.value.blob.Encoded? && PartOf(row.value.blob.state, deck, g, today))
    && (mem.Some? ==> PartOf(mem.value, deck, g, today))
    && (mem.Some? ==> |mem.value.nodes| <= |row.value.blob.state.nodes|)
  }

  ghost predicate Track(w: World, deck: seq<Node>, base: nat, today: Day) {
    && Inv(w) && w.day == today && DistinctWords(deck)
    && GradedFirst(w.events, w.epoch, deck, base)
    && CopiesOk(w.mem, w.row, deck, |w.events| - base, today)
  }

  predicate GateOn(c: GateChoice, today: Day) {
    c.today == c.restoreDay == today && c.loadOk
  }

  predicate AdvanceOn(c: AdvanceChoice, today: Day) {
    c.today == today && GateOn(c.gate, today)
  }

  /** What may happen during a session on one day: taps on any button, restarts and
      presses of the study button, with every save, edit, notice and build free to
      fail, but with successful session reads. */
  predicate SessionEvent(e: Event, today: Day) {
    match e
    case Starting(c) => c.today == c.slotDay == c.releaseDay == today && GateOn(c.gate, today)
    case Grading(c) =>
      c.tapDay == c.snapshotDay == today && GateOn(c.gate, today) && AdvanceOn(c.advance, today)
    case Revealing(c) => GateOn(c.gate, today)
    case Deleting(_) => false
    case Restart => true
    case Midnight(_) => false
  }

  /** A run in which the session still exists before every event. */
  predicate LiveRun(w: World, es: seq<Event>, today: Day) {
    es == [] ||
    (LiveRun(w, es[..|es| - 1], today) && Run(w, es[..|es| - 1]).row.Some? && SessionEvent(es[|es| - 1], today))
  }

  /** A fresh start begins such a session. */
  lemma FreshStartTracks(w: World, c: StartChoice)
    requires Inv(w) && SessionEvent(Starting(c), w.day) && !c.blocked && c.consumeOk
    requires LiveSession(w, c.gate).None? && Delivers(c) && DistinctWords(c.nodes)
    requires c.bypass || CanConsume(Gate(w, c.gate).0.used, c.slotDay, c.limit)
    ensures Track(Step(w, Starting(c)), c.nodes, |w.events|, w.day)
  {
    StepKeeps(w, Starting(c));
    GateAnswers(w, c.gate);
    var w1 := Gate(w, c.gate).0;
    BuildFrame(Session(c.nodes, [], false, None, None, None, Some(c.today)), w1.flipped, c.nodes[0], c.build);
  }

  lemma GateTracks(w: World, c: GateChoice, deck: seq<Node>, base: nat, today: Day)
    requires Track(w, deck, base, today) && w.row.Some? && GateOn(c, today)
    ensures Gate(w, c).1.Some? && Gate(w, c).0 == w.(mem := Gate(w, c).1)
    ensures Track(Gate(w, c).0, deck, base, today)
  {
  }

  /** A pair of the deck is in the ledger exactly if its card is among those graded. */
  lemma LedgerIsPrefix(w: World, deck: seq<Node>, base: nat, today: Day, i: nat)
    requires Track(w, deck, base, today) && i < |deck|
    ensures (deck[i].word, deck[i].activity) in w.ledger <==> i < |w.events| - base
  {
    var e := ReviewEvent(deck[i].word, deck[i].activity, w.epoch);
    if i < |w.events| - base {
      assert w.events[base + i] == e;
    }
  }

  lemma AdvanceTracks(w: World, c: AdvanceChoice, deck: seq<Node>, base: nat, today: Day)
    requires Track(w, deck, base, today) && w.mem.Some? && AdvanceOn(c, today)
    requires |deck| - |w.mem.value.nodes| < |w.events| - base
    ensures Track(Advance(w, c), deck, base, today)
  {
    AdvanceKeeps(w, c, today);
    AdvanceFrame(w, c);
    AdvanceCopies(w, c, deck, |w.events| - base, today);
  }

  lemma AdvanceCopies(w: World, c: AdvanceChoice, deck: seq<Node>, g: nat, today: Day)
    requires CopiesOk(w.mem, w.row, deck, g, today) && w.mem.Some? && AdvanceOn(c, today)
    requires |deck| - |w.mem.value.nodes| < g
    ensures CopiesOk(Advance(w, c).mem, Advance(w, c).row, deck, g, today)
  {
    var v := Advance(w, c);
    AdvanceShape(w, c);
    if v.mem.Some? && v.mem != w.mem {
      PoppedPart(w.mem.value, v.mem.value, deck, g, today);
    }
  }

  lemma PoppedPart(s: Session, s': Session, deck: seq<Node>, g: nat, today: Day)
    requires PartOf(s, deck, g, today) && PoppedFrom(s', s) && |deck| - |s.nodes| < g
    ensures PartOf(s', deck, g, today)
  {
  }

  /** What one grade tap inside a tracked session does before it advances. */
  lemma RecordTracks(w: World, c: GradeChoice, deck: seq<Node>, base: nat, today: Day)
    requires Track(w, deck, base, today) && w.mem.Some?
    requires HeadIs(w.mem.value, c.word, c.activity) && (c.word, c.activity) !in w.ledger
    ensures var s1 := w.mem.value.(graded := w.mem.value.graded + [c.word]);
      var w1 := RecordGrade(w, c.word, c.activity).(mem := Some(s1));
      && Track(w1, deck, base, today)
      && Track(w1.(row := Some(Row(today, Encoded(s1)))), deck, base, today)
      && |deck| - |s1.nodes| < |w1.events| - base
  {
    var s := w.mem.value;
    var k := |deck| - |s.nodes|;
    assert s.nodes[0] == deck[k];
    LedgerIsPrefix(w, deck, base, today, k);
    RecordKeeps(w, c.word, c.activity, today);
    var s1 := s.(graded := s.graded + [c.word]);
    GrowsWith(s, c.word, deck, |w.events| - base, today);
    PartMono(w.row.value.blob.state, deck, |w.events| - base, |w.events| - base + 1, today);
  }

  lemma PartMono(s: Session, deck: seq<Node>, g: nat, h: nat, today: Day)
    requires PartOf(s, deck, g, today) && g <= h <= |deck|
    ensures PartOf(s, deck, h, today)
  {
    forall x <- s.graded ensures exists i :: 0 <= i < h && deck[i].word == x {
      var i :| 0 <= i < g && deck[i].word == x;
    }
  }

  lemma GrowsWith(s: Session, word: int, deck: seq<Node>, g: nat, today: Day)
    requires PartOf(s, deck, g, today) && g < |deck| && deck[g].word == word
    ensures PartOf(s.(graded := s.graded + [word]), deck, g + 1, today)
  {
    PartMono(s, deck, g, g + 1, today);
  }

  /** Backfilling a word whose card is graded keeps the session a part of the deck. */
  lemma BackfillTracks(w: World, c: GradeChoice, deck: seq<Node>, base: nat, today: Day)
    requires Track(w, deck, base, today) && w.mem.Some? && HeadIs(w.mem.value, c.word, c.activity)
    requires c.word in w.mem.value.graded || (c.word, c.activity) in w.ledger
    ensures |deck| - |w.mem.value.nodes| < |w.events| - base
    ensures Track(w.(mem := Some(w.mem.value.(graded := w.mem.value.graded + [c.word]))), deck, base, today)
  {
    var s := w.mem.value;
    var k := |deck| - |s.nodes|;
    assert s.nodes[0] == deck[k];
    if c.word in s.graded {
      var i :| 0 <= i < |w.events| - base && deck[i].word == c.word;
      assert i == k;
    } else {
      LedgerIsPrefix(w, deck, base, today, k);
    }
  }

  lemma GradeTracks(w: World, c: GradeChoice, deck: seq<Node>, base: nat, today: Day)
    requires Track(w, deck, base, today) && w.row.Some? && SessionEvent(Grading(c), today)
    ensures Track(GradeTap(w, c), deck, base, today)
  {
    GateTracks(w, c.gate, deck, base, today);
    var (w1, got) := Gate(w, c.gate);
    if HeadIs(got.value, c.word, c.activity) {
      if c.word in got.value.graded || (c.word, c.activity) in w1.ledger {
        RepeatTracks(w1, c, deck, base, today);
      } else {
        FirstGradeTracks(w1, c, deck, base, today);
      }
    }
  }

  lemma RepeatTracks(w: World, c: GradeChoice, deck: seq<Node>, base: nat, today: Day)
    requires Track(w, deck, base, today) && w.mem.Some? && AdvanceOn(c.advance, today)
    requires HeadIs(w.mem.value, c.word, c.activity)
    requires c.word in w.mem.value.graded || (c.word, c.activity) in w.ledger
    ensures Track(RepeatedGrade(w, w.mem.value, c), deck, base, today)
  {
    var s := w.mem.value;
    BackfillTracks(w, c, deck, base, today);
    AdvanceTracks(w, c.advance, deck, base, today);
    AdvanceTracks(w.(mem := Some(s.(graded := s.graded + [c.word]))), c.advance, deck, base, today);
  }

  lemma FirstGradeTracks(w: World, c: GradeChoice, deck: seq<Node>, base: nat, today: Day)
    requires Track(w, deck, base, today) && w.mem.Some? && AdvanceOn(c.advance, today)
    requires HeadIs(w.mem.value, c.word, c.activity)
    requires c.word !in w.mem.value.graded && (c.word, c.activity) !in w.ledger
    ensures Track(FirstGrade(w, w.mem.value, c), deck, base, today)
  {
    var s1 := w.mem.value.(graded := w.mem.value.graded + [c.word]);
    RecordTracks(w, c, deck, base, today);
    var w1 := RecordGrade(w, c.word, c.activity).(mem := Some(s1));
    AdvanceTracks(w1.(row := Some(Row(today, Encoded(s1)))), c.advance, deck, base, today);
  }

  lemma ResumeTracks(w: World, s: Session, c: ResumeChoice, deck: seq<Node>, base: nat, today: Day)
    requires Track(w, deck, base, today) && w.row.Some? && w.mem == Some(s)
    ensures Track(Resume(w, s, today, c), deck, base, today)
  {
    ResumeKeeps(w, s, today, c, today);
    ResumeShape(w, s, today, c);
    SamePart(s, Resume(w, s, today, c).mem.value, deck, |w.events| - base, today);
  }

  lemma SamePart(s: Session, s': Session, deck: seq<Node>, g: nat, today: Day)
    requires PartOf(s, deck, g, today) && SameCards(s', s)
    ensures PartOf(s', deck, g, today)
  {
  }

  lemma RevealTracks(w: World, c: RevealChoice, deck: seq<Node>, base: nat, today: Day)
    requires Track(w, deck, base, today) && w.row.Some? && GateOn(c.gate, today)
    ensures Track(RevealTap(w, c), deck, base, today)
  {
    GateTracks(w, c.gate, deck, base, today);
  }

  lemma StepTracks(w: World, e: Event, deck: seq<Node>, base: nat, today: Day)
    requires Track(w, deck, base, today) && w.row.Some? && SessionEvent(e, today)
    ensures Track(Step(w, e), deck, base, today)
  {
    match e
    case Starting(c) =>
      GateTracks(w, c.gate, deck, base, today);
      ResumeTracks(Gate(w, c.gate).0, Gate(w, c.gate).1.value, c.resume, deck, base, today);
    case Grading(c) => GradeTracks(w, c, deck, base, today);
    case Revealing(c) => RevealTracks(w, c, deck, base, today);
    case Restart =>
  }

  /** Over every run of a session, whatever fails on the way, the review events are
      those before it followed by a prefix of its cards in deck order, each once;
      and the session can end only when that prefix is the whole deck. */
  lemma {:induction false} GradedInDeckOrder(w: World, es: seq<Event>, deck: seq<Node>, base: nat, today: Day)
    requires Track(w, deck, base, today) && LiveRun(w, es, today)
    ensures Track(Run(w, es), deck, base, today)
  {
    if es != [] {
      GradedInDeckOrder(w, es[..|es| - 1], deck, base, today);
      StepTracks(Run(w, es[..|es| - 1]), es[|es| - 1], deck, base, today);
    }
  }

  /******* Progress *******/

  /** A tap on the current head card in which nothing fails. */
  predicate CleanTap(w: World, e: Event) {
    && e.Grading? && !e.g.throttled && e.g.ledgerOk && e.g.result.Graded? && e.g.persistOk && e.g.notifyOk
    && var live := LiveSession(w, e.g.gate);
    && live.Some? && HeadIs(live.value, e.g.word, e.g.activity)
    && var c := e.g.advance;
    && c.build.fault.NoFault? && (c.edit.Done? || c.edit.NotModified?) && c.persistOk && c.clearOk
  }

  function CleanTaps(w: World, es: seq<Event>): nat {
    if es == [] then 0
    else CleanTaps(w, es[..|es| - 1]) + if CleanTap(Run(w, es[..|es| - 1]), es[|es| - 1]) then 1 else 0
  }

  lemma AdvanceProgress(w: World, c: AdvanceChoice, deck: seq<Node>, base: nat, today: Day)
    requires Track(w, deck, base, today) && w.mem.Some? && AdvanceOn(c, today)
    requires c.build.fault.NoFault? && (c.edit.Done? || c.edit.NotModified?) && c.persistOk && c.clearOk
    ensures var v := Advance(w, c);
      v.row.None? || (v.row.value.blob.Encoded? && |v.row.value.blob.state.nodes| == |w.mem.value.nodes| - 1)
  {
    var p := PopNext(w.mem.value);
    if p.state.nodes != [] {
      BuildFrame(p.state, w.flipped, p.state.nodes[0], c.build);
    }
  }

  /** A clean tap moves storage past the head card, or ends the session. */
  lemma CleanTapProgress(w: World, e: Event, deck: seq<Node>, base: nat, today: Day)
    requires Track(w, deck, base, today) && w.row.Some? && SessionEvent(e, today) && CleanTap(w, e)
    ensures var v := Step(w, e);
      v.row.None? || (v.row.value.blob.Encoded? && Stored(v, deck) >= Stored(w, deck) + 1)
  {
    var c := e.g;
    GateAnswers(w, c.gate);
    GateTracks(w, c.gate, deck, base, today);
    var (w1, got) := Gate(w, c.gate);
    var s := got.value;
    var s1 := s.(graded := s.graded + [c.word]);
    if c.word in s.graded || (c.word, c.activity) in w1.ledger {
      BackfillTracks(w1, c, deck, base, today);
      AdvanceProgress(w1, c.advance, deck, base, today);
      AdvanceProgress(w1.(mem := Some(s1)), c.advance, deck, base, today);
    } else {
      RecordTracks(w1, c, deck, base, today);
      var w2 := RecordGrade(w1, c.word, c.activity).(mem := Some(s1));
      AdvanceProgress(w2.(row := Some(Row(today, Encoded(s1)))), c.advance, deck, base, today);
    }
  }

  /** Nothing that happens during the session moves storage back. */
  lemma StorageNeverBack(w: World, e: Event, deck: seq<Node>, base: nat, today: Day)
    requires Track(w, deck, base, today) && w.row.Some? && SessionEvent(e, today)
    ensures var v := Step(w, e);
      v.row.None? || (v.row.value.blob.Encoded? && Stored(v, deck) >= Stored(w, deck))
  {
    match e
    case Starting(c) =>
      GateTracks(w, c.gate, deck, base, today);
      var (w1, got) := Gate(w, c.gate);
      BuildFrame(got.value, w1.flipped, got.value.nodes[0], c.resume.build);
    case Grading(c) =>
      GateTracks(w, c.gate, deck, base, today);
      var (w1, got) := Gate(w, c.gate);
      GradeNeverBack(w1, c, deck, base, today);
    case Revealing(c) => GateTracks(w, c.gate, deck, base, today);
    case Restart =>
  }

  lemma GradeNeverBack(w: World, c: GradeChoice, deck: seq<Node>, base: nat, today: Day)
    requires Track(w, deck, base, today) && w.mem.Some? && AdvanceOn(c.advance, today)
    ensures var v := GradeInSession(w, w.mem.value, c);
      v.row.None? || (v.row.value.blob.Encoded? && Stored(v, deck) >= Stored(w, deck))
  {
    var s := w.mem.value;
    var s1 := s.(graded := s.graded + [c.word]);
    AdvanceShape(w, c.advance);
    AdvanceShape(w.(mem := Some(s1)), c.advance);
    var w2 := RecordGrade(w, c.word, c.activity).(mem := Some(s1));
    AdvanceShape(w2.(row := Some(Row(today, Encoded(s1)))), c.advance);
  }

  lemma {:induction false} StoredCountsCleanTaps(w: World, es: seq<Event>, deck: seq<Node>, base: nat, today: Day)
    requires Track(w, deck, base, today) && w.row.Some? && LiveRun(w, es, today)
    ensures var v := Run(w, es);
      v.row.None? || (v.row.value.blob.Encoded? && Stored(v, deck) >= Stored(w, deck) + CleanTaps(w, es))
  {
    if es != [] {
      var (before, e) := (es[..|es| - 1], es[|es| - 1]);
      StoredCountsCleanTaps(w, before, deck, base, today);
      GradedInDeckOrder(w, before, deck, base, today);
      var v := Run(w, before);
      StorageNeverBack(v, e, deck, base, today);
      if CleanTap(v, e) {
        CleanTapProgress(v, e, deck, base, today);
      }
    }
  }

  /** As many clean taps as the deck has cards, among any number of failing taps,
      restarts and resumes, finish the session, with every card graded exactly once. */
  lemma CleanTapsFinishSession(w: World, es: seq<Event>, deck: seq<Node>, base: nat, today: Day)
    requires Track(w, deck, base, today) && w.row.Some? && LiveRun(w, es, today)
    requires CleanTaps(w, es) >= |deck|
    ensures Run(w, es).row.None? && Run(w, es).mem.None?
    ensures |Run(w, es).events| == base + |deck|
    ensures forall i :: 0 <= i < |deck| ==>
      Run(w, es).events[base + i] == ReviewEvent(deck[i].word, deck[i].activity, Run(w, es).epoch)
  {
    StoredCountsCleanTaps(w, es, deck, base, today);
    GradedInDeckOrder(w, es, deck, base, today);
  }
}

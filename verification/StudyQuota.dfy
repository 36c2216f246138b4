/** The daily quota over runs of the study protocol. */
module StudyQuota {
  import opened Wrappers
  import opened SessionQuota
  import opened StudySession
  import opened StudySafety

  /** Each day's counter is within the limit and counts the delivered fresh sessions
      of that day, plus the slots whose release failed. */
  ghost predicate Balanced(w: World, limit: int) {
    CellsBalance(w.used, w.starts, w.leaks, limit)
  }

  ghost predicate CellsBalance(used: map<Day, Cell>, starts: seq<Day>, leaks: seq<Day>, limit: int) {
    forall d: Day :: Used(used, d) == multiset(starts)[d] + multiset(leaks)[d] && Used(used, d) <= limit
  }

  lemma ChargeBalances(used: map<Day, Cell>, starts: seq<Day>, leaks: seq<Day>, day: Day, limit: int)
    requires CellsBalance(used, starts, leaks, limit) && CanConsume(used, day, limit)
    ensures CellsBalance(Consumed(used, day), starts + [day], leaks, limit)
    ensures CellsBalance(Consumed(used, day), starts, leaks + [day], limit)
  {
  }

  lemma ReleaseBalancesExactlyWhen(
    used: map<Day, Cell>, starts: seq<Day>, leaks: seq<Day>, day: Day, releaseDay: Day, limit: int)
    requires CellsBalance(used, starts, leaks, limit) && CanConsume(used, day, limit)
    ensures CellsBalance(Released(Consumed(used, day), releaseDay), starts, leaks, limit) <==> day == releaseDay
  {
    if day == releaseDay {
      ReleaseUndoesConsume(used, day);
    } else {
      assert Used(Released(Consumed(used, day), releaseDay), day) == Used(used, day) + 1;
    }
  }

  /** A start that takes a slot: not blocked, no session to resume, quota left. */
  predicate Charges(w: World, c: StartChoice) {
    var live := LiveSession(w, c.gate);
    && !c.blocked && (live.None? || live.value.nodes == [])
    && !c.bypass && c.consumeOk && CanConsume(w.used, c.slotDay, c.limit)
  }

  /** A charged start that delivers nothing and gives its slot back on another day. */
  predicate MovesSlot(w: World, c: StartChoice) {
    Charges(w, c) && !Delivers(c) && c.releaseOk && c.slotDay != c.releaseDay
  }

  /** A run whose starts are not bypassed, are under one plan limit, and move no slot. */
  predicate Metered(w: World, es: seq<Event>, limit: int) {
    es == [] ||
    (var (before, e) := (es[..|es| - 1], es[|es| - 1]);
     Metered(w, before, limit) && MeteredStep(Run(w, before), e, limit))
  }

  predicate MeteredStep(w: World, e: Event, limit: int) {
    e.Starting? ==> !e.s.bypass && e.s.limit == limit && !MovesSlot(w, e.s)
  }

  predicate SameSlots(w: World, v: World) {
    v.used == w.used && v.starts == w.starts && v.leaks == w.leaks
  }

  lemma GateSlots(w: World, c: GateChoice)
    ensures SameSlots(w, Gate(w, c).0)
  {
  }

  lemma AdvanceSlots(w: World, c: AdvanceChoice)
    ensures SameSlots(w, Advance(w, c))
  {
    GateSlots(w, c.gate);
  }

  lemma GradeSlots(w: World, c: GradeChoice)
    ensures SameSlots(w, GradeTap(w, c))
  {
    var (w1, got) := Gate(w, c.gate);
    GateSlots(w, c.gate);
    match got
    case Some(s) =>
      RepeatedGradeSlots(w1, s, c);
      FirstGradeSlots(w1, s, c);
    case None => AdvanceSlots(RecordGrade(w1, c.word, c.activity), c.advance);
  }

  lemma RepeatedGradeSlots(w: World, s: Session, c: GradeChoice)
    ensures SameSlots(w, RepeatedGrade(w, s, c))
  {
    AdvanceSlots(w.(mem := Some(s)), c.advance);
    AdvanceSlots(w.(mem := Some(s.(graded := s.graded + [c.word]))), c.advance);
  }

  lemma FirstGradeSlots(w: World, s: Session, c: GradeChoice)
    ensures SameSlots(w, FirstGrade(w, s, c))
  {
    var s1 := s.(graded := s.graded + [c.word]);
    var w1 := RecordGrade(w, c.word, c.activity).(mem := Some(s1));
    AdvanceSlots(Persist(w1, s1, PersistDay(s1.date, s1, c.gate.restoreDay), true), c.advance);
  }

  lemma DeleteSlots(w: World, c: DeleteChoice)
    ensures SameSlots(w, DeleteTap(w, c))
  {
    var (w1, got) := Gate(w, c.gate);
    GateSlots(w, c.gate);
    if got.Some? {
      var s := got.value;
      var s1 := Refilled(s, c.due);
      AdvanceSlots(Persist(w1.(mem := Some(s1)), s1, PersistDay(s1.date, s1, c.gate.restoreDay), true), c.advance);
    }
  }

  lemma ResumeSlots(w: World, s: Session, now: Day, c: ResumeChoice)
    requires s.nodes != []
    ensures SameSlots(w, Resume(w, s, now, c))
  {
  }

  lemma FreshSlots(w: World, c: StartChoice)
    ensures SameSlots(w, FreshBody(w, c))
  {
  }

  /** Resuming a live session is free. */
  lemma ResumeCostsNothing(w: World, c: StartChoice)
    requires LiveSession(w, c.gate).Some? && LiveSession(w, c.gate).value.nodes != []
    ensures SameSlots(w, Start(w, c))
  {
    GateAnswers(w, c.gate);
    GateSlots(w, c.gate);
    ResumeSlots(Gate(w, c.gate).0, LiveSession(w, c.gate).value, c.gate.restoreDay, c.resume);
  }

  /** So is a start that is bypassed, as the owner's are. */
  lemma BypassedStartIsFree(w: World, c: StartChoice)
    requires c.bypass
    ensures SameSlots(w, Start(w, c))
  {
    GateSlots(w, c.gate);
    var (w1, got) := Gate(w, c.gate);
    if got.Some? && got.value.nodes != [] {
      ResumeSlots(w1, got.value, c.gate.restoreDay, c.resume);
    } else {
      FreshSlots(w1, c);
    }
  }

  /** What a start that is not bypassed does to the slots. */
  lemma StartSlots(w: World, c: StartChoice)
    requires !c.bypass
    ensures var v := Start(w, c);
      if !Charges(w, c) then SameSlots(w, v)
      else if Delivers(c) then
        v.used == Consumed(w.used, c.slotDay) && v.starts == w.starts + [c.slotDay] && v.leaks == w.leaks
      else if c.releaseOk then
        v.used == Released(Consumed(w.used, c.slotDay), c.releaseDay) && v.starts == w.starts && v.leaks == w.leaks
      else
        v.used == Consumed(w.used, c.slotDay) && v.starts == w.starts && v.leaks == w.leaks + [c.slotDay]
  {
    GateSlots(w, c.gate);
    GateAnswers(w, c.gate);
    var (w1, got) := Gate(w, c.gate);
    if got.Some? && got.value.nodes != [] {
      ResumeSlots(w1, got.value, c.gate.restoreDay, c.resume);
    } else {
      FreshSlots(w1.(used := Consumed(w1.used, c.slotDay)), c);
    }
  }

  /** A start that has no session to resume takes a slot exactly while the day's delivered
      sessions and failed releases are below the limit; one that takes none changes no
      counter, and one that delivers counts. */
  lemma SlotTakenExactlyBelowLimit(w: World, c: StartChoice)
    requires Balanced(w, c.limit) && !c.bypass && !c.blocked && c.consumeOk
    requires var live := LiveSession(w, c.gate); live.None? || live.value.nodes == []
    ensures var (v, taken) := (Start(w, c), multiset(w.starts)[c.slotDay] + multiset(w.leaks)[c.slotDay]);
      && (taken >= c.limit ==> SameSlots(w, v))
      && (taken < c.limit && Delivers(c) ==> v.starts == w.starts + [c.slotDay] && Used(v.used, c.slotDay) == taken + 1)
      && (v.starts != w.starts <==> taken < c.limit && Delivers(c))
  {
    StartSlots(w, c);
  }

  /** A start keeps the balance if and only if it moves no slot. */
  lemma StartBalancesExactlyWhen(w: World, c: StartChoice, limit: int)
    requires Balanced(w, limit) && !c.bypass && c.limit == limit
    ensures Balanced(Start(w, c), limit) <==> !MovesSlot(w, c)
  {
    StartSlots(w, c);
    if Charges(w, c) {
      ChargeBalances(w.used, w.starts, w.leaks, c.slotDay, limit);
      ReleaseBalancesExactlyWhen(w.used, w.starts, w.leaks, c.slotDay, c.releaseDay, limit);
    }
  }

  /** Over every run, whatever returns or exceptions end its starts, each day's
      counter stays in [0, limit] and balances; if no release failed in the run it
      is the number of fresh sessions whose first card was delivered. */
  lemma {:induction false} CounterCountsDeliveries(w: World, es: seq<Event>, limit: int)
    requires Balanced(w, limit) && Metered(w, es, limit)
    ensures Balanced(Run(w, es), limit)
    ensures w.leaks == [] && (forall e <- es :: e.Starting? ==> e.s.releaseOk) ==>
      Run(w, es).leaks == [] && forall d: Day :: Used(Run(w, es).used, d) == multiset(Run(w, es).starts)[d]
  {
    if es != [] {
      var before := es[..|es| - 1];
      CounterCountsDeliveries(w, before, limit);
      StepBalances(Run(w, before), es[|es| - 1], limit);
    }
  }

  lemma StepBalances(w: World, e: Event, limit: int)
    requires Balanced(w, limit) && MeteredStep(w, e, limit)
    ensures Balanced(Step(w, e), limit)
    ensures (e.Starting? ==> e.s.releaseOk) ==> Step(w, e).leaks == w.leaks
  {
    match e
    case Starting(c) => StartBalancesExactlyWhen(w, c, limit); StartSlots(w, c);
    case Grading(c) => GradeSlots(w, c);
    case Revealing(c) => GateSlots(w, c.gate);
    case Deleting(c) => DeleteSlots(w, c);
    case Restart =>
    case Midnight(_) =>
  }

  /** Such a start, across midnight: the day it began keeps the charge, and the new day
      is credited with a slot it never charged, if it has one. */
  lemma StraddlingStartMovesSlot(w: World, c: StartChoice)
    requires MovesSlot(w, c)
    ensures Used(Start(w, c).used, c.slotDay) == Used(w.used, c.slotDay) + 1
    ensures Used(w.used, c.releaseDay) > 0 ==> Used(Start(w, c).used, c.releaseDay) == Used(w.used, c.releaseDay) - 1
    ensures Start(w, c).starts == w.starts && Start(w, c).leaks == w.leaks
  {
    StartSlots(w, c);
  }
}

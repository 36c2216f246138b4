/** No card is lost: every card that leaves a session was graded, over every run, except
    for the events that are described here exactly. */
module StudyCards {
  import opened Wrappers
  import opened SessionQuota
  import opened StudySession
  import opened StudySafety
  import opened StudyOrder

  /** Words with the activity they were graded for. */
  type Pairs = set<(int, Activity)>

  predicate Graded(done: Pairs, n: Node) {
    (n.word, n.activity) in done
  }

  predicate AllGraded(done: Pairs, nodes: seq<Node>) {
    forall n <- nodes :: Graded(done, n)
  }

  ghost predicate WordGraded(done: Pairs, deck: seq<Node>, word: int) {
    exists i :: 0 <= i < |deck| && deck[i].word == word && Graded(done, deck[i])
  }

  /** `s` is what is left of `deck`: the cards it lacks are graded, and so are those
      whose words it noted. */
  ghost predicate InDeck(s: Session, done: Pairs, deck: seq<Node>, date: Day) {
    && s.date == Some(date) && 0 < |s.nodes| <= |deck|
    && s.nodes == deck[|deck| - |s.nodes|..]
    && AllGraded(done, deck[..|deck| - |s.nodes|])
    && forall x <- s.graded :: WordGraded(done, deck, x)
  }

  /** What was graded since review event number `base`. */
  ghost function Since(events: seq<ReviewEvent>, base: nat): Pairs {
    set i | base <= i < |events| :: (events[i].word, events[i].activity)
  }

  /** Each copy of the session dealt as `deck` on `date` lacks only cards graded since
      `base`, storage has none of it only when the whole deck is graded, and the ledger
      holds nothing older than `base`. */
  ghost predicate Accounted(w: World, base: nat, deck: seq<Node>, date: Day) {
    && DistinctWords(deck) && base <= |w.events| && w.ledger <= Since(w.events, base)
    && CopiesIn(w.mem, w.row, Since(w.events, base), deck, date)
  }

  ghost predicate CopiesIn(mem: Option<Session>, row: Option<Row>, done: Pairs, deck: seq<Node>, date: Day) {
    && (mem.Some? ==> row.Some? && InDeck(mem.value, done, deck, date))
    && (row.Some? ==>
          row.value.date == date && row.value.blob.Encoded? && InDeck(row.value.blob.state, done, deck, date))
    && (row.None? ==> AllGraded(done, deck))
  }

  /** A recorded grade is one more pair graded. */
  lemma RecordedSince(w: World, word: int, activity: Activity, base: nat)
    requires base <= |w.events|
    ensures Since(RecordGrade(w, word, activity).events, base) == Since(w.events, base) + {(word, activity)}
  {
    var (before, after) := (w.events, RecordGrade(w, word, activity).events);
    assert after[|before|] == ReviewEvent(word, activity, w.epoch);
    forall p <- Since(before, base) ensures p in Since(after, base) {
      var i :| base <= i < |before| && p == (before[i].word, before[i].activity);
      assert after[i] == before[i];
    }
  }

  /** A delivered fresh start deals such a session, whatever was graded before. */
  lemma FreshStartDeals(w: World, c: StartChoice, base: nat)
    requires Reached(w, c) && Delivers(c) && DistinctWords(c.nodes) && base <= |w.events|
    ensures Accounted(Start(w, c), base, c.nodes, c.today)
  {
    GateAnswers(w, c.gate);
    var w1 := Gate(w, c.gate).0;
    FreshBodyDeals(w1, c, base);
    FreshBodyDeals(w1.(used := Consumed(w1.used, c.slotDay)), c, base);
  }

  lemma FreshBodyDeals(w: World, c: StartChoice, base: nat)
    requires Writes(c) && !Removes(c) && DistinctWords(c.nodes) && base <= |w.events|
    ensures Accounted(FreshBody(w, c), base, c.nodes, c.today)
  {
    BuildFrame(Session(c.nodes, [], false, None, None, None, Some(c.today)), w.flipped, c.nodes[0], c.build);
  }

  /******* The events that lose cards *******/

  /** An advance that finds `s` moves past its head, in memory or for good. */
  predicate PopsAway(s: Session, c: AdvanceChoice) {
    if |s.nodes| > 1 then !c.build.fault.NoFault? || c.edit.Done? || c.edit.NotModified?
    else !c.edit.Transient? && c.clearOk
  }

  /** A tap graded without a session because its restore failed; the advance behind it
      restores the session after all and moves past a head that is neither graded nor
      the card tapped. */
  ghost predicate TapLosesCard(w: World, c: GradeChoice, base: nat) {
    && w.mem.None? && !c.gate.loadOk && WillGrade(w, c) && c.notifyOk
    && var live := LiveSession(w, c.advance.gate);
    && live.Some? && live.value.nodes != []
    && !Graded(Since(w.events, base), live.value.nodes[0]) && live.value.nodes[0] != Node(c.word, c.activity)
    && PopsAway(live.value, c.advance)
  }

  /** A start that missed the stored session and then removed it, or put a list in its
      place that lacks one of its ungraded cards. */
  ghost predicate StartLosesCards(w: World, c: StartChoice, base: nat) {
    Reached(w, c) && exists n <- StoredNodes(w) ::
      !Graded(Since(w.events, base), n) && (Removes(c) || (Writes(c) && n !in c.nodes))
  }

  function StoredNodes(w: World): seq<Node> {
    if w.row.Some? && w.row.value.blob.Encoded? then w.row.value.blob.state.nodes else []
  }

  ghost predicate LosesCards(w: World, e: Event, base: nat) {
    match e
    case Starting(c) => StartLosesCards(w, c, base)
    case Grading(c) => TapLosesCard(w, c, base)
    case _ => false
  }

  /******* Facts about decks *******/

  lemma LedgerGrows(s: Session, done: Pairs, more: Pairs, deck: seq<Node>, date: Day)
    requires InDeck(s, done, deck, date) && done <= more
    ensures InDeck(s, more, deck, date)
  {
    forall x <- s.graded ensures WordGraded(more, deck, x) {
      assert WordGraded(done, deck, x);
    }
  }

  lemma CopiesGrow(mem: Option<Session>, row: Option<Row>, done: Pairs, more: Pairs, deck: seq<Node>, date: Day)
    requires CopiesIn(mem, row, done, deck, date) && done <= more
    ensures CopiesIn(mem, row, more, deck, date)
  {
    if mem.Some? {
      LedgerGrows(mem.value, done, more, deck, date);
    }
    if row.Some? {
      LedgerGrows(row.value.blob.state, done, more, deck, date);
    }
  }

  lemma RecordAccounts(w: World, word: int, activity: Activity, base: nat, deck: seq<Node>, date: Day)
    requires Accounted(w, base, deck, date)
    ensures Accounted(RecordGrade(w, word, activity), base, deck, date)
  {
    RecordedSince(w, word, activity, base);
    var more := Since(RecordGrade(w, word, activity).events, base);
    CopiesGrow(w.mem, w.row, Since(w.events, base), more, deck, date);
  }

  lemma SameCardsInDeck(s: Session, s': Session, done: Pairs, deck: seq<Node>, date: Day)
    requires InDeck(s, done, deck, date) && SameCards(s', s)
    ensures InDeck(s', done, deck, date)
  {
  }

  /** What popping the head of a session does to it. */
  lemma PoppedInDeck(s: Session, s': Session, done: Pairs, deck: seq<Node>, date: Day)
    requires InDeck(s, done, deck, date) && PoppedFrom(s', s)
    ensures InDeck(s', done, deck, date) <==> Graded(done, s.nodes[0])
  {
    var k := |deck| - |s.nodes|;
    assert deck[..k + 1] == deck[..k] + [deck[k]];
    assert s.nodes[0] == deck[k] && s'.nodes == deck[k + 1..];
  }

  /** With one card left, the whole deck is graded exactly if that card is. */
  lemma LastInDeck(s: Session, done: Pairs, deck: seq<Node>, date: Day)
    requires InDeck(s, done, deck, date)
    ensures AllGraded(done, deck) <==> AllGraded(done, s.nodes)
    ensures |s.nodes| == 1 ==> (AllGraded(done, s.nodes) <==> Graded(done, s.nodes[0]))
  {
    assert deck == deck[..|deck| - |s.nodes|] + s.nodes;
  }

  lemma NotedInDeck(s: Session, done: Pairs, deck: seq<Node>, date: Day)
    requires InDeck(s, done, deck, date) && Graded(done, s.nodes[0])
    ensures InDeck(s.(graded := s.graded + [s.nodes[0].word]), done, deck, date)
  {
    assert s.nodes[0] == deck[|deck| - |s.nodes|];
    assert WordGraded(done, deck, s.nodes[0].word);
  }

  /** In a deck of distinct words a noted head is a graded head. */
  lemma NotedHeadIsGraded(s: Session, done: Pairs, deck: seq<Node>, date: Day)
    requires InDeck(s, done, deck, date) && DistinctWords(deck) && s.nodes[0].word in s.graded
    ensures Graded(done, s.nodes[0])
  {
    assert s.nodes[0] == deck[|deck| - |s.nodes|];
    assert WordGraded(done, deck, s.nodes[0].word);
  }

  /******* The handlers *******/

  lemma GateAccounts(w: World, c: GateChoice, base: nat, deck: seq<Node>, date: Day)
    requires Accounted(w, base, deck, date)
    ensures !GateWipes(w, c) ==> Accounted(Gate(w, c).0, base, deck, date)
    ensures var (w1, got) := Gate(w, c);
      got.Some? ==>
        !GateWipes(w, c) && w1.mem == got && InDeck(got.value, Since(w.events, base), deck, date) && date == c.today
  {
    if w.mem.None? && w.row.Some? {
      SameCardsInDeck(w.row.value.blob.state, Decode(w.row.value.blob.state), Since(w.events, base), deck, date);
    }
  }

  /** Days only move forward: a session one gate refused no later gate restores. */
  lemma RefusedForGood(w: World, c: GateChoice, later: GateChoice, base: nat, deck: seq<Node>, date: Day)
    requires Accounted(w, base, deck, date) && date <= c.today <= c.restoreDay <= later.today <= later.restoreDay
    requires Gate(w, c).1.None? && (c.loadOk || w.mem.Some?)
    ensures Gate(w, c).0.mem.None? && LiveSession(Gate(w, c).0, later).None?
  {
  }

  /** An advance of a live session accounts for every card if and only if it does not
      move past an ungraded head. */
  lemma AdvanceAccounts(w: World, c: AdvanceChoice, base: nat, deck: seq<Node>, date: Day)
    requires Accounted(w, base, deck, date) && w.mem.Some? && w.mem.value.date == Some(c.gate.today) && c.today == date
    ensures Advance(w, c).events == w.events
    ensures Accounted(Advance(w, c), base, deck, date) <==>
      !(PopsAway(w.mem.value, c) && !Graded(Since(w.events, base), w.mem.value.nodes[0]))
  {
    var (s, v) := (w.mem.value, Advance(w, c));
    AdvanceFrame(w, c);
    AdvanceShape(w, c);
    LastInDeck(s, Since(w.events, base), deck, date);
    if |s.nodes| > 1 && PopsAway(s, c) {
      AdvancePops(w, c);
      PoppedInDeck(s, v.mem.value, Since(w.events, base), deck, date);
    } else if |s.nodes| > 1 {
      AdvanceStays(w, c);
    }
  }

  lemma AdvancePops(w: World, c: AdvanceChoice)
    requires w.mem.Some? && |w.mem.value.nodes| > 1 && w.mem.value.date == Some(c.gate.today)
    requires PopsAway(w.mem.value, c)
    ensures var v := Advance(w, c);
      v.mem.Some? && PoppedFrom(v.mem.value, w.mem.value)
      && (v.row == w.row || v.row == Some(Row(c.today, Encoded(v.mem.value))))
  {
    AdvanceShape(w, c);
  }

  lemma AdvanceStays(w: World, c: AdvanceChoice)
    requires w.mem.Some? && |w.mem.value.nodes| > 1 && w.mem.value.date == Some(c.gate.today)
    requires !PopsAway(w.mem.value, c)
    ensures Advance(w, c).mem == w.mem && Advance(w, c).row == w.row
  {
    AdvanceShape(w, c);
  }

  /** With the memory session found stale, an advance loses nothing but the ledger. */
  lemma StaleAdvanceAccounts(w: World, c: AdvanceChoice, base: nat, deck: seq<Node>, date: Day)
    requires Accounted(w, base, deck, date) && LiveSession(w, c.gate).None?
    ensures Advance(w, c).epoch == w.epoch ==> Accounted(Advance(w, c), base, deck, date)
  {
    GateAnswers(w, c.gate);
    GateAccounts(w, c.gate, base, deck, date);
  }

  /** An advance of a memory session whose head is graded. */
  lemma GradedHeadAdvance(w: World, c: AdvanceChoice, base: nat, deck: seq<Node>, date: Day)
    requires Accounted(w, base, deck, date) && w.mem.Some? && Graded(Since(w.events, base), w.mem.value.nodes[0])
    requires date <= c.today <= c.gate.today
    ensures Advance(w, c).epoch == w.epoch ==> Accounted(Advance(w, c), base, deck, date)
  {
    if date == c.gate.today {
      AdvanceAccounts(w, c, base, deck, date);
    } else {
      StaleAdvanceAccounts(w, c, base, deck, date);
    }
  }

  lemma RepeatedGradeAccounts(w: World, s: Session, c: GradeChoice, base: nat, deck: seq<Node>, date: Day)
    requires Accounted(w, base, deck, date) && w.mem == Some(s) && date <= c.advance.today <= c.advance.gate.today
    requires HeadIs(s, c.word, c.activity) && (c.word in s.graded || (c.word, c.activity) in w.ledger)
    ensures RepeatedGrade(w, s, c).epoch == w.epoch ==> Accounted(RepeatedGrade(w, s, c), base, deck, date)
  {
    if c.word in s.graded {
      NotedHeadIsGraded(s, Since(w.events, base), deck, date);
      GradedHeadAdvance(w.(mem := Some(s)), c.advance, base, deck, date);
    } else {
      NotedInDeck(s, Since(w.events, base), deck, date);
      GradedHeadAdvance(w.(mem := Some(s.(graded := s.graded + [c.word]))), c.advance, base, deck, date);
    }
  }

  lemma FirstGradeAccounts(w: World, s: Session, c: GradeChoice, base: nat, deck: seq<Node>, date: Day)
    requires Accounted(w, base, deck, date) && w.mem == Some(s) && date <= c.advance.today <= c.advance.gate.today
    requires HeadIs(s, c.word, c.activity)
    ensures FirstGrade(w, s, c).epoch == w.epoch ==> Accounted(FirstGrade(w, s, c), base, deck, date)
  {
    var s1 := s.(graded := s.graded + [c.word]);
    var w1 := RecordGrade(w, c.word, c.activity).(mem := Some(s1));
    RecordedSince(w, c.word, c.activity, base);
    CopiesGrow(w.mem, w.row, Since(w.events, base), Since(w1.events, base), deck, date);
    NotedInDeck(s, Since(w1.events, base), deck, date);
    assert Accounted(w1, base, deck, date);
    var w2 := w1.(row := Some(Row(date, Encoded(s1))));
    assert Accounted(w2, base, deck, date);
    GradedHeadAdvance(w2, c.advance, base, deck, date);
  }

  lemma InSessionAccounts(w: World, s: Session, c: GradeChoice, base: nat, deck: seq<Node>, date: Day)
    requires Accounted(w, base, deck, date) && w.mem == Some(s) && date <= c.advance.today <= c.advance.gate.today
    ensures GradeInSession(w, s, c).epoch == w.epoch ==> Accounted(GradeInSession(w, s, c), base, deck, date)
  {
    if HeadIs(s, c.word, c.activity) {
      if c.word in s.graded || (c.word, c.activity) in w.ledger {
        RepeatedGradeAccounts(w, s, c, base, deck, date);
      } else {
        FirstGradeAccounts(w, s, c, base, deck, date);
      }
    }
  }

  /** A grade without a session, and the advance behind it. */
  lemma SessionlessAccountsExactlyWhen(w: World, c: GradeChoice, base: nat, deck: seq<Node>, date: Day)
    requires Accounted(w, base, deck, date) && w.mem.None? && date <= c.advance.today <= c.advance.gate.today
    ensures var w1 := RecordGrade(w, c.word, c.activity);
      var v := Advance(w1, c.advance);
      var live := LiveSession(w, c.advance.gate);
      (v.epoch == w.epoch ==> Accounted(v, base, deck, date)) <==>
        !(live.Some? && PopsAway(live.value, c.advance) && !Graded(Since(w1.events, base), live.value.nodes[0]))
  {
    var w1 := RecordGrade(w, c.word, c.activity);
    var live := LiveSession(w, c.advance.gate);
    RecordedSince(w, c.word, c.activity, base);
    CopiesGrow(w.mem, w.row, Since(w.events, base), Since(w1.events, base), deck, date);
    assert Accounted(w1, base, deck, date) && live == LiveSession(w1, c.advance.gate);
    if live.Some? {
      RestoredAccounts(w1, c.advance.gate, base, deck, date);
      var w2 := w1.(mem := live);
      assert Advance(w1, c.advance) == Advance(w2, c.advance);
      AdvanceAccounts(w2, c.advance, base, deck, date);
      AdvanceFrame(w2, c.advance);
    } else {
      StaleAdvanceAccounts(w1, c.advance, base, deck, date);
    }
  }

  lemma RestoredAccounts(w: World, c: GateChoice, base: nat, deck: seq<Node>, date: Day)
    requires Accounted(w, base, deck, date) && LiveSession(w, c).Some?
    ensures Accounted(w.(mem := LiveSession(w, c)), base, deck, date) && date == c.today
    ensures Gate(w, c) == (w.(mem := LiveSession(w, c)), LiveSession(w, c))
  {
    GateAnswers(w, c);
    GateAccounts(w, c, base, deck, date);
  }

  /** A grade tap loses no card, from memory or from storage, if and only if it is not
      the tap described. */
  lemma TapAccountsExactlyWhen(w: World, c: GradeChoice, base: nat, deck: seq<Node>, date: Day)
    requires Accounted(w, base, deck, date) && date <= w.day && Clock(w.day, Grading(c))
    ensures (GradeTap(w, c).epoch == w.epoch ==> Accounted(GradeTap(w, c), base, deck, date)) <==>
      !TapLosesCard(w, c, base)
  {
    GateAnswers(w, c.gate);
    GateAccounts(w, c.gate, base, deck, date);
    var (w1, got) := Gate(w, c.gate);
    if got.Some? {
      InSessionAccounts(w1, got.value, c, base, deck, date);
    } else if c.gate.loadOk || w.mem.Some? {
      RefusedTapAccounts(w, w1, c, base, deck, date);
    } else {
      UnreadTapAccounts(w, c, base, deck, date);
    }
  }

  /** A tap whose gate refused the session: nothing can bring it back. */
  lemma RefusedTapAccounts(w: World, w1: World, c: GradeChoice, base: nat, deck: seq<Node>, date: Day)
    requires Accounted(w, base, deck, date) && date <= w.day && Clock(w.day, Grading(c))
    requires Gate(w, c.gate) == (w1, None) && (c.gate.loadOk || w.mem.Some?)
    ensures GradeTap(w, c).epoch == w.epoch ==> Accounted(GradeTap(w, c), base, deck, date)
    ensures !TapLosesCard(w, c, base)
  {
    GateAnswers(w, c.gate);
    GateAccounts(w, c.gate, base, deck, date);
    RefusedForGood(w, c.gate, c.advance.gate, base, deck, date);
    if !GateWipes(w, c.gate) {
      RecordAccounts(w1, c.word, c.activity, base, deck, date);
      SessionlessAccountsExactlyWhen(w1, c, base, deck, date);
    } else {
      AdvanceEpoch(RecordGrade(w1, c.word, c.activity), c.advance);
    }
  }

  /** A tap whose gate could not read storage. */
  lemma UnreadTapAccounts(w: World, c: GradeChoice, base: nat, deck: seq<Node>, date: Day)
    requires Accounted(w, base, deck, date) && date <= w.day && Clock(w.day, Grading(c))
    requires w.mem.None? && !c.gate.loadOk
    ensures (GradeTap(w, c).epoch == w.epoch ==> Accounted(GradeTap(w, c), base, deck, date)) <==>
      !TapLosesCard(w, c, base)
  {
    var persistedStale := c.snapshotOk && PersistedStale(w.row, c.snapshotDay);
    assert !c.throttled ==> GradeTap(w, c) == GradeWithoutSession(w, persistedStale, c);
    SessionlessAccountsExactlyWhen(w, c, base, deck, date);
    var w1 := RecordGrade(w, c.word, c.activity);
    RecordedSince(w, c.word, c.activity, base);
    CopiesGrow(w.mem, w.row, Since(w.events, base), Since(w1.events, base), deck, date);
    var live := LiveSession(w, c.advance.gate);
    if live.Some? {
      RestoredAccounts(w, c.advance.gate, base, deck, date);
    }
  }

  lemma AdvanceEpoch(w: World, c: AdvanceChoice)
    ensures Advance(w, c).epoch >= w.epoch
  {
  }

  lemma ResumeAccounts(w: World, s: Session, now: Day, c: ResumeChoice, base: nat, deck: seq<Node>, date: Day)
    requires Accounted(w, base, deck, date) && w.mem == Some(s)
    ensures Accounted(Resume(w, s, now, c), base, deck, date)
  {
    ResumeShape(w, s, now, c);
    SameCardsInDeck(s, Resume(w, s, now, c).mem.value, Since(w.events, base), deck, date);
  }

  /** Every ungraded card of the stored session is still stored. */
  ghost predicate KeepsStored(w: World, v: World, base: nat) {
    forall n <- StoredNodes(w) :: Graded(Since(w.events, base), n) || n in StoredNodes(v)
  }

  /** The list a start leaves in storage: its own, or the one that was there. */
  function DeckAfter(w: World, c: StartChoice, deck: seq<Node>): seq<Node> {
    if Reached(w, c) && Writes(c) && !Removes(c) then c.nodes else deck
  }

  function DateAfter(w: World, c: StartChoice, date: Day): Day {
    if Reached(w, c) && Writes(c) && !Removes(c) then c.today else date
  }

  /** A start keeps every ungraded card of the stored session in storage if and only if
      it is not the start described; a session discarded by its gate, for being of
      another day, is apart. */
  lemma StartKeepsExactlyWhen(w: World, c: StartChoice, base: nat, deck: seq<Node>, date: Day)
    requires Accounted(w, base, deck, date) && (c.blocked || !GateWipes(w, c.gate))
    ensures KeepsStored(w, Start(w, c), base) <==> !StartLosesCards(w, c, base)
    ensures Start(w, c).events == w.events
    ensures !StartLosesCards(w, c, base) && DistinctWords(c.nodes) ==>
      Accounted(Start(w, c), base, DeckAfter(w, c, deck), DateAfter(w, c, date))
  {
    if Reached(w, c) {
      ReachedStart(w, c);
      FreshKeepsExactlyWhen(w.(mem := None), c, base, deck, date);
    } else if !c.blocked && LiveSession(w, c.gate).Some? {
      ResumedStart(w, c, base, deck, date);
    } else {
      RefusedStart(w, c);
    }
  }

  lemma GateKeepsSlots(w: World, c: GateChoice)
    ensures var (w1, got) := Gate(w, c);
      w1.used == w.used && (got.None? ==> w1.mem.None?) && (!GateWipes(w, c) ==> w1.row == w.row)
  {
  }

  predicate SameCopies(v: World, u: World) {
    v.mem == u.mem && v.row == u.row && v.events == u.events && v.ledger == u.ledger
  }

  /** A start that goes on to build a fresh session does so with no session in memory. */
  lemma ReachedStart(w: World, c: StartChoice)
    requires Reached(w, c) && !GateWipes(w, c.gate)
    ensures SameCopies(Start(w, c), FreshBody(w.(mem := None), c))
  {
    GateAnswers(w, c.gate);
    GateKeepsSlots(w, c.gate);
    var w1 := Gate(w, c.gate).0;
    FreshCopies(w.(mem := None), w1, c);
    FreshCopies(w.(mem := None), w1.(used := Consumed(w1.used, c.slotDay)), c);
  }

  /** What a fresh body does to the copies depends on nothing else. */
  lemma FreshCopies(u: World, v: World, c: StartChoice)
    requires SameCopies(u, v)
    ensures SameCopies(FreshBody(u, c), FreshBody(v, c))
  {
    if Writes(c) {
      var s := Session(c.nodes, [], false, None, None, None, Some(c.today));
      var (u1, v1) := (ClearGrades(u).(mem := Some(s)), ClearGrades(v).(mem := Some(s)));
      FirstCardCopies(Persist(u1, s, c.today, true), Persist(v1, s, c.today, true), s, c);
    }
  }

  lemma FirstCardCopies(u: World, v: World, s: Session, c: StartChoice)
    requires SameCopies(u, v) && s.nodes != []
    ensures SameCopies(FirstCard(u, s, c), FirstCard(v, s, c))
  {
    BuildIgnoresFlips(s, u.flipped, v.flipped, s.nodes[0], c.build);
  }

  lemma BuildIgnoresFlips(s: Session, flipped: set<int>, other: set<int>, node: Node, c: BuildChoice)
    ensures Build(s, flipped, node, c).state == Build(s, other, node, c).state
    ensures Build(s, flipped, node, c).view == Build(s, other, node, c).view
  {
  }

  lemma ResumedStart(w: World, c: StartChoice, base: nat, deck: seq<Node>, date: Day)
    requires Accounted(w, base, deck, date) && !c.blocked && LiveSession(w, c.gate).Some?
    ensures var v := Start(w, c);
      Accounted(v, base, deck, date) && KeepsStored(w, v, base) && v.events == w.events
  {
    GateAnswers(w, c.gate);
    GateAccounts(w, c.gate, base, deck, date);
    GateKeepsSlots(w, c.gate);
    var (w1, got) := Gate(w, c.gate);
    ResumeAccounts(w1, got.value, c.gate.restoreDay, c.resume, base, deck, date);
    ResumeKeepsStored(w1, got.value, c.gate.restoreDay, c.resume, base, deck, date);
    ResumeRecordsNothing(w1, got.value, c.gate.restoreDay, c.resume);
  }

  /** A start turned away leaves the copies alone, but for a stale one in memory. */
  lemma RefusedStart(w: World, c: StartChoice)
    requires !Reached(w, c) && (c.blocked || (LiveSession(w, c.gate).None? && !GateWipes(w, c.gate)))
    ensures SameCopies(Start(w, c), w) || SameCopies(Start(w, c), w.(mem := None))
  {
    if !c.blocked {
      GateAnswers(w, c.gate);
      GateKeepsSlots(w, c.gate);
    }
  }

  lemma ResumeRecordsNothing(w: World, s: Session, now: Day, c: ResumeChoice)
    requires s.nodes != []
    ensures Resume(w, s, now, c).events == w.events
  {
  }

  lemma ResumeKeepsStored(w: World, s: Session, now: Day, c: ResumeChoice, base: nat, deck: seq<Node>, date: Day)
    requires Accounted(w, base, deck, date) && w.mem == Some(s)
    ensures KeepsStored(w, Resume(w, s, now, c), base)
  {
    ResumeShape(w, s, now, c);
    var done := Since(w.events, base);
    forall n <- StoredNodes(w) | !Graded(done, n) ensures n in s.nodes {
      UngradedIsHeld(s, done, deck, date, n);
    }
  }

  /** The body of a fresh start, with `w` the state it begins in. */
  lemma FreshKeepsExactlyWhen(w: World, c: StartChoice, base: nat, deck: seq<Node>, date: Day)
    requires Accounted(w, base, deck, date) && w.mem.None?
    ensures var (v, done) := (FreshBody(w, c), Since(w.events, base));
      && v.events == w.events
      && (KeepsStored(w, v, base) <==> !exists n <- StoredNodes(w) ::
            !Graded(done, n) && (Removes(c) || (Writes(c) && n !in c.nodes)))
      && (KeepsStored(w, v, base) && DistinctWords(c.nodes) ==>
            if Writes(c) && !Removes(c) then Accounted(v, base, c.nodes, c.today) else Accounted(v, base, deck, date))
  {
    FreshFrame(w, c);
    FreshRow(w, c);
    if Writes(c) && !Removes(c) {
      if DistinctWords(c.nodes) {
        FreshBodyDeals(w, c, base);
      }
    } else if w.row.Some? {
      LastInDeck(w.row.value.blob.state, Since(w.events, base), deck, date);
    }
  }

  /** What a fresh start leaves in storage. */
  lemma FreshRow(w: World, c: StartChoice)
    ensures var v := FreshBody(w, c);
      && (Removes(c) ==> v.row.None? && v.mem.None?)
      && (Writes(c) && !Removes(c) ==> StoredNodes(v) == c.nodes)
      && (!Writes(c) && !Removes(c) ==> v.row == w.row && (w.mem.None? ==> v.mem.None?))
  {
    if c.nodes != [] {
      BuildFrame(Session(c.nodes, [], false, None, None, None, Some(c.today)), w.flipped, c.nodes[0], c.build);
    }
  }

  lemma RevealAccounts(w: World, c: RevealChoice, base: nat, deck: seq<Node>, date: Day)
    requires Accounted(w, base, deck, date)
    ensures RevealTap(w, c).epoch == w.epoch ==> Accounted(RevealTap(w, c), base, deck, date)
  {
    GateAnswers(w, c.gate);
    GateAccounts(w, c.gate, base, deck, date);
    var (w1, got) := Gate(w, c.gate);
    if got.Some? {
      var s1 := got.value.(revealed := true, promptWord := Some(c.word));
      SameCardsInDeck(got.value, s1, Since(w1.events, base), deck, date);
    }
  }

  /******* Every run *******/

  /** An event in which yesterday's session is discarded. */
  predicate Discards(w: World, e: Event) {
    match e
    case Starting(c) => !c.blocked && GateWipes(w, c.gate)
    case _ => Step(w, e).epoch != w.epoch
  }

  /** Only a session of an earlier day is ever discarded. */
  lemma DiscardsAreStale(w: World, e: Event, base: nat, deck: seq<Node>, date: Day)
    requires Accounted(w, base, deck, date) && date <= w.day && Clock(w.day, e) && !e.Deleting? && Discards(w, e)
    ensures date < LastReading(w.day, e)
  {
    match e
    case Starting(c) => GateAnswers(w, c.gate);
    case Grading(c) =>
      if c.advance.gate.restoreDay == date {
        SameDayTapKeepsEpoch(w, c, base, deck, date);
      }
    case Revealing(c) => GateAnswers(w, c.gate);
    case Restart =>
    case Midnight(_) =>
  }

  lemma SameDayTapKeepsEpoch(w: World, c: GradeChoice, base: nat, deck: seq<Node>, date: Day)
    requires Accounted(w, base, deck, date) && date <= w.day && Clock(w.day, Grading(c))
    requires c.advance.gate.restoreDay == date
    ensures GradeTap(w, c).epoch == w.epoch
  {
    GateAnswers(w, c.gate);
    GateAccounts(w, c.gate, base, deck, date);
    assert c.tapDay == c.snapshotDay == c.gate.today == c.gate.restoreDay == date && c.advance.gate.today == date;
    assert SameDay(w, date) && !PersistedStale(w.row, c.snapshotDay);
    var (w1, got) := Gate(w, c.gate);
    assert SameDay(w1, date) && w1.epoch == w.epoch;
    if got.Some? {
      SameDayInSessionKeepsEpoch(w1, got.value, c, date);
    } else {
      SameDayAdvanceKeepsEpoch(RecordGrade(w1, c.word, c.activity), c.advance, date);
    }
  }

  lemma SameDayInSessionKeepsEpoch(w: World, s: Session, c: GradeChoice, date: Day)
    requires w.mem == Some(s) && SameDay(w, date)
    requires c.advance.gate.today == c.advance.gate.restoreDay == date && s.nodes != []
    ensures GradeInSession(w, s, c).epoch == w.epoch
  {
    var s1 := s.(graded := s.graded + [c.word]);
    SameDayAdvanceKeepsEpoch(w.(mem := Some(s)), c.advance, date);
    SameDayAdvanceKeepsEpoch(w.(mem := Some(s1)), c.advance, date);
    var w2 := RecordGrade(w, c.word, c.activity).(mem := Some(s1));
    SameDayAdvanceKeepsEpoch(Persist(w2, s1, PersistDay(s1.date, s1, c.gate.restoreDay), true), c.advance, date);
  }

  /** Both copies are of one day and in order. */
  predicate SameDay(w: World, date: Day) {
    && (w.mem.Some? ==> w.mem.value.date == Some(date))
    && (w.row.Some? ==>
          w.row.value.date == date && w.row.value.blob.Encoded? && w.row.value.blob.state.date == Some(date)
          && w.row.value.blob.state.nodes != [])
  }

  lemma SameDayAdvanceKeepsEpoch(w: World, c: AdvanceChoice, date: Day)
    requires SameDay(w, date) && c.gate.today == c.gate.restoreDay == date
    ensures Advance(w, c).epoch == w.epoch
  {
    GateAnswers(w, c.gate);
    AdvanceFrame(w, c);
  }

  /** A card the learner can still be shown: stored, and not popped from memory. */
  predicate Held(w: World, n: Node) {
    n in StoredNodes(w) && (w.mem.Some? ==> n in w.mem.value.nodes)
  }

  /** Every card held before and not graded by now is held still. */
  ghost predicate HeldKept(w: World, v: World, base: nat) {
    forall n <- StoredNodes(w) :: Held(w, n) ==> Graded(Since(v.events, base), n) || Held(v, n)
  }

  lemma UngradedIsHeld(s: Session, done: Pairs, deck: seq<Node>, date: Day, n: Node)
    requires InDeck(s, done, deck, date) && n in deck && !Graded(done, n)
    ensures n in s.nodes
  {
    assert deck == deck[..|deck| - |s.nodes|] + s.nodes;
  }

  lemma HeldOrGraded(w: World, base: nat, deck: seq<Node>, date: Day)
    requires Accounted(w, base, deck, date)
    ensures forall n <- deck :: Graded(Since(w.events, base), n) || Held(w, n)
    ensures forall n <- StoredNodes(w) :: n in deck
  {
    var done := Since(w.events, base);
    forall n <- deck | !Graded(done, n) ensures Held(w, n) {
      UngradedIsHeld(w.row.value.blob.state, done, deck, date, n);
      if w.mem.Some? {
        UngradedIsHeld(w.mem.value, done, deck, date, n);
      }
    }
  }

  /** Where the deck is still accounted for, every card of it was kept. */
  lemma AccountedKeeps(w: World, v: World, base: nat, deck: seq<Node>, date: Day)
    requires Accounted(w, base, deck, date) && Accounted(v, base, deck, date)
    ensures HeldKept(w, v, base)
  {
    HeldOrGraded(w, base, deck, date);
    HeldOrGraded(v, base, deck, date);
  }

  /** The tap described does lose the head it moves past. */
  lemma LosingTapDropsHead(w: World, c: GradeChoice, base: nat, deck: seq<Node>, date: Day)
    requires Accounted(w, base, deck, date) && date <= w.day && Clock(w.day, Grading(c)) && TapLosesCard(w, c, base)
    ensures !HeldKept(w, GradeTap(w, c), base)
  {
    var w1 := RecordGrade(w, c.word, c.activity);
    var live := LiveSession(w, c.advance.gate);
    GradesExactlyWhen(w, c);
    RecordedSince(w, c.word, c.activity, base);
    RestoredAccounts(w, c.advance.gate, base, deck, date);
    var w2 := w1.(mem := live);
    var v := GradeTap(w, c);
    assert v == Advance(w1, c.advance) == Advance(w2, c.advance);
    AdvanceShape(w2, c.advance);
    var s := live.value;
    assert Held(w, s.nodes[0]);
    if |s.nodes| > 1 {
      AdvancePops(w2, c.advance);
      HeadNotBehind(s, deck);
    } else {
      LastIsCleared(w2, c.advance);
    }
  }

  lemma HeadNotBehind(s: Session, deck: seq<Node>)
    requires DistinctWords(deck) && 0 < |s.nodes| <= |deck| && s.nodes == deck[|deck| - |s.nodes|..]
    ensures s.nodes[0] !in s.nodes[1..]
  {
    var k := |deck| - |s.nodes|;
    forall i | 0 < i < |s.nodes| ensures s.nodes[i] != s.nodes[0] {
      assert s.nodes[0] == deck[k] && s.nodes[i] == deck[k + i];
    }
  }

  lemma LastIsCleared(w: World, c: AdvanceChoice)
    requires w.mem.Some? && |w.mem.value.nodes| == 1 && w.mem.value.date == Some(c.gate.today)
    requires PopsAway(w.mem.value, c)
    ensures Advance(w, c).mem.None? && Advance(w, c).row.None?
  {
  }

  /** Starts keep what is held exactly when they keep what is stored. */
  lemma StoredIsHeld(w: World, v: World, base: nat, deck: seq<Node>, date: Day)
    requires Accounted(w, base, deck, date) && v.events == w.events
    requires v.mem.Some? ==> forall n <- StoredNodes(v) :: !Graded(Since(w.events, base), n) ==> n in v.mem.value.nodes
    ensures HeldKept(w, v, base) <==> KeepsStored(w, v, base)
  {
    HeldOrGraded(w, base, deck, date);
  }

  lemma StartHoldsStored(w: World, c: StartChoice, base: nat, deck: seq<Node>, date: Day)
    requires Accounted(w, base, deck, date) && (c.blocked || !GateWipes(w, c.gate))
    ensures var v := Start(w, c);
      v.mem.Some? ==> forall n <- StoredNodes(v) :: !Graded(Since(w.events, base), n) ==> n in v.mem.value.nodes
  {
    MemoryHoldsStored(w, base, deck, date);
    if !c.blocked {
      GateAnswers(w, c.gate);
      GateAccounts(w, c.gate, base, deck, date);
      GateKeepsSlots(w, c.gate);
      var (w1, got) := Gate(w, c.gate);
      if got.Some? {
        ResumeAccounts(w1, got.value, c.gate.restoreDay, c.resume, base, deck, date);
        MemoryHoldsStored(Start(w, c), base, deck, date);
      } else if Reached(w, c) {
        FreshHoldsStored(w1, c);
        FreshHoldsStored(w1.(used := Consumed(w1.used, c.slotDay)), c);
      }
    }
  }

  lemma MemoryHoldsStored(w: World, base: nat, deck: seq<Node>, date: Day)
    requires Accounted(w, base, deck, date)
    ensures w.mem.Some? ==> forall n <- StoredNodes(w) :: !Graded(Since(w.events, base), n) ==> n in w.mem.value.nodes
  {
    HeldOrGraded(w, base, deck, date);
  }

  lemma FreshHoldsStored(w: World, c: StartChoice)
    requires w.mem.None?
    ensures FreshBody(w, c).mem.Some? ==> StoredNodes(FreshBody(w, c)) == FreshBody(w, c).mem.value.nodes
  {
    FreshRow(w, c);
    if c.nodes != [] {
      BuildFrame(Session(c.nodes, [], false, None, None, None, Some(c.today)), w.flipped, c.nodes[0], c.build);
    }
  }

  /** Any event but a delete, and but the discard of an earlier day's session, keeps
      every ungraded card if and only if it is none of the two described. */
  lemma StepKeepsCardsExactlyWhen(w: World, e: Event, base: nat, deck: seq<Node>, date: Day)
    requires Accounted(w, base, deck, date) && date <= w.day && Clock(w.day, e)
    requires !e.Deleting? && !Discards(w, e)
    ensures HeldKept(w, Step(w, e), base) <==> !LosesCards(w, e, base)
  {
    match e
    case Starting(c) =>
      StartKeepsExactlyWhen(w, c, base, deck, date);
      StartHoldsStored(w, c, base, deck, date);
      StoredIsHeld(w, Step(w, e), base, deck, date);
    case Grading(c) =>
      TapAccountsExactlyWhen(w, c, base, deck, date);
      if TapLosesCard(w, c, base) {
        LosingTapDropsHead(w, c, base, deck, date);
      } else {
        AccountedKeeps(w, Step(w, e), base, deck, date);
      }
    case Revealing(c) =>
      RevealAccounts(w, c, base, deck, date);
      AccountedKeeps(w, Step(w, e), base, deck, date);
    case Restart => AccountedKeeps(w, Step(w, e), base, deck, date);
    case Midnight(_) => AccountedKeeps(w, Step(w, e), base, deck, date);
  }

  /** The list in force and its day after an event. */
  function DeckNext(w: World, e: Event, deck: seq<Node>): seq<Node> {
    if e.Starting? then DeckAfter(w, e.s, deck) else deck
  }

  function DateNext(w: World, e: Event, date: Day): Day {
    if e.Starting? then DateAfter(w, e.s, date) else date
  }

  /** A run without deletes, without discards of an earlier day's session and without the
      two events that lose cards, whose starts list no word twice. */
  ghost predicate KeepsCards(w: World, es: seq<Event>, base: nat) {
    es == [] ||
    (var (before, e) := (es[..|es| - 1], es[|es| - 1]);
     var v := Run(w, before);
     && KeepsCards(w, before, base) && !e.Deleting? && !Discards(v, e) && !LosesCards(v, e, base)
     && (e.Starting? ==> DistinctWords(e.s.nodes)))
  }

  lemma StepAccounts(w: World, e: Event, base: nat, deck: seq<Node>, date: Day)
    requires Accounted(w, base, deck, date) && date <= w.day && Clock(w.day, e)
    requires !e.Deleting? && !Discards(w, e) && !LosesCards(w, e, base)
    requires e.Starting? ==> DistinctWords(e.s.nodes)
    ensures Accounted(Step(w, e), base, DeckNext(w, e, deck), DateNext(w, e, date))
    ensures DateNext(w, e, date) <= Step(w, e).day
  {
    match e
    case Starting(c) => StartKeepsExactlyWhen(w, c, base, deck, date);
    case Grading(c) => TapAccountsExactlyWhen(w, c, base, deck, date);
    case Revealing(c) => RevealAccounts(w, c, base, deck, date);
    case Restart =>
    case Midnight(_) =>
  }

  /** Over every such run, across restarts, midnights, fresh starts, and failing reads,
      saves, edits, sends and builds: every card that was held at its beginning has been
      graded in it or is held still, in storage and in memory. */
  lemma {:induction false} EveryCardGoneIsGraded(w: World, es: seq<Event>, base: nat, deck: seq<Node>, date: Day)
    returns (deck': seq<Node>, date': Day)
    requires Accounted(w, base, deck, date) && date <= w.day && Timely(w, es) && KeepsCards(w, es, base)
    ensures Accounted(Run(w, es), base, deck', date') && date' <= Run(w, es).day
    ensures forall n <- deck :: Graded(Since(Run(w, es).events, base), n) || Held(Run(w, es), n)
  {
    if es == [] {
      deck', date' := deck, date;
    } else {
      var (before, e) := (es[..|es| - 1], es[|es| - 1]);
      var v := Run(w, before);
      var d, t := EveryCardGoneIsGraded(w, before, base, deck, date);
      StepAccounts(v, e, base, d, t);
      StepKeepsCardsExactlyWhen(v, e, base, d, t);
      SinceGrows(v, e, base);
      deck', date' := DeckNext(v, e, d), DateNext(v, e, t);
    }
    HeldOrGraded(Run(w, es), base, deck', date');
  }

  /** What was graded stays graded. */
  lemma SinceGrows(w: World, e: Event, base: nat)
    requires !e.Deleting?
    ensures Since(w.events, base) <= Since(Step(w, e).events, base)
  {
    EventsGrow(w, e);
    var later := Step(w, e).events;
    forall p <- Since(w.events, base) ensures p in Since(later, base) {
      var i :| base <= i < |w.events| && p == (w.events[i].word, w.events[i].activity);
      assert later[i] == w.events[i];
    }
  }

  lemma EventsGrow(w: World, e: Event)
    requires !e.Deleting?
    ensures w.events <= Step(w, e).events
  {
    match e
    case Starting(c) => StartRecordsNothing(w, c);
    case Grading(c) => GradesExactlyWhen(w, c);
    case Revealing(c) => GateAnswers(w, c.gate);
    case Restart =>
    case Midnight(_) =>
  }

  lemma StartRecordsNothing(w: World, c: StartChoice)
    ensures Start(w, c).events == w.events
  {
    GateAnswers(w, c.gate);
    var (w1, got) := Gate(w, c.gate);
    if got.Some? && got.value.nodes != [] {
      ResumeRecordsNothing(w1, got.value, c.gate.restoreDay, c.resume);
    } else {
      FreshFrame(w1, c);
      FreshFrame(w1.(used := Consumed(w1.used, c.slotDay)), c);
    }
  }

  /******* Such events exist *******/

  /** One failed read is enough: with everything else in order, a tap on another word
      moves a fresh session past its head in memory and storage, and the only review
      event is for the other word. */
  lemma FailedRestoreLosesCard(w: World, s: Session, c: GradeChoice, base: nat)
    requires Inv(w) && w.mem.None? && w.row == Some(Row(w.day, Encoded(s))) && |s.nodes| > 1
    requires !Graded(Since(w.events, base), s.nodes[0]) && s.nodes[0].word != c.word
    requires SteadyTap(c.(gate := c.gate.(loadOk := true)), w.day) && !c.gate.loadOk
    requires !c.throttled && c.ledgerOk && c.result.Graded? && c.notifyOk && (c.word, c.activity) !in w.ledger
    requires c.advance.today == w.day && c.advance.gate == GateChoice(w.day, w.day, true, true)
    requires c.advance.build.fault.NoFault? && c.advance.edit.Done? && c.advance.persistOk
    ensures TapLosesCard(w, c, base)
    ensures var v := GradeTap(w, c);
      && v.mem.Some? && v.mem.value.nodes == s.nodes[1..] && v.row == Some(Row(w.day, Encoded(v.mem.value)))
      && v.events == w.events + [ReviewEvent(c.word, c.activity, w.epoch)]
      && SuffixOk(v)
  {
    GradesExactlyWhen(w, c);
    var w1 := RecordGrade(w, c.word, c.activity);
    var live := LiveSession(w, c.advance.gate);
    assert live == Some(Decode(s)) && GradeTap(w, c) == Advance(w1, c.advance);
    var w2 := w1.(mem := live);
    assert Advance(w1, c.advance) == Advance(w2, c.advance);
    AdvanceShape(w2, c.advance);
    BuildFrame(PopNext(live.value).state, w2.flipped, s.nodes[1], c.advance.build);
  }

  /** If it is the last card, the session ends with the card ungraded. */
  lemma FailedRestoreEndsSession(w: World, s: Session, c: GradeChoice, base: nat)
    requires Inv(w) && w.mem.None? && w.row == Some(Row(w.day, Encoded(s))) && |s.nodes| == 1
    requires !Graded(Since(w.events, base), s.nodes[0]) && s.nodes[0].word != c.word
    requires SteadyTap(c.(gate := c.gate.(loadOk := true)), w.day) && !c.gate.loadOk
    requires !c.throttled && c.ledgerOk && c.result.Graded? && c.notifyOk && (c.word, c.activity) !in w.ledger
    requires c.advance.today == w.day && c.advance.gate == GateChoice(w.day, w.day, true, true)
    requires c.advance.edit.Done? && c.advance.clearOk
    ensures TapLosesCard(w, c, base)
    ensures var v := GradeTap(w, c);
      v.mem.None? && v.row.None? && v.events == w.events + [ReviewEvent(c.word, c.activity, w.epoch)]
  {
    GradesExactlyWhen(w, c);
    var w1 := RecordGrade(w, c.word, c.activity);
    assert LiveSession(w, c.advance.gate) == Some(Decode(s)) && GradeTap(w, c) == Advance(w1, c.advance);
  }

  /** The same one failed read in a start that goes well: the session is replaced by a
      fresh list, and a card that the list lacks is gone ungraded. */
  lemma FailedRestoreReplacesSession(w: World, s: Session, c: StartChoice, base: nat, n: Node)
    requires Inv(w) && w.mem.None? && w.row == Some(Row(w.day, Encoded(s)))
    requires n in s.nodes && !Graded(Since(w.events, base), n) && n !in c.nodes
    requires !c.blocked && !c.gate.loadOk && (c.bypass || (c.consumeOk && CanConsume(w.used, c.slotDay, c.limit)))
    requires Delivers(c)
    ensures StartLosesCards(w, c, base)
    ensures var v := Start(w, c);
      n !in StoredNodes(v) && v.mem.Some? && n !in v.mem.value.nodes && v.events == w.events
    ensures LiveSession(w, GateChoice(w.day, w.day, true, c.gate.invalidateOk)).Some?
  {
    GateAnswers(w, c.gate);
    var w1 := Gate(w, c.gate).0;
    StartRecordsNothing(w, c);
    DeliveredRow(w1, c);
    DeliveredRow(w1.(used := Consumed(w1.used, c.slotDay)), c);
  }

  lemma DeliveredRow(w: World, c: StartChoice)
    requires Delivers(c)
    ensures var v := FreshBody(w, c);
      StoredNodes(v) == c.nodes && v.mem.Some? && v.mem.value.nodes == c.nodes
  {
    FreshRow(w, c);
    BuildFrame(Session(c.nodes, [], false, None, None, None, Some(c.today)), w.flipped, c.nodes[0], c.build);
  }

  /** And in one that raises after the ledger was cleared: nothing of the session is left. */
  lemma FailedRestoreRemovesSession(w: World, s: Session, c: StartChoice, base: nat)
    requires Inv(w) && w.mem.None? && w.row == Some(Row(w.day, Encoded(s)))
    requires !AllGraded(Since(w.events, base), s.nodes)
    requires !c.blocked && !c.gate.loadOk && (c.bypass || (c.consumeOk && CanConsume(w.used, c.slotDay, c.limit)))
    requires c.nodes != [] && (c.end.RaisedSaving? || c.end.RaisedSending?) && c.cleanupOk
    ensures StartLosesCards(w, c, base)
    ensures Start(w, c).mem.None? && Start(w, c).row.None? && Start(w, c).ledger == {}
  {
    GateAnswers(w, c.gate);
    var w1 := Gate(w, c.gate).0;
    RemovedLedger(w1, c);
    RemovedLedger(w1.(used := Consumed(w1.used, c.slotDay)), c);
  }

  lemma RemovedLedger(w: World, c: StartChoice)
    requires c.nodes != [] && (c.end.RaisedSaving? || c.end.RaisedSending?) && c.cleanupOk
    ensures var v := FreshBody(w, c);
      v.mem.None? && v.row.None? && v.ledger == {}
  {
  }
}

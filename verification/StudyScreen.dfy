/** What the learner sees: every card rendered is the head of the session, over every
    run the last one rendered is, except after the events described here, and its
    buttons grade that card. */
module StudyScreen {
  import opened Wrappers
  import opened SessionQuota
  import opened StudySession
  import opened StudySafety

  /******* What a view is of *******/

  /** `view` is of the card `n`: of its word and, with grade buttons, of its activity. */
  predicate OfCard(view: View, n: Node) {
    match view
    case Front(word, _) => word == n.word
    case Back(word, grid) => n == Node(word, grid)
  }

  /** `view` is what session `s` has to show: its head card, and a hidden front only with
      the prompt frozen for it, unrevealed and with the chat key of the word gone. */
  predicate Depicts(view: View, s: Session, flipped: set<int>) {
    && s.nodes != [] && OfCard(view, s.nodes[0])
    && (view.Front? ==>
          && s.promptWord == Some(view.word) && s.prompt == Some(view.prompt) && !s.revealed
          && view.word !in flipped)
  }

  /** At most one card was rendered, and it is what the session in memory has to show. */
  predicate RendersHead(w: World, v: World) {
    v.views == w.views ||
    (&& v.mem.Some? && v.views != [] && v.views == w.views + [v.views[|v.views| - 1]]
     && Depicts(v.views[|v.views| - 1], v.mem.value, v.flipped))
  }

  lemma BuildDepicts(s: Session, flipped: set<int>, c: BuildChoice)
    requires s.nodes != []
    ensures var b := Build(s, flipped, s.nodes[0], c);
      && (b.view.Some? <==> c.fault.NoFault?)
      && (b.view.Some? ==> Depicts(b.view.value, b.state, b.flipped))
      && b.state.nodes == s.nodes && b.state.graded == s.graded && b.state.date == s.date && b.state.msgId == s.msgId
  {
  }

  lemma AdvanceRenders(w: World, c: AdvanceChoice)
    requires w.mem.Some? ==> w.mem.value.nodes != []
    ensures RendersHead(w, Advance(w, c))
  {
    GateAnswers(w, c.gate);
    var (w1, got) := Gate(w, c.gate);
    if got.Some? {
      var p := PopNext(got.value);
      if p.state.nodes != [] {
        BuildDepicts(p.state, w1.flipped, c.build);
        AdvanceViews(w, c);
      }
    }
  }

  /** The views after an advance, if the session it finds has another card. */
  lemma AdvanceViews(w: World, c: AdvanceChoice)
    requires LiveSession(w, c.gate).Some? && |LiveSession(w, c.gate).value.nodes| > 1
    ensures var s := PopNext(LiveSession(w, c.gate).value).state;
      var b := Build(s, w.flipped, s.nodes[0], c.build);
      if b.view.Some? && (c.edit.Done? || c.edit.NotModified?) then
        Advance(w, c).views == w.views + [b.view.value]
        && Advance(w, c).mem == Some(b.state) && Advance(w, c).flipped == b.flipped
      else Advance(w, c).views == w.views
  {
    GateAnswers(w, c.gate);
  }

  lemma ResumeRenders(w: World, s: Session, now: Day, c: ResumeChoice)
    requires s.nodes != []
    ensures RendersHead(w, Resume(w, s, now, c))
  {
    BuildDepicts(s, w.flipped, c.build);
    var b := Build(s, w.flipped, s.nodes[0], c.build);
    if c.notifyOk && b.view.Some? && c.sent.Some? {
      assert Resume(w, s, now, c).views == w.views + [b.view.value];
    }
  }

  lemma FreshRenders(w: World, c: StartChoice)
    ensures RendersHead(w, FreshBody(w, c))
    ensures FreshBody(w, c).views == w.views || Delivers(c)
  {
    if Writes(c) {
      var s := Session(c.nodes, [], false, None, None, None, Some(c.today));
      BuildDepicts(s, w.flipped, c.build);
      var b := Build(s, w.flipped, s.nodes[0], c.build);
      if Delivers(c) {
        assert FreshBody(w, c).views == w.views + [b.view.value];
      }
    }
  }

  lemma StartRenders(w: World, c: StartChoice)
    ensures RendersHead(w, Start(w, c))
  {
    GateAnswers(w, c.gate);
    var (w1, got) := Gate(w, c.gate);
    if got.Some? && got.value.nodes != [] {
      ResumeRenders(w1, got.value, c.gate.restoreDay, c.resume);
    } else {
      FreshRenders(w1, c);
      FreshRenders(w1.(used := Consumed(w1.used, c.slotDay)), c);
    }
  }

  lemma TapRenders(w: World, c: GradeChoice, upTo: Day)
    requires SessionsOk(w, upTo)
    ensures RendersHead(w, GradeTap(w, c))
  {
    GateAnswers(w, c.gate);
    var (w1, got) := Gate(w, c.gate);
    match got
    case Some(s) => InSessionRenders(w1, s, c);
    case None => AdvanceRenders(RecordGrade(w1, c.word, c.activity), c.advance);
  }

  lemma InSessionRenders(w: World, s: Session, c: GradeChoice)
    requires w.mem == Some(s) && s.nodes != []
    ensures RendersHead(w, GradeInSession(w, s, c))
  {
    var s1 := s.(graded := s.graded + [c.word]);
    AdvanceRenders(w.(mem := Some(s)), c.advance);
    AdvanceRenders(w.(mem := Some(s1)), c.advance);
    var w1 := RecordGrade(w, c.word, c.activity).(mem := Some(s1));
    AdvanceRenders(Persist(w1, s1, PersistDay(s1.date, s1, c.gate.restoreDay), true), c.advance);
  }

  lemma DeleteRenders(w: World, c: DeleteChoice)
    ensures RendersHead(w, DeleteTap(w, c))
  {
    GateAnswers(w, c.gate);
    var (w1, got) := Gate(w, c.gate);
    if got.Some? && got.value.nodes != [] {
      var s1 := Refilled(got.value, c.due);
      var w2 := Persist(w1.(mem := Some(s1)), s1, PersistDay(s1.date, s1, c.gate.restoreDay), true);
      AdvanceRenders(w2, c.advance);
    }
  }

  lemma RevealRenders(w: World, c: RevealChoice)
    ensures RendersHead(w, RevealTap(w, c))
  {
    GateAnswers(w, c.gate);
    var (w1, got) := Gate(w, c.gate);
    if got.Some? && RevealTap(w, c).views != w.views {
      var x := Back(c.word, got.value.nodes[0].activity);
      assert RevealTap(w, c).views == w.views + [x];
    }
  }

  /** Every event, with any failures, renders at most one card, and that is the head of
      the session it leaves in memory, under its own grade buttons or its own prompt. */
  lemma EveryViewShowsHead(w: World, e: Event)
    requires Inv(w)
    ensures RendersHead(w, Step(w, e))
  {
    match e
    case Starting(c) => StartRenders(w, c);
    case Grading(c) => TapRenders(w, c, w.day);
    case Revealing(c) => RevealRenders(w, c);
    case Deleting(c) => DeleteRenders(w, c);
    case Restart =>
    case Midnight(_) =>
  }

  /******* Exactly what is shown *******/

  /** The card `n` as first shown: a hidden front with a drawn prompt, or at once with
      its own grade buttons. */
  function FirstView(n: Node, c: BuildChoice): View {
    if c.staged then Front(n.word, c.pick) else Back(n.word, n.activity)
  }

  /** `s` with the freeze of a card first shown. */
  function FirstFreeze(s: Session, n: Node, c: BuildChoice): Session {
    if c.staged then s.(prompt := Some(c.pick), promptWord := Some(n.word), revealed := false)
    else s.(prompt := None, promptWord := None, revealed := false)
  }

  /** A delivered advance shows the next card, and nothing else, and freezes it. */
  lemma DeliveredAdvance(w: World, c: AdvanceChoice)
    requires LiveSession(w, c.gate).Some? && |LiveSession(w, c.gate).value.nodes| > 1
    requires c.build.fault.NoFault? && (c.edit.Done? || c.edit.NotModified?)
    ensures var (s, v) := (LiveSession(w, c.gate).value, Advance(w, c));
      && v.views == w.views + [FirstView(s.nodes[1], c.build)]
      && v.mem == Some(FirstFreeze(s.(nodes := s.nodes[1..]), s.nodes[1], c.build))
      && v.row == if c.persistOk then Some(Row(c.today, Encoded(v.mem.value))) else w.row
  {
    AdvanceViews(w, c);
    GateAnswers(w, c.gate);
  }

  /** A delivered start shows the first card, and nothing else, and keeps the id of its
      message, without which no reveal of it would be accepted. */
  lemma DeliveredStart(w: World, c: StartChoice)
    requires Reached(w, c) && Delivers(c)
    ensures var v := Start(w, c);
      && v.views == w.views + [FirstView(c.nodes[0], c.build)]
      && v.mem == Some(FirstFreeze(
           Session(c.nodes, [], false, None, None, Some(c.sent), Some(c.today)), c.nodes[0], c.build))
      && (c.postPersistOk ==> v.row == Some(Row(c.today, Encoded(v.mem.value))))
  {
    GateAnswers(w, c.gate);
    var w1 := Gate(w, c.gate).0;
    DeliveredBody(w1, c);
    DeliveredBody(w1.(used := Consumed(w1.used, c.slotDay)), c);
  }

  lemma DeliveredBody(w: World, c: StartChoice)
    requires Delivers(c)
    ensures var v := FreshBody(w, c);
      && v.views == w.views + [FirstView(c.nodes[0], c.build)]
      && v.mem == Some(FirstFreeze(
           Session(c.nodes, [], false, None, None, Some(c.sent), Some(c.today)), c.nodes[0], c.build))
      && (c.postPersistOk ==> v.row == Some(Row(c.today, Encoded(v.mem.value))))
      && (c.build.staged ==> c.nodes[0].word !in v.flipped)
  {
  }

  /** The card at the head is frozen with a known prompt. */
  predicate HeadFrozen(s: Session) {
    s.nodes != [] && s.promptWord == Some(s.nodes[0].word) && ValidPrompt(s.prompt)
  }

  /** A delivered resume shows the head card, and nothing else: what is frozen for it, in
      immediate mode its grade buttons, and otherwise a newly drawn prompt. The session
      takes the id of the new message, in memory and, if the save succeeds, in storage. */
  lemma DeliveredResume(w: World, s: Session, now: Day, c: ResumeChoice)
    requires s.nodes != [] && c.notifyOk && c.build.fault.NoFault? && c.sent.Some?
    ensures var (n, v) := (s.nodes[0], Resume(w, s, now, c));
      && v.views == w.views + [
           if c.build.staged && HeadFrozen(s) then
             (if s.revealed then Back(n.word, n.activity) else Front(n.word, s.prompt.value))
           else FirstView(n, c.build)]
      && v.mem.Some? && v.mem.value.msgId == c.sent
      && v.mem.value.nodes == s.nodes && v.mem.value.graded == s.graded && v.mem.value.date == s.date
      && v.row == if c.persistOk then Some(Row(PersistDay(s.date, s, now), Encoded(v.mem.value))) else w.row
  {
  }

  /** In immediate mode no freeze of the shown card survives, so a later staged rendering
      draws anew. */
  lemma ImmediateForgetsFreeze(w: World, s: Session, now: Day, c: ResumeChoice)
    requires s.nodes != [] && c.notifyOk && c.build.fault.NoFault? && !c.build.staged
    ensures var v := Resume(w, s, now, c);
      v.mem.Some? && v.mem.value.promptWord != Some(s.nodes[0].word)
  {
  }

  /** A reveal tap turns the head card over to the grade buttons of its activity, and
      nothing else; any other outcome shows nothing. */
  lemma RevealShowsExactlyWhen(w: World, c: RevealChoice)
    requires LiveSession(w, c.gate).Some?
    ensures var (s, v) := (LiveSession(w, c.gate).value, RevealTap(w, c));
      if Reveals(w, s, c) then
        v.views == w.views + [Back(c.word, s.nodes[0].activity)] && v.flipped == w.flipped + {c.word}
      else v.views == w.views && v.flipped == w.flipped
  {
    GateAnswers(w, c.gate);
  }

  predicate Reveals(w: World, s: Session, c: RevealChoice) {
    && s.nodes != [] && s.nodes[0].word == c.word && s.msgId.Some? && c.edit.Done?
    && !(s.revealed && s.promptWord == Some(c.word)) && c.word !in w.flipped
  }

  /** A restart forgets what was turned over: the stored head can be revealed, whatever
      reveals failed to save before it. */
  lemma RestartUnblocksReveal(w: World, c: RevealChoice)
    requires LiveSession(w.(mem := None), c.gate).Some? && c.edit.Done?
    requires var s := LiveSession(w.(mem := None), c.gate).value;
      s.nodes != [] && s.nodes[0].word == c.word && s.msgId.Some? && !(s.revealed && s.promptWord == Some(c.word))
    ensures var (s, v) := (LiveSession(w.(mem := None), c.gate).value, RevealTap(Handle(w, Restart), c));
      v.views == w.views + [Back(c.word, s.nodes[0].activity)] && v.flipped == {c.word}
  {
    RevealShowsExactlyWhen(Handle(w, Restart), c);
  }

  /** So the first card of a staged start can be revealed, even after a restart. */
  lemma FirstCardCanBeRevealed(w: World, c: StartChoice, r: RevealChoice, restarted: bool)
    requires Reached(w, c) && Delivers(c) && c.build.staged && c.postPersistOk && c.build.pick in SRS_PROMPT_TYPES
    requires r.word == c.nodes[0].word && r.gate == GateChoice(c.today, c.today, true, true) && r.edit.Done?
    ensures var v := if restarted then Handle(Start(w, c), Restart) else Start(w, c);
      RevealTap(v, r).views == v.views + [Back(c.nodes[0].word, c.nodes[0].activity)]
  {
    DeliveredStart(w, c);
    GateAnswers(w, c.gate);
    var w1 := Gate(w, c.gate).0;
    DeliveredBody(w1, c);
    DeliveredBody(w1.(used := Consumed(w1.used, c.slotDay)), c);
    var v := if restarted then Handle(Start(w, c), Restart) else Start(w, c);
    RevealShowsExactlyWhen(v, r);
  }

  /******* The last view *******/

  predicate Shown(w: World, n: Node) {
    w.views != [] && OfCard(w.views[|w.views| - 1], n)
  }

  /** The last card rendered is the head of the session in memory, if there is one. */
  predicate InView(w: World) {
    w.mem.Some? ==> w.mem.value.nodes != [] && Shown(w, w.mem.value.nodes[0])
  }

  /** The card an advance of `s` leaves at the head of memory without rendering it, if
      any; `restored` if memory did not hold `s` before. */
  function SilentAdvance(s: Session, c: AdvanceChoice, restored: bool): Option<Node>
    requires s.nodes != []
  {
    if s.date != Some(c.gate.today) then None
    else if |s.nodes| > 1 && !c.build.fault.NoFault? then Some(s.nodes[1])
    else if restored && (c.edit.Transient? || (c.edit.Permanent? && |s.nodes| > 1)) then Some(s.nodes[0])
    else None
  }

  /** A tap on the head of the live session `s` gets as far as its advance. */
  predicate TapAdvances(w: World, s: Session, c: GradeChoice) {
    && HeadIs(s, c.word, c.activity) && c.notifyOk
    && (c.word in s.graded
        || (c.ledgerOk && ((c.word, c.activity) in w.ledger || (c.result.Graded? && c.persistOk))))
  }

  function SilentTap(w: World, c: GradeChoice): Option<Node> {
    if c.throttled || (w.mem.Some? && w.mem.value.date != Some(c.tapDay)) then None
    else
      match LiveSession(w, c.gate)
      case Some(s) =>
        if s.nodes == [] then None
        else if TapAdvances(w, s, c) then SilentAdvance(s, c.advance, w.mem.None?)
        else if w.mem.None? then Some(s.nodes[0])
        else None
      case None =>
        var left := w.(mem := None, row := if GateWipes(w, c.gate) then None else w.row);
        var late := LiveSession(left, c.advance.gate);
        if WillGrade(w, c) && c.notifyOk && late.Some? && late.value.nodes != [] then
          SilentAdvance(late.value, c.advance, true)
        else None
  }

  function SilentDelete(w: World, c: DeleteChoice): Option<Node> {
    var live := LiveSession(w, c.gate);
    if live.None? || live.value.nodes == [] then None
    else if live.value.nodes[0].word == c.word && live.value.msgId.Some? && c.dbOk && c.persistOk && c.notifyOk then
      SilentAdvance(Refilled(live.value, c.due), c.advance, w.mem.None?)
    else if w.mem.None? then Some(live.value.nodes[0])
    else None
  }

  function SilentStart(w: World, c: StartChoice): Option<Node> {
    var live := LiveSession(w, c.gate);
    if c.blocked || w.mem.Some? || live.None? || live.value.nodes == [] then None
    else if c.resume.notifyOk && c.resume.build.fault.NoFault? && c.resume.sent.Some? then None
    else Some(live.value.nodes[0])
  }

  function SilentReveal(w: World, c: RevealChoice): Option<Node> {
    var live := LiveSession(w, c.gate);
    if w.mem.Some? || live.None? || live.value.nodes == [] || Reveals(w, live.value, c) then None
    else Some(live.value.nodes[0])
  }

  /** The card an event puts at the head of the session in memory without rendering it:
      a card built in vain after a pop, or the head of a session brought back from
      storage by an event that shows nothing. */
  function Silent(w: World, e: Event): Option<Node> {
    match e
    case Starting(c) => SilentStart(w, c)
    case Grading(c) => SilentTap(w, c)
    case Revealing(c) => SilentReveal(w, c)
    case Deleting(c) => SilentDelete(w, c)
    case Restart => None
    case Midnight(_) => None
  }

  /** Events leave a card unrendered only when memory was lost, a card build failed, or
      the memory session is stale. */
  lemma SilentOnlyWhen(w: World, e: Event)
    requires Silent(w, e).Some? && w.mem.Some?
    ensures (e.Grading? && (!e.g.advance.build.fault.NoFault? || w.mem.value.date != Some(e.g.gate.today)))
      || (e.Deleting? && !e.d.advance.build.fault.NoFault?)
  {
  }

  /** What an advance does to the head and the screen. */
  lemma AdvanceInView(w: World, c: AdvanceChoice, restored: bool)
    requires w.mem.Some? && w.mem.value.nodes != [] && (!restored ==> InView(w))
    ensures var silent := SilentAdvance(w.mem.value, c, restored);
      InView(Advance(w, c)) <==> (silent.Some? ==> Shown(w, silent.value))
  {
    var s := w.mem.value;
    GateAnswers(w, c.gate);
    AdvanceRenders(w, c);
    if s.date == Some(c.gate.today) {
      AdvanceShape(w, c);
      if |s.nodes| > 1 {
        AdvanceViews(w, c);
        BuildDepicts(PopNext(s).state, w.flipped, c.build);
      }
    }
  }

  lemma InSessionInView(w: World, s: Session, c: GradeChoice, restored: bool)
    requires w.mem == Some(s) && s.nodes != [] && (!restored ==> InView(w))
    ensures var silent :=
        if TapAdvances(w, s, c) then SilentAdvance(s, c.advance, restored)
        else if restored then Some(s.nodes[0]) else None;
      InView(GradeInSession(w, s, c)) <==> (silent.Some? ==> Shown(w, silent.value))
  {
    if TapAdvances(w, s, c) {
      if c.word in s.graded || (c.word, c.activity) in w.ledger {
        var s1 := if c.word in s.graded then s else s.(graded := s.graded + [c.word]);
        AdvanceInView(w.(mem := Some(s1)), c.advance, restored);
      } else {
        var s1 := s.(graded := s.graded + [c.word]);
        var w1 := RecordGrade(w, c.word, c.activity).(mem := Some(s1));
        AdvanceInView(Persist(w1, s1, PersistDay(s1.date, s1, c.gate.restoreDay), true), c.advance, restored);
      }
    } else {
      QuietTap(w, s, c);
    }
  }

  /** A tap that does not get to its advance leaves head and screen alone. */
  lemma QuietTap(w: World, s: Session, c: GradeChoice)
    requires w.mem == Some(s) && s.nodes != [] && !TapAdvances(w, s, c)
    ensures var v := GradeInSession(w, s, c);
      v.mem.Some? && v.mem.value.nodes == s.nodes && v.views == w.views
  {
  }

  lemma TapInViewExactlyWhen(w: World, c: GradeChoice, upTo: Day)
    requires SessionsOk(w, upTo) && InView(w)
    ensures InView(GradeTap(w, c)) <==> (SilentTap(w, c).Some? ==> Shown(w, SilentTap(w, c).value))
  {
    GateAnswers(w, c.gate);
    var (w1, got) := Gate(w, c.gate);
    match got
    case Some(s) => InSessionInView(w1, s, c, w.mem.None?);
    case None => SessionlessInView(w, w1, c, upTo);
  }

  lemma SessionlessInView(w: World, w1: World, c: GradeChoice, upTo: Day)
    requires Gate(w, c.gate) == (w1, None) && SessionsOk(w, upTo) && InView(w)
    ensures InView(GradeTap(w, c)) <==> (SilentTap(w, c).Some? ==> Shown(w, SilentTap(w, c).value))
  {
    GateAnswers(w, c.gate);
    var left := w.(mem := None, row := if GateWipes(w, c.gate) then None else w.row);
    var late := LiveSession(left, c.advance.gate);
    var w2 := RecordGrade(w1, c.word, c.activity);
    assert LiveSession(w2, c.advance.gate) == late;
    GateAnswers(w2, c.advance.gate);
    if late.Some? {
      var w3 := w2.(mem := late);
      assert Advance(w2, c.advance) == Advance(w3, c.advance);
      AdvanceInView(w3, c.advance, true);
    }
  }

  lemma DeleteInViewExactlyWhen(w: World, c: DeleteChoice, upTo: Day)
    requires SessionsOk(w, upTo) && InView(w)
    ensures InView(DeleteTap(w, c)) <==> (SilentDelete(w, c).Some? ==> Shown(w, SilentDelete(w, c).value))
  {
    GateAnswers(w, c.gate);
    var (w1, got) := Gate(w, c.gate);
    if got.Some? {
      var s1 := Refilled(got.value, c.due);
      var w2 := Persist(w1.(mem := Some(s1)), s1, PersistDay(s1.date, s1, c.gate.restoreDay), true);
      AdvanceInView(w2, c.advance, w.mem.None?);
    }
  }

  lemma StartInViewExactlyWhen(w: World, c: StartChoice, upTo: Day)
    requires SessionsOk(w, upTo) && InView(w)
    ensures InView(Start(w, c)) <==> (SilentStart(w, c).Some? ==> Shown(w, SilentStart(w, c).value))
  {
    GateAnswers(w, c.gate);
    var (w1, got) := Gate(w, c.gate);
    if !c.blocked {
      if got.Some? {
        ResumeInView(w1, got.value, c.gate.restoreDay, c.resume);
        assert Start(w, c) == Resume(w1, got.value, c.gate.restoreDay, c.resume);
      } else {
        FreshInView(w1, c);
        FreshInView(w1.(used := Consumed(w1.used, c.slotDay)), c);
      }
    }
  }

  lemma RevealInViewExactlyWhen(w: World, c: RevealChoice, upTo: Day)
    requires SessionsOk(w, upTo) && InView(w)
    ensures InView(RevealTap(w, c)) <==> (SilentReveal(w, c).Some? ==> Shown(w, SilentReveal(w, c).value))
  {
    GateAnswers(w, c.gate);
    if LiveSession(w, c.gate).Some? {
      RevealShowsExactlyWhen(w, c);
      RevealKeepsNodes(w, c);
    }
  }

  lemma ResumeInView(w: World, s: Session, now: Day, c: ResumeChoice)
    requires w.mem == Some(s) && s.nodes != []
    ensures var v := Resume(w, s, now, c);
      && v.mem.Some? && v.mem.value.nodes == s.nodes
      && (c.notifyOk && c.build.fault.NoFault? && c.sent.Some? ==> Shown(v, s.nodes[0]))
      && (!(c.notifyOk && c.build.fault.NoFault? && c.sent.Some?) ==> v.views == w.views)
  {
    BuildDepicts(s, w.flipped, c.build);
  }

  lemma FreshInView(w: World, c: StartChoice)
    requires w.mem.None?
    ensures InView(FreshBody(w, c))
  {
    if Delivers(c) {
      DeliveredBody(w, c);
    }
  }

  /** Over every event the last card rendered stays the head of the session in memory, if
      and only if no other card is put there without being rendered. */
  lemma StepInViewExactlyWhen(w: World, e: Event)
    requires Inv(w) && InView(w)
    ensures InView(Step(w, e)) <==> (Silent(w, e).Some? ==> Shown(w, Silent(w, e).value))
  {
    match e
    case Starting(c) => StartInViewExactlyWhen(w, c, w.day);
    case Grading(c) => TapInViewExactlyWhen(w, c, w.day);
    case Revealing(c) => RevealInViewExactlyWhen(w, c, w.day);
    case Deleting(c) => DeleteInViewExactlyWhen(w, c, w.day);
    case Restart =>
    case Midnight(_) =>
  }

  lemma RevealKeepsNodes(w: World, c: RevealChoice)
    requires LiveSession(w, c.gate).Some?
    ensures var v := RevealTap(w, c);
      v.mem.Some? && v.mem.value.nodes == LiveSession(w, c.gate).value.nodes
  {
    GateAnswers(w, c.gate);
  }

  /** A run in which every card put at the head unrendered is on the screen already. */
  predicate KeepsInView(w: World, es: seq<Event>) {
    es == [] ||
    (var (before, e) := (es[..|es| - 1], es[|es| - 1]);
     var v := Run(w, before);
     KeepsInView(w, before) && (Silent(v, e).Some? ==> Shown(v, Silent(v, e).value)))
  }

  /** Over every such run the last card rendered is the head of the session in memory. */
  lemma {:induction false} LastViewShowsHead(w: World, es: seq<Event>)
    requires Inv(w) && InView(w) && Timely(w, es) && KeepsInView(w, es)
    ensures InView(Run(w, es))
  {
    if es != [] {
      var before := es[..|es| - 1];
      LastViewShowsHead(w, before);
      RunKeeps(w, before);
      StepInViewExactlyWhen(Run(w, before), es[|es| - 1]);
    }
  }

  /** A tap taken from the last grade buttons shown is a tap on the head card, and grades
      it unless it is graded already. */
  lemma TapOnLastGridGrades(w: World, c: GradeChoice)
    requires InView(w) && w.mem.Some? && w.views[|w.views| - 1] == Back(c.word, c.activity)
    ensures HeadIs(w.mem.value, c.word, c.activity)
    ensures
      (&& w.mem.value.date == Some(c.tapDay) && c.tapDay == c.gate.today && !c.throttled && c.ledgerOk
       && c.result.Graded? && c.word !in w.mem.value.graded && (c.word, c.activity) !in w.ledger) ==>
      GradeTap(w, c).events == w.events + [ReviewEvent(c.word, c.activity, w.epoch)]
  {
    GradesExactlyWhen(w, c);
  }
}

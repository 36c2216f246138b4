/** The frozen presentation: once a card's prompt and stage are stored, resumes and
    restarts show them unchanged. */
module StudyFreeze {
  import opened Wrappers
  import opened SessionQuota
  import opened StudySession
  import opened StudySafety
  import opened StudyOrder

  /** The head card of `s` is `word`, frozen with `prompt` at stage `revealed`. */
  predicate Frozen(s: Session, word: int, prompt: string, revealed: bool) {
    && s.nodes != [] && s.nodes[0].word == word && s.promptWord == Some(word)
    && s.prompt == Some(prompt) && ValidPrompt(s.prompt) && s.revealed == revealed
  }

  /** Storage holds the frozen card for today, and memory is lost or agrees. */
  predicate FrozenOn(w: World, word: int, prompt: string, revealed: bool, today: Day) {
    && w.row.Some? && w.row.value.date == today && w.row.value.blob.Encoded?
    && var stored := w.row.value.blob.state;
    && stored.date == Some(today) && Frozen(stored, word, prompt, revealed)
    && (w.mem.Some? ==>
          w.mem.value.date == Some(today) && w.mem.value.nodes == stored.nodes
          && Frozen(w.mem.value, word, prompt, revealed))
  }

  function FrozenView(w: World, word: int, prompt: string, revealed: bool): View
    requires w.row.Some? && w.row.value.blob.Encoded? && w.row.value.blob.state.nodes != []
  {
    if revealed then Back(word, w.row.value.blob.state.nodes[0].activity) else Front(word, prompt)
  }

  /** The card has neither been advanced past nor lost. */
  predicate HeadKept(w: World, w': World)
    requires w.row.Some? && w.row.value.blob.Encoded?
  {
    && w'.row.Some? && w'.row.value.blob.Encoded?
    && w'.row.value.blob.state.nodes == w.row.value.blob.state.nodes
    && (w'.mem.Some? ==> w'.mem.value.nodes == w.row.value.blob.state.nodes)
  }

  /** The study button renders in staged mode, and no reveal is saved. */
  predicate StagedUnrevealed(e: Event) {
    (e.Starting? ==> e.s.resume.build.staged) && (e.Revealing? ==> !(e.r.edit.Done? && e.r.persistOk))
  }

  /******* Resuming *******/

  /** A resume shows the frozen prompt and stage, however the next draw would fall,
      and leaves the freeze in place whatever fails. */
  lemma ResumeReplays(w: World, c: StartChoice, word: int, prompt: string, revealed: bool, today: Day)
    requires FrozenOn(w, word, prompt, revealed, today)
    requires SessionEvent(Starting(c), today) && c.resume.build.staged
    ensures FrozenOn(Start(w, c), word, prompt, revealed, today) && HeadKept(w, Start(w, c))
    ensures Start(w, c).views == w.views || Start(w, c).views == w.views + [FrozenView(w, word, prompt, revealed)]
    ensures !c.blocked && c.resume.notifyOk && c.resume.build.fault.NoFault? && c.resume.sent.Some? ==>
      Start(w, c).views == w.views + [FrozenView(w, word, prompt, revealed)]
  {
    var (w1, got) := Gate(w, c.gate);
    assert got.Some? && Frozen(got.value, word, prompt, revealed);
    BuildFrozen(got.value, w1.flipped, c.resume.build, word, prompt, revealed);
  }

  lemma BuildFrozen(s: Session, flipped: set<int>, c: BuildChoice, word: int, prompt: string, revealed: bool)
    requires Frozen(s, word, prompt, revealed) && c.staged
    ensures var b := Build(s, flipped, s.nodes[0], c);
      && b.state == s
      && b.view == if !c.fault.NoFault? then None
                   else Some(if revealed then Back(word, s.nodes[0].activity) else Front(word, prompt))
  {
  }

  /******* Every other event *******/

  lemma GateFrozen(w: World, c: GateChoice, word: int, prompt: string, revealed: bool, today: Day)
    requires FrozenOn(w, word, prompt, revealed, today) && GateOn(c, today)
    ensures var (w1, got) := Gate(w, c);
      && got.Some? && w1 == w.(mem := got) && FrozenOn(w1, word, prompt, revealed, today)
  {
  }

  lemma AdvanceFrozen(w: World, c: AdvanceChoice, word: int, prompt: string, revealed: bool, today: Day)
    requires FrozenOn(w, word, prompt, revealed, today) && w.mem.Some? && AdvanceOn(c, today)
    ensures HeadKept(w, Advance(w, c)) ==> FrozenOn(Advance(w, c), word, prompt, revealed, today)
  {
    AdvanceShape(w, c);
  }

  lemma GradeFrozen(w: World, c: GradeChoice, word: int, prompt: string, revealed: bool, today: Day)
    requires FrozenOn(w, word, prompt, revealed, today) && SessionEvent(Grading(c), today)
    ensures HeadKept(w, GradeTap(w, c)) ==> FrozenOn(GradeTap(w, c), word, prompt, revealed, today)
  {
    GateFrozen(w, c.gate, word, prompt, revealed, today);
    var (w1, got) := Gate(w, c.gate);
    RepeatedGradeFrozen(w1, got.value, c, word, prompt, revealed, today);
    FirstGradeFrozen(w1, got.value, c, word, prompt, revealed, today);
  }

  lemma RepeatedGradeFrozen(
    w: World, s: Session, c: GradeChoice, word: int, prompt: string, revealed: bool, today: Day)
    requires FrozenOn(w, word, prompt, revealed, today) && w.mem == Some(s) && AdvanceOn(c.advance, today)
    ensures var v := RepeatedGrade(w, s, c);
      HeadKept(w, v) ==> FrozenOn(v, word, prompt, revealed, today)
  {
    AdvanceFrozen(w, c.advance, word, prompt, revealed, today);
    AdvanceFrozen(w.(mem := Some(s.(graded := s.graded + [c.word]))), c.advance, word, prompt, revealed, today);
  }

  lemma FirstGradeFrozen(
    w: World, s: Session, c: GradeChoice, word: int, prompt: string, revealed: bool, today: Day)
    requires FrozenOn(w, word, prompt, revealed, today) && w.mem == Some(s) && AdvanceOn(c.advance, today)
    ensures var v := FirstGrade(w, s, c);
      HeadKept(w, v) ==> FrozenOn(v, word, prompt, revealed, today)
  {
    var s1 := s.(graded := s.graded + [c.word]);
    var w1 := RecordGrade(w, c.word, c.activity).(mem := Some(s1));
    AdvanceFrozen(w1.(row := Some(Row(today, Encoded(s1)))), c.advance, word, prompt, revealed, today);
  }

  lemma StepFrozen(w: World, e: Event, word: int, prompt: string, revealed: bool, today: Day)
    requires FrozenOn(w, word, prompt, revealed, today) && SessionEvent(e, today) && StagedUnrevealed(e)
    ensures HeadKept(w, Step(w, e)) ==> FrozenOn(Step(w, e), word, prompt, revealed, today)
  {
    match e
    case Starting(c) => ResumeReplays(w, c, word, prompt, revealed, today);
    case Grading(c) => GradeFrozen(w, c, word, prompt, revealed, today);
    case Revealing(c) => GateFrozen(w, c.gate, word, prompt, revealed, today);
    case Restart =>
  }

  /** A run of taps, resumes and restarts on one day that leaves the card in place. */
  predicate OnSameCard(w: World, es: seq<Event>, today: Day)
    requires w.row.Some? && w.row.value.blob.Encoded?
  {
    es == [] ||
    (&& OnSameCard(w, es[..|es| - 1], today) && HeadKept(w, Run(w, es))
     && SessionEvent(es[|es| - 1], today) && StagedUnrevealed(es[|es| - 1]))
  }

  lemma {:induction false} RunFrozen(w: World, es: seq<Event>, word: int, prompt: string, revealed: bool, today: Day)
    requires FrozenOn(w, word, prompt, revealed, today) && OnSameCard(w, es, today)
    ensures FrozenOn(Run(w, es), word, prompt, revealed, today)
    ensures Run(w, es).row.value.blob.state.nodes == w.row.value.blob.state.nodes
  {
    if es != [] {
      RunFrozen(w, es[..|es| - 1], word, prompt, revealed, today);
      StepFrozen(Run(w, es[..|es| - 1]), es[|es| - 1], word, prompt, revealed, today);
    }
  }

  /** After any such run, with or without restarts in it, pressing the study button
      renders the very view that was frozen. */
  lemma EveryResumeShowsTheFrozenCard(
    w: World, es: seq<Event>, c: StartChoice, word: int, prompt: string, revealed: bool, today: Day)
    requires FrozenOn(w, word, prompt, revealed, today) && OnSameCard(w, es, today)
    requires SessionEvent(Starting(c), today) && c.resume.build.staged
    requires !c.blocked && c.resume.notifyOk && c.resume.build.fault.NoFault? && c.resume.sent.Some?
    ensures Start(Run(w, es), c).views == Run(w, es).views + [FrozenView(w, word, prompt, revealed)]
  {
    RunFrozen(w, es, word, prompt, revealed, today);
    ResumeReplays(Run(w, es), c, word, prompt, revealed, today);
  }

  /** A staged advance whose edit and save succeed stores such a freeze for the next card. */
  lemma AdvanceFreezes(w: World, c: AdvanceChoice)
    requires w.mem.Some? && |w.mem.value.nodes| > 1 && w.mem.value.date == Some(c.today)
    requires AdvanceOn(c, c.today) && c.build.staged && c.build.fault.NoFault? && c.build.pick in SRS_PROMPT_TYPES
    requires (c.edit.Done? || c.edit.NotModified?) && c.persistOk
    ensures FrozenOn(Advance(w, c), w.mem.value.nodes[1].word, c.build.pick, false, c.today)
    ensures Advance(w, c).views == w.views + [Front(w.mem.value.nodes[1].word, c.build.pick)]
  {
  }

  /******* Revealing *******/

  /** A reveal whose save fails changes neither the session nor the row, so the two
      `revealed` flags agree after it if they agreed before. */
  lemma FailedRevealKeepsFlags(w: World, c: RevealChoice)
    requires LiveSession(w, c.gate).Some? && !c.persistOk
    ensures RevealTap(w, c).mem == LiveSession(w, c.gate) && RevealTap(w, c).row == w.row
  {
    GateAnswers(w, c.gate);
  }

  /** What a reveal tap needs in order to turn the card over. */
  predicate CanReveal(w: World, s: Session, word: int) {
    && s.nodes != [] && s.nodes[0].word == word && s.msgId.Some?
    && !(s.revealed && s.promptWord == Some(word)) && word !in w.flipped
  }

  /** A reveal is recorded if and only if the tap is on the unrevealed head card, the
      edit was newly applied and the save succeeded; memory and storage then agree. */
  lemma RevealRecordedExactlyWhen(w: World, c: RevealChoice)
    requires LiveSession(w, c.gate).Some?
    ensures var s := LiveSession(w, c.gate).value;
      var v := RevealTap(w, c);
      if CanReveal(w, s, c.word) && c.edit.Done? && c.persistOk then
        && v.mem == Some(s.(revealed := true, promptWord := Some(c.word)))
        && v.row.Some? && v.row.value.blob == Encoded(v.mem.value)
      else v.mem == Some(s) && v.row == w.row
  {
    GateAnswers(w, c.gate);
  }

  /** After a failed save the chat key blocks every further reveal of that card: a
      second tap cannot store what the first one failed to, whatever happens to it. */
  lemma FailedRevealBlocksTheNext(w: World, c: RevealChoice, again: RevealChoice)
    requires LiveSession(w, c.gate).Some? && CanReveal(w, LiveSession(w, c.gate).value, c.word)
    requires c.edit.Done? && !c.persistOk
    requires again.word == c.word && again.gate.today == c.gate.today
    ensures RevealTap(RevealTap(w, c), again) == RevealTap(w, c)
  {
    GateAnswers(w, c.gate);
  }

  /** Re-rendering the card in staged mode lifts that block. */
  lemma ResumeUnblocksReveal(w: World, s: Session, now: Day, c: ResumeChoice)
    requires s.nodes != [] && c.notifyOk && c.build.staged && c.build.fault.NoFault?
    requires !(s.revealed && s.promptWord == Some(s.nodes[0].word) && ValidPrompt(s.prompt))
    ensures s.nodes[0].word !in Resume(w, s, now, c).flipped
  {
  }
}

/** The study session protocol as functions on values: what each handler of
    handlers/study_handler.py and handlers/srs_handler.py does to memory, to the
    database and to the learner's screen, for every way its saves, edits, database
    reads and clock readings can turn out.

    Everything nondeterministic is an argument (a `...Choice`), so a statement over
    all choices is a statement over all behaviours. `StudyBot` runs the same
    protocol on mutable state and is proved equal to these functions. */
module StudySession {
  import opened Wrappers
  import opened SessionQuota

  /******* State *******/

  datatype Activity = SrsReview | FirstExposure

  /** A card of a session: the saved word and how it is to be graded. */
  datatype Node = Node(word: int, activity: Activity)

  /** `SessionState` without its display-only fields. `date` is `session_date`,
      with None for the legacy empty string. */
  datatype Session = Session(
    nodes: seq<Node>,
    graded: seq<int>,
    revealed: bool,
    prompt: Option<string>,
    promptWord: Option<int>,
    msgId: Option<int>,
    date: Option<Day>)

  /** The JSON text of a persisted row: the state it encodes, or unreadable. */
  datatype Blob = Encoded(state: Session) | Corrupt

  datatype Row = Row(date: Day, blob: Blob)

  /** One review event: what was graded, and in which life of the grade ledger. */
  datatype ReviewEvent = ReviewEvent(word: int, activity: Activity, epoch: nat)

  /** What a card message shows: the hidden front with its prompt, or the full
      card above the grade buttons of its activity. */
  datatype View = Front(word: int, prompt: string) | Back(word: int, grid: Activity)

  /** `mem` and `flipped` (the `revealed_<word>` keys) are lost by a restart; `row`,
      `ledger`, `events` and `used` are durable. `epoch` counts ledger clears,
      `starts` and `leaks` record the day of each delivered fresh session and of
      each slot whose release failed, and `views` every card rendered to the chat.
      `events` is a log of the grades made: deleting a word removes its stored review
      events, but not what happened. */
  datatype World = World(
    mem: Option<Session>,
    row: Option<Row>,
    ledger: set<(int, Activity)>,
    events: seq<ReviewEvent>,
    epoch: nat,
    used: map<Day, Cell>,
    starts: seq<Day>,
    leaks: seq<Day>,
    flipped: set<int>,
    views: seq<View>,
    day: Day)

  /******* The session store *******/

  const SRS_PROMPT_TYPES := {"standard", "fill_blank", "meaning", "synonym", "direct_translate"}

  predicate ValidPrompt(p: Option<string>) {
    p.Some? && p.value in SRS_PROMPT_TYPES
  }

  /** `state_from_json` on an encoded state: an unknown prompt type is dropped, and
      a word or a reveal without a prompt is dropped with it. */
  function Decode(s: Session): Session {
    var prompt := if ValidPrompt(s.prompt) then s.prompt else None;
    var promptWord := if prompt.None? then None else s.promptWord;
    s.(prompt := prompt, promptWord := promptWord,
       revealed := s.revealed && prompt.Some? && promptWord.Some?)
  }

  function ClearFreeze(s: Session): Session {
    s.(revealed := false, prompt := None, promptWord := None)
  }

  datatype FrozenSave = FrozenSave(revealed: bool, prompt: Option<string>, promptWord: Option<int>)

  datatype Popped = Popped(node: Option<Node>, saved: FrozenSave, state: Session)

  function PopNext(s: Session): Popped {
    Popped(
      if s.nodes == [] then None else Some(s.nodes[0]),
      FrozenSave(s.revealed, s.prompt, s.promptWord),
      ClearFreeze(s).(nodes := if s.nodes == [] then [] else s.nodes[1..]))
  }

  function RollbackPop(s: Session, node: Option<Node>, saved: FrozenSave): Session {
    s.(nodes := if node.Some? then [node.value] + s.nodes else s.nodes,
       revealed := saved.revealed, prompt := saved.prompt, promptWord := saved.promptWord)
  }

  /** `invalidate_stale_study_session`: row and ledger go in one transaction. */
  function Invalidate(w: World): World {
    ClearGrades(w).(row := None)
  }

  function ClearGrades(w: World): World {
    w.(ledger := {}, epoch := w.epoch + 1)
  }

  /** `_persist_session`: the day passed by the caller, else the session's own
      stamp, else the current app day. */
  function PersistDay(passed: Option<Day>, s: Session, now: Day): Day {
    if passed.Some? then passed.value else if s.date.Some? then s.date.value else now
  }

  function Persist(w: World, s: Session, day: Day, ok: bool): World {
    if ok then w.(row := Some(Row(day, Encoded(s)))) else w
  }

  /******* The session gate *******/

  predicate IsStale(s: Session, today: Day) {
    s.date != Some(today)
  }

  /** `today` is read on entry and `restoreDay` again inside the restore. */
  datatype GateChoice = GateChoice(today: Day, restoreDay: Day, loadOk: bool, invalidateOk: bool)

  /** `load_session`: the restored state, or None with the row discarded. */
  function Load(w: World, c: GateChoice): (World, Option<Session>) {
    var discarded := if c.invalidateOk then Invalidate(w) else w;
    match w.row
    case None => (w, None)
    case Some(row) =>
      if row.date != c.restoreDay || row.blob.Corrupt? || row.blob.state.nodes == [] then (discarded, None)
      else (w, Some(Decode(row.blob.state)))
  }

  /** `get_active_session_async`: the memory session if fresh, else the persisted
      one if fresh; whatever is stale is discarded, and every failure means None. */
  function Gate(w: World, c: GateChoice): (World, Option<Session>) {
    match w.mem
    case Some(s) =>
      if !IsStale(s, c.today) then (w, Some(s))
      else ((if c.invalidateOk then Invalidate(w) else w).(mem := None), None)
    case None =>
      if !c.loadOk then (w, None)
      else
        var (w1, restored) := Load(w, c);
        if restored.None? then (w1, None)
        else if IsStale(restored.value, c.today) then (if c.invalidateOk then Invalidate(w1) else w1, None)
        else (w1.(mem := restored), restored)
  }

  /******* Building a card *******/

  /** An exception in a card build comes before or after the freeze is written. */
  datatype Fault = NoFault | BeforeFreeze | AfterFreeze

  /** `staged` is the resolved card mode, `pick` the prompt drawn if none is frozen. */
  datatype BuildChoice = BuildChoice(staged: bool, pick: string, fault: Fault)

  datatype Built = Built(state: Session, flipped: set<int>, view: Option<View>)

  /** `_frozen_for_word`: a corrupt prompt is cleared on the way. */
  function FrozenForWord(s: Session, word: int): (Session, Option<string>) {
    if s.promptWord != Some(word) then (s, None)
    else if !ValidPrompt(s.prompt) then (ClearFreeze(s), None)
    else (s, s.prompt)
  }

  /** `_build_card_text_and_keyboard` and `_render_first_exposure`. */
  function Build(s: Session, flipped: set<int>, node: Node, c: BuildChoice): Built {
    if c.fault.BeforeFreeze? then Built(s, flipped, None)
    else
      var b :=
        if !c.staged then
          Built(if s.promptWord == Some(node.word) then ClearFreeze(s) else s, flipped,
                Some(Back(node.word, node.activity)))
        else
          var (s1, frozen) := FrozenForWord(s, node.word);
          if frozen.Some? && s1.revealed then
            Built(s1, flipped + {node.word}, Some(Back(node.word, node.activity)))
          else if frozen.Some? then
            Built(s1, flipped - {node.word}, Some(Front(node.word, frozen.value)))
          else
            Built(s1.(prompt := Some(c.pick), promptWord := Some(node.word), revealed := false),
                  flipped - {node.word}, Some(Front(node.word, c.pick)));
      if c.fault.NoFault? then b else b.(view := None)
  }

  /******* Advancing *******/

  /** How a Telegram edit ends: applied, already applied ("not modified"), any other
      BadRequest, any other error. */
  datatype Edit = Done | NotModified | Permanent | Transient

  datatype AdvanceChoice = AdvanceChoice(
    today: Day, gate: GateChoice, build: BuildChoice, edit: Edit, persistOk: bool, clearOk: bool)

  /** `advance_session`. The stub `generate_tier3_node` never yields a card, so an
      emptied session goes straight to its completion report. */
  function Advance(w: World, c: AdvanceChoice): World {
    var (w1, got) := Gate(w, c.gate);
    if got.None? then w1
    else
      var p := PopNext(got.value);
      if p.state.nodes != [] then
        var b := Build(p.state, w1.flipped, p.state.nodes[0], c.build);
        var w2 := w1.(mem := Some(b.state), flipped := b.flipped);
        if b.view.None? then w2
        else if c.edit.Done? || c.edit.NotModified? then
          Persist(w2.(views := w2.views + [b.view.value]), b.state, c.today, c.persistOk)
        else
          w2.(mem := Some(RollbackPop(b.state, p.node, p.saved)))
      else if c.edit.Transient? then
        w1.(mem := Some(RollbackPop(p.state, p.node, p.saved)))
      else
        w1.(mem := None, row := if c.clearOk then None else w1.row)
  }

  /******* Grading *******/

  /** `_is_persisted_stale` on the row and its inner date; no row is not stale. */
  predicate PersistedStale(row: Option<Row>, today: Day) {
    row.Some? && (row.value.date != today || row.value.blob.Corrupt? || row.value.blob.state.date != Some(today))
  }

  datatype GradeResult = Graded | Rejected | Raised

  /** A tap on a grade button of `word`. `snapshotOk` and `ledgerOk` are the two
      guarded reads, `notifyOk` the answers sent before the advance. */
  datatype GradeChoice = GradeChoice(
    word: int, activity: Activity, tapDay: Day, rejectOk: bool, throttled: bool,
    snapshotOk: bool, snapshotDay: Day, gate: GateChoice, ledgerOk: bool, dropOk: bool,
    result: GradeResult, persistOk: bool, notifyOk: bool, advance: AdvanceChoice)

  /** The grade transaction: schedule, ledger and review event together. */
  function RecordGrade(w: World, word: int, activity: Activity): World {
    w.(ledger := w.ledger + {(word, activity)},
       events := w.events + [ReviewEvent(word, activity, w.epoch)])
  }

  predicate HeadIs(s: Session, word: int, activity: Activity) {
    s.nodes != [] && s.nodes[0] == Node(word, activity)
  }

  /** `_handle_srs_review` and `_handle_first_exposure_grade`, which differ in the
      activity only. */
  function GradeTap(w: World, c: GradeChoice): World {
    if w.mem.Some? && IsStale(w.mem.value, c.tapDay) then
      (if c.rejectOk then Invalidate(w) else w).(mem := None)
    else if c.throttled then w
    else
      var persistedStale := c.snapshotOk && PersistedStale(w.row, c.snapshotDay);
      var (w1, got) := Gate(w, c.gate);
      match got
      case Some(s) => GradeInSession(w1, s, c)
      case None => GradeWithoutSession(w1, persistedStale, c)
  }

  function GradeInSession(w: World, s: Session, c: GradeChoice): World {
    if c.word !in s.graded && !c.ledgerOk then w
    else
      var already := c.word in s.graded || (c.word, c.activity) in w.ledger;
      var active := HeadIs(s, c.word, c.activity);
      if already && (active || s.nodes == []) then RepeatedGrade(w, s, c)
      else if !active || !c.result.Graded? then w
      else FirstGrade(w, s, c)
  }

  /** A card graded before: its word is noted and the advance it lost made up for. */
  function RepeatedGrade(w: World, s: Session, c: GradeChoice): World {
    if !c.notifyOk then w
    else
      var s1 := if c.word in s.graded then s else s.(graded := s.graded + [c.word]);
      Advance(w.(mem := Some(s1)), c.advance)
  }

  /** The grade of the head card. */
  function FirstGrade(w: World, s: Session, c: GradeChoice): World {
    var s1 := s.(graded := s.graded + [c.word]);
    var w1 := RecordGrade(w, c.word, c.activity).(mem := Some(s1));
    if !c.persistOk then w1
    else
      var w2 := Persist(w1, s1, PersistDay(s1.date, s1, c.gate.restoreDay), true);
      if c.notifyOk then Advance(w2, c.advance) else w2
  }

  function GradeWithoutSession(w: World, persistedStale: bool, c: GradeChoice): World {
    if !c.ledgerOk || (c.word, c.activity) in w.ledger then w
    else if persistedStale then if c.dropOk then Invalidate(w) else w
    else if !c.result.Graded? then w
    else
      var w1 := RecordGrade(w, c.word, c.activity);
      if c.notifyOk then Advance(w1, c.advance) else w1
  }

  /******* Revealing *******/

  datatype RevealChoice = RevealChoice(word: int, gate: GateChoice, edit: Edit, persistOk: bool)

  /** `_handle_srs_reveal`. A "not modified" edit answers the tap and records nothing. */
  function RevealTap(w: World, c: RevealChoice): World {
    var (w1, got) := Gate(w, c.gate);
    if got.None? then w1
    else
      var s := got.value;
      if s.revealed && s.promptWord == Some(c.word) then w1
      else if c.word in w1.flipped then w1
      else if s.nodes == [] || s.nodes[0].word != c.word || s.msgId.None? || !c.edit.Done? then w1
      else
        var w2 := w1.(flipped := w1.flipped + {c.word}, views := w1.views + [Back(c.word, s.nodes[0].activity)]);
        var s1 := s.(revealed := true, promptWord := Some(c.word));
        if c.persistOk then Persist(w2.(mem := Some(s1)), s1, PersistDay(s1.date, s1, c.gate.restoreDay), true)
        else w2
  }

  /******* Starting and resuming *******/

  datatype ResumeChoice = ResumeChoice(notifyOk: bool, build: BuildChoice, sent: Option<int>, persistOk: bool)

  /** `_resume_existing_session`; `sent` is the new message id, None if the send fails. */
  function Resume(w: World, s: Session, now: Day, c: ResumeChoice): World
    requires s.nodes != []
  {
    if !c.notifyOk then w
    else
      var b := Build(s, w.flipped, s.nodes[0], c.build);
      var w1 := w.(mem := Some(b.state), flipped := b.flipped);
      if b.view.None? || c.sent.None? then w1
      else
        var s1 := b.state.(msgId := c.sent);
        Persist(w1.(mem := Some(s1), views := w1.views + [b.view.value]), s1, PersistDay(s1.date, s1, now), c.persistOk)
  }

  /** What can end the body of a fresh start: an exception while the list is built,
      the ledger cleared, the row saved or the first card sent, or none of these. */
  datatype FreshEnd = RaisedBuilding | RaisedClearing | RaisedSaving | RaisedSending | NotRaised

  datatype StartChoice = StartChoice(
    blocked: bool, today: Day, gate: GateChoice, resume: ResumeChoice,
    bypass: bool, limit: int, slotDay: Day, consumeOk: bool,
    nodes: seq<Node>, end: FreshEnd, build: BuildChoice, sent: int, postPersistOk: bool,
    cleanupOk: bool, releaseDay: Day, releaseOk: bool)

  /** `handle_study_start`. `blocked` covers the rate guard and the onboarding check. */
  function Start(w: World, c: StartChoice): World {
    if c.blocked then w
    else
      var (w1, got) := Gate(w, c.gate);
      if got.Some? && got.value.nodes != [] then Resume(w1, got.value, c.gate.restoreDay, c.resume)
      else if c.bypass then FreshBody(w1, c)
      else if !c.consumeOk || !CanConsume(w1.used, c.slotDay, c.limit) then w1
      else
        var w2 := FreshBody(w1.(used := Consumed(w1.used, c.slotDay)), c);
        if Delivers(c) then w2.(starts := w2.starts + [c.slotDay])
        else if c.releaseOk then w2.(used := Released(w2.used, c.releaseDay))
        else w2.(leaks := w2.leaks + [c.slotDay])
  }

  /** A fresh start shows its first card. */
  predicate Delivers(c: StartChoice) {
    c.nodes != [] && c.end.NotRaised? && c.build.fault.NoFault?
  }

  /** The `try` body and its `except` clauses, without the slot. */
  function FreshBody(w: World, c: StartChoice): World {
    if c.end.RaisedBuilding? then Cleanup(w, c)
    else if c.nodes == [] then w
    else if c.end.RaisedClearing? then Cleanup(w, c)
    else
      var s := Session(c.nodes, [], false, None, None, None, Some(c.today));
      var w1 := ClearGrades(w).(mem := Some(s));
      if c.end.RaisedSaving? then Cleanup(w1, c)
      else FirstCard(Persist(w1, s, c.today, true), s, c)
  }

  /** `_render_and_send_first_card`; a failed save after the send is swallowed. */
  function FirstCard(w: World, s: Session, c: StartChoice): World
    requires s.nodes != []
  {
    var b := Build(s, w.flipped, s.nodes[0], c.build);
    var w1 := w.(mem := Some(b.state), flipped := b.flipped);
    if c.end.RaisedSending? || b.view.None? then Cleanup(w1, c)
    else
      var s1 := b.state.(msgId := Some(c.sent));
      var w2 := w1.(mem := Some(s1), views := w1.views + [b.view.value]);
      Persist(w2, s1, PersistDay(s1.date, s1, c.today), c.postPersistOk)
  }

  function Cleanup(w: World, c: StartChoice): World {
    w.(mem := None, row := if c.cleanupOk then None else w.row)
  }

  /******* Deleting a card *******/

  predicate Listed(nodes: seq<Node>, word: int) {
    exists n <- nodes :: n.word == word
  }

  /** `_next_due_node`: the first candidate whose word is not among the session's cards. */
  function NextDue(nodes: seq<Node>, due: seq<Node>): (r: Option<Node>)
    ensures r.None? <==> forall n <- due :: Listed(nodes, n.word)
    ensures r.Some? ==> r.value in due && !Listed(nodes, r.value.word)
  {
    if due == [] then None
    else if Listed(nodes, due[0].word) then NextDue(nodes, due[1..])
    else Some(due[0])
  }

  /** `_refill_session_from_due`. */
  function Refilled(s: Session, due: seq<Node>): Session {
    var next := NextDue(s.nodes, due);
    if next.Some? then s.(nodes := s.nodes + [next.value]) else s
  }

  datatype DeleteChoice = DeleteChoice(
    word: int, gate: GateChoice, dbOk: bool, due: seq<Node>, persistOk: bool, notifyOk: bool,
    advance: AdvanceChoice)

  /** `_handle_srs_delete_yes`: drop the word, append the next due card, advance. `due`
      is the list of due and new words read after the delete. */
  function DeleteTap(w: World, c: DeleteChoice): World {
    var (w1, got) := Gate(w, c.gate);
    if got.None? || got.value.nodes == [] || got.value.nodes[0].word != c.word || got.value.msgId.None? then w1
    else if !c.dbOk then w1
    else
      var s := got.value;
      var s1 := Refilled(s, c.due);
      var w2 := w1.(mem := Some(s1));
      if !c.persistOk then w2
      else
        var w3 := Persist(w2, s1, PersistDay(s1.date, s1, c.gate.restoreDay), true);
        if c.notifyOk then Advance(w3, c.advance) else w3
  }

  /******* Runs *******/

  datatype Event =
    | Starting(s: StartChoice)
    | Grading(g: GradeChoice)
    | Revealing(r: RevealChoice)
    | Deleting(d: DeleteChoice)
    | Restart
    | Midnight(today: Day)

  function Handle(w: World, e: Event): World {
    match e
    case Starting(c) => Start(w, c)
    case Grading(c) => GradeTap(w, c)
    case Revealing(c) => RevealTap(w, c)
    case Deleting(c) => DeleteTap(w, c)
    case Restart => w.(mem := None, flipped := {})
    case Midnight(_) => w
  }

  /** One event, taken as atomic; the clock ends at its last reading. The study, reveal
      and grade callbacks run under a per-user lock. The delete callbacks take none, so
      for them atomicity is an assumption of this model. */
  function Step(w: World, e: Event): World {
    Handle(w, e).(day := LastReading(w.day, e))
  }

  function Run(w: World, es: seq<Event>): World {
    if es == [] then w else Step(Run(w, es[..|es| - 1]), es[|es| - 1])
  }

  function LastReading(from: Day, e: Event): Day {
    match e
    case Starting(c) => c.releaseDay
    case Grading(c) => c.advance.gate.restoreDay
    case Revealing(c) => c.gate.restoreDay
    case Deleting(c) => c.advance.gate.restoreDay
    case Restart => from
    case Midnight(today) => today
  }

  /** The day readings of a call come in the order the code takes them. */
  predicate GateClock(from: Day, c: GateChoice) {
    from <= c.today <= c.restoreDay
  }

  predicate AdvanceClock(from: Day, c: AdvanceChoice) {
    from <= c.today && GateClock(c.today, c.gate)
  }

  predicate Clock(from: Day, e: Event) {
    match e
    case Starting(c) =>
      from <= c.today && GateClock(c.today, c.gate) && c.gate.restoreDay <= c.slotDay <= c.releaseDay
    case Grading(c) =>
      from <= c.tapDay <= c.snapshotDay && GateClock(c.snapshotDay, c.gate)
      && AdvanceClock(c.gate.restoreDay, c.advance)
    case Revealing(c) => GateClock(from, c.gate)
    case Deleting(c) => GateClock(from, c.gate) && AdvanceClock(c.gate.restoreDay, c.advance)
    case Restart => true
    case Midnight(today) => from <= today
  }

  predicate Timely(w: World, es: seq<Event>) {
    es == [] ||
    (Timely(w, es[..|es| - 1]) && Clock(Run(w, es[..|es| - 1]).day, es[|es| - 1]))
  }
}

/** The study protocol as the handlers run it: a session object changed field by
    field, and a database written step by step. Every method is proved to do to the
    whole state what its function in `StudySession` does. An exception that leaves a
    handler is an early return. */
module StudyBot {
  import opened Wrappers
  import opened SessionQuota
  import opened StudySession

  /** The in-memory session, `context.user_data["current_session"]`. */
  class SessionState {
    var nodes: seq<Node>
    var graded: seq<int>
    var revealed: bool
    var prompt: Option<string>
    var promptWord: Option<int>
    var msgId: Option<int>
    var date: Option<Day>

    function Value(): Session
      reads this
    {
      Session(nodes, graded, revealed, prompt, promptWord, msgId, date)
    }

    constructor (s: Session)
      ensures Value() == s
    {
      nodes, graded, revealed := s.nodes, s.graded, s.revealed;
      prompt, promptWord, msgId, date := s.prompt, s.promptWord, s.msgId, s.date;
    }

    method ClearFreeze()
      modifies this
      ensures Value() == StudySession.ClearFreeze(old(Value()))
    {
      prompt := None;
      promptWord := None;
      revealed := false;
    }

    /** `pop_next`. */
    method PopNext() returns (popped: Option<Node>, saved: FrozenSave)
      modifies this
      ensures Popped(popped, saved, Value()) == StudySession.PopNext(old(Value()))
    {
      saved := FrozenSave(revealed, prompt, promptWord);
      popped := None;
      if nodes != [] {
        popped := Some(nodes[0]);
        nodes := nodes[1..];
      }
      ClearFreeze();
    }

    /** `rollback_pop`. */
    method RollbackPop(popped: Option<Node>, saved: FrozenSave)
      modifies this
      ensures Value() == StudySession.RollbackPop(old(Value()), popped, saved)
    {
      if popped.Some? {
        nodes := [popped.value] + nodes;
      }
      revealed, prompt, promptWord := saved.revealed, saved.prompt, saved.promptWord;
    }

    /** `_frozen_for_word`. */
    method FrozenForWord(word: int) returns (frozen: Option<string>)
      modifies this
      ensures (Value(), frozen) == StudySession.FrozenForWord(old(Value()), word)
    {
      if promptWord != Some(word) {
        return None;
      }
      if !ValidPrompt(prompt) {
        ClearFreeze();
        return None;
      }
      return prompt;
    }
  }

  class Bot {
    var session: SessionState?
    var row: Option<Row>
    var ledger: set<(int, Activity)>
    var events: seq<ReviewEvent>
    var flipped: set<int>
    const slots: SessionSlots

    var epoch: nat
    var starts: seq<Day>
    var leaks: seq<Day>
    var views: seq<View>
    var day: Day

    function Repr(): set<object>
      reads this
    {
      if session == null then {this, slots} else {this, slots, session}
    }

    function State(): World
      reads Repr()
    {
      World(if session == null then None else Some(session.Value()), row, ledger, events, epoch,
            slots.cells, starts, leaks, flipped, views, day)
    }

    constructor ()
      ensures State() == World(None, None, {}, [], 0, map[], [], [], {}, [], 0)
      ensures fresh(Repr())
    {
      session, row, ledger, events, flipped := null, None, {}, [], {};
      epoch, starts, leaks, views, day := 0, [], [], [], 0;
      slots := new SessionSlots();
    }

    /******* Rows *******/

    method InvalidateStale(ok: bool)
      modifies this
      ensures session == old(session)
      ensures State() == if ok then Invalidate(old(State())) else old(State())
    {
      if ok {
        row := None;
        ledger := {};
        epoch := epoch + 1;
      }
    }

    method PersistSession(s: SessionState, today: Option<Day>, now: Day, ok: bool)
      modifies this
      ensures session == old(session)
      ensures State() == Persist(old(State()), s.Value(), PersistDay(today, s.Value(), now), ok)
    {
      if ok {
        var stamp := if today.Some? then today.value else if s.date.Some? then s.date.value else now;
        row := Some(Row(stamp, Encoded(s.Value())));
      }
    }

    /** `get_active_session_async`. */
    method GetActiveSession(c: GateChoice) returns (s: SessionState?)
      modifies Repr()
      ensures s == null || (s == session && (s == old(session) || fresh(s)))
      ensures s == null ==> session == null
      ensures (State(), if s == null then None else Some(s.Value())) == Gate(old(State()), c)
    {
      s := session;
      if s != null {
        if s.date != Some(c.today) {
          session := null;
          InvalidateStale(c.invalidateOk);
          s := null;
        }
        return;
      }
      if !c.loadOk || row.None? {
        return;
      }
      var stored := row.value;
      if stored.date != c.restoreDay || stored.blob.Corrupt? || stored.blob.state.nodes == [] {
        InvalidateStale(c.invalidateOk);
        return;
      }
      var restored := new SessionState(Decode(stored.blob.state));
      if restored.date != Some(c.today) {
        InvalidateStale(c.invalidateOk);
        return;
      }
      session := restored;
      s := restored;
    }

    /******* Cards *******/

    /** `_build_card_text_and_keyboard`; None if it raises. */
    method BuildCard(s: SessionState, node: Node, c: BuildChoice) returns (view: Option<View>)
      requires s == session
      modifies this`flipped, s
      ensures s.Value() == Build(old(s.Value()), old(flipped), node, c).state
      ensures flipped == Build(old(s.Value()), old(flipped), node, c).flipped
      ensures view == Build(old(s.Value()), old(flipped), node, c).view
    {
      if c.fault.BeforeFreeze? {
        return None;
      }
      if !c.staged {
        if s.promptWord == Some(node.word) {
          s.ClearFreeze();
        }
        view := Some(Back(node.word, node.activity));
      } else {
        var frozen := s.FrozenForWord(node.word);
        if frozen.Some? {
          if s.revealed {
            flipped := flipped + {node.word};
            view := Some(Back(node.word, node.activity));
          } else {
            flipped := flipped - {node.word};
            view := Some(Front(node.word, frozen.value));
          }
        } else {
          s.prompt := Some(c.pick);
          s.promptWord := Some(node.word);
          s.revealed := false;
          flipped := flipped - {node.word};
          view := Some(Front(node.word, c.pick));
        }
      }
      if c.fault.AfterFreeze? {
        view := None;
      }
    }

    /** `advance_session`. */
    method AdvanceSession(c: AdvanceChoice)
      modifies Repr()
      ensures fresh(Repr() - old(Repr()))
      ensures State() == Advance(old(State()), c)
    {
      var s := GetActiveSession(c.gate);
      if s == null {
        return;
      }
      var popped, saved := s.PopNext();
      if s.nodes != [] {
        var view := BuildCard(s, s.nodes[0], c.build);
        if view.None? {
          return;
        }
        if c.edit.Permanent? || c.edit.Transient? {
          s.RollbackPop(popped, saved);
          return;
        }
        views := views + [view.value];
        PersistSession(s, Some(c.today), c.today, c.persistOk);
        return;
      }
      if c.edit.Transient? {
        s.RollbackPop(popped, saved);
        return;
      }
      session := null;
      if c.clearOk {
        row := None;
      }
    }

    /******* Grading *******/

    method RecordGrade(word: int, activity: Activity)
      modifies this`ledger, this`events
      ensures State() == StudySession.RecordGrade(old(State()), word, activity)
    {
      ledger := ledger + {(word, activity)};
      events := events + [ReviewEvent(word, activity, epoch)];
    }

    /** `_handle_srs_review` and `_handle_first_exposure_grade`. */
    method HandleGrade(c: GradeChoice)
      modifies Repr()
      ensures fresh(Repr() - old(Repr()))
      ensures State() == GradeTap(old(State()), c)
    {
      if session != null && session.date != Some(c.tapDay) {
        session := null;
        InvalidateStale(c.rejectOk);
        return;
      }
      if c.throttled {
        return;
      }
      var persistedStale := c.snapshotOk && PersistedStale(row, c.snapshotDay);
      var s := GetActiveSession(c.gate);
      if s == null {
        HandleSessionlessGrade(persistedStale, c);
      } else {
        HandleSessionGrade(s, c);
      }
    }

    method HandleSessionGrade(s: SessionState, c: GradeChoice)
      requires s == session
      modifies Repr()
      ensures fresh(Repr() - old(Repr()))
      ensures State() == GradeInSession(old(State()), old(s.Value()), c)
    {
      var already := c.word in s.graded;
      if !already {
        if !c.ledgerOk {
          return;
        }
        already := (c.word, c.activity) in ledger;
      }
      var active := s.nodes != [] && s.nodes[0].word == c.word && s.nodes[0].activity == c.activity;
      if already && (active || s.nodes == []) {
        HandleRepeatedGrade(s, c);
      } else if active && c.result.Graded? {
        HandleFirstGrade(s, c);
      }
    }

    method HandleRepeatedGrade(s: SessionState, c: GradeChoice)
      requires s == session
      modifies Repr()
      ensures fresh(Repr() - old(Repr()))
      ensures State() == RepeatedGrade(old(State()), old(s.Value()), c)
    {
      if !c.notifyOk {
        return;
      }
      if c.word !in s.graded {
        s.graded := s.graded + [c.word];
      }
      AdvanceSession(c.advance);
    }

    method HandleFirstGrade(s: SessionState, c: GradeChoice)
      requires s == session
      modifies Repr()
      ensures fresh(Repr() - old(Repr()))
      ensures State() == FirstGrade(old(State()), old(s.Value()), c)
    {
      RecordGrade(c.word, c.activity);
      s.graded := s.graded + [c.word];
      if !c.persistOk {
        return;
      }
      PersistSession(s, s.date, c.gate.restoreDay, true);
      if c.notifyOk {
        AdvanceSession(c.advance);
      }
    }

    method HandleSessionlessGrade(persistedStale: bool, c: GradeChoice)
      requires session == null
      modifies Repr()
      ensures fresh(Repr() - old(Repr()))
      ensures State() == GradeWithoutSession(old(State()), persistedStale, c)
    {
      if !c.ledgerOk || (c.word, c.activity) in ledger {
        return;
      }
      if persistedStale {
        InvalidateStale(c.dropOk);
        return;
      }
      if !c.result.Graded? {
        return;
      }
      RecordGrade(c.word, c.activity);
      if c.notifyOk {
        AdvanceSession(c.advance);
      }
    }

    /******* Revealing *******/

    /** `_handle_srs_reveal`. */
    method HandleReveal(c: RevealChoice)
      modifies Repr()
      ensures fresh(Repr() - old(Repr()))
      ensures State() == RevealTap(old(State()), c)
    {
      var s := GetActiveSession(c.gate);
      if s == null {
        return;
      }
      if (s.revealed && s.promptWord == Some(c.word)) || c.word in flipped {
        return;
      }
      if s.nodes == [] || s.nodes[0].word != c.word || s.msgId.None? || !c.edit.Done? {
        return;
      }
      views := views + [Back(c.word, s.nodes[0].activity)];
      var oldRevealed, oldPromptWord := s.revealed, s.promptWord;
      s.revealed := true;
      if s.promptWord != Some(c.word) {
        s.promptWord := Some(c.word);
      }
      PersistSession(s, s.date, c.gate.restoreDay, c.persistOk);
      if !c.persistOk {
        s.revealed := oldRevealed;
        s.promptWord := oldPromptWord;
      }
      flipped := flipped + {c.word};
    }

    /******* Starting *******/

    /** `_resume_existing_session`. */
    method ResumeExistingSession(s: SessionState, now: Day, c: ResumeChoice)
      requires s == session && s.nodes != []
      modifies this, s
      ensures session == s
      ensures State() == Resume(old(State()), old(s.Value()), now, c)
    {
      if !c.notifyOk {
        return;
      }
      var view := BuildCard(s, s.nodes[0], c.build);
      if view.None? || c.sent.None? {
        return;
      }
      s.msgId := c.sent;
      views := views + [view.value];
      PersistSession(s, s.date, now, c.persistOk);
    }

    /** `handle_study_start`. */
    method HandleStudyStart(c: StartChoice)
      modifies Repr()
      ensures fresh(Repr() - old(Repr()))
      ensures State() == Start(old(State()), c)
    {
      if c.blocked {
        return;
      }
      var s := GetActiveSession(c.gate);
      if s != null && s.nodes != [] {
        ResumeExistingSession(s, c.gate.restoreDay, c.resume);
        return;
      }
      var consumed := false;
      if !c.bypass {
        if !c.consumeOk {
          return;
        }
        var granted := slots.Consume(c.slotDay, c.limit);
        if !granted {
          return;
        }
        consumed := true;
      }
      var delivered := BuildFreshSession(c);
      if consumed {
        if delivered {
          starts := starts + [c.slotDay];
        } else if c.releaseOk {
          slots.Release(c.releaseDay);
        } else {
          leaks := leaks + [c.slotDay];
        }
      }
    }

    /** The `try` body of a fresh start and its cleanup. */
    method BuildFreshSession(c: StartChoice) returns (delivered: bool)
      modifies Repr() - {slots}
      ensures fresh(Repr() - old(Repr()))
      ensures State() == FreshBody(old(State()), c)
      ensures delivered == Delivers(c)
    {
      delivered := false;
      if c.end.RaisedBuilding? {
        ClearAfterFailure(c.cleanupOk);
        return;
      }
      if c.nodes == [] {
        return;
      }
      if c.end.RaisedClearing? {
        ClearAfterFailure(c.cleanupOk);
        return;
      }
      ledger := {};
      epoch := epoch + 1;
      var s := new SessionState(Session(c.nodes, [], false, None, None, None, Some(c.today)));
      session := s;
      if c.end.RaisedSaving? {
        ClearAfterFailure(c.cleanupOk);
        return;
      }
      PersistSession(s, Some(c.today), c.today, true);
      delivered := RenderFirstCard(s, c);
    }

    /** `_render_and_send_first_card`. */
    method RenderFirstCard(s: SessionState, c: StartChoice) returns (delivered: bool)
      requires s == session && s.nodes != []
      modifies this, s
      ensures State() == FirstCard(old(State()), old(s.Value()), c)
      ensures session == null || session == s
      ensures delivered <==> c.build.fault.NoFault? && !c.end.RaisedSending?
    {
      var view := BuildCard(s, s.nodes[0], c.build);
      if view.None? || c.end.RaisedSending? {
        ClearAfterFailure(c.cleanupOk);
        return false;
      }
      s.msgId := Some(c.sent);
      views := views + [view.value];
      PersistSession(s, s.date, c.today, c.postPersistOk);
      return true;
    }

    method ClearAfterFailure(ok: bool)
      modifies this`session, this`row
      ensures session == null && row == if ok then None else old(row)
    {
      session := null;
      if ok {
        row := None;
      }
    }

    /******* Deleting *******/

    /** `_next_due_node`: the candidates in order, up to the first not in the session. */
    method NextDueNode(nodes: seq<Node>, due: seq<Node>) returns (next: Option<Node>)
      ensures next == NextDue(nodes, due)
    {
      for i := 0 to |due|
        invariant NextDue(nodes, due) == NextDue(nodes, due[i..])
      {
        if !Listed(nodes, due[i].word) {
          return Some(due[i]);
        }
      }
      return None;
    }

    /** `_handle_srs_delete_yes`. */
    method HandleDeleteYes(c: DeleteChoice)
      modifies Repr()
      ensures fresh(Repr() - old(Repr()))
      ensures State() == DeleteTap(old(State()), c)
    {
      var s := GetActiveSession(c.gate);
      if s == null || s.nodes == [] || s.nodes[0].word != c.word || s.msgId.None? || !c.dbOk {
        return;
      }
      var next := NextDueNode(s.nodes, c.due);
      if next.Some? {
        s.nodes := s.nodes + [next.value];
      }
      if !c.persistOk {
        return;
      }
      PersistSession(s, s.date, c.gate.restoreDay, true);
      if c.notifyOk {
        AdvanceSession(c.advance);
      }
    }

    /******* The event loop *******/

    /** One event, run to its end before the next; see `Step`. */
    method HandleEvent(e: Event)
      modifies Repr()
      ensures fresh(Repr() - old(Repr()))
      ensures State() == Step(old(State()), e)
    {
      match e {
        case Starting(c) => HandleStudyStart(c);
        case Grading(c) => HandleGrade(c);
        case Revealing(c) => HandleReveal(c);
        case Deleting(c) => HandleDeleteYes(c);
        case Restart => session := null; flipped := {};
        case Midnight(_) =>
      }
      day := LastReading(day, e);
    }

    /** A whole run; the theorems about `Run` are theorems about this loop. */
    method HandleEvents(es: seq<Event>)
      modifies Repr()
      ensures State() == Run(old(State()), es)
    {
      for i := 0 to |es|
        invariant fresh(Repr() - old(Repr()))
        invariant State() == Run(old(State()), es[..i])
      {
        HandleEvent(es[i]);
        assert es[..i + 1][..i] == es[..i];
      }
      assert es[..|es|] == es;
    }
  }
}

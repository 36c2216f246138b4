# Verification of the study bot's core

This project models the parts of the Telegram language-learning bot whose
behaviour spans several calls, failures and restarts, and proves properties of
them for every input and every run.

| part of the bot | modules |
|---|---|
| Study sessions: start, resume, reveal, grade, delete, advance, restart, midnight | `StudySession` (each handler as a function of the state and of everything that can go wrong), `StudyBot` (the same handlers on mutable state, proved equal to those functions), `StudySafety`, `StudyOrder`, `StudyCards`, `StudyFreeze`, `StudyScreen`, `StudyRefusals`, `StudyQuota`, `SessionQuota` |
| Rich text rendering and delivery | `RichText`, `RichTree`, `Delivery` |
| Voice cache | `TtsCache` |
| FSRS-6 arithmetic | `Fsrs` |
| Rate guard, quota keys and their purge | `RateGuard`, `SlotKeys` |
| Help template | `HelpTemplate` |
| Callback dispatch | `CallbackDedup`, `Routing`, `Flows`, `PrefixRegistry` |
| Shared vocabulary | `Keys`, `Text`, `Wrappers` |

`dafny verify dfyconfig.toml` checks everything.

## How failures are modelled

Every save, edit, send, database read and clock reading that the code takes is a
field of a choice (`GateChoice`, `AdvanceChoice`, `GradeChoice` and so on), one per
point where the code reads or writes. A theorem about all choices is a theorem
about all behaviours of Telegram, the database and the clock. `Run` folds
`Step` over a sequence of events; the per-user lock of the study, reveal and grade
callbacks makes each of them one step.
`epoch` counts the clears of the grade ledger, so "between two clears" is "with
equal epochs". In `Delivery` the network is a script that fixes each attempt's
reply and whether the message arrived all the same.

## What was found

These are places where a property one would expect fails, or where the code and
its own documentation differ. The model follows the code; each has a lemma.

- A tap on yesterday's card is normally refused, but it is graded when the snapshot
  read fails (`StudySafety.FailedSnapshotGradesStaleTap`) or when midnight falls
  between the snapshot and the session gate
  (`StudySafety.MidnightGradesStaleTap`). `StudySafety.GradesExactlyWhen` is the exact
  condition.
- One failed restore read can lose cards. If the one of a grade tap fails and the one of
  the advance behind it succeeds, a card nobody graded leaves the session, also with
  every save succeeding (`StudyCards.FailedRestoreLosesCard`,
  `StudyCards.FailedRestoreEndsSession`); `StudyCards.TapAccountsExactlyWhen` is the exact
  condition. If the one of a start fails, the start misses the stored session and either
  replaces it by a fresh list, or raises and removes it
  (`StudyCards.FailedRestoreReplacesSession`, `StudyCards.FailedRestoreRemovesSession`);
  `StudyCards.StartKeepsExactlyWhen` is the exact condition, and it covers lists that
  happen to contain every ungraded card. Apart from deletes, and from the discard of an
  earlier day's session (`StudyCards.DiscardsAreStale`), no other event loses a card
  (`StudyCards.StepKeepsCardsExactlyWhen`, and `StudyCards.EveryCardGoneIsGraded` over
  runs).
- The relation "memory is a suffix of storage" fails on a smaller family of such taps,
  those whose pop is not saved (`StudyOrder.GradeKeepsSuffixExactlyWhen`).
- The last card on the screen is not always the head of the session: a card build that
  raises after the pop, or a session restored by an event that shows nothing, puts another
  card there. `StudyScreen.StepInViewExactlyWhen` is the exact condition; each view that is
  rendered is of the head at that moment (`StudyScreen.EveryViewShowsHead`).
- A word graded earlier in a session may be dealt again by the refill after a delete,
  since only words of the cards left are excluded; `StudySafety.RefillDealsGradedExactlyWhen`
  says which. It is then never graded in that session
  (`StudySafety.RefilledWordIsSkipped`), and a tap on it moves past it
  (`StudySafety.RefilledHeadLeavesUngraded`).
- After a reveal whose save failed, the chat key of the word blocks every further
  reveal of that card until it is rendered again, although the comment in the handler
  expects the next reveal to correct the database
  (`StudyFreeze.FailedRevealBlocksTheNext`, `StudyFreeze.ResumeUnblocksReveal`);
  `StudyFreeze.RevealRecordedExactlyWhen` is the exact condition.
- A failed start that straddles midnight charges one day and credits the other
  (`StudyQuota.StraddlingStartMovesSlot`); `StudyQuota.StartBalancesExactlyWhen` is the
  exact condition.
- `BadRequest` is a subclass of `NetworkError` in the library, so the clause meant to
  regenerate the audio for a file id Telegram rejects is never reached for it; only
  Forbidden regenerates (`Delivery.RegeneratesExactlyOnForbidden`).
- A voice read from memory does not refresh `last_used_at`, so a voice in constant
  use is purged as unused, exactly when its last table access is too old
  (`TtsCache.HotKeyExpires`).
- Different span trees can print alike: italics inside italics print as bold
  (`RichText.NestedItalicsPrintAsBold`), bold always prints as some tree in italics
  (`RichTree.BoldPrintsAsItalics`), and so does any span with a child of its own style
  as two spans side by side (`RichTree.OwnChildCollides`). Without these a rendering
  determines its tree, and the reader restores exactly those trees
  (`RichTree.RestoresExactlyWhen`).
- `compute_interval` ignores `desired_retention` of the configuration
  (`Fsrs.ConfiguredRetentionIsIgnored`).
- With short-term scheduling off, forgetting need not lower stability
  (`Fsrs.FailStrictExactlyWhen`).

## Model

| member | source | states |
|---|---|---|
| StudyBot.Bot.HandleEvents | bot.py:708-776 | A sequence of callbacks, restarts and day changes, each run to its end, does to session object, database and screen exactly what `Run` says, so every theorem about `Run` is one about the handlers |
| StudyBot.Bot.HandleEvent | bot.py:708-776 | One callback run to its end is one `Step`, with the clock left at its last reading |
| StudyBot.Bot.GetActiveSession | handlers/study_handler.py:169-230 | The gate on mutable state: which session is live, what is discarded, and what each failing read or delete leaves behind |
| StudyBot.Bot.PersistSession | handlers/study_handler.py:86-97 | The row written is the session as it stands, dated by the caller's day, else by its own stamp, else by now |
| StudyBot.Bot.InvalidateStale | services/db/sessions.py:144-155 | Row and ledger go together or not at all |
| StudyBot.Bot.BuildCard | handlers/study_handler.py:593-770 | Rendering picks or replays the frozen prompt or shows the grade buttons at once, for both activities, and a raising build leaves what it had written |
| StudyBot.Bot.AdvanceSession | handlers/study_handler.py:826-1053 | Pop, build, edit, then save or roll back, for every outcome of each, is one transition of the whole state |
| StudyBot.Bot.HandleGrade | handlers/srs_handler.py:282-465 | Rejection of stale memory, throttling, snapshot and gate, then grading with or without a session |
| StudyBot.Bot.HandleSessionGrade | handlers/srs_handler.py:337-374 | With a session: repeated, inactive and failed taps change nothing they should not |
| StudyBot.Bot.HandleRepeatedGrade | handlers/srs_handler.py:343-364 | A card already graded is noted and advanced, never graded again |
| StudyBot.Bot.HandleFirstGrade | handlers/srs_handler.py:436-456 | Grade, note, save, answer, advance, stopping where something raises |
| StudyBot.Bot.HandleSessionlessGrade | handlers/srs_handler.py:375-403 | Without a session: the ledger and the snapshot decide |
| StudyBot.Bot.RecordGrade | services/db/words.py:513-527 | Ledger entry and review event are written in one transaction |
| StudyBot.Bot.HandleReveal | handlers/srs_handler.py:176-279 | Two guards, the edit, the flags with their rollback, and the chat key kept in every case |
| StudyBot.Bot.HandleStudyStart | handlers/study_handler.py:308-452 | Resume or charge and build; the slot is released exactly when nothing was delivered |
| StudyBot.Bot.BuildFreshSession | handlers/study_handler.py:367-444 | The `try` body for each point at which it can raise, with its cleanup |
| StudyBot.Bot.RenderFirstCard | handlers/study_handler.py:526-558 | First card sent and saved; a failing save after the send is swallowed |
| StudyBot.Bot.ClearAfterFailure | handlers/study_handler.py:414-424 | Memory is dropped even if the row cannot be |
| StudyBot.Bot.ResumeExistingSession | handlers/study_handler.py:455-519 | A resume renders the head card and saves the new message id under the session's own stamp |
| StudyBot.Bot.HandleDeleteYes | handlers/srs_handler.py:742-766 | Delete, refill, save and advance, stopping where something raises |
| StudyBot.SessionState.PopNext | services/session/store.py:191-208 | Pops the head, clears the freeze and returns what is needed to undo both |
| StudyBot.SessionState.RollbackPop | services/session/store.py:211-219 | Puts head and freeze fields back |
| StudyBot.SessionState.FrozenForWord | handlers/study_handler.py:108-124 | The frozen prompt of this card, with a corrupt one cleared |
| StudySafety.RunKeeps | handlers/srs_handler.py:330-442 | Over every run the ledger holds exactly the pairs graded in its current life, and no session is empty, undated or dated in the future |
| StudySafety.GradedAtMostOnce | handlers/srs_handler.py:330-442 | Over every run, with any failures, no (word, activity) pair has two review events between two clears of the ledger |
| StudySafety.RowsStampedByTheirSession | handlers/study_handler.py:86-97 | Over every run each stored row is dated by the session inside it, and never in the future |
| StudySafety.AdvanceKeeps | handlers/study_handler.py:840-843 | The date an advance read before its gate is still the session's date when it saves, even across midnight |
| StudySafety.GateAnswers | handlers/study_handler.py:197-230 | The gate's answer, whether it wiped the ledger, and all it leaves behind, said without running it |
| StudySafety.GradesExactlyWhen | handlers/srs_handler.py:301-442 | A tap adds a review event if and only if a condition on the state before it holds, and then exactly the tapped one |
| StudySafety.GradeLandsOnHead | handlers/srs_handler.py:337-374 | With a live session a grade is always for its head card and activity |
| StudyRefusals.RefusedEventChangesNothing | handlers/srs_handler.py:151-465 | A start over the limit, a resume that cannot be announced, a tap that is throttled, late, failed, on another card or uncheckable, and a reveal or delete that does not apply change nothing beyond what the gate does |
| StudyRefusals.TappedWordIsNoted | handlers/srs_handler.py:337-456 | An answered tap on the head card leaves its word noted once in the session it leaves, whether it graded the card or found it graded |
| StudyRefusals.InterruptedGradeStays | handlers/srs_handler.py:436-456 | A grade whose save or answer fails is recorded and noted, and the session stays at its head |
| StudyRefusals.InterruptedDeleteStays | handlers/srs_handler.py:742-766 | A delete whose save or answer fails keeps the head, adds at most the first unlisted due card, and shows nothing |
| StudyRefusals.EmptySessionEnds | handlers/srs_handler.py:343-364 | A repeated tap on a session without cards ends it |
| StudySafety.AdvanceGradesNothing | handlers/study_handler.py:826-1053 | Advancing never records a grade |
| StudySafety.StaleTapNeverGrades | handlers/srs_handler.py:311-403 | With steady readings a tap on yesterday's, undated or unreadable session records nothing and leaves no session in memory |
| StudyRefusals.StaleMemoryRejects | handlers/srs_handler.py:44-85 | A tap that finds memory stale drops it, and row and ledger with it unless their delete fails |
| StudyRefusals.StaleTapClears | handlers/srs_handler.py:301-403 | A steady tap on a stale session whose discards succeed leaves no session, no row and an empty ledger |
| StudySafety.FailedSnapshotGradesStaleTap | handlers/srs_handler.py:319-329 | A failing snapshot read lets such a tap grade |
| StudySafety.MidnightGradesStaleTap | handlers/srs_handler.py:319-330 | Midnight between snapshot and gate lets a tap grade sessionless, even a word just graded |
| StudySafety.RefilledWordIsSkipped | handlers/srs_handler.py:331-364 | A word graded before in the session is never graded in it again, also when dealt again |
| StudySafety.RefilledHeadLeavesUngraded | handlers/srs_handler.py:343-364 | With such a word at the head, a tap in which nothing fails removes the card from memory and storage without a review event |
| StudySafety.RefillDealsGradedExactlyWhen | services/session/tier_registry.py:118-136 | A refill deals a word this session graded if and only if the first due word missing from the cards left is such a word |
| StudySafety.DeleteDealsGradedWord | handlers/srs_handler.py:685-766 | After a delete in which nothing fails that card is in the session, in memory and storage |
| StudySafety.DeleteDealsNextDue | handlers/srs_handler.py:685-766 | A delete in which nothing fails drops the head and appends the first due card not in the session, graded before or not, in memory and storage |
| StudySafety.DeleteWithoutDue | handlers/srs_handler.py:685-766 | and without such a card only drops the head |
| StudyBot.Bot.NextDueNode | services/session/tier_registry.py:118-136 | The loop over candidates is the specified choice of the next due card |
| StudyOrder.FailedEditRestoresSession | handlers/study_handler.py:876-882 | A failed edit restores nodes and freeze fields exactly and leaves the row alone |
| StudySafety.AdvanceShape | handlers/study_handler.py:857-917 | What an advance does to memory and storage together, for every outcome of build, edit, save and clear |
| StudyOrder.StaleStays | handlers/study_handler.py:197-230 | What one gate found stale no later gate revives, even if the discard failed |
| StudyOrder.GradeKeepsSuffixExactlyWhen | handlers/srs_handler.py:330-456 | A grade tap keeps memory a suffix of storage, with each missing word noted as graded, if and only if it is not the sessionless tap whose advance restores and pops an unnoted head without saving |
| StudyOrder.MemoryIsSuffixOfStorage | handlers/study_handler.py:847-917 | Over every run without deletes and without such taps, memory is a suffix of storage and every word it lacks is noted as graded in this session |
| StudyOrder.FailedRestoreBreaksSuffix | handlers/study_handler.py:211-216 | A concrete family of taps that break the relation |
| StudyOrder.FreshStartTracks | handlers/study_handler.py:390-413 | A delivered fresh start begins a session whose deck is its card list |
| StudyOrder.LedgerIsPrefix | handlers/srs_handler.py:334-336 | During a session a card's pair is in the ledger exactly if the card is among those graded |
| StudyOrder.GradedInDeckOrder | handlers/srs_handler.py:337-456 | Over every run of a session the grades are a prefix of the deck, in order, each once; the session ends only when all are graded |
| StudyOrder.StorageNeverBack | handlers/study_handler.py:876-884 | No event of a session moves the stored position back |
| StudyOrder.CleanTapProgress | handlers/srs_handler.py:343-364 | A tap on the head in which nothing fails moves storage past it or ends the session, also when it repeats a grade |
| StudyOrder.CleanTapsFinishSession | handlers/srs_handler.py:343-364 | As many clean taps as the deck has cards, among any failing taps, restarts and resumes, finish the session with every card graded exactly once |
| StudyCards.FreshStartDeals | handlers/study_handler.py:390-413 | A delivered fresh start deals a session in which every card is accounted for, whatever was graded before |
| StudyCards.AdvanceAccounts | handlers/study_handler.py:857-1040 | An advance keeps every card accounted for if and only if it does not move past an ungraded head |
| StudyCards.TapAccountsExactlyWhen | handlers/srs_handler.py:282-465 | A grade tap drops no card from memory or storage whose pair is not graded, if and only if it is not the sessionless tap whose advance restores the session and moves past an ungraded head |
| StudyCards.LosingTapDropsHead | handlers/srs_handler.py:375-456 | The tap described leaves the ungraded head neither stored nor in memory |
| StudyCards.StartKeepsExactlyWhen | handlers/study_handler.py:348-444 | Every ungraded card of the stored session is still stored after a start if and only if it is not a start that found no live session and then removed the stored one or replaced it by a list without such a card |
| StudyCards.StepKeepsCardsExactlyWhen | handlers/study_handler.py:308-1053 | Any event but a delete and a day-change discard keeps every ungraded card in storage and memory if and only if it is neither that tap nor that start |
| StudyCards.DiscardsAreStale | handlers/study_handler.py:197-230 | Only a session of an earlier day than the last reading of the event is ever discarded |
| StudyCards.EveryCardGoneIsGraded | handlers/srs_handler.py:330-442 | Over every run without deletes, day-change discards and those two events, across restarts, midnights, fresh starts and failures, every card held at its beginning has been graded in it or is held still, in storage and memory |
| StudyCards.RefusedForGood | handlers/study_handler.py:197-230 | A session one gate refused is restored by no later one, even if the discard failed |
| StudyCards.FailedRestoreLosesCard | handlers/study_handler.py:211-216 | One failed read is enough: with all saves succeeding a tap on another word removes the ungraded head from memory and storage |
| StudyCards.FailedRestoreEndsSession | handlers/study_handler.py:1039-1040 | With one card left the session ends with it ungraded |
| StudyCards.FailedRestoreReplacesSession | handlers/study_handler.py:348-413 | One failed read is enough for a start that goes well to replace a resumable session by a list without its ungraded card |
| StudyCards.FailedRestoreRemovesSession | handlers/study_handler.py:394-424 | and for one that raises after clearing the ledger to remove the session with its ungraded cards |
| StudyFreeze.ResumeReplays | handlers/study_handler.py:473-515 | A resume of a frozen card shows its prompt and stage and keeps the freeze, whatever fails |
| StudyFreeze.EveryResumeShowsTheFrozenCard | handlers/study_handler.py:650-693 | After any run that leaves the card in place, with restarts, pressing the study button shows the very view that was frozen |
| StudyFreeze.AdvanceFreezes | handlers/study_handler.py:676-682 | A saved staged advance stores such a freeze for the next card |
| StudyFreeze.FailedRevealKeepsFlags | handlers/srs_handler.py:257-277 | A reveal whose save fails leaves memory and storage as they were |
| StudyFreeze.RevealRecordedExactlyWhen | handlers/srs_handler.py:176-278 | A reveal is recorded in both copies if and only if it was on the unrevealed head card, newly applied and saved |
| StudyFreeze.FailedRevealBlocksTheNext | handlers/srs_handler.py:180-182 | After a failed save a second reveal of the card changes nothing |
| StudyFreeze.ResumeUnblocksReveal | handlers/study_handler.py:127-144 | Rendering the card again lifts that block |
| StudySafety.StoredFormExactlyWhen | services/session/store.py:105-138 | A session comes back from storage as it went in if and only if its freeze is whole: a known prompt, a word only with a prompt, a reveal only with both |
| StudyScreen.EveryViewShowsHead | handlers/study_handler.py:593-770 | Every event, with any failures, renders at most one card, the head of the session it leaves in memory, under that card's own grade buttons or its own frozen prompt |
| StudyScreen.DeliveredStart | handlers/study_handler.py:526-558 | A delivered start shows exactly one view, the first card's: its grade buttons in immediate mode, a hidden front in staged mode, and keeps the message id |
| StudyScreen.DeliveredAdvance | handlers/study_handler.py:857-917 | A delivered advance shows exactly one view, the next card's, freezes it and saves it |
| StudyScreen.DeliveredResume | handlers/study_handler.py:455-519 | A delivered resume shows exactly one view, the head card's, frozen or new, and stores the new message id |
| StudyScreen.ImmediateForgetsFreeze | handlers/study_handler.py:632-648 | After an immediate rendering no freeze of the card is left |
| StudyScreen.RevealShowsExactlyWhen | handlers/srs_handler.py:176-256 | A reveal shows the head card's grade buttons if and only if it is the unrevealed head, has a message and its edit is newly applied |
| StudyScreen.FirstCardCanBeRevealed | handlers/study_handler.py:526-558 | The first card of a staged start can be revealed, also after a restart |
| StudyScreen.RestartUnblocksReveal | handlers/srs_handler.py:176-256 | After a restart the unrevealed stored head can be revealed, whatever reveals failed before |
| StudyScreen.StepInViewExactlyWhen | handlers/study_handler.py:826-917 | An event keeps the last view on the head of the session if and only if it puts no other card there unrendered: by a failed build after a pop or a restore that shows nothing |
| StudyScreen.SilentOnlyWhen | handlers/study_handler.py:826-917 | With a session in memory that takes a failed card build behind a grade or a delete, or a tap whose gate finds the session stale |
| StudyScreen.LastViewShowsHead | handlers/study_handler.py:826-917 | Over every run without such events the last view is of the head card |
| StudyScreen.TapOnLastGridGrades | handlers/srs_handler.py:337-374 | A tap on the last grade buttons shown is a tap on the head card, and grades it unless it is graded already |
| StudyQuota.CounterCountsDeliveries | handlers/study_handler.py:353-452 | Over every run in which no start moves a slot, each day's counter stays in [0, limit] and equals the fresh sessions delivered plus the failed releases |
| StudyQuota.ResumeCostsNothing | handlers/study_handler.py:341-351 | A resume changes no counter |
| StudyQuota.BypassedStartIsFree | handlers/study_handler.py:353-366 | Nor does a bypassed start |
| StudyQuota.SlotTakenExactlyBelowLimit | handlers/study_handler.py:353-452 | Without a session to resume a start counts exactly if it delivers while the day's delivered sessions and failed releases are below the limit, and changes no counter at the limit |
| StudyQuota.StartSlots | handlers/study_handler.py:353-452 | When a start charges a slot, and what delivery, release or failed release then leave in the counters |
| StudyQuota.StartBalancesExactlyWhen | handlers/study_handler.py:353-452 | A start keeps the balance if and only if it is not a charged one that delivers nothing and gives its slot back on another day |
| StudyQuota.StraddlingStartMovesSlot | services/scheduling.py:150-174 | Such a start charges the old day and credits the new one, if that has anything to give back |
| SessionQuota.ReleaseUndoesConsume | services/scheduling.py:115-174 | A release after a consume restores every day's count |
| SessionQuota.SessionSlots.Consume | services/scheduling.py:115-147 | Granted exactly while the day's cell is below the limit, counting an unreadable one as zero, and then one higher |
| SessionQuota.SessionSlots.Release | services/scheduling.py:150-174 | Takes one back, never below zero, and normalises an unreadable cell |
| RichText.ReadSpans | services/send_pretty.py:805-834 | Reading the rich rendering of any nested tree gives back its glyphs: leaf characters shown, structure as markup, nothing else |
| RichText.RichReadsAsPlain | services/send_pretty.py:758-834 | The text shown by the rich rendering is the plain rendering, for every tree |
| RichText.ReadEscaped | services/send_pretty.py:49-57 | Escaped text reads back as itself, every character shown |
| RichText.EscapesExactlyMarkup | services/send_pretty.py:49-57 | A backslash comes before each of the nineteen characters of Rich Markdown, listed by the reader, and before no other |
| RichText.NoBareMarkup | services/send_pretty.py:52-57 | In escaped text none of them stands unescaped |
| RichText.ReadCodeEscaped | services/send_pretty.py:60-63 | Escaped code inside backticks reads back as itself |
| RichText.CodeEscapeHead | services/send_pretty.py:60-63 | The two successive replacements equal one escape per character |
| RichText.LeavesAddNoMarkup | services/send_pretty.py:805-834 | Trees of one shape carry the same markup, whatever their leaf texts |
| RichText.NestedItalicsPrintAsBold | services/send_pretty.py:811-814 | Two different trees print alike, so structure is not always recoverable |
| RichTree.RestoresExactlyWhen | services/send_pretty.py:805-834 | For every tree, rebuilding the tree from the rich rendering gives it back, up to the splitting of its text, if and only if no span has a child of its own style (hidden-text tags apart) and asterisks stand for one style |
| RichTree.RenderingIsInjective | services/send_pretty.py:805-834 | Among such trees two renderings are equal if and only if the trees are |
| RichTree.SpansRenderItems | services/send_pretty.py:805-834 | The rendering does not depend on how text is split into plain spans and line breaks |
| RichTree.OwnChildCollides | services/send_pretty.py:811-826 | A span with a child of its own style always prints as a different tree |
| RichTree.BoldPrintsAsItalics | services/send_pretty.py:811-814 | Bold around any content prints as a different tree in italics |
| RichText.RichMessageReadsAsPlain | services/send_pretty.py:611-625 | A whole rich message reads as its plain lines with a blank line between |
| Delivery.SendDeliversAtMostOnce | services/send_pretty.py:240-282 | For every script at most three attempts and one delivery, exactly one on return, none on an error that is no timeout, and none elsewhere |
| Delivery.SendRepeatsExactlyRetryAfter | services/send_pretty.py:240-282 | Every attempt but the last was told to retry, the last was not unless it was the third, and all went to one chat the same way |
| Delivery.HiddenRetryAfterDuplicates | services/send_pretty.py:270-277 | If a rate-limit answer can hide a delivery, one send delivers twice |
| Delivery.RichDeliversAtMostOnce | services/telegram_rich.py:92-151 | With the fallback included the chat still gets at most one message, in at most four attempts |
| Delivery.RichNeverEndsRefused | services/telegram_rich.py:136-151 | On every network a rich send never ends on a refused rich request, and the latch is set exactly by a 404 |
| Delivery.FallbackDelivers | services/telegram_rich.py:110-151 | Where rich messages are refused or latched off and the next request goes through, exactly one message arrives, in the fallback form, and the send returns |
| Delivery.RichGoesFirst | services/telegram_rich.py:126-151 | Where they are not refused the rich request is the only one |
| Delivery.SpeakDeliversAtMostOnce | services/tts_service.py:198-250 | Through cached id, channel upload and direct send the learner gets at most one voice, exactly one when a kind is returned |
| Delivery.AlwaysOnceExactlyWhenApart | services/tts_service.py:198-250 | Over all honest networks and circumstances a pronunciation reaches the learner at most once, exactly once when it returns a kind, if and only if the channel is not the learner's own chat |
| Delivery.SameChannelDuplicates | services/tts_service.py:218-236 | If the channel is the learner's chat, it gets two |
| Delivery.BlockedChannelStillSpeaks | services/tts_service.py:215-250 | An upload that is refused or brings no file id is followed by the direct send |
| Delivery.RefusedCopyStillSpeaks | services/tts_service.py:233-250 | and so is a refused copy of an uploaded voice |
| Delivery.UncertainUploadEnds | services/tts_service.py:240-243 | An upload that timed out is raised and nothing goes to the learner, and nothing is sent without an audio file |
| Delivery.SmoothSpeech | services/tts_service.py:198-250 | Where everything goes through, which of the three ways is taken and that nothing else is sent |
| Delivery.RegeneratesExactlyOnForbidden | services/tts_service.py:205-212 | A rejected cached id is re-raised; only Forbidden leads to a new generation |
| Delivery.ProbedOnce | services/telegram_rich.py:136-141 | Over any number of sends nothing rich follows a 404, and the latch is set exactly if one was seen |
| Delivery.Client.SendMediaWithRetry | services/send_pretty.py:210-282 | The retry loop is the specified send; Forbidden in a private chat marks the user, and the sleep is the sum of the demanded waits, each clamped |
| Delivery.Client.SendRichMessage | services/telegram_rich.py:74-151 | The code with its clause order is the specified rich send |
| Delivery.Client.SpeakLocked | services/tts_service.py:198-250 | The code with its clause order is the specified pronunciation |
| TtsCache.Cache.GetCached | services/tts_cache.py:76-114 | Agrees with a plain table lookup up to the stamp, which only a table hit moves; the key becomes the most recent |
| TtsCache.Cache.ReadRow | services/tts_cache.py:84-111 | A table hit stamps row and copy alike unless the update fails |
| TtsCache.Cache.PutCached | services/tts_cache.py:116-132 | The row is replaced in table and memory and becomes the most recent, unless the database fails and nothing changes |
| TtsCache.Cache.Remember | services/tts_cache.py:104-108 | Insertion, move to the end and eviction over the cap |
| TtsCache.Cache.ClearLru | services/tts_cache.py:134-136 | Memory is emptied, the table stays |
| TtsCache.Cache.DeleteRowsAndFiles | services/tts_cache.py:151-177 | The same keys leave table, memory and disk, except files that cannot be unlinked |
| TtsCache.RememberKeeps | services/tts_cache.py:104-108 | The memory invariant survives an eviction: bounded, a subset of the table, ordered by last use |
| TtsCache.RecencyIsByLastUse | services/tts_cache.py:76-136 | The order kept is the order of last uses over the whole history |
| TtsCache.KeepsTheMostRecent | services/tts_cache.py:104-108 | Every key in memory was used after every live key that was evicted |
| TtsCache.Cache.SelectExpired | services/tts_cache.py:213-224 | At most a batch, all older than the cutoff, none used later than a row left, and everything expired if not full |
| TtsCache.Cache.PurgeExpired | services/tts_cache.py:212-231 | Pass 1 terminates, removes expired rows only, in order of last use, and all of them unless it deleted a whole batch for each check the deadline allows |
| TtsCache.Cache.PickVictims | services/tts_cache.py:254-260 | The shortest prefix that frees enough, else everything |
| TtsCache.Cache.DeleteVictims | services/tts_cache.py:261-266 | Chunks cover a prefix of the victims exactly once, all of it unless the chunks have used up the checks left |
| TtsCache.Cache.PurgeOverCap | services/tts_cache.py:235-266 | Pass 2 evicts oldest first, not one row more than needed, and until the rest fits unless the checks left are used up |
| TtsCache.Cache.PurgeTtsCache | services/tts_cache.py:180-271 | Both passes with their own counts and key sets: pass 1 takes exactly the expired rows, pass 2 the oldest of the rest and not one too many, each key from table, memory and disk together, and what is left fits; a deadline excuses less only after a whole batch for each check it allows, and never allows more |
| TtsCache.EvictionFacts | services/tts_cache.py:252-266 | What evicting a prefix of the ordered rows achieves, and that one row fewer would not |
| TtsCache.HotKeyExpires | services/tts_cache.py:76-81 | A voice just read is taken by pass 1 of the next purge if and only if it was read from memory and its last table access is too old |
| Fsrs.RetrievabilityFalls | services/fsrs_core.py:90-94 | Retrievability is in (0, 1], one at time zero, strictly decreasing in time |
| Fsrs.RetrievabilityRises | services/fsrs_core.py:90-94 | and strictly increasing in stability |
| Fsrs.IntervalHitsTarget | services/fsrs_core.py:90-103 | Interval and retrievability are inverse exactly when uncapped, and never below the target when capped |
| Fsrs.NinetyAtStability | services/fsrs_core.py:90-94 | After as many days as its stability a card is remembered with chance 0.9 |
| Fsrs.DefaultIntervalIsStability | services/fsrs_core.py:52-103 | At the default retention the interval is the stability, floored and capped |
| Fsrs.ConfiguredRetentionIsIgnored | services/fsrs_core.py:97-103 | The configured retention has no effect |
| Fsrs.IntervalMono | services/fsrs_core.py:97-103 | More stability never means a shorter interval |
| Fsrs.DefaultIsSound | services/fsrs_core.py:24-46 | The default weights meet everything the proofs ask of weights |
| Fsrs.DifficultyAntitoneInGrade | services/fsrs_core.py:124-129 | A better grade never raises difficulty |
| Fsrs.DifficultyMonotone | services/fsrs_core.py:124-129 | A harder card stays the harder one under a common grade |
| Fsrs.DifficultyStrictExactlyWhen | services/fsrs_core.py:124-129 | A better grade strictly lowers difficulty if and only if the card is below 10 and the worse grade does not already leave it at 1 |
| Fsrs.DifficultySteps | services/fsrs_core.py:124-129 | Between the bounds every grade step moves difficulty by w6, damped by the way left to 10 and by the reversion |
| Fsrs.GoodRevertsToEasy | services/fsrs_core.py:127-129 | Good moves difficulty the part w7 of the way to where Easy would have started it |
| Fsrs.InitialDifficultyAntitone | services/fsrs_core.py:119-121 | A better first grade never starts a card harder |
| Fsrs.InitialDifficultyStrictExactlyWhen | services/fsrs_core.py:119-121 | It starts it strictly easier if and only if no bound decides, and Again starts it at w4 |
| Fsrs.StabilityOrderedByGrade | services/fsrs_core.py:132-159 | Again < s <= Hard <= Good <= Easy |
| Fsrs.RecallGains | services/fsrs_core.py:148-159 | Hard, Good and Easy raise stability strictly once the chance of recall is below 1 and leave it at 1, with gains as w15 to 1 to w16; Hard is below Good and Good below Easy exactly as the weights say |
| Fsrs.RecallGainsFall | services/fsrs_core.py:150-159 | The gain falls strictly with difficulty, in proportion to 11 - d, with the chance of recall, and relative to stability with stability |
| Fsrs.RecallGainScales | services/fsrs_core.py:150-159 | The gain at stability 1 and difficulty 10, and how it scales with stability |
| Fsrs.FailureMonotone | services/fsrs_core.py:137-143 | The failure formula is positive, strictly rises with stability and strictly falls with difficulty and the chance of recall |
| Fsrs.FailureScales | services/fsrs_core.py:137-143 | Its value for a certain recall at difficulty 1, and the factors difficulty and forgetting add |
| Fsrs.ForgettingOrderedExactlyWhen | services/fsrs_core.py:137-146 | A forgotten card that was easier or less likely recalled keeps more stability, strictly if and only if no bound decides; between the bounds it is the failure formula |
| Fsrs.StabilityFloor | services/fsrs_core.py:90-136 | A stability below 0.1 counts as 0.1 everywhere |
| Fsrs.IntervalsOrderedByGrade | services/fsrs_core.py:97-159 | Intervals are ordered by grade at every retention |
| Fsrs.FailStrictExactlyWhen | services/fsrs_core.py:137-147 | Without short-term scheduling, when exactly Again lowers stability, and that it is the failure formula between floor and old stability |
| Fsrs.ShortTermOrderedByGrade | services/fsrs_core.py:162-166 | Short-term updates are ordered by grade |
| Fsrs.ShortTermPositive | services/fsrs_core.py:162-166 | Short-term updates stay positive, and Good and Easy never lower stability |
| Fsrs.ShortTermStrictExactlyWhen | services/fsrs_core.py:162-166 | A better grade gives strictly more if and only if the worse one is below Good or the better one raises stability |
| Fsrs.ShortTermScales | services/fsrs_core.py:162-166 | On Again and Hard, the multiplier at stability 1 and how it falls with stability |
| Fsrs.ShortTermAtOne | services/fsrs_core.py:144-166 | At stability 1 Good multiplies by the divisor of the long-term failure bound, and worse grades by less than 1 |
| Fsrs.FirstGradeIsHealthy | services/db/words.py:569-570 | Every first grade starts with positive stability and difficulty in [1, 10] |
| Fsrs.FirstGradesOrdered | services/fsrs_core.py:56-116 | Better first grades start more stable cards, and a first exposure never starts one less stable than the recall weights |
| Fsrs.ReviewMovesStability | services/db/words.py:493-505 | A review a day or more later strictly raises stability exactly on recall and strictly lowers it on Again; one within the day never lowers it on Good or Easy |
| Fsrs.ReviewMovesDifficulty | services/db/words.py:493-505 | Every review moves difficulty by its grade |
| Fsrs.HistoryKeepsHealth | services/db/words.py:493-505 | Along every history of reviews difficulty stays in [1, 10], stability positive, and the interval within its cap |
| RateGuard.EveryWindowCapped | services/scheduling.py:265-289 | If each acquisition saw fewer than the limit in its own window, every window whatever its end holds at most the limit |
| RateGuard.GuardCapsEveryWindow | services/scheduling.py:265-289 | In every reachable state this holds for every user and action |
| RateGuard.Prune | services/scheduling.py:67-70 | The pruned bucket has as many entries as the window of the bucket, and loses no entry a later window could reach |
| RateGuard.PrunedTwice | services/scheduling.py:67-70 | Counting a bucket pruned before equals counting the full history |
| RateGuard.Guard.TryAcquire | services/scheduling.py:265-289 | Granted exactly if the never pruned history holds fewer than the limit in the window, and then recorded |
| RateGuard.Guard.IsRateLimited | services/scheduling.py:248-262 | True exactly if the full history holds the limit in the window, and nothing is recorded |
| RateGuard.KnownLimits | services/scheduling.py:34-51 | The limits are those configured, five where none is, and five for every action as shipped |
| SlotKeys.SlotKeyRoundTrip | services/scheduling.py:83-84 | Matching a printed key recovers user and date, unambiguously |
| SlotKeys.MatchesExactlyWhen | services/scheduling.py:183 | Exactly the keys made of the prefix, digits, an underscore and a date, with or without a final line break, match, and with these groups |
| SlotKeys.IsoOrder | services/scheduling.py:196-205 | On ISO dates string order is calendar order and printing is injective |
| SlotKeys.BeforeIsCalendarOrder | services/scheduling.py:196-205 | Field by field order of dates is the order of day numbers, leap years included |
| SlotKeys.YesterdayIsOneDayBack | services/scheduling.py:196 | The day before is a valid date one day back, over month and year ends |
| SlotKeys.GregorianCycle | services/scheduling.py:196 | The calendar repeats after 400 years of 146097 days |
| SlotKeys.KnownDays | services/scheduling.py:196 | and numbers days as Python does |
| SlotKeys.StaleIsTwoDaysOld | services/scheduling.py:201-205 | A user's key is stale exactly if it is two days old or more |
| SlotKeys.StaleStays | services/scheduling.py:201-205 | What is stale on one day is stale on every later one |
| SlotKeys.Settings.SelectStale | services/scheduling.py:197-205 | All stale keys, each once |
| SlotKeys.Settings.DeleteChunks | services/scheduling.py:206-216 | A whole number of chunks from the front, or all; nothing for a negative batch |
| SlotKeys.Settings.PurgeOldSlotKeys | services/scheduling.py:186-222 | Deletes only stale keys and counts them, all of them unless the deadline stops it after whole chunks |
| SlotKeys.NightsDeleteAll | services/scheduling.py:206-222 | Over runs on passing days, with keys written between them, the stale backlog shrinks by the batch less the arrivals at each run until it is gone |
| SlotKeys.FreshKeysStay | services/scheduling.py:196-205 | Over such runs no key is deleted that is not stale on the last day |
| HelpTemplate.PrintingRestoresTemplate | handlers/help_command.py:189-239 | Printing the tokens of any template gives back the template, unbalanced guillemets included |
| HelpTemplate.TokensAreTidy | handlers/help_command.py:224-239 | Bold spans contain no guillemet, no plain span is empty or holds a pair of guillemets, and no span contains a sentinel |
| HelpTemplate.BoldExactlyWhen | handlers/help_command.py:189-239 | A text is shown bold if and only if it holds no guillemet and no sentinel and stands in the template between an opening and a closing guillemet |
| HelpTemplate.HelpSpans | handlers/help_command.py:189-221 | The nested loops produce such a token list |
| HelpTemplate.HelpGuillemets | handlers/help_command.py:224-239 | One segment's loop appends its tokens after those pushed before |
| CallbackDedup.ProcessAll | bot.py:826-841 | On every sequence of callbacks the guard that prunes decides as the history that is never pruned |
| CallbackDedup.ProcessedAreApart | bot.py:829-836 | Two processed callbacks of one user with the same data are at least 0.8 s apart |
| CallbackDedup.ProcessedExactlyWhen | bot.py:826-836 | A callback is processed if and only if its route has its own lock or every processed callback of its user and data is at least 0.8 s back |
| CallbackDedup.SameAnswer | bot.py:832-841 | An entry pruned away could no longer have dropped anything |
| CallbackDedup.Dedup.Accept | bot.py:829-841 | One callback: decided as by the history, which the table still agrees with |
| CallbackDedup.Dedup.Prune | bot.py:837-841 | Exactly the entries older than the window go |
| PrefixRegistry.BestPrefixIgnoresOrder | services/routing.py:66-82 | Two registries with the same prefixes in any order select the same prefix |
| PrefixRegistry.EarliestDuplicateWins | services/routing.py:77-82 | Among equal prefixes the earliest registration is selected |
| Routing.Router.LongestMatch | services/routing.py:66-82 | The longest match, the earliest among equals; None exactly if nothing matches |
| Routing.Router.Dispatch | services/routing.py:85-114 | Unknown exactly if nothing matches; an owner-only route runs for the owner alone; the action is the rest after the prefix |
| Routing.SelectionIgnoresOrder | services/routing.py:56-82 | With distinct prefixes no permutation of the registry changes a route |
| Routing.StripColons | services/routing.py:113 | All leading colons go, and nothing but them |
| Routing.ActionRoundTrip | services/routing.py:79-113 | A route matches exactly the data made of its prefix, a colon and anything, and an action comes out as it went in |
| Flows.Registry.RegisterFlow | handlers/flows.py:71-75 | An empty prefix is refused |
| Flows.Registry.ResolveFlow | handlers/flows.py:85-98 | The best match, the earliest among equals; None exactly if nothing matches |
| Flows.SelectionIgnoresOrder | handlers/flows.py:78-98 | With distinct prefixes no permutation changes a flow, with exact keys and namespaces mixed |
| Flows.ExactKeyWins | handlers/flows.py:78-98 | A matching exact key beats every matching namespace |
| Flows.MatchesExactlyWhen | handlers/flows.py:78-82 | A namespace matches exactly what begins with it, any other key exactly itself |

## Left out

- Telegram objects, keyboards, message texts and the admin menus.
- SQL, SQLite connections, threads and the file system; a transaction is one step.
- The fields of `SessionState` that no transition reads: `total_cards`, `plan`, `tier3_context`, `before_stability`; card text and telemetry keys other than `revealed_<word>`.
- The tier-3 push in `advance_session`: the stub `generate_tier3_node` always returns None.
- StudySafety.RunKeeps: runs contain no nightly purge (services/db/sessions.py:158-206). It drops rows dated before yesterday and ledger entries older than two days, also of a user without a session; a tap on a button that old then grades its pair again.
- StudySafety.GradedAtMostOnce: hence "between two clears" leaves out the purge as well.
- A failure while the app day is computed, and callbacks with malformed data or another user's id, which return before any of this.
- StudyOrder.MemoryIsSuffixOfStorage: says nothing about deletes, because after a refill whose save or edit fails memory is longer than storage.
- StudyCards.EveryCardGoneIsGraded: says nothing about deletes, which drop a card on purpose, and assumes that no list holds a word twice, as due and new words are disjoint rows.
- StudyOrder.GradedInDeckOrder: is about one day with successful session reads and no delete; `StudyCards.FailedRestoreLosesCard` shows why the reads are needed.
- StudyBot.Bot.HandleDeleteYes: the stored review events of a deleted word go with it; `events` is a log of the grades made and keeps them.
- StudyOrder.FailedEditRestoresSession: a card build that raises after the pop is not rolled back by the code either.
- StudyQuota.CounterCountsDeliveries: assumes a fixed limit and no owner bypass.
- StudyBot.Bot.HandleEvent: each event is one step. The code runs the study, reveal and grade callbacks under a per-user lock (bot.py:708-776), but registers the delete callbacks (handlers/srs_handler.py:800-802) without one, and their interleavings with the others are not modelled.
- Quote, link, heading, table, list, details, math, emoji and raw spans, whose plain and rich forms differ on purpose, and the MarkdownV2 and HTML renderers.
- The edit path with its own retry seam; an edit is one outcome.
- The circuit breaker, the slot limiter and the byte capture of media sends; `RICH_ENABLED` switched off, which acts as a latch set from the start.
- Hand-over and eviction of the speak locks, and the cache writes inside `_speak_locked`.
- TtsCache.Cache.PurgeTtsCache: a database error during a purge is not modelled; one in a lookup or a put is.
- Timestamps and cutoffs of the voice cache are integers, those of the rate guard and the callback guard are reals.
- Fsrs.HistoryKeepsHealth: over reals, without float rounding; `exp` and powers are parameters of which `Fsrs.Laws` lists all that is assumed, the standard laws of the real functions, which are not constructed here.
- `record_per_user_action`, which bypasses the limit, and clocks that run backwards.
- SlotKeys.SlotKeyRoundTrip: `\d` is read as the ten ASCII digits, and user ids as non-negative.
- The answer guarantee of `_invoke_and_ensure_answered`.
- Configuration, factory, scripts, tools, the retention scheduler and the AI services: registries and argument plumbing.

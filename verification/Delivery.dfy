/** Outbound delivery: the send retry core of services/send_pretty.py, the rich send
    of services/telegram_rich.py and the voice fallback of services/tts_service.py,
    over a network that answers each attempt as it likes. */
module Delivery {
  import opened Wrappers

  /******* The network *******/

  /** What an attempt reports. The classes are those the `except` clauses name, with
      everything else as OtherError. */
  datatype Reply =
    | Ok
    | Forbidden
    | BadRequest
    | RetryAfter(seconds: real)
    | TimedOut
    | NetworkError
    | EndPointNotFound
    | OtherError

  /** An attempt, and whether the message reached the chat all the same. */
  datatype Outcome = Outcome(reply: Reply, reached: bool)

  /** One outcome per attempt, in order, fixed by the adversary. */
  type Script = nat -> Outcome

  /** In the library's exception hierarchy BadRequest and TimedOut are NetworkErrors. */
  predicate CaughtAsNetworkError(r: Reply) {
    r.TimedOut? || r.NetworkError? || r.BadRequest?
  }

  predicate IsTimeoutClass(r: Reply) {
    r.TimedOut? || r.NetworkError?
  }

  /** Success delivers, and only TimedOut and NetworkError can hide a delivery. */
  ghost predicate Honest(net: Script) {
    forall i: nat :: (net(i).reply.Ok? ==> net(i).reached)
      && (net(i).reached ==> net(i).reply.Ok? || IsTimeoutClass(net(i).reply))
  }

  datatype Via = Message | Voice | Rich

  /** One attempt as the server saw it. */
  datatype Attempt = Attempt(chat: int, via: Via, outcome: Outcome)

  /** What the client has done: outcomes used up, attempts made, and whether it has
      learned that the server has no rich messages. */
  datatype State = State(pos: nat, log: seq<Attempt>, latched: bool)

  function Try(net: Script, s: State, chat: int, via: Via): State {
    s.(pos := s.pos + 1, log := s.log + [Attempt(chat, via, net(s.pos))])
  }

  /** Messages that reached `chat`. */
  function Arrived(log: seq<Attempt>, chat: int): nat {
    if log == [] then 0
    else
      var a := log[|log| - 1];
      Arrived(log[..|log| - 1], chat) + if a.chat == chat && a.outcome.reached then 1 else 0
  }

  /** Messages that reached `chat` between two states. */
  function Delivered(s: State, t: State, chat: int): int {
    Arrived(t.log, chat) - Arrived(s.log, chat)
  }

  lemma TryDelivers(net: Script, s: State, chat: int, via: Via, other: int)
    ensures Delivered(s, Try(net, s, chat, via), other) == if other == chat && net(s.pos).reached then 1 else 0
  {
    var log := Try(net, s, chat, via).log;
    assert log[..|log| - 1] == s.log;
  }

  /******* One send: `_send_media_with_retry` *******/

  const MAX_ATTEMPTS := 3
  const SLEEP_MAX := 30.0

  /** A send that may use outcomes up to number `last`: one attempt, and another after
      each RetryAfter that is not the last. It ends with the reply to the last one. */
  function SendUpTo(net: Script, s: State, last: nat, chat: int, via: Via): (State, Reply)
    requires s.pos <= last
    decreases last - s.pos
  {
    var t := Try(net, s, chat, via);
    if net(s.pos).reply.RetryAfter? && s.pos < last then SendUpTo(net, t, last, chat, via)
    else (t, net(s.pos).reply)
  }

  function Send(net: Script, s: State, chat: int, via: Via): (State, Reply) {
    SendUpTo(net, s, s.pos + MAX_ATTEMPTS - 1, chat, via)
  }

  /** Every attempt but the last was told to retry later, so only the last one can
      have delivered. */
  lemma {:induction false} SendUpToDelivers(net: Script, s: State, last: nat, chat: int, via: Via, other: int)
    requires Honest(net) && s.pos <= last
    ensures var (t, reply) := SendUpTo(net, s, last, chat, via);
      && s.pos < t.pos <= last + 1 && t.latched == s.latched && reply == net(t.pos - 1).reply
      && Delivered(s, t, other) == if other == chat && net(t.pos - 1).reached then 1 else 0
    decreases last - s.pos
  {
    TryDelivers(net, s, chat, via, other);
    if net(s.pos).reply.RetryAfter? && s.pos < last {
      SendUpToDelivers(net, Try(net, s, chat, via), last, chat, via, other);
    }
  }

  /** A send repeats exactly what it was told to: every attempt before the last was
      answered RetryAfter, and the last was not, unless it was the third. */
  lemma SendRepeatsExactlyRetryAfter(net: Script, s: State, chat: int, via: Via)
    ensures var (t, reply) := Send(net, s, chat, via);
      && s.pos < t.pos <= s.pos + 3 && reply == net(t.pos - 1).reply
      && (forall i: nat :: s.pos <= i < t.pos - 1 ==> net(i).reply.RetryAfter?)
      && (reply.RetryAfter? ==> t.pos == s.pos + 3)
      && Tail(s, t, chat, via)
  {
    SendUpToRepeats(net, s, s.pos + MAX_ATTEMPTS - 1, chat, via);
  }

  /** All attempts between two states went to one chat the same way, one per outcome. */
  predicate Tail(s: State, t: State, chat: int, via: Via) {
    && s.pos <= t.pos && |t.log| == |s.log| + (t.pos - s.pos) && s.log <= t.log
    && forall i :: |s.log| <= i < |t.log| ==> t.log[i].chat == chat && t.log[i].via == via
  }

  lemma {:induction false} SendUpToRepeats(net: Script, s: State, last: nat, chat: int, via: Via)
    requires s.pos <= last
    ensures var (t, reply) := SendUpTo(net, s, last, chat, via);
      && s.pos < t.pos <= last + 1 && reply == net(t.pos - 1).reply
      && (forall i: nat :: s.pos <= i < t.pos - 1 ==> net(i).reply.RetryAfter?)
      && (reply.RetryAfter? ==> t.pos == last + 1)
      && Tail(s, t, chat, via) && LogMatches(net, s, t)
    decreases last - s.pos
  {
    var t := Try(net, s, chat, via);
    if net(s.pos).reply.RetryAfter? && s.pos < last {
      SendUpToRepeats(net, t, last, chat, via);
    }
  }

  /** The last attempt in the log is the last outcome used. */
  predicate LogMatches(net: Script, s: State, t: State) {
    s.pos < t.pos ==> t.log != [] && t.log[|t.log| - 1].outcome == net(t.pos - 1)
  }

  /** One send makes at most three attempts and delivers at most once, exactly once on
      return and never on an error other than a timeout; other chats get nothing. */
  lemma SendDeliversAtMostOnce(net: Script, s: State, chat: int, via: Via, other: int)
    requires Honest(net)
    ensures var (t, reply) := Send(net, s, chat, via);
      && s.pos < t.pos <= s.pos + 3 && 0 <= Delivered(s, t, chat) <= 1
      && (reply.Ok? ==> Delivered(s, t, chat) == 1)
      && (!reply.Ok? && !IsTimeoutClass(reply) ==> Delivered(s, t, chat) == 0)
      && (other != chat ==> Delivered(s, t, other) == 0)
  {
    SendUpToDelivers(net, s, s.pos + MAX_ATTEMPTS - 1, chat, via, chat);
    SendUpToDelivers(net, s, s.pos + MAX_ATTEMPTS - 1, chat, via, other);
  }

  /** Where the next request goes through, a send is that request. */
  lemma SendSucceeds(net: Script, s: State, chat: int, via: Via)
    requires Honest(net) && net(s.pos).reply.Ok?
    ensures Send(net, s, chat, via) == (Try(net, s, chat, via), Ok)
    ensures Delivered(s, Try(net, s, chat, via), chat) == 1
  {
    TryDelivers(net, s, chat, via, chat);
  }

  /** Without honesty a rate-limit answer that hides its delivery duplicates. */
  lemma HiddenRetryAfterDuplicates(net: Script, s: State, chat: int, via: Via)
    requires net(s.pos).reply.RetryAfter? && net(s.pos).reached
    requires net(s.pos + 1).reply.Ok? && net(s.pos + 1).reached
    ensures Delivered(s, Send(net, s, chat, via).0, chat) == 2
  {
    var t := Try(net, s, chat, via);
    TryDelivers(net, s, chat, via, chat);
    TryDelivers(net, t, chat, via, chat);
    assert SendUpTo(net, t, s.pos + 2, chat, via) == (Try(net, t, chat, via), Ok);
  }

  /******* Rich sends and voice *******/

  /** `send_rich_message`: one rich request unless the latch is set, and the MarkdownV2
      fallback when it is set, or after a 404 (which sets it), or after a BadRequest. */
  function SendRich(net: Script, s: State, chat: int): (State, Reply) {
    if s.latched then Send(net, s, chat, Message)
    else
      var t := Try(net, s, chat, Rich);
      var reply := net(s.pos).reply;
      if reply.EndPointNotFound? then Send(net, t.(latched := true), chat, Message)
      else if reply.BadRequest? then Send(net, t, chat, Message)
      else (t, reply)
  }

  datatype Kind = FileIdHit | ChannelUpload | DirectFallback

  /** How a pronunciation ends: with a kind, or raising a reply. */
  datatype Spoken = Spoken(state: State, reply: Reply, kind: Option<Kind>)

  function Finish(r: (State, Reply), kind: Kind): Spoken {
    Spoken(r.0, r.1, if r.1.Ok? then Some(kind) else None)
  }

  /** `_speak_locked`. `fileId`: a cached file id is at hand. `pronounced`: the audio
      file was produced. `hasVoice`: the channel's answer carries a file id. */
  function Speak(
    net: Script, s: State, chat: int, channel: Option<int>, fileId: bool, pronounced: bool, hasVoice: bool): Spoken
  {
    if channel.Some? && fileId then
      var hit := Send(net, s, chat, Voice);
      if hit.1.Ok? || CaughtAsNetworkError(hit.1) || !hit.1.Forbidden? then Finish(hit, FileIdHit)
      else Generate(net, hit.0, chat, channel, pronounced, hasVoice)
    else Generate(net, s, chat, channel, pronounced, hasVoice)
  }

  /** The miss path: upload to the channel, copy by file id, else send directly. */
  function Generate(net: Script, s: State, chat: int, channel: Option<int>, pronounced: bool, hasVoice: bool): Spoken {
    if !pronounced then Spoken(s, OtherError, None)
    else if channel.None? then Finish(Send(net, s, chat, Voice), DirectFallback)
    else
      var upload := Send(net, s, channel.value, Voice);
      if IsTimeoutClass(upload.1) then Spoken(upload.0, upload.1, None)
      else if !upload.1.Ok? || !hasVoice then Finish(Send(net, upload.0, chat, Voice), DirectFallback)
      else
        var copy := Send(net, upload.0, chat, Voice);
        if copy.1.Ok? || IsTimeoutClass(copy.1) then Finish(copy, ChannelUpload)
        else Finish(Send(net, copy.0, chat, Voice), DirectFallback)
  }

  /** Whatever the network does, one rich send reaches its chat at most once, exactly
      once on return, in at most four attempts. */
  lemma RichDeliversAtMostOnce(net: Script, s: State, chat: int)
    requires Honest(net)
    ensures var (t, reply) := SendRich(net, s, chat);
      && 0 <= Delivered(s, t, chat) <= 1 && (reply.Ok? ==> Delivered(s, t, chat) == 1) && t.pos <= s.pos + 4
  {
    if s.latched {
      SendDeliversAtMostOnce(net, s, chat, Message, chat);
    } else {
      var (t, reply) := (Try(net, s, chat, Rich), net(s.pos).reply);
      TryDelivers(net, s, chat, Rich, chat);
      if reply.EndPointNotFound? {
        SendDeliversAtMostOnce(net, t.(latched := true), chat, Message, chat);
      } else if reply.BadRequest? {
        SendDeliversAtMostOnce(net, t, chat, Message, chat);
      }
    }
  }

  predicate Refused(r: Reply) {
    r.BadRequest? || r.EndPointNotFound?
  }

  /** A rich send never ends on a refused rich request: whatever the network does, its
      last attempt is either not rich or not refused. */
  lemma RichNeverEndsRefused(net: Script, s: State, chat: int)
    ensures var (t, reply) := SendRich(net, s, chat);
      && t.log != [] && t.pos > s.pos
      && t.log[|t.log| - 1].outcome.reply == reply
      && !(t.log[|t.log| - 1].via.Rich? && Refused(reply))
      && (t.latched <==> s.latched || net(s.pos).reply.EndPointNotFound?)
  {
    if s.latched {
      SendUpToRepeats(net, s, s.pos + 2, chat, Message);
      SendLatch(net, s, s.pos + 2, chat, Message);
    } else {
      var t := Try(net, s, chat, Rich);
      var u := if net(s.pos).reply.EndPointNotFound? then t.(latched := true) else t;
      if Refused(net(s.pos).reply) {
        SendUpToRepeats(net, u, u.pos + 2, chat, Message);
        SendLatch(net, u, u.pos + 2, chat, Message);
      }
    }
  }

  lemma {:induction false} SendLatch(net: Script, s: State, last: nat, chat: int, via: Via)
    requires s.pos <= last
    ensures SendUpTo(net, s, last, chat, via).0.latched == s.latched
    decreases last - s.pos
  {
    if net(s.pos).reply.RetryAfter? && s.pos < last {
      SendLatch(net, Try(net, s, chat, via), last, chat, via);
    }
  }

  /** Where rich messages are refused or known to be missing, and the next request goes
      through, exactly one message arrives and the send returns. */
  lemma FallbackDelivers(net: Script, s: State, chat: int)
    requires Honest(net)
    requires s.latched || Refused(net(s.pos).reply)
    requires net(if s.latched then s.pos else s.pos + 1).reply.Ok?
    ensures var (t, reply) := SendRich(net, s, chat);
      reply.Ok? && Delivered(s, t, chat) == 1 && t.log[|t.log| - 1].via.Message?
  {
    if s.latched {
      SendSucceeds(net, s, chat, Message);
    } else {
      var t := Try(net, s, chat, Rich);
      var u := if net(s.pos).reply.EndPointNotFound? then t.(latched := true) else t;
      TryDelivers(net, s, chat, Rich, chat);
      SendSucceeds(net, u, chat, Message);
    }
  }

  /** And where they are not, the rich request is the only one. */
  lemma RichGoesFirst(net: Script, s: State, chat: int)
    requires !s.latched && !Refused(net(s.pos).reply)
    ensures SendRich(net, s, chat) == (Try(net, s, chat, Rich), net(s.pos).reply)
  {
  }

  /** At most one delivery, exactly one with a kind, which is when nothing is raised. */
  predicate SpokenOnce(s: State, r: Spoken, chat: int) {
    && 0 <= Delivered(s, r.state, chat) <= 1
    && (r.reply.Ok? <==> r.kind.Some?) && (r.reply.Ok? ==> Delivered(s, r.state, chat) == 1)
  }

  lemma GenerateOnce(net: Script, s: State, chat: int, channel: Option<int>, pronounced: bool, hasVoice: bool)
    requires Honest(net) && channel != Some(chat)
    ensures SpokenOnce(s, Generate(net, s, chat, channel, pronounced, hasVoice), chat)
  {
    SendDeliversAtMostOnce(net, s, chat, Voice, chat);
    if channel.Some? {
      var upload := Send(net, s, channel.value, Voice).0;
      var copy := Send(net, upload, chat, Voice).0;
      SendDeliversAtMostOnce(net, s, channel.value, Voice, chat);
      SendDeliversAtMostOnce(net, upload, chat, Voice, chat);
      SendDeliversAtMostOnce(net, copy, chat, Voice, chat);
    }
  }

  /** With a channel other than the learner's chat, one pronunciation reaches the
      learner at most once, exactly once when it returns a kind. */
  lemma SpeakDeliversAtMostOnce(
    net: Script, s: State, chat: int, channel: Option<int>, fileId: bool, pronounced: bool, hasVoice: bool)
    requires Honest(net) && channel != Some(chat)
    ensures SpokenOnce(s, Speak(net, s, chat, channel, fileId, pronounced, hasVoice), chat)
  {
    SendDeliversAtMostOnce(net, s, chat, Voice, chat);
    GenerateOnce(net, s, chat, channel, pronounced, hasVoice);
    GenerateOnce(net, Send(net, s, chat, Voice).0, chat, channel, pronounced, hasVoice);
  }

  /** The channel must differ: an upload into the learner's own chat is followed by
      the copy. */
  lemma SameChannelDuplicates(net: Script, s: State, chat: int)
    requires net(s.pos) == net(s.pos + 1) == Outcome(Ok, true)
    ensures Delivered(s, Speak(net, s, chat, Some(chat), false, true, true).state, chat) == 2
  {
    var t := Try(net, s, chat, Voice);
    TryDelivers(net, s, chat, Voice, chat);
    TryDelivers(net, t, chat, Voice, chat);
    assert Send(net, s, chat, Voice) == (t, Ok);
    assert Send(net, t, chat, Voice) == (Try(net, t, chat, Voice), Ok);
  }

  /** A channel that cannot take the voice, or whose answer carries none, does not keep the
      learner from it: the next request that goes through delivers it directly. */
  lemma BlockedChannelStillSpeaks(
    net: Script, s: State, chat: int, channel: int, hasVoice: bool)
    requires Honest(net) && channel != chat
    requires var upload := Send(net, s, channel, Voice);
      && !IsTimeoutClass(upload.1) && (!upload.1.Ok? || !hasVoice) && net(upload.0.pos).reply.Ok?
    ensures var r := Speak(net, s, chat, Some(channel), false, true, hasVoice);
      r.kind == Some(DirectFallback) && r.reply.Ok? && Delivered(s, r.state, chat) == 1
  {
    var upload := Send(net, s, channel, Voice).0;
    SendDeliversAtMostOnce(net, s, channel, Voice, chat);
    SendSucceeds(net, upload, chat, Voice);
    assert Generate(net, s, chat, Some(channel), true, hasVoice)
        == Finish((Try(net, upload, chat, Voice), Ok), DirectFallback);
  }

  /** Nor does a refused copy of an uploaded voice. */
  lemma RefusedCopyStillSpeaks(net: Script, s: State, chat: int, channel: int)
    requires Honest(net) && channel != chat
    requires var upload := Send(net, s, channel, Voice);
      var copy := Send(net, upload.0, chat, Voice);
      && upload.1.Ok? && !copy.1.Ok? && !IsTimeoutClass(copy.1) && net(copy.0.pos).reply.Ok?
    ensures var r := Speak(net, s, chat, Some(channel), false, true, true);
      r.kind == Some(DirectFallback) && r.reply.Ok? && Delivered(s, r.state, chat) == 1
  {
    var upload := Send(net, s, channel, Voice).0;
    var copy := Send(net, upload, chat, Voice).0;
    SendDeliversAtMostOnce(net, s, channel, Voice, chat);
    SendDeliversAtMostOnce(net, upload, chat, Voice, chat);
    SendSucceeds(net, copy, chat, Voice);
    assert Generate(net, s, chat, Some(channel), true, true)
        == Finish((Try(net, copy, chat, Voice), Ok), DirectFallback);
  }

  /** An upload that timed out may have arrived: the error is raised and nothing is sent
      to the learner. Nor is anything sent without an audio file. */
  lemma UncertainUploadEnds(
    net: Script, s: State, chat: int, channel: int, pronounced: bool, hasVoice: bool)
    requires pronounced ==> IsTimeoutClass(Send(net, s, channel, Voice).1)
    ensures var r := Speak(net, s, chat, Some(channel), false, pronounced, hasVoice);
      && r.kind.None? && !r.reply.Ok?
      && (if pronounced then (r.state, r.reply) == Send(net, s, channel, Voice) else r.state == s)
    ensures !pronounced ==> Speak(net, s, chat, None, false, false, hasVoice).state == s
  {
  }

  /** A network where everything goes through: a cached voice is sent by its id, a new one
      by way of the channel, and without a channel directly, and nothing else is sent. */
  lemma SmoothSpeech(s: State, chat: int, channel: Option<int>, fileId: bool)
    requires channel != Some(chat)
    ensures var r := Speak(Reliable(), s, chat, channel, fileId, true, true);
      && r.kind == Some(if channel.None? then DirectFallback else if fileId then FileIdHit else ChannelUpload)
      && r.state.pos == s.pos + (if channel.Some? && !fileId then 2 else 1)
      && Delivered(s, r.state, chat) == 1
      && (channel.Some? ==> Delivered(s, r.state, channel.value) == if fileId then 0 else 1)
  {
    var net := Reliable();
    var t := Try(net, s, if channel.Some? && !fileId then channel.value else chat, Voice);
    TryDelivers(net, s, chat, Voice, chat);
    if channel.Some? {
      TryDelivers(net, s, chat, Voice, channel.value);
      TryDelivers(net, s, channel.value, Voice, chat);
      TryDelivers(net, s, channel.value, Voice, channel.value);
      TryDelivers(net, t, chat, Voice, chat);
      TryDelivers(net, t, chat, Voice, channel.value);
      assert Send(net, t, chat, Voice) == (Try(net, t, chat, Voice), Ok);
    }
  }

  /** Over all honest networks and all circumstances a pronunciation reaches the learner
      at most once, and exactly once when it returns a kind. */
  ghost predicate AlwaysOnce(chat: int, channel: Option<int>) {
    forall net: Script, s: State, fileId: bool, pronounced: bool, hasVoice: bool :: Honest(net) ==>
      SpokenOnce(s, Speak(net, s, chat, channel, fileId, pronounced, hasVoice), chat)
  }

  /** This holds if and only if the channel is not the learner's own chat. */
  lemma AlwaysOnceExactlyWhenApart(chat: int, channel: Option<int>)
    ensures AlwaysOnce(chat, channel) <==> channel != Some(chat)
  {
    if channel == Some(chat) {
      var (net, s) := (Reliable(), State(0, [], false));
      SameChannelDuplicates(net, s, chat);
      assert Honest(net) && !SpokenOnce(s, Speak(net, s, chat, channel, false, true, true), chat);
    } else {
      forall net: Script, s: State, fileId: bool, pronounced: bool, hasVoice: bool | Honest(net)
        ensures SpokenOnce(s, Speak(net, s, chat, channel, fileId, pronounced, hasVoice), chat)
      {
        SpeakDeliversAtMostOnce(net, s, chat, channel, fileId, pronounced, hasVoice);
      }
    }
  }

  /** A network that delivers everything. */
  function Reliable(): Script {
    (_: nat) => Outcome(Ok, true)
  }

  /** Clause order decides: since BadRequest is caught as a NetworkError first, a
      cached file id that Telegram no longer accepts is never replaced. The audio is
      generated again exactly if the cached send ends in Forbidden. */
  lemma RegeneratesExactlyOnForbidden(net: Script, s: State, chat: int, channel: int, pronounced: bool, hasVoice: bool)
    ensures var (hit, reply) := Send(net, s, chat, Voice);
      var r := Speak(net, s, chat, Some(channel), true, pronounced, hasVoice);
      if reply.Forbidden? then r == Generate(net, hit, chat, Some(channel), pronounced, hasVoice)
      else r.state == hit && r.reply == reply
  {
  }

  /******* The capability latch over many sends *******/

  /** `chats` receive one rich message each, one after the other. */
  function SendMany(net: Script, s: State, chats: seq<int>): State {
    if chats == [] then s
    else SendRich(net, SendMany(net, s, chats[..|chats| - 1]), chats[|chats| - 1]).0
  }

  predicate NotFound(a: Attempt) {
    a.via.Rich? && a.outcome.reply.EndPointNotFound?
  }

  /** The latch is set exactly if a 404 was seen, and nothing rich follows a 404. */
  ghost predicate Latched(s: State) {
    && (s.latched <==> exists i :: 0 <= i < |s.log| && NotFound(s.log[i]))
    && forall i, j :: 0 <= i < j < |s.log| && NotFound(s.log[i]) ==> !s.log[j].via.Rich?
  }

  lemma {:induction false} SendKeepsLatch(net: Script, s: State, last: nat, chat: int, via: Via)
    requires Latched(s) && s.pos <= last && !via.Rich?
    ensures Latched(SendUpTo(net, s, last, chat, via).0)
    decreases last - s.pos
  {
    var t := Try(net, s, chat, via);
    assert forall i :: 0 <= i < |s.log| ==> t.log[i] == s.log[i];
    if net(s.pos).reply.RetryAfter? && s.pos < last {
      SendKeepsLatch(net, t, last, chat, via);
    }
  }

  lemma RichKeepsLatch(net: Script, s: State, chat: int)
    requires Latched(s)
    ensures Latched(SendRich(net, s, chat).0)
  {
    if s.latched {
      SendKeepsLatch(net, s, s.pos + 2, chat, Message);
    } else {
      var t := Try(net, s, chat, Rich);
      assert forall i :: 0 <= i < |s.log| ==> t.log[i] == s.log[i];
      if net(s.pos).reply.EndPointNotFound? {
        assert NotFound(t.log[|s.log|]);
        SendKeepsLatch(net, t.(latched := true), t.pos + 2, chat, Message);
      } else if net(s.pos).reply.BadRequest? {
        SendKeepsLatch(net, t, t.pos + 2, chat, Message);
      }
    }
  }

  /** Over any number of sends a 404 is the last rich request ever made, so an old
      server is probed at most once. */
  lemma {:induction false} ProbedOnce(net: Script, s: State, chats: seq<int>)
    requires Latched(s)
    ensures Latched(SendMany(net, s, chats))
  {
    if chats != [] {
      ProbedOnce(net, s, chats[..|chats| - 1]);
      RichKeepsLatch(net, SendMany(net, s, chats[..|chats| - 1]), chats[|chats| - 1]);
    }
  }

  /******* The code *******/

  /** The waiting told by outcomes `from` up to `to`, each for at most 30 seconds. */
  function Waits(net: Script, from: nat, to: int): real
    decreases to - from
  {
    if to <= from then 0.0
    else Waits(net, from, to - 1) + Clamped(net(to - 1).reply)
  }

  function Clamped(r: Reply): real {
    if r.RetryAfter? then (if r.seconds < 30.0 then r.seconds else 30.0) else 0.0
  }

  class Client {
    const net: Script
    var pos: nat
    var log: seq<Attempt>
    var richDisabled: bool
    var blocked: set<int>
    var slept: real

    function Value(): State
      reads this
    {
      State(pos, log, richDisabled)
    }

    constructor (net: Script)
      ensures this.net == net && Value() == State(0, [], false) && blocked == {} && slept == 0.0
    {
      this.net := net;
      pos, log, richDisabled, blocked, slept := 0, [], false, {}, 0.0;
    }

    /** One call of the Bot API. */
    method Call(chat: int, via: Via) returns (reply: Reply)
      modifies this`pos, this`log
      ensures Value() == Try(net, old(Value()), chat, via) && reply == net(old(pos)).reply
    {
      var o := net(pos);
      log := log + [Attempt(chat, via, o)];
      pos := pos + 1;
      reply := o.reply;
    }

    /** `_send_media_with_retry`. Only RetryAfter is retried, after a clamped sleep;
        Forbidden in a private chat marks the user as having blocked the bot. */
    method SendMediaWithRetry(chat: int, via: Via) returns (reply: Reply)
      modifies this
      ensures (Value(), reply) == Send(net, old(Value()), chat, via)
      ensures blocked == old(blocked) + if reply.Forbidden? && chat > 0 then {chat} else {}
      ensures slept == old(slept) + Waits(net, old(pos), pos - 1) <= old(slept) + 60.0
    {
      ghost var last := pos + MAX_ATTEMPTS - 1;
      for attempt := 0 to MAX_ATTEMPTS
        invariant attempt < MAX_ATTEMPTS && pos == old(pos) + attempt
        invariant SendUpTo(net, Value(), last, chat, via) == Send(net, old(Value()), chat, via)
        invariant blocked == old(blocked)
        invariant slept == old(slept) + Waits(net, old(pos), pos)
        invariant Waits(net, old(pos), pos) <= 30.0 * attempt as real
      {
        reply := Call(chat, via);
        if reply.Forbidden? {
          if chat > 0 {
            blocked := blocked + {chat};
          }
          return;
        }
        if !reply.RetryAfter? || attempt == MAX_ATTEMPTS - 1 {
          return;
        }
        slept := slept + if reply.seconds < SLEEP_MAX then reply.seconds else SLEEP_MAX;
      }
    }

    /** `send_rich_message` with `_fallback_send`. */
    method SendRichMessage(chat: int) returns (reply: Reply)
      modifies this
      ensures (Value(), reply) == SendRich(net, old(Value()), chat)
    {
      if richDisabled {
        reply := SendMediaWithRetry(chat, Message);
        return;
      }
      reply := Call(chat, Rich);
      if reply.EndPointNotFound? {
        richDisabled := true;
        reply := SendMediaWithRetry(chat, Message);
      } else if reply.BadRequest? {
        reply := SendMediaWithRetry(chat, Message);
      }
    }

    /** `_speak_locked`: the kind on return, None when it raises `reply`. */
    method SpeakLocked(chat: int, channel: Option<int>, fileId: bool, pronounced: bool, hasVoice: bool)
      returns (kind: Option<Kind>, reply: Reply)
      modifies this
      ensures Spoken(Value(), reply, kind) == Speak(net, old(Value()), chat, channel, fileId, pronounced, hasVoice)
    {
      if channel.Some? && fileId {
        reply := SendMediaWithRetry(chat, Voice);
        if reply.Ok? {
          return Some(FileIdHit), reply;
        }
        if CaughtAsNetworkError(reply) {
          return None, reply;
        } else if !reply.Forbidden? {
          return None, reply;
        }
      }
      if !pronounced {
        return None, OtherError;
      }
      if channel.Some? {
        reply := SendMediaWithRetry(channel.value, Voice);
        if reply.Ok? && hasVoice {
          reply := SendMediaWithRetry(chat, Voice);
          if reply.Ok? {
            return Some(ChannelUpload), reply;
          }
        }
        if IsTimeoutClass(reply) {
          return None, reply;
        }
      }
      reply := SendMediaWithRetry(chat, Voice);
      kind := if reply.Ok? then Some(DirectFallback) else None;
    }
  }
}

/**
 * `daemon_run`: Telegram long polling. Every round asks for the updates after the
 * cursor, hands the message of each accepted update to `handle_command`, moves the
 * cursor to the largest update id seen and saves it.
 */
module Daemon {
  import opened Wrappers
  import opened Text
  import opened Config
  import opened Effects
  import opened Messages
  import opened Dispatcher
  import Folds
  import Msisdn
  import Upstream

  /** A Telegram message object: the keys it has, `chat.id` and `text` (each `None` when absent or null). */
  datatype ChatMessage = ChatMessage(keys: set<string>, chatId: Option<int>, text: Option<string>)

  /**
   * One element of the `result` list: `update_id` (`None` when absent), `message` and
   * `edited_message` (each `None` when absent or null).
   */
  datatype Update = Update(updateId: Option<int>, message: Option<ChatMessage>, editedMessage: Option<ChatMessage>)

  /** The answer to one `getUpdates` request: the HTTP status and, when the body is a JSON object, its `result` (`[]` when absent). */
  datatype PollAnswer = PollAnswer(status: int, result: Option<seq<Update>>)

  /** Python's truth value of a message: present and not the empty object. */
  predicate Truthy(m: Option<ChatMessage>) {
    m.Some? && m.value.keys != {}
  }

  /** `upd.get("message") or upd.get("edited_message")`, kept only when it is truthy. */
  function Payload(u: Update): Option<ChatMessage> {
    if Truthy(u.message) then u.message else if Truthy(u.editedMessage) then u.editedMessage else None
  }

  /** `int(upd.get("update_id", 0))`. */
  function UpdateId(u: Update): int {
    u.updateId.GetOr(0)
  }

  /** The chat id and text `handle_command` is called with, or `None` when the update is skipped. */
  function Accepted(cfg: Config, u: Update): Option<(int, Option<string>)> {
    var msg := Payload(u);
    if msg.None? || msg.value.chatId.None? then None
    else if !IsAllowedChat(cfg, msg.value.chatId.value) then None
    else Some((msg.value.chatId.value, msg.value.text))
  }

  /** The events of one update of a batch, handled when the log holds `at` events. */
  function DispatchStep(cfg: Config, o: Oracles, at: nat, u: Update): seq<Event> {
    match Accepted(cfg, u)
    case None => []
    case Some((chatId, text)) => Handle(cfg, o, at, chatId, text)
  }

  /** `DispatchStep` as the step of the loop over a batch. */
  function DispatchStepper(cfg: Config, o: Oracles): (nat, Update) -> seq<Event> {
    (at: nat, u: Update) => DispatchStep(cfg, o, at, u)
  }

  /** Python's `max(a, b)` on integers. */
  function Max(a: int, b: int): int {
    if a >= b then a else b
  }

  /** The cursor after a batch: `offset = max(offset, update_id)` for every update in turn. */
  function Cursor(offset: int, updates: seq<Update>): int
    decreases |updates|
  {
    if updates == [] then offset else Cursor(Max(offset, UpdateId(updates[0])), updates[1..])
  }

  /**
   * One round of the polling loop: the request for `offset + 1`; when the answer is a
   * JSON object with status 200, its updates in order and the saved new cursor.
   * The new cursor comes first.
   */
  function Round(cfg: Config, o: Oracles, at: nat, offset: int, answer: PollAnswer): (int, seq<Event>) {
    var poll := [Poll(offset + 1)];
    if answer.status != 200 || answer.result.None? then (offset, poll)
    else
      var updates := answer.result.value;
      var next := Cursor(offset, updates);
      (next, poll + Folds.Sequenced(DispatchStepper(cfg, o), at + 1, updates) + [SaveOffset(next)])
  }

  /** `Round` as the step of the polling loop, carrying the cursor. */
  function RoundStepper(cfg: Config, o: Oracles): (nat, int, PollAnswer) -> (int, seq<Event>) {
    (at: nat, offset: int, answer: PollAnswer) => Round(cfg, o, at, offset, answer)
  }

  /** The events of `daemon_run` when `load_offset()` gives `stored` and the rounds get `answers`. */
  function DaemonEvents(cfg: Config, o: Oracles, at: nat, stored: int, answers: seq<PollAnswer>): seq<Event> {
    if cfg.botToken == "" then [] else Folds.Threaded(RoundStepper(cfg, o), at, stored, answers)
  }

  /** The `for upd in result` loop: the new cursor and the new log. */
  method DispatchUpdates(cfg: Config, o: Oracles, log: Log, offset: int, updates: seq<Update>)
    returns (offset': int, log': Log)
    ensures offset' == Cursor(offset, updates)
    ensures log' == log + Folds.Sequenced(DispatchStepper(cfg, o), |log|, updates)
  {
    ghost var step := DispatchStepper(cfg, o);
    offset' := offset;
    log' := log;
    var i := 0;
    while i < |updates|
      invariant 0 <= i <= |updates|
      invariant Cursor(offset', updates[i..]) == Cursor(offset, updates)
      invariant log' + Folds.Sequenced(step, |log'|, updates[i..]) == log + Folds.Sequenced(step, |log|, updates)
    {
      var upd := updates[i];
      ghost var before := log';
      CursorFrom(offset', updates, i);
      offset' := Max(offset', UpdateId(upd));
      assert Cursor(offset', updates[i + 1..]) == Cursor(offset, updates);
      log' := DispatchOne(cfg, o, log', upd);
      assert log' == before + step(|before|, upd);
      Folds.SequencedTurn(step, before, log', updates, i);
      i := i + 1;
    }
    assert updates[i..] == [];
  }

  /** The body of `for upd in result` after the cursor update: skip the update, or call `handle_command`. */
  method DispatchOne(cfg: Config, o: Oracles, log: Log, upd: Update) returns (log': Log)
    ensures log' == log + DispatchStep(cfg, o, |log|, upd)
  {
    log' := log;
    var msg := Payload(upd);
    if msg.Some? {
      var chatId := msg.value.chatId;
      if chatId.Some? && IsAllowedChat(cfg, chatId.value) {
        log' := HandleCommand(cfg, o, log, chatId.value, msg.value.text);
      }
    }
  }

  /** One round of the polling loop; an unusable answer leaves the cursor as it was. */
  method PollRound(cfg: Config, o: Oracles, log: Log, offset: int, answer: PollAnswer)
    returns (offset': int, log': Log)
    ensures offset' == Round(cfg, o, |log|, offset, answer).0
    ensures log' == log + Round(cfg, o, |log|, offset, answer).1
  {
    var poll := [Poll(offset + 1)];
    log' := log + poll;
    if answer.status != 200 || answer.result.None? {
      offset' := offset;
      return;
    }
    var updates := answer.result.value;
    offset', log' := DispatchUpdates(cfg, o, log', offset, updates);
    log' := log' + [SaveOffset(offset')];
    ghost var batch := Folds.Sequenced(DispatchStepper(cfg, o), |log| + 1, updates);
    AppendAssociative(log, poll, batch);
    AppendAssociative(log, poll + batch, [SaveOffset(offset')]);
  }

  /** `daemon_run` over the rounds whose answers are `answers`. */
  method DaemonRun(cfg: Config, o: Oracles, log: Log, stored: int, answers: seq<PollAnswer>) returns (log': Log)
    ensures log' == log + DaemonEvents(cfg, o, |log|, stored, answers)
  {
    if cfg.botToken == "" {
      log' := log;
      return;
    }
    ghost var step := RoundStepper(cfg, o);
    var offset := stored;
    log' := log;
    var i := 0;
    while i < |answers|
      invariant 0 <= i <= |answers|
      invariant log' + Folds.Threaded(step, |log'|, offset, answers[i..]) == log + Folds.Threaded(step, |log|, stored, answers)
    {
      ghost var before := log';
      ghost var current := offset;
      offset, log' := PollRound(cfg, o, log', offset, answers[i]);
      assert log' == before + step(|before|, current, answers[i]).1;
      assert offset == step(|before|, current, answers[i]).0;
      Folds.ThreadedTurn(step, before, log', current, offset, answers, i);
      i := i + 1;
    }
    assert answers[i..] == [];
  }

  /**
   * `message or edited_message`: a falsy message makes the update behave as if only its edited
   * message had been sent, and a truthy one makes the edited message irrelevant.
   */
  lemma MessageOrEdited(cfg: Config, o: Oracles, at: nat, u: Update)
    ensures !Truthy(u.message) ==>
              DispatchStep(cfg, o, at, u) == DispatchStep(cfg, o, at, Update(u.updateId, u.editedMessage, None))
    ensures Truthy(u.message) ==>
              DispatchStep(cfg, o, at, u) == DispatchStep(cfg, o, at, Update(u.updateId, u.message, None))
    ensures !Truthy(u.message) && !Truthy(u.editedMessage) ==> DispatchStep(cfg, o, at, u) == []
  {
  }

  /** The cursor from update `i` on. */
  lemma CursorFrom(offset: int, updates: seq<Update>, i: nat)
    requires i < |updates|
    ensures Cursor(offset, updates[i..]) == Cursor(Max(offset, UpdateId(updates[i])), updates[i + 1..])
  {
    var tail := updates[i..];
    assert tail[0] == updates[i];
    assert tail[1..] == updates[i + 1..];
  }

  /**
   * The cursor after a batch is the maximum of the old cursor and every update id in it,
   * skipped updates included.
   */
  lemma {:induction false} CursorIsMax(offset: int, updates: seq<Update>)
    ensures var c := Cursor(offset, updates);
      && c >= offset
      && (forall k :: 0 <= k < |updates| ==> c >= UpdateId(updates[k]))
      && (c == offset || exists k :: 0 <= k < |updates| && c == UpdateId(updates[k]))
    decreases |updates|
  {
    if updates != [] {
      var first := Max(offset, UpdateId(updates[0]));
      var c := Cursor(first, updates[1..]);
      CursorIsMax(first, updates[1..]);
      assert forall k :: 1 <= k < |updates| ==> updates[k] == updates[1..][k - 1];
      if c != first {
        var k :| 0 <= k < |updates[1..]| && c == UpdateId(updates[1..][k]);
        assert c == UpdateId(updates[k + 1]);
      } else if c != offset {
        assert c == UpdateId(updates[0]);
      }
    }
  }

  /** Updates already seen (ids not above the cursor) leave the cursor where it is. */
  lemma CursorIgnoresSeen(offset: int, updates: seq<Update>)
    requires forall k :: 0 <= k < |updates| ==> UpdateId(updates[k]) <= offset
    ensures Cursor(offset, updates) == offset
  {
    CursorIsMax(offset, updates);
  }

  /**
   * An update is handled exactly when its message (or, failing that, its edited message)
   * is truthy, has a chat id and that chat is allowed; it is skipped silently otherwise.
   */
  lemma DispatchStepEffects(cfg: Config, o: Oracles, at: nat, u: Update)
    ensures var events := DispatchStep(cfg, o, at, u);
      && (Accepted(cfg, u).Some? <==>
            Payload(u).Some? && Payload(u).value.chatId.Some? && IsAllowedChat(cfg, Payload(u).value.chatId.value))
      && (Accepted(cfg, u).None? ==> events == [])
      && (Accepted(cfg, u).Some? ==>
            var (chatId, text) := Accepted(cfg, u).value;
            && IsAllowedChat(cfg, chatId)
            && events == Handle(cfg, o, at, chatId, text)
            && events != []
            && Confined(events, [IntToDecimal(chatId)]))
  {
    match Accepted(cfg, u)
    case None =>
    case Some((chatId, text)) =>
      HandleEffects(cfg, o, at, chatId, text);
      RespondEffects(cfg, o, at, IntToDecimal(chatId), CommandOf(text), Strip(text.GetOr("")));
      HandleNonEmpty(cfg, o, at, chatId, text);
  }

  /** `handle_command` always replies at least once. */
  lemma HandleNonEmpty(cfg: Config, o: Oracles, at: nat, chatId: int, rawText: Option<string>)
    ensures var events := Handle(cfg, o, at, chatId, rawText);
      events != [] && events[0].Send? && events[0].chat == IntToDecimal(chatId)
  {
    var dest := IntToDecimal(chatId);
    var text := Strip(rawText.GetOr(""));
    var events := Handle(cfg, o, at, chatId, rawText);
    assert events == Respond(cfg, o, at, dest, CommandOf(rawText), text);
    if CommandOf(rawText) == CekCommand {
      var parts := Words(text);
      assert events == CekSingle(cfg, o, at, dest, text);
      if |parts| >= 2 && Msisdn.ValidMsisdn(Strip(parts[1])) {
        var (resp, calls) := Upstream.Check(o, cfg.retries, at + 1, Strip(parts[1]));
        assert events[0] == Send(dest, CekProgress(Strip(parts[1])));
      }
    } else if CommandOf(rawText) == CekAllCommand {
      assert events[0] == Send(dest, CheckAllNotice);
    }
  }

  /** A message with no text, or an empty one, from an allowed chat gets the fallback reply. */
  lemma EmptyTextAnswered(cfg: Config, o: Oracles, at: nat, u: Update)
    requires Accepted(cfg, u).Some? && Accepted(cfg, u).value.1.GetOr("") == ""
    ensures DispatchStep(cfg, o, at, u) == [Send(IntToDecimal(Accepted(cfg, u).value.0), Unrecognized)]
  {
    var chatId := Accepted(cfg, u).value.0;
    EmptyTextGetsFallback(cfg, o, at, chatId);
    if Accepted(cfg, u).value.1.Some? {
      assert Accepted(cfg, u).value.1 == Some("");
    }
  }

  /** The chats (as `str(chat_id)`) of the accepted updates of a batch, in order. */
  function Senders(cfg: Config, updates: seq<Update>): seq<string>
    decreases |updates|
  {
    if updates == [] then []
    else
      (match Accepted(cfg, updates[0]) case None => [] case Some((chatId, _)) => [IntToDecimal(chatId)])
      + Senders(cfg, updates[1..])
  }

  /** Every accepted update's chat is among the senders, and every sender is an allowed chat. */
  lemma {:induction false} SendersOfBatch(cfg: Config, updates: seq<Update>)
    ensures forall k :: 0 <= k < |updates| && Accepted(cfg, updates[k]).Some? ==>
              IntToDecimal(Accepted(cfg, updates[k]).value.0) in Senders(cfg, updates)
    ensures !cfg.allowAnyChat ==> forall c :: c in Senders(cfg, updates) ==> c in cfg.chatIds
    decreases |updates|
  {
    if updates != [] {
      SendersOfBatch(cfg, updates[1..]);
      var head := match Accepted(cfg, updates[0]) case None => [] case Some((chatId, _)) => [IntToDecimal(chatId)];
      assert Senders(cfg, updates) == head + Senders(cfg, updates[1..]);
      assert forall k :: 1 <= k < |updates| ==> updates[k] == updates[1..][k - 1];
    }
  }

  /** A batch replies only to the chats of its accepted updates and sends only valid numbers to the API. */
  lemma BatchEffects(cfg: Config, o: Oracles, at: nat, updates: seq<Update>)
    ensures Confined(Folds.Sequenced(DispatchStepper(cfg, o), at, updates), Senders(cfg, updates))
  {
    var step := DispatchStepper(cfg, o);
    var senders := Senders(cfg, updates);
    SendersOfBatch(cfg, updates);
    forall n: nat, k | 0 <= k < |updates|
      ensures Confined(step(n, updates[k]), senders)
    {
      DispatchStepEffects(cfg, o, n, updates[k]);
      if Accepted(cfg, updates[k]).Some? {
        SendsOnlyToWider(step(n, updates[k]), [IntToDecimal(Accepted(cfg, updates[k]).value.0)], senders);
      }
    }
    SequencedConfined(step, at, updates, senders);
  }

  /**
   * The offset traffic of a stretch of events starting from cursor `last`: every request
   * asks for one past the current cursor, and every save moves the cursor, never backwards.
   */
  predicate OffsetsFollow(events: seq<Event>, last: int)
    decreases |events|
  {
    events == []
    || (&& (events[0].Poll? ==> events[0].offset == last + 1)
        && (events[0].SaveOffset? ==> events[0].offset >= last)
        && OffsetsFollow(events[1..], if events[0].SaveOffset? then events[0].offset else last))
  }

  /** The cursor after a stretch of events starting from `last`: the last value saved, or `last`. */
  function LastOffset(events: seq<Event>, last: int): int
    decreases |events|
  {
    if events == [] then last
    else LastOffset(events[1..], if events[0].SaveOffset? then events[0].offset else last)
  }

  lemma {:induction false} OffsetsAppend(a: seq<Event>, b: seq<Event>, last: int)
    ensures OffsetsFollow(a + b, last) <==> OffsetsFollow(a, last) && OffsetsFollow(b, LastOffset(a, last))
    ensures LastOffset(a + b, last) == LastOffset(b, LastOffset(a, last))
    decreases |a|
  {
    if a == [] {
      assert a + b == b;
    } else {
      assert (a + b)[0] == a[0];
      assert (a + b)[1..] == a[1..] + b;
      OffsetsAppend(a[1..], b, if a[0].SaveOffset? then a[0].offset else last);
    }
  }

  lemma {:induction false} UntouchedKeepsOffset(events: seq<Event>, last: int)
    requires OffsetUntouched(events)
    ensures OffsetsFollow(events, last) && LastOffset(events, last) == last
    decreases |events|
  {
    if events != [] {
      assert !events[0].SaveOffset? && !events[0].Poll?;
      assert forall i :: 0 <= i < |events[1..]| ==> events[1..][i] == events[i + 1];
      UntouchedKeepsOffset(events[1..], last);
    }
  }

  /**
   * A round asks for the updates after the cursor, and, when it gets a batch, saves the new
   * cursor last: the maximum of the old one and the batch's ids. Messages go only to chats
   * of accepted updates (so only to configured chats unless any chat is allowed), and only
   * valid numbers are sent to the API.
   */
  lemma RoundEffects(cfg: Config, o: Oracles, at: nat, offset: int, answer: PollAnswer)
    ensures var next := Round(cfg, o, at, offset, answer).0;
      var events := Round(cfg, o, at, offset, answer).1;
      var usable := answer.status == 200 && answer.result.Some?;
      && events != [] && events[0] == Poll(offset + 1)
      && (!usable ==> next == offset && events == [Poll(offset + 1)])
      && (usable ==> next == Cursor(offset, answer.result.value) && events[|events| - 1] == SaveOffset(next))
      && next >= offset
      && OffsetsFollow(events, offset) && LastOffset(events, offset) == next
      && PostsOnlyValid(events)
      && (usable ==> SendsOnlyTo(events, Senders(cfg, answer.result.value)))
      && (!cfg.allowAnyChat ==> SendsOnlyTo(events, cfg.chatIds))
  {
    var poll := [Poll(offset + 1)];
    if answer.status == 200 && answer.result.Some? {
      var updates := answer.result.value;
      var next := Cursor(offset, updates);
      var batch := Folds.Sequenced(DispatchStepper(cfg, o), at + 1, updates);
      assert Round(cfg, o, at, offset, answer).1 == poll + batch + [SaveOffset(next)];
      CursorIsMax(offset, updates);
      BatchEffects(cfg, o, at + 1, updates);
      SendersOfBatch(cfg, updates);
      RoundShape(Round(cfg, o, at, offset, answer).1, batch, offset, next,
                 Senders(cfg, updates), cfg.chatIds, cfg.allowAnyChat);
    } else {
      assert OffsetsFollow([], offset);
      assert OffsetsFollow(poll, offset);
    }
  }

  /** A request, a batch that leaves the offset alone, and the save of a cursor not below the old one. */
  lemma RoundShape(events: seq<Event>, batch: seq<Event>, offset: int, next: int,
                   senders: seq<string>, chats: seq<string>, anyChat: bool)
    requires events == [Poll(offset + 1)] + batch + [SaveOffset(next)]
    requires next >= offset
    requires Confined(batch, senders)
    requires !anyChat ==> forall c :: c in senders ==> c in chats
    ensures events[0] == Poll(offset + 1) && events[|events| - 1] == SaveOffset(next)
    ensures OffsetsFollow(events, offset) && LastOffset(events, offset) == next
    ensures PostsOnlyValid(events) && SendsOnlyTo(events, senders)
    ensures !anyChat ==> SendsOnlyTo(events, chats)
  {
    var poll := [Poll(offset + 1)];
    var save := [SaveOffset(next)];
    assert OffsetsFollow([], offset);
    assert OffsetsFollow(poll, offset);
    assert LastOffset(poll, offset) == offset;
    assert OffsetsFollow(save, offset);
    assert LastOffset(save, offset) == next;
    UntouchedKeepsOffset(batch, offset);
    OffsetsAppend(poll, batch, offset);
    OffsetsAppend(poll + batch, save, offset);
    PollAndSaveAreSilent(poll, senders);
    PollAndSaveAreSilent(save, senders);
    PropertiesAppend(poll, batch, senders, []);
    PropertiesAppend(poll + batch, save, senders, []);
    if !anyChat {
      SendsOnlyToWider(events, senders, chats);
    }
  }

  /** A stretch with no message sends nothing anywhere and calls nothing. */
  lemma PollAndSaveAreSilent(events: seq<Event>, chats: seq<string>)
    requires forall i :: 0 <= i < |events| ==> events[i].Poll? || events[i].SaveOffset?
    ensures SendsOnlyTo(events, chats) && PostsOnlyValid(events)
  {
  }

  /** What every round guarantees, starting from cursor `offset`, about its new cursor and events. */
  predicate RoundKeeps(round: (int, seq<Event>), offset: int, chats: seq<string>, anyChat: bool) {
    && OffsetsFollow(round.1, offset) && LastOffset(round.1, offset) == round.0
    && PostsOnlyValid(round.1)
    && (!anyChat ==> SendsOnlyTo(round.1, chats))
  }

  /**
   * Over any sequence of rounds: polling starts one past the stored cursor, every request
   * asks for one past the last saved cursor, saved cursors never decrease, only valid numbers
   * reach the API, and unless any chat is allowed only configured chats are answered.
   * Without a bot token nothing happens at all.
   */
  lemma DaemonEffects(cfg: Config, o: Oracles, at: nat, stored: int, answers: seq<PollAnswer>)
    ensures var events := DaemonEvents(cfg, o, at, stored, answers);
      && (cfg.botToken == "" ==> events == [])
      && OffsetsFollow(events, stored)
      && PostsOnlyValid(events)
      && (!cfg.allowAnyChat ==> SendsOnlyTo(events, cfg.chatIds))
  {
    if cfg.botToken != "" {
      var step := RoundStepper(cfg, o);
      forall n: nat, s: int, k | 0 <= k < |answers|
        ensures RoundKeeps(step(n, s, answers[k]), s, cfg.chatIds, cfg.allowAnyChat)
      {
        RoundEffects(cfg, o, n, s, answers[k]);
      }
      RoundsKeep(step, at, stored, answers, cfg.chatIds, cfg.allowAnyChat);
    } else {
      assert OffsetsFollow([], stored);
    }
  }

  /** Rounds that each keep the guarantees keep them together. */
  lemma {:induction false} RoundsKeep(step: (nat, int, PollAnswer) -> (int, seq<Event>), at: nat, offset: int,
                                      answers: seq<PollAnswer>, chats: seq<string>, anyChat: bool)
    requires forall n: nat, s: int, k :: 0 <= k < |answers| ==> RoundKeeps(step(n, s, answers[k]), s, chats, anyChat)
    ensures var events := Folds.Threaded(step, at, offset, answers);
      && OffsetsFollow(events, offset)
      && PostsOnlyValid(events)
      && (!anyChat ==> SendsOnlyTo(events, chats))
    decreases |answers|
  {
    if answers == [] {
      assert Folds.Threaded(step, at, offset, answers) == [];
      assert OffsetsFollow([], offset);
    } else {
      var round := step(at, offset, answers[0]);
      var rest := Folds.Threaded(step, at + |round.1|, round.0, answers[1..]);
      Folds.ThreadedUnfold(step, at, offset, answers);
      Folds.TailItems(answers);
      assert RoundKeeps(round, offset, chats, anyChat);
      RoundsKeep(step, at + |round.1|, round.0, answers[1..], chats, anyChat);
      RoundsCombine(round.1, rest, Folds.Threaded(step, at, offset, answers), offset, round.0, chats, anyChat);
    }
  }

  /** The guarantees of one round and of the rounds after it give those of all of them. */
  lemma RoundsCombine(first: seq<Event>, rest: seq<Event>, whole: seq<Event>, offset: int, next: int,
                      chats: seq<string>, anyChat: bool)
    requires whole == first + rest
    requires OffsetsFollow(first, offset) && LastOffset(first, offset) == next && OffsetsFollow(rest, next)
    requires PostsOnlyValid(first) && PostsOnlyValid(rest)
    requires !anyChat ==> SendsOnlyTo(first, chats) && SendsOnlyTo(rest, chats)
    ensures OffsetsFollow(whole, offset)
    ensures PostsOnlyValid(whole)
    ensures !anyChat ==> SendsOnlyTo(whole, chats)
  {
    OffsetsAppend(first, rest, offset);
    PropertiesAppend(first, rest, chats, []);
  }
}

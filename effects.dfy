/**
 * The outside world of the script: the answers it gets and the log of what it does.
 * Network calls are not performed; each becomes an event in an ordered log, and
 * the answers of the quota API come from an oracle.
 */
module Effects {
  import opened Report
  import Msisdn
  import opened Messages
  import Folds

  /** What `http_post_json` hands back: the HTTP status (0 when no response was obtained) and the body. */
  datatype Response = Response(status: int, data: Json)

  datatype Event =
    | Send(chat: string, message: Message) // one `tg_send_text(chat, MessageText(message))`
    | Post(msisdn: string)               // one `http_post_json` to the quota API with this number
    | SaveOffset(offset: int)            // one `save_offset(offset)`
    | Poll(offset: int)                  // one `getUpdates` request with this `offset` parameter

  /** Everything the script has done so far, oldest first. */
  type Log = seq<Event>

  /**
   * Library formatting, and the quota API: `upstream(n, m)` is the answer to the call
   * whose `Post(m)` is event number `n` of the log, so every call may get its own answer.
   */
  datatype Oracles = Oracles(lib: Lib, upstream: (nat, string) -> Response)

  /** Every number posted to the quota API passes `valid_msisdn`. */
  predicate PostsOnlyValid(events: seq<Event>) {
    forall i :: 0 <= i < |events| && events[i].Post? ==> Msisdn.ValidMsisdn(events[i].msisdn)
  }

  /** Every number posted to the quota API is one of `numbers`. */
  predicate PostsAmong(events: seq<Event>, numbers: seq<string>) {
    forall i :: 0 <= i < |events| && events[i].Post? ==> events[i].msisdn in numbers
  }

  /** Every message goes to one of `chats`. */
  predicate SendsOnlyTo(events: seq<Event>, chats: seq<string>) {
    forall i :: 0 <= i < |events| && events[i].Send? ==> events[i].chat in chats
  }

  /** Neither saves the offset nor asks for updates. */
  predicate OffsetUntouched(events: seq<Event>) {
    forall i :: 0 <= i < |events| ==> !events[i].SaveOffset? && !events[i].Poll?
  }

  /** Messages only to `chats`, calls only for numbers that pass `valid_msisdn`, the offset left alone. */
  predicate Confined(events: seq<Event>, chats: seq<string>) {
    SendsOnlyTo(events, chats) && PostsOnlyValid(events) && OffsetUntouched(events)
  }

  /** `Confined`, and calls only for numbers among `numbers`. */
  predicate Within(events: seq<Event>, chats: seq<string>, numbers: seq<string>) {
    Confined(events, chats) && PostsAmong(events, numbers)
  }

  /** The number of messages handed to the messaging platform. */
  function SendCount(events: seq<Event>): (n: nat)
    ensures n <= |events|
  {
    if events == [] then 0 else (if events[0].Send? then 1 else 0) + SendCount(events[1..])
  }

  lemma {:induction false} SendCountAppend(a: seq<Event>, b: seq<Event>)
    ensures SendCount(a + b) == SendCount(a) + SendCount(b)
  {
    if a != [] {
      assert (a + b)[1..] == a[1..] + b;
      SendCountAppend(a[1..], b);
    } else {
      assert a + b == b;
    }
  }

  /** The number of calls made to the quota API. */
  function PostCount(events: seq<Event>): (n: nat)
    ensures n <= |events|
  {
    if events == [] then 0 else (if events[0].Post? then 1 else 0) + PostCount(events[1..])
  }

  lemma {:induction false} PostCountAppend(a: seq<Event>, b: seq<Event>)
    ensures PostCount(a + b) == PostCount(a) + PostCount(b)
  {
    if a != [] {
      assert (a + b)[1..] == a[1..] + b;
      PostCountAppend(a[1..], b);
    } else {
      assert a + b == b;
    }
  }

  /** The log properties hold of two stretches of events together exactly when they hold of each. */
  lemma PropertiesAppend(a: seq<Event>, b: seq<Event>, chats: seq<string>, numbers: seq<string>)
    ensures SendsOnlyTo(a + b, chats) <==> SendsOnlyTo(a, chats) && SendsOnlyTo(b, chats)
    ensures PostsOnlyValid(a + b) <==> PostsOnlyValid(a) && PostsOnlyValid(b)
    ensures PostsAmong(a + b, numbers) <==> PostsAmong(a, numbers) && PostsAmong(b, numbers)
    ensures OffsetUntouched(a + b) <==> OffsetUntouched(a) && OffsetUntouched(b)
  {
    var ab := a + b;
    assert forall i :: 0 <= i < |a| ==> ab[i] == a[i];
    assert forall i :: 0 <= i < |b| ==> ab[|a| + i] == b[i];
  }

  lemma WithinAppend(a: seq<Event>, b: seq<Event>, chats: seq<string>, numbers: seq<string>)
    requires Within(a, chats, numbers) && Within(b, chats, numbers)
    ensures Within(a + b, chats, numbers)
  {
    PropertiesAppend(a, b, chats, numbers);
  }

  lemma PostsAmongWider(events: seq<Event>, some: seq<string>, numbers: seq<string>)
    requires PostsAmong(events, some)
    requires forall x :: x in some ==> x in numbers
    ensures PostsAmong(events, numbers)
  {
  }

  lemma SendsOnlyToWider(events: seq<Event>, chats: seq<string>, wider: seq<string>)
    requires SendsOnlyTo(events, chats)
    requires forall c :: c in chats ==> c in wider
    ensures SendsOnlyTo(events, wider)
  {
  }

  /** A message, the calls for one valid number, and a second message, all to `dest`. */
  lemma CallsBetweenSends(dest: string, a: Message, b: Message, calls: seq<Event>, m: string)
    requires Msisdn.ValidMsisdn(m)
    requires forall i :: 0 <= i < |calls| ==> calls[i] == Post(m)
    ensures Within([Send(dest, a)] + calls + [Send(dest, b)], [dest], [m])
  {
    var first := [Send(dest, a)];
    var last := [Send(dest, b)];
    assert first[1..] == [] && last[1..] == [];
    assert Within(first, [dest], [m]) && Within(last, [dest], [m]);
    assert Within(calls, [dest], [m]);
    WithinAppend(first, calls, [dest], [m]);
    WithinAppend(first + calls, last, [dest], [m]);
  }

  /** Two messages around stretch that sends none: two messages, and the calls of the stretch. */
  lemma CountsBetweenSends(dest: string, a: Message, b: Message, calls: seq<Event>)
    requires SendCount(calls) == 0
    ensures var events := [Send(dest, a)] + calls + [Send(dest, b)];
      && SendCount(events) == 2
      && PostCount(events) == PostCount(calls)
  {
    var first := [Send(dest, a)];
    var last := [Send(dest, b)];
    assert SendCount(first) == 1 && PostCount(first) == 0 by { assert first[1..] == []; }
    assert SendCount(last) == 1 && PostCount(last) == 0 by { assert last[1..] == []; }
    PostCountAppend(first, calls);
    PostCountAppend(first + calls, last);
    SendCountAppend(first, calls);
    SendCountAppend(first + calls, last);
  }

  lemma AppendAssociative(a: seq<Event>, b: seq<Event>, c: seq<Event>)
    ensures (a + b) + c == a + (b + c)
  {
  }

  /** Every turn sends `count` messages, so the loop sends `count` per item. */
  lemma {:induction false} SequencedSendCount<T>(step: (nat, T) -> seq<Event>, at: nat, items: seq<T>, count: nat)
    requires forall n: nat, k :: 0 <= k < |items| ==> SendCount(step(n, items[k])) == count
    ensures SendCount(Folds.Sequenced(step, at, items)) == count * |items|
    decreases |items|
  {
    if items != [] {
      var first := step(at, items[0]);
      var rest := Folds.Sequenced(step, at + |first|, items[1..]);
      Folds.SequencedUnfold(step, at, items);
      Folds.TailItems(items);
      SequencedSendCount(step, at + |first|, items[1..], count);
      SendCountAppend(first, rest);
      assert count * (|items[1..]| + 1) == count + count * |items[1..]|;
    }
  }

  /** When every turn is confined to `chats`, so is the loop. */
  lemma {:induction false} SequencedConfined<T>(step: (nat, T) -> seq<Event>, at: nat, items: seq<T>, chats: seq<string>)
    requires forall n: nat, k :: 0 <= k < |items| ==> Confined(step(n, items[k]), chats)
    ensures Confined(Folds.Sequenced(step, at, items), chats)
    decreases |items|
  {
    if items != [] {
      var first := step(at, items[0]);
      var rest := Folds.Sequenced(step, at + |first|, items[1..]);
      Folds.SequencedUnfold(step, at, items);
      Folds.TailItems(items);
      SequencedConfined(step, at + |first|, items[1..], chats);
      PropertiesAppend(first, rest, chats, []);
    }
  }

  /** When every turn calls the API only for numbers among `numbers`, so does the loop. */
  lemma {:induction false} SequencedPostsAmong<T>(step: (nat, T) -> seq<Event>, at: nat, items: seq<T>, numbers: seq<string>)
    requires forall n: nat, k :: 0 <= k < |items| ==> PostsAmong(step(n, items[k]), numbers)
    ensures PostsAmong(Folds.Sequenced(step, at, items), numbers)
    decreases |items|
  {
    if items != [] {
      var first := step(at, items[0]);
      var rest := Folds.Sequenced(step, at + |first|, items[1..]);
      Folds.SequencedUnfold(step, at, items);
      Folds.TailItems(items);
      SequencedPostsAmong(step, at + |first|, items[1..], numbers);
      PropertiesAppend(first, rest, [], numbers);
    }
  }
}

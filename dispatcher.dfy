/**
 * `handle_command`: the reply to one chat message. The text is stripped and a
 * lower-cased copy is tested against the command prefixes in a fixed order; the
 * first match decides the one branch taken.
 */
module Dispatcher {
  import opened Wrappers
  import opened Text
  import opened Msisdn
  import opened Config
  import opened Report
  import opened Effects
  import opened Upstream
  import opened Messages
  import Folds

  datatype Command = MenuCommand | PingCommand | JadwalCommand | CekAllCommand | CekCommand | NoCommand

  /** The prefixes in the order they are tested, and the branch each selects. */
  const CommandPrefixes: seq<string> := ["/menu", "/ping", "/jadwal", "/cek_all", "/cek"]
  const PrefixCommands: seq<Command> := [MenuCommand, PingCommand, JadwalCommand, CekAllCommand, CekCommand]

  /** The if-chain of `handle_command` over the lower-cased text. */
  function Classify(lower: string): Command {
    if StartsWith(lower, "/menu") then MenuCommand
    else if StartsWith(lower, "/ping") then PingCommand
    else if StartsWith(lower, "/jadwal") then JadwalCommand
    else if StartsWith(lower, "/cek_all") then CekAllCommand
    else if StartsWith(lower, "/cek") then CekCommand
    else NoCommand
  }

  /** The command a message text (`None` reads as `""`) takes. */
  function CommandOf(rawText: Option<string>): Command {
    Classify(Lower(Strip(rawText.GetOr(""))))
  }

  /** One number of `/cek_all`, handled when the log holds `at` events: a warning when it is invalid, else one check and its report. */
  function CekAllStep(cfg: Config, o: Oracles, at: nat, dest: string, msisdn: string): seq<Event> {
    if !ValidMsisdn(msisdn) then [Send(dest, InvalidNumber(msisdn))]
    else
      var (resp, calls) := Check(o, cfg.retries, at, msisdn);
      calls + [Send(dest, QuotaReport(Render(o.lib, msisdn, resp.status, resp.data)))]
  }

  /** `CekAllStep` as the step of a loop over the configured numbers. */
  function CekAllStepper(cfg: Config, o: Oracles, dest: string): (nat, string) -> seq<Event> {
    (at: nat, msisdn: string) => CekAllStep(cfg, o, at, dest, msisdn)
  }

  /** The events of the `/cek_all` loop over `numbers`, in order, started when the log holds `at` events. */
  function CekAllRun(cfg: Config, o: Oracles, at: nat, dest: string, numbers: seq<string>): seq<Event> {
    Folds.Sequenced(CekAllStepper(cfg, o, dest), at, numbers)
  }

  /** The `/cek <msisdn>` branch on the stripped text: the number is the second blank-separated token. */
  function CekSingle(cfg: Config, o: Oracles, at: nat, dest: string, text: string): seq<Event> {
    var parts := Words(text);
    if |parts| < 2 then [Send(dest, CekUsage)]
    else
      var msisdn := Strip(parts[1]);
      if !ValidMsisdn(msisdn) then [Send(dest, CekInvalid)]
      else
        var (resp, calls) := Check(o, cfg.retries, at + 1, msisdn);
        [Send(dest, CekProgress(msisdn))] + calls + [Send(dest, QuotaReport(Render(o.lib, msisdn, resp.status, resp.data)))]
  }

  /** The events of the branch `command` on the stripped `text`, replying to `dest`. */
  function Respond(cfg: Config, o: Oracles, at: nat, dest: string, command: Command, text: string): seq<Event> {
    match command
    case MenuCommand => [Send(dest, MenuHelp)]
    case PingCommand => [Send(dest, Pong)]
    case JadwalCommand => [Send(dest, Schedule(cfg.tz, cfg.schedules, cfg.msisdns))]
    case CekAllCommand => [Send(dest, CheckAllNotice)] + CekAllRun(cfg, o, at + 1, dest, cfg.msisdns)
    case CekCommand => CekSingle(cfg, o, at, dest, text)
    case NoCommand => [Send(dest, Unrecognized)]
  }

  /** The events of `handle_command(chat_id, text)` when the log holds `at` events. */
  function Handle(cfg: Config, o: Oracles, at: nat, chatId: int, rawText: Option<string>): seq<Event> {
    Respond(cfg, o, at, IntToDecimal(chatId), CommandOf(rawText), Strip(rawText.GetOr("")))
  }

  /** One number of the `/cek_all` loop: a warning when invalid, else `api_check` and its report. */
  method CheckNumber(cfg: Config, o: Oracles, log: Log, dest: string, msisdn: string) returns (log': Log)
    ensures log' == log + CekAllStep(cfg, o, |log|, dest, msisdn)
  {
    if !ValidMsisdn(msisdn) {
      log' := log + [Send(dest, InvalidNumber(msisdn))];
    } else {
      var resp;
      resp, log' := ApiCheck(o, cfg.retries, log, msisdn);
      ghost var calls := Check(o, cfg.retries, |log|, msisdn).1;
      var report := FmtResult(o.lib, msisdn, resp.status, resp.data);
      log' := log' + [Send(dest, QuotaReport(report))];
      AppendAssociative(log, calls, [Send(dest, QuotaReport(report))]);
    }
  }

  /** The `/cek_all` loop: each configured number in order, checked or warned about. */
  method CheckAll(cfg: Config, o: Oracles, log: Log, dest: string) returns (log': Log)
    ensures log' == log + CekAllRun(cfg, o, |log|, dest, cfg.msisdns)
  {
    ghost var step := CekAllStepper(cfg, o, dest);
    log' := log;
    var i := 0;
    while i < |cfg.msisdns|
      invariant 0 <= i <= |cfg.msisdns|
      invariant log' + Folds.Sequenced(step, |log'|, cfg.msisdns[i..]) == log + Folds.Sequenced(step, |log|, cfg.msisdns)
    {
      ghost var before := log';
      log' := CheckNumber(cfg, o, log', dest, cfg.msisdns[i]);
      assert log' == before + step(|before|, cfg.msisdns[i]);
      Folds.SequencedTurn(step, before, log', cfg.msisdns, i);
      i := i + 1;
    }
    assert cfg.msisdns[i..] == [];
  }

  /** The `/cek` branch on the stripped text. */
  method CheckOne(cfg: Config, o: Oracles, log: Log, dest: string, text: string) returns (log': Log)
    ensures log' == log + CekSingle(cfg, o, |log|, dest, text)
  {
    var parts := Words(text);
    if |parts| < 2 {
      log' := log + [Send(dest, CekUsage)];
      assert CekSingle(cfg, o, |log|, dest, text) == [Send(dest, CekUsage)];
      return;
    }
    var msisdn := Strip(parts[1]);
    if !ValidMsisdn(msisdn) {
      log' := log + [Send(dest, CekInvalid)];
      assert CekSingle(cfg, o, |log|, dest, text) == [Send(dest, CekInvalid)];
      return;
    }
    var progress := [Send(dest, CekProgress(msisdn))];
    ghost var checked := Check(o, cfg.retries, |log| + 1, msisdn);
    var resp;
    resp, log' := ApiCheck(o, cfg.retries, log + progress, msisdn);
    assert log' == (log + progress) + checked.1;
    var report := FmtResult(o.lib, msisdn, resp.status, resp.data);
    assert resp == checked.0;
    var sent := [Send(dest, QuotaReport(report))];
    assert CekSingle(cfg, o, |log|, dest, text) == progress + checked.1 + sent;
    AppendAssociative(log, progress, checked.1);
    AppendAssociative(log, progress + checked.1, sent);
    log' := log' + sent;
  }

  /** `handle_command`: normalise the text, pick the branch, run it. */
  method HandleCommand(cfg: Config, o: Oracles, log: Log, chatId: int, rawText: Option<string>)
    returns (log': Log)
    ensures log' == log + Handle(cfg, o, |log|, chatId, rawText)
  {
    var text := Strip(rawText.GetOr(""));
    var lower := Lower(text);
    var dest := IntToDecimal(chatId);
    var command := Classify(lower);
    assert Handle(cfg, o, |log|, chatId, rawText) == Respond(cfg, o, |log|, dest, command, text);
    match command
    case MenuCommand =>
      log' := log + [Send(dest, MenuHelp)];
    case PingCommand =>
      log' := log + [Send(dest, Pong)];
    case JadwalCommand =>
      log' := log + [Send(dest, Schedule(cfg.tz, cfg.schedules, cfg.msisdns))];
    case CekAllCommand =>
      var notice := [Send(dest, CheckAllNotice)];
      log' := CheckAll(cfg, o, log + notice, dest);
      AppendAssociative(log, notice, CekAllRun(cfg, o, |log| + 1, dest, cfg.msisdns));
    case CekCommand =>
      log' := CheckOne(cfg, o, log, dest, text);
    case NoCommand =>
      log' := log + [Send(dest, Unrecognized)];
  }

  /** The branch taken is the first prefix that matches, in the fixed order. */
  lemma ClassifyFirstMatch(lower: string, i: nat)
    requires i < |CommandPrefixes|
    ensures Classify(lower) == PrefixCommands[i]
        <==> StartsWith(lower, CommandPrefixes[i])
             && forall j :: 0 <= j < i ==> !StartsWith(lower, CommandPrefixes[j])
  {
    assert CommandPrefixes[0] == "/menu" && CommandPrefixes[1] == "/ping";
    assert CommandPrefixes[2] == "/jadwal" && CommandPrefixes[3] == "/cek_all" && CommandPrefixes[4] == "/cek";
    assert PrefixCommands[0] == MenuCommand && PrefixCommands[1] == PingCommand;
    assert PrefixCommands[2] == JadwalCommand && PrefixCommands[3] == CekAllCommand && PrefixCommands[4] == CekCommand;
    if StartsWith(lower, "/cek_all") {
      CekAllNeverSingle(lower);
    }
  }

  /** The fallback reply is chosen exactly when no prefix matches. */
  lemma ClassifyUnrecognized(lower: string)
    ensures Classify(lower) == NoCommand
        <==> forall j :: 0 <= j < |CommandPrefixes| ==> !StartsWith(lower, CommandPrefixes[j])
  {
    assert CommandPrefixes[0] == "/menu" && CommandPrefixes[1] == "/ping";
    assert CommandPrefixes[2] == "/jadwal" && CommandPrefixes[3] == "/cek_all" && CommandPrefixes[4] == "/cek";
    if StartsWith(lower, "/cek_all") {
      CekAllNeverSingle(lower);
    }
  }

  /** A `/cek_all...` text never reaches the single-number branch. */
  lemma CekAllNeverSingle(lower: string)
    requires StartsWith(lower, "/cek_all")
    ensures StartsWith(lower, "/cek")
    ensures Classify(lower) == CekAllCommand
  {
    assert lower[1] == 'c';
    assert lower[..4] == "/cek";
  }

  /** Case is ignored: `/PING` is `/ping`. */
  lemma PingIgnoresCase()
    ensures Classify(Lower("/PING")) == PingCommand
  {
    var l := Lower("/PING");
    assert l[0] == '/' && l[1] == 'p' && l[2] == 'i' && l[3] == 'n' && l[4] == 'g';
    assert l == "/ping";
  }

  /** Case is ignored: `/Cek_All` is `/cek_all`. */
  lemma CekAllIgnoresCase()
    ensures Classify(Lower("/Cek_All")) == CekAllCommand
  {
    var l := Lower("/Cek_All");
    assert l[0] == '/' && l[1] == 'c' && l[2] == 'e' && l[3] == 'k';
    assert l[4] == '_' && l[5] == 'a' && l[6] == 'l' && l[7] == 'l';
    assert l == "/cek_all";
    CekAllNeverSingle(l);
  }

  /** The branch does not depend on the case of the letters of the text. */
  lemma ClassifyIgnoresCase(s: string, t: string)
    requires SameIgnoringCase(s, t)
    ensures Classify(Lower(s)) == Classify(Lower(t))
  {
    LowerIgnoresCase(s, t);
  }

  /** `lower()` turns KELVIN SIGN into `k`, so `/ce\U{212A}` selects `/cek`. */
  lemma KelvinSignSelectsCek()
    ensures Classify(Lower("/ce\U{212A}")) == CekCommand
  {
    var l := Lower("/ce\U{212A}");
    assert l == "/cek" by {
      assert l[0] == LowerChar('/') && l[1] == LowerChar('c') && l[2] == LowerChar('e') && l[3] == LowerChar('\U{212A}');
    }
  }

  /** Prefixes, not words: `/cekabc` is `/cek`; `/start` is not a command. */
  lemma ClassifyByPrefix()
    ensures Classify("/cekabc 0812") == CekCommand
    ensures Classify("/start") == NoCommand
    ensures Classify("") == NoCommand
  {
    assert "/cekabc 0812"[..4] == "/cek";
    assert "/cekabc 0812"[1] == 'c' && "/cekabc 0812"[4] == 'a';
    assert "/start"[1] == 's';
  }

  /** Empty text is not skipped: it gets the fallback reply. */
  lemma EmptyTextGetsFallback(cfg: Config, o: Oracles, at: nat, chatId: int)
    ensures Handle(cfg, o, at, chatId, Some("")) == [Send(IntToDecimal(chatId), Unrecognized)]
    ensures Handle(cfg, o, at, chatId, None) == [Send(IntToDecimal(chatId), Unrecognized)]
  {
    assert Strip("") == "";
    assert Lower("") == "";
    assert Classify("") == NoCommand;
  }

  /** The `/cek` argument is the second token itself, and `valid_msisdn` on it is exactly the three shapes. */
  lemma CekArgument(text: string)
    requires |Words(text)| >= 2
    ensures Strip(Words(text)[1]) == Words(text)[1]
    ensures ValidMsisdn(Words(text)[1]) <==> WellFormed(Words(text)[1])
  {
    var m := Words(text)[1];
    assert NoEdgeSpace(m);
    StrippedHasNoNewline(m);
    ValidWithoutNewline(m);
  }

  /** The events of `/cek` with a valid number `m`: the progress notice, the call(s), the report of the last answer. */
  lemma CekValidEvents(cfg: Config, o: Oracles, at: nat, dest: string, m: string)
    ensures var (resp, calls) := Check(o, cfg.retries, at + 1, m);
      var first := o.upstream(at + 1, m);
      var retried := first.status == 0 && cfg.retries > 0;
      var last := if retried then o.upstream(at + 2, m) else first;
      && [Send(dest, CekProgress(m))] + calls + [Send(dest, QuotaReport(Render(o.lib, m, resp.status, resp.data)))]
         == [Send(dest, CekProgress(m)), Post(m)]
            + (if retried then [Post(m)] else [])
            + [Send(dest, QuotaReport(Render(o.lib, m, last.status, last.data)))]
  {
  }

  /**
   * `/cek`: fewer than two tokens gives only the usage hint and an invalid number only the
   * invalid-number reply, neither calling the API; a valid number gives the progress notice,
   * one call or, when it got no response and a retry is configured, two, then the report of
   * the last answer.
   */
  lemma CekSingleOutcomes(cfg: Config, o: Oracles, at: nat, dest: string, text: string)
    ensures var parts := Words(text);
      var events := CekSingle(cfg, o, at, dest, text);
      && (|parts| < 2 ==> events == [Send(dest, CekUsage)])
      && (|parts| >= 2 && !WellFormed(parts[1]) ==> events == [Send(dest, CekInvalid)])
      && (|parts| >= 2 && WellFormed(parts[1]) ==>
            var m := parts[1];
            var first := o.upstream(at + 1, m);
            var retried := first.status == 0 && cfg.retries > 0;
            var last := if retried then o.upstream(at + 2, m) else first;
            events == [Send(dest, CekProgress(m)), Post(m)]
                      + (if retried then [Post(m)] else [])
                      + [Send(dest, QuotaReport(Render(o.lib, m, last.status, last.data)))])
  {
    var parts := Words(text);
    if |parts| >= 2 {
      CekArgument(text);
      CekValidEvents(cfg, o, at, dest, parts[1]);
    }
  }

  /**
   * A typed `<command> <number>` with a well-formed number: the number is the argument
   * `/cek` takes, so the progress notice goes first and that very number is posted.
   */
  lemma CekTypedNumber(cfg: Config, o: Oracles, at: nat, dest: string, command: string, m: string)
    requires command != "" && NoSpace(command) && WellFormed(m)
    ensures var events := CekSingle(cfg, o, at, dest, command + " " + m);
      |events| >= 3 && events[0] == Send(dest, CekProgress(m)) && events[1] == Post(m)
  {
    WellFormedIsToken(m);
    assert Join([command, m], ' ') == command + " " + m by {
      assert [command, m][1..] == [m];
    }
    WordsJoin([command, m]);
    CekSingleOutcomes(cfg, o, at, dest, command + " " + m);
  }

  /** A single message to `dest`: one send, no call, no save. */
  lemma OneMessage(dest: string, message: Message, numbers: seq<string>)
    ensures Within([Send(dest, message)], [dest], numbers)
    ensures SendCount([Send(dest, message)]) == 1 && PostCount([Send(dest, message)]) == 0
  {
    assert [Send(dest, message)][1..] == [];
  }

  /** The valid-number branch of `/cek` sends two messages to `dest` and makes one or two calls for `m`. */
  lemma CekValidEffects(cfg: Config, o: Oracles, at: nat, dest: string, m: string)
    requires ValidMsisdn(m)
    ensures var resp := Check(o, cfg.retries, at + 1, m).0;
      var calls := Check(o, cfg.retries, at + 1, m).1;
      var events := [Send(dest, CekProgress(m))] + calls + [Send(dest, QuotaReport(Render(o.lib, m, resp.status, resp.data)))];
      && Within(events, [dest], [m])
      && SendCount(events) == 2
      && 1 <= PostCount(events) <= 2
  {
    var resp := Check(o, cfg.retries, at + 1, m).0;
    var calls := Check(o, cfg.retries, at + 1, m).1;
    var report := QuotaReport(Render(o.lib, m, resp.status, resp.data));
    RetryRule(o, cfg.retries, at + 1, m);
    CallsBetweenSends(dest, CekProgress(m), report, calls, m);
    CountsBetweenSends(dest, CekProgress(m), report, calls);
  }

  /**
   * `/cek` replies only to the sender, with two messages when a valid number was given and
   * one otherwise, and calls the API at most twice, only with that number.
   */
  lemma CekSingleEffects(cfg: Config, o: Oracles, at: nat, dest: string, text: string)
    ensures var parts := Words(text);
      var events := CekSingle(cfg, o, at, dest, text);
      var valid := |parts| >= 2 && WellFormed(parts[1]);
      && Within(events, [dest], if valid then [parts[1]] else [])
      && SendCount(events) == (if valid then 2 else 1)
      && (PostCount(events) > 0 <==> valid)
      && PostCount(events) <= 2
  {
    var parts := Words(text);
    var events := CekSingle(cfg, o, at, dest, text);
    if |parts| < 2 {
      assert events == [Send(dest, CekUsage)];
      OneMessage(dest, CekUsage, []);
    } else {
      CekArgument(text);
      if !WellFormed(parts[1]) {
        assert events == [Send(dest, CekInvalid)];
        OneMessage(dest, CekInvalid, []);
      } else {
        var m := parts[1];
        var (resp, calls) := Check(o, cfg.retries, at + 1, m);
        assert events == [Send(dest, CekProgress(m))] + calls + [Send(dest, QuotaReport(Render(o.lib, m, resp.status, resp.data)))];
        CekValidEffects(cfg, o, at, dest, m);
      }
    }
  }

  /** One `/cek_all` step sends exactly one message to `dest` and calls the API only for a valid `msisdn`. */
  lemma CekAllStepEffects(cfg: Config, o: Oracles, at: nat, dest: string, msisdn: string)
    ensures var step := CekAllStep(cfg, o, at, dest, msisdn);
      && Within(step, [dest], [msisdn])
      && SendCount(step) == 1
      && (PostCount(step) > 0 <==> ValidMsisdn(msisdn))
  {
    if ValidMsisdn(msisdn) {
      RetryRule(o, cfg.retries, at, msisdn);
      var (resp, calls) := Check(o, cfg.retries, at, msisdn);
      var report := [Send(dest, QuotaReport(Render(o.lib, msisdn, resp.status, resp.data)))];
      SendCountAppend(calls, report);
      PostCountAppend(calls, report);
      PropertiesAppend(calls, report, [dest], [msisdn]);
    }
  }

  /** The `/cek_all` loop sends one message per number to `dest` and calls the API only for valid ones among them. */
  lemma CekAllRunEffects(cfg: Config, o: Oracles, at: nat, dest: string, numbers: seq<string>)
    ensures var events := CekAllRun(cfg, o, at, dest, numbers);
      && Within(events, [dest], numbers)
      && SendCount(events) == |numbers|
  {
    var step := CekAllStepper(cfg, o, dest);
    forall n: nat, k | 0 <= k < |numbers|
      ensures Within(step(n, numbers[k]), [dest], numbers)
      ensures SendCount(step(n, numbers[k])) == 1
    {
      CekAllStepEffects(cfg, o, n, dest, numbers[k]);
      PostsAmongWider(step(n, numbers[k]), [numbers[k]], numbers);
    }
    SequencedConfined(step, at, numbers, [dest]);
    SequencedPostsAmong(step, at, numbers, numbers);
    SequencedSendCount(step, at, numbers, 1);
  }

  /** `/cek_all` sends the notice first, then one message per configured number, all to `dest`. */
  lemma CekAllEffects(cfg: Config, o: Oracles, at: nat, dest: string)
    ensures var events := [Send(dest, CheckAllNotice)] + CekAllRun(cfg, o, at + 1, dest, cfg.msisdns);
      && events != [] && events[0] == Send(dest, CheckAllNotice)
      && Within(events, [dest], cfg.msisdns)
      && SendCount(events) == 1 + |cfg.msisdns|
  {
    var notice := [Send(dest, CheckAllNotice)];
    var rest := CekAllRun(cfg, o, at + 1, dest, cfg.msisdns);
    CekAllRunEffects(cfg, o, at + 1, dest, cfg.msisdns);
    OneMessage(dest, CheckAllNotice, cfg.msisdns);
    SendCountAppend(notice, rest);
    PropertiesAppend(notice, rest, [dest], cfg.msisdns);
  }

  /** The effects of each branch of `handle_command`, replying to `dest`. */
  lemma RespondEffects(cfg: Config, o: Oracles, at: nat, dest: string, command: Command, text: string)
    ensures var events := Respond(cfg, o, at, dest, command, text);
      && Confined(events, [dest])
      && (command == CekAllCommand ==>
            events != [] && events[0] == Send(dest, CheckAllNotice)
            && SendCount(events) == 1 + |cfg.msisdns|
            && PostsAmong(events, cfg.msisdns))
      && (command != CekAllCommand && command != CekCommand ==> |events| == 1 && SendCount(events) == 1)
  {
    var events := Respond(cfg, o, at, dest, command, text);
    match command
    case MenuCommand =>
      assert events == [Send(dest, MenuHelp)];
      OneMessage(dest, MenuHelp, []);
    case PingCommand =>
      assert events == [Send(dest, Pong)];
      OneMessage(dest, Pong, []);
    case JadwalCommand =>
      assert events == [Send(dest, Schedule(cfg.tz, cfg.schedules, cfg.msisdns))];
      OneMessage(dest, Schedule(cfg.tz, cfg.schedules, cfg.msisdns), []);
    case NoCommand =>
      assert events == [Send(dest, Unrecognized)];
      OneMessage(dest, Unrecognized, []);
    case CekAllCommand =>
      assert events == [Send(dest, CheckAllNotice)] + CekAllRun(cfg, o, at + 1, dest, cfg.msisdns);
      CekAllEffects(cfg, o, at, dest);
    case CekCommand =>
      assert events == CekSingle(cfg, o, at, dest, text);
      CekSingleEffects(cfg, o, at, dest, text);
  }

  /**
   * Whatever the text: every message goes to the sender's chat, every number sent to the API
   * passes `valid_msisdn`, and the offset is neither saved nor polled. `/cek_all` sends the
   * notice first and one message per configured number; the four fixed replies are one
   * message and nothing else.
   */
  lemma HandleEffects(cfg: Config, o: Oracles, at: nat, chatId: int, rawText: Option<string>)
    ensures var events := Handle(cfg, o, at, chatId, rawText);
      var dest := IntToDecimal(chatId);
      && Confined(events, [dest])
      && (CommandOf(rawText) == CekAllCommand ==>
            events != [] && events[0] == Send(dest, CheckAllNotice)
            && SendCount(events) == 1 + |cfg.msisdns|
            && PostsAmong(events, cfg.msisdns))
      && (CommandOf(rawText) != CekAllCommand && CommandOf(rawText) != CekCommand ==>
            |events| == 1 && SendCount(events) == 1)
  {
    RespondEffects(cfg, o, at, IntToDecimal(chatId), CommandOf(rawText), Strip(rawText.GetOr("")));
  }
}

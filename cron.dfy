/**
 * `cron_run`: the scheduled run. It refuses to start when a required setting is
 * missing; otherwise it checks every configured number in order and sends the
 * outcome to every configured chat.
 */
module Cron {
  import opened Msisdn
  import opened Config
  import opened Report
  import opened Effects
  import opened Upstream
  import opened Messages
  import Folds

  /** The required settings, in the order `cron_run` tests them. */
  const SettingNames: seq<string> := ["BOT_TOKEN", "CHAT_ID", "MSISDN_LIST"]

  /** The required settings that are empty, in the order they are tested. */
  function Missing(cfg: Config): seq<string> {
    (if cfg.botToken == "" then ["BOT_TOKEN"] else [])
    + (if cfg.chatIds == [] then ["CHAT_ID"] else [])
    + (if cfg.msisdns == [] then ["MSISDN_LIST"] else [])
  }

  /** A setting is reported exactly when it is empty, in the order of `SettingNames`, each once. */
  lemma MissingExactly(cfg: Config)
    ensures var r := Missing(cfg);
      && ("BOT_TOKEN" in r <==> cfg.botToken == "")
      && ("CHAT_ID" in r <==> cfg.chatIds == [])
      && ("MSISDN_LIST" in r <==> cfg.msisdns == [])
      && (r == [] <==> cfg.botToken != "" && cfg.chatIds != [] && cfg.msisdns != [])
      && (forall i, j :: 0 <= i < j < |r| ==> Rank(r[i]) < Rank(r[j]))
      && (forall i :: 0 <= i < |r| ==> r[i] in SettingNames && SettingNames[Rank(r[i])] == r[i])
  {
  }

  /** The position of a setting name in `SettingNames`. */
  function Rank(name: string): int {
    if name == "BOT_TOKEN" then 0 else if name == "CHAT_ID" then 1 else 2
  }

  /** One `tg_send_text(cid, ...)` per chat, in the order of `chats`. */
  function Broadcast(chats: seq<string>, message: Message): (r: seq<Event>)
    ensures |r| == |chats|
  {
    seq(|chats|, i requires 0 <= i < |chats| => Send(chats[i], message))
  }

  /** One number of the run: a warning to every chat when it is invalid, else one check and its report to every chat. */
  function CronStep(cfg: Config, o: Oracles, at: nat, msisdn: string): seq<Event> {
    if !ValidMsisdn(msisdn) then Broadcast(cfg.chatIds, InvalidNumber(msisdn))
    else
      var (resp, calls) := Check(o, cfg.retries, at, msisdn);
      calls + Broadcast(cfg.chatIds, QuotaReport(Render(o.lib, msisdn, resp.status, resp.data)))
  }

  /** `CronStep` as the step of the loop over the configured numbers. */
  function CronStepper(cfg: Config, o: Oracles): (nat, string) -> seq<Event> {
    (at: nat, msisdn: string) => CronStep(cfg, o, at, msisdn)
  }

  /** The events of `cron_run` started when the log holds `at` events. */
  function CronEvents(cfg: Config, o: Oracles, at: nat): seq<Event> {
    if Missing(cfg) != [] then [] else Folds.Sequenced(CronStepper(cfg, o), at, cfg.msisdns)
  }

  /** The inner loop `for cid in CHAT_IDS: tg_send_text(cid, msg)`. */
  method SendToAll(chats: seq<string>, message: Message, log: Log) returns (log': Log)
    ensures log' == log + Broadcast(chats, message)
  {
    log' := log;
    var i := 0;
    while i < |chats|
      invariant 0 <= i <= |chats|
      invariant log' == log + Broadcast(chats[..i], message)
    {
      log' := log' + [Send(chats[i], message)];
      i := i + 1;
      assert Broadcast(chats[..i], message) == Broadcast(chats[..i - 1], message) + [Send(chats[i - 1], message)];
    }
    assert chats[..i] == chats;
  }

  /** One turn of the outer loop of `cron_run`. */
  method CronNumber(cfg: Config, o: Oracles, log: Log, msisdn: string) returns (log': Log)
    ensures log' == log + CronStep(cfg, o, |log|, msisdn)
  {
    if !ValidMsisdn(msisdn) {
      log' := SendToAll(cfg.chatIds, InvalidNumber(msisdn), log);
    } else {
      var resp;
      resp, log' := ApiCheck(o, cfg.retries, log, msisdn);
      ghost var calls := Check(o, cfg.retries, |log|, msisdn).1;
      var report := FmtResult(o.lib, msisdn, resp.status, resp.data);
      log' := SendToAll(cfg.chatIds, QuotaReport(report), log');
      AppendAssociative(log, calls, Broadcast(cfg.chatIds, QuotaReport(report)));
    }
  }

  /** `cron_run`: the missing settings it reports (nothing else happens when there are any) and the new log. */
  method CronRun(cfg: Config, o: Oracles, log: Log) returns (missing: seq<string>, log': Log)
    ensures missing == Missing(cfg)
    ensures log' == log + CronEvents(cfg, o, |log|)
  {
    missing := [];
    if cfg.botToken == "" { missing := missing + ["BOT_TOKEN"]; }
    if cfg.chatIds == [] { missing := missing + ["CHAT_ID"]; }
    if cfg.msisdns == [] { missing := missing + ["MSISDN_LIST"]; }
    if missing != [] {
      log' := log;
      return;
    }
    ghost var step := CronStepper(cfg, o);
    log' := log;
    var i := 0;
    while i < |cfg.msisdns|
      invariant 0 <= i <= |cfg.msisdns|
      invariant log' + Folds.Sequenced(step, |log'|, cfg.msisdns[i..]) == log + Folds.Sequenced(step, |log|, cfg.msisdns)
    {
      ghost var before := log';
      log' := CronNumber(cfg, o, log', cfg.msisdns[i]);
      assert log' == before + step(|before|, cfg.msisdns[i]);
      Folds.SequencedTurn(step, before, log', cfg.msisdns, i);
      i := i + 1;
    }
    assert cfg.msisdns[i..] == [];
  }

  /** A broadcast reaches every chat in `chats` and no other, one message each, and calls nothing. */
  lemma {:induction false} BroadcastDelivers(chats: seq<string>, message: Message)
    ensures var b := Broadcast(chats, message);
      && (forall c :: c in chats ==> Send(c, message) in b)
      && Within(b, chats, [])
      && SendCount(b) == |chats|
      && PostCount(b) == 0
    decreases |chats|
  {
    var b := Broadcast(chats, message);
    forall c | c in chats
      ensures Send(c, message) in b
    {
      var i :| 0 <= i < |chats| && chats[i] == c;
      assert b[i] == Send(c, message);
    }
    if chats != [] {
      assert b == [Send(chats[0], message)] + Broadcast(chats[1..], message);
      BroadcastDelivers(chats[1..], message);
      SendCountAppend([Send(chats[0], message)], Broadcast(chats[1..], message));
      PostCountAppend([Send(chats[0], message)], Broadcast(chats[1..], message));
      assert [Send(chats[0], message)][1..] == [];
    }
  }

  /**
   * One number of the run sends one message to each configured chat; every chat gets the
   * warning when the number is invalid, and the report otherwise. Only a valid number is
   * sent to the API, once or twice.
   */
  lemma CronStepEffects(cfg: Config, o: Oracles, at: nat, msisdn: string)
    ensures var step := CronStep(cfg, o, at, msisdn);
      var resp := Check(o, cfg.retries, at, msisdn).0;
      var outcome := if ValidMsisdn(msisdn) then QuotaReport(Render(o.lib, msisdn, resp.status, resp.data))
                     else InvalidNumber(msisdn);
      && Within(step, cfg.chatIds, [msisdn])
      && SendCount(step) == |cfg.chatIds|
      && (forall c :: c in cfg.chatIds ==> Send(c, outcome) in step)
      && (PostCount(step) > 0 <==> ValidMsisdn(msisdn))
      && PostCount(step) <= 2
  {
    if !ValidMsisdn(msisdn) {
      BroadcastDelivers(cfg.chatIds, InvalidNumber(msisdn));
    } else {
      var resp := Check(o, cfg.retries, at, msisdn).0;
      var calls := Check(o, cfg.retries, at, msisdn).1;
      var report := QuotaReport(Render(o.lib, msisdn, resp.status, resp.data));
      assert CronStep(cfg, o, at, msisdn) == calls + Broadcast(cfg.chatIds, report);
      RetryRule(o, cfg.retries, at, msisdn);
      CallsThenBroadcast(calls, cfg.chatIds, report, msisdn);
    }
  }

  /** The calls for one valid number, then one message to every chat. */
  lemma CallsThenBroadcast(calls: seq<Event>, chats: seq<string>, m: Message, msisdn: string)
    requires ValidMsisdn(msisdn)
    requires forall i :: 0 <= i < |calls| ==> calls[i] == Post(msisdn)
    requires 1 <= PostCount(calls) <= 2 && SendCount(calls) == 0
    ensures var e := calls + Broadcast(chats, m);
      && Within(e, chats, [msisdn])
      && SendCount(e) == |chats|
      && (forall c :: c in chats ==> Send(c, m) in e)
      && 0 < PostCount(e) <= 2
  {
    var b := Broadcast(chats, m);
    BroadcastDelivers(chats, m);
    SendCountAppend(calls, b);
    PostCountAppend(calls, b);
    assert Within(calls, chats, [msisdn]);
    PropertiesAppend(calls, b, chats, [msisdn]);
    DeliveredAfter(calls, b, chats, m);
  }

  /** What a stretch of events delivers, it still delivers after earlier events. */
  lemma DeliveredAfter(calls: seq<Event>, b: seq<Event>, chats: seq<string>, m: Message)
    requires forall c :: c in chats ==> Send(c, m) in b
    ensures forall c :: c in chats ==> Send(c, m) in calls + b
  {
    forall c | c in chats
      ensures Send(c, m) in calls + b
    {
      var i :| 0 <= i < |b| && b[i] == Send(c, m);
      assert (calls + b)[|calls| + i] == b[i];
    }
  }

  /**
   * `cron_run` does nothing when a setting is missing. Otherwise it sends one message per
   * configured number to each configured chat and nowhere else, calls the API only for
   * valid configured numbers, and never touches the saved offset.
   */
  lemma CronEffects(cfg: Config, o: Oracles, at: nat)
    ensures var events := CronEvents(cfg, o, at);
      && (Missing(cfg) != [] ==> events == [])
      && Within(events, cfg.chatIds, cfg.msisdns)
      && SendCount(events) == (if Missing(cfg) == [] then |cfg.chatIds| * |cfg.msisdns| else 0)
  {
    if Missing(cfg) == [] {
      var step := CronStepper(cfg, o);
      forall n: nat, k | 0 <= k < |cfg.msisdns|
        ensures Within(step(n, cfg.msisdns[k]), cfg.chatIds, cfg.msisdns)
        ensures SendCount(step(n, cfg.msisdns[k])) == |cfg.chatIds|
      {
        CronStepEffects(cfg, o, n, cfg.msisdns[k]);
        PostsAmongWider(step(n, cfg.msisdns[k]), [cfg.msisdns[k]], cfg.msisdns);
      }
      SequencedConfined(step, at, cfg.msisdns, cfg.chatIds);
      SequencedPostsAmong(step, at, cfg.msisdns, cfg.msisdns);
      SequencedSendCount(step, at, cfg.msisdns, |cfg.chatIds|);
    }
  }
}

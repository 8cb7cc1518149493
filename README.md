# cekkuota_bot in Dafny

`cekkuota_bot.py` is a Telegram bot that checks the data quota of Indonesian phone numbers
(MSISDNs) against an upstream quota API. It runs in one of two ways:

- The **cron run** checks every configured number once and sends each report to every configured chat.
- The **daemon** long-polls Telegram for updates and answers five commands from allowed chats:
  `/menu`, `/ping`, `/jadwal`, `/cek_all` and `/cek <msisdn>`.

This project models the bot's decision logic in Dafny and proves properties of it:

- the number pattern `valid_msisdn`;
- parsing of the comma-separated settings and the chat allow-list;
- the report text `fmt_result`;
- the single retry in `api_check`;
- the cron run, with its list of missing settings;
- `handle_command`;
- one polling round of the daemon and the loop of rounds.

Nothing here performs I/O. Each network call and each offset write becomes an `Event` in a log, `seq<Event>`:

- `Send(chat, message)` is one `tg_send_text`;
- `Post(msisdn)` is one call to the quota API;
- `Poll(offset)` is one `getUpdates` request;
- `SaveOffset(n)` is one `save_offset`.

Every method that does I/O in the script takes a log and returns it extended. Its contract is
`log' == log + F(...)`, where `F` is a specification function. The lemmas about `F` state what
the script promises. What the outside world answers is a parameter:

- `Oracles.upstream(n, m)` is the quota API's answer to the call whose `Post(m)` is event `n` of the log, so a retry can get a different answer.
- `Lib` stands for `json.dumps`, `str` of a float and `str` of a list or dict.
- The daemon's rounds get a sequence of `PollAnswer`s. A `PollAnswer` is the HTTP status plus, when the body is a JSON object, its `result` list; a missing `result` counts as `[]`.
- `load_offset()` is the `stored` parameter.

Modules, one per part of the script:

- `Text`: Python's `strip`, `split()`, `split(",")`, `"\n".join`, `lower` of ASCII letters and KELVIN SIGN, and `str(int)`.
- `Msisdn`: `valid_msisdn`.
- `Config`: the start-up settings and `is_allowed_chat`.
- `Messages`: the messages the bot sends, with their exact text.
- `Report`: `fmt_result`.
- `Effects`: events, the log and the oracles.
- `Folds`: the two loop shapes, a loop over items and a loop over items that carries a state.
- `Upstream`: `api_check`.
- `Dispatcher`: `handle_command`.
- `Cron`: `cron_run`.
- `Daemon`: `daemon_run`.

What the code does, in points a reader might expect otherwise:

- A number is a lead, a digit 1-9 and then 7 to 11 more digits.
- Commands are matched by prefix on the lower-cased text; a `@botname` suffix is not removed.
- An empty or missing text gets the fallback reply; it is not skipped.
- `/cek_all` sends a notice before its loop and nothing after it.
- `valid_msisdn` inherits the `$` of `re.match`, which also accepts one final newline.

## Model

| member | source | states |
|---|---|---|
| Msisdn.ValidMsisdn | cekkuota_bot.py:46-48 | Definition of `valid_msisdn`: one of the three alternatives, possibly followed by one final newline; properties in Compose, Decompose and the examples. |
| Msisdn.ValidExamples | cekkuota_bot.py:46-48 | One number with each lead `08`, `628` and `+628` is valid. |
| Msisdn.InvalidExamples | cekkuota_bot.py:46-48 | A wrong lead, too few digits and the empty string are rejected. |
| Msisdn.NewlineExample | cekkuota_bot.py:48 | `$` lets one trailing newline through: `"081234567890\n"` is valid. |
| Msisdn.Compose | cekkuota_bot.py:48 | Every lead, a digit 1-9 and 7 to 11 more digits form a valid, well-formed number. |
| Msisdn.SplitAlternative | cekkuota_bot.py:48 | A string matching one alternative is its lead, a digit 1-9 and 7 to 11 digits. |
| Msisdn.DecomposeWellFormed | cekkuota_bot.py:48 | Every well-formed number is a lead followed by a digit 1-9 and 7 to 11 digits (the converse of Compose). |
| Msisdn.Decompose | cekkuota_bot.py:46-48 | Every valid number is such a composition, with a trailing newline exactly when it is not well-formed. |
| Msisdn.LengthBounds | cekkuota_bot.py:48 | Well-formed numbers start with `0`, `6` or `+` and are 10-14, 11-15 or 12-16 characters long, respectively. |
| Msisdn.AlternativesExclusive | cekkuota_bot.py:48 | No number matches two alternatives of the pattern. |
| Msisdn.ValidWithoutNewline | cekkuota_bot.py:46-48 | For a string without a final newline, valid is exactly well-formed. |
| Msisdn.StrippedHasNoNewline | cekkuota_bot.py:228-231 | A stripped entry or a `split()` token has no final newline. |
| Msisdn.WellFormedIsToken | cekkuota_bot.py:228-231 | A well-formed number has no blank and no comma, so list parsing and `split()` keep it whole. |
| Config.CleanPieces | cekkuota_bot.py:29-30 | The comprehension keeps at most as many pieces as it is given, and every piece it keeps is stripped and non-empty. |
| Config.ParseList | cekkuota_bot.py:29-30 | Every parsed entry is non-empty, stripped and comma-free. |
| Config.CleanPiecesAppend | cekkuota_bot.py:29-30 | The comprehension works piece by piece and in order: cleaning two stretches of pieces gives the two cleaned lists one after the other. |
| Config.CleanPiecesSingle | cekkuota_bot.py:29-30 | One piece is kept as its stripped form when that is non-empty and dropped otherwise; with CleanPiecesAppend this fixes the whole result. |
| Config.CleanPiecesMembers | cekkuota_bot.py:29-30 | A string is kept exactly when it is non-empty and is the stripped form of one of the pieces. |
| Config.ParseListMembers | cekkuota_bot.py:29-30 | The entries of a variable are exactly the non-empty stripped forms of its comma pieces. |
| Config.ParseListExample | cekkuota_bot.py:29-30 | `" a , ,b"` parses to `["a", "b"]`: padding is stripped and the blank middle piece is dropped. |
| Config.CleanPiecesCommaFree | cekkuota_bot.py:29-30 | Stripping the comma-free pieces of a split keeps them comma-free. |
| Config.CleanPiecesOfEntries | cekkuota_bot.py:29-30 | Cleaning a list of entries changes nothing. |
| Config.ParseOfEntries | cekkuota_bot.py:29-30 | A value that splits into entries parses to exactly those entries. |
| Config.ParseEmpty | cekkuota_bot.py:29-30 | An unset or empty variable gives the empty list. |
| Config.ParseListJoin | cekkuota_bot.py:29-36 | Entries joined with commas parse back to the same list (round trip). |
| Config.ConfigFromEnv | cekkuota_bot.py:28-37 | Every chat id, number and schedule entry is an entry; the token is stripped; "allow any chat" holds exactly when ALLOW_ANY_CHAT is `"1"`. |
| Config.DefaultSchedulesJoined | cekkuota_bot.py:35 | The default SCHEDULES value is the five default lines joined with commas. |
| Config.DefaultEntriesAreEntries | cekkuota_bot.py:35 | Each default schedule line is an entry. |
| Config.DefaultScheduleList | cekkuota_bot.py:35-36 | When SCHEDULES is unset or empty, the schedule list is exactly the five default lines. |
| Config.IsAllowedChat | cekkuota_bot.py:186-188 | Definition of `is_allowed_chat`; properties in AllowListAdmitsExactly and Daemon.SendersOfBatch. |
| Config.AllowListAdmitsExactly | cekkuota_bot.py:186-188 | Unless any chat is allowed, a chat is allowed exactly when it is one of the configured ids. |
| Messages.MessageText | cekkuota_bot.py:160-238 | Definition of the exact text of each fixed message (menu, pong, schedule, check-all notice, invalid number, usage); every `Send` event carries one of these, so the effect lemmas decide which texts are sent. |
| Messages.Backquoted | cekkuota_bot.py:208 | Each schedule is wrapped in backquotes, and the number and order of schedules are kept. |
| Report.PyStr | cekkuota_bot.py:123-125 | Definition of f-string `str()` of a JSON value: `None`, `True`/`False`, the decimal digits of an integer, a string itself, floats and containers through `Lib`; it fills the error and upstream-status lines of ReportLines, and ErrorMessageVerbatim relies on its string case. |
| Report.Truncate | cekkuota_bot.py:128 | A dump of at most 1500 characters is kept whole; a longer one becomes its first 1500 characters followed by one `…` as the 1501st and last character. |
| Report.ReportLines | cekkuota_bot.py:119-133 | Definition of the `lines` list; properties in ReportShape, JsonBlockBounded and ErrorMessageVerbatim. |
| Report.FmtResult | cekkuota_bot.py:118-134 | The line-by-line construction yields exactly the rendered report. |
| Report.ReportShape | cekkuota_bot.py:118-134 | Every report opens with the header and status lines. An error dict gives the error line plus the upstream status line exactly when `status` is present. Any other dict gives a fenced dump of at most 1501 characters. A non-dict gives the no-payload line. |
| Report.JoinFirstTwo | cekkuota_bot.py:134 | Joining with newlines puts the first two lines in front, followed by the rest. |
| Report.RenderOpensWithHeader | cekkuota_bot.py:119-134 | The rendered text starts with the header line and the status line. |
| Report.ErrorMessageVerbatim | cekkuota_bot.py:122-123 | An upstream `error` string appears verbatim in the report, whatever the status. |
| Report.JsonBlockBounded | cekkuota_bot.py:126-131 | A dict without `error` is shown as the dump itself, or as its first 1500 characters plus an ellipsis. |
| Report.TransportFailureReport | cekkuota_bot.py:118-134 | Status 0 with no body renders exactly as the header, `Status HTTP: 0` and the no-payload line. |
| Upstream.Check | cekkuota_bot.py:143-147 | Definition of `api_check`'s answer and calls; properties in RetryRule, NoRetryWithoutBudget and RetryExhausted. |
| Upstream.ApiCheck | cekkuota_bot.py:136-147 | The answer and the calls appended are those of `Check` on the oracle at the current log position. |
| Upstream.RetryRule | cekkuota_bot.py:143-147 | One call for the number, plus a second exactly when the first got status 0 and RETRIES > 0. No message is sent. The answer is that of the last call. |
| Upstream.NoRetryWithoutBudget | cekkuota_bot.py:144 | With RETRIES <= 0 the first answer is final. |
| Upstream.RetryExhausted | cekkuota_bot.py:143-147 | Two transport failures in a row end in the no-payload report. |
| Cron.Missing | cekkuota_bot.py:150-153 | Definition of the `missing` list; properties in MissingExactly. |
| Cron.MissingExactly | cekkuota_bot.py:150-156 | A setting is listed exactly when it is empty, each at most once, in the order BOT_TOKEN, CHAT_ID, MSISDN_LIST, and only those names are listed. The list is empty exactly when all three are set. |
| Cron.Broadcast | cekkuota_bot.py:157-165 | One message per chat. |
| Cron.SendToAll | cekkuota_bot.py:164-165 | The loop over the chats appends exactly the broadcast. |
| Cron.CronNumber | cekkuota_bot.py:158-166 | One turn of the number loop appends exactly the step: a broadcast of the warning, or the check followed by a broadcast of its report. |
| Cron.CronRun | cekkuota_bot.py:149-166 | It returns the missing settings and appends exactly the cron events. |
| Cron.BroadcastDelivers | cekkuota_bot.py:157-165 | Every chat gets the message, no other chat gets anything, the number of sends equals the number of chats, and nothing is posted. |
| Cron.CronStepEffects | cekkuota_bot.py:157-166 | One number sends one message to each chat: the warning when the number is invalid, otherwise its report. The API is called, once or twice and only with this number, exactly when the number is valid. |
| Cron.CallsThenBroadcast | cekkuota_bot.py:162-165 | The check's calls followed by a broadcast still deliver to every chat, with one send per chat and one or two calls. |
| Cron.DeliveredAfter | cekkuota_bot.py:162-165 | A message delivered by a broadcast is still delivered when calls come before it. |
| Cron.CronEffects | cekkuota_bot.py:149-166 | Nothing happens when a setting is missing. Otherwise messages go only to configured chats, |chats| times |numbers| of them in all, calls go only for configured valid numbers, and the offset is untouched. That each chat gets each number's outcome is CronStepEffects. |
| Dispatcher.CheckNumber | cekkuota_bot.py:219-224 | One turn of the `/cek_all` loop appends exactly that step's events. |
| Dispatcher.CheckAll | cekkuota_bot.py:218-224 | The `/cek_all` loop appends exactly the events of all its steps, in order. |
| Dispatcher.CheckOne | cekkuota_bot.py:227-236 | The `/cek` branch appends exactly `CekSingle`'s events. |
| Dispatcher.HandleCommand | cekkuota_bot.py:190-238 | `handle_command` appends exactly the events of the branch that its stripped, lower-cased text selects. |
| Dispatcher.Classify | cekkuota_bot.py:193-238 | Definition of the prefix chain; properties in ClassifyFirstMatch and ClassifyUnrecognized. |
| Text.LowerChar | cekkuota_bot.py:192 | A character lowers to an ASCII lower-case letter exactly when it is an ASCII letter or KELVIN SIGN, and then it is the same letter (`LetterIndex` is kept, KELVIN SIGN counting as `k`); capitals never survive, and only ASCII capitals and KELVIN SIGN change. |
| Text.LowerCharSameLetter | cekkuota_bot.py:192 | Two characters that are the same letter, in whatever case, lower to the same character. |
| Text.LowerIgnoresCase | cekkuota_bot.py:192 | Two texts that differ only in the case of letters have the same `lower()`. |
| Dispatcher.ClassifyFirstMatch | cekkuota_bot.py:193-227 | A branch is taken exactly when its prefix matches and no earlier prefix does (both directions). |
| Dispatcher.ClassifyUnrecognized | cekkuota_bot.py:238 | The fallback is taken exactly when no prefix matches. |
| Dispatcher.CekAllNeverSingle | cekkuota_bot.py:216-227 | A `/cek_all...` text also starts with `/cek`, but it always takes the `/cek_all` branch. |
| Dispatcher.PingIgnoresCase | cekkuota_bot.py:191-205 | `/PING` is handled as `/ping`. |
| Dispatcher.CekAllIgnoresCase | cekkuota_bot.py:191-216 | `/Cek_All` is handled as `/cek_all`. |
| Dispatcher.ClassifyIgnoresCase | cekkuota_bot.py:192-227 | The command branch chosen for a text does not depend on the case of its letters. |
| Dispatcher.KelvinSignSelectsCek | cekkuota_bot.py:192-227 | `lower()` turns U+212A KELVIN SIGN into `k`, so `/ce` followed by that sign selects the `/cek` branch. |
| Dispatcher.ClassifyByPrefix | cekkuota_bot.py:227-238 | Prefixes are not whole words: `/cekabc` is `/cek`, while `/start` and the empty text are unrecognized. |
| Dispatcher.EmptyTextGetsFallback | cekkuota_bot.py:191-238 | An absent or empty text gets exactly the fallback reply. |
| Dispatcher.CekArgument | cekkuota_bot.py:228-232 | The `.strip()` of the second token is the token itself. For that token, valid is exactly well-formed. |
| Dispatcher.CekValidEvents | cekkuota_bot.py:234-236 | A valid number gives the progress notice, one call (two when the first got no response and a retry is configured), then the report of the last answer. |
| Dispatcher.CekSingleOutcomes | cekkuota_bot.py:227-236 | `/cek` with fewer than two tokens gives only the usage hint. An invalid number gives only the invalid reply. A valid number gives exactly the events of CekValidEvents. |
| Dispatcher.CekTypedNumber | cekkuota_bot.py:228-235 | For a command word, one blank and a well-formed number, `split()` gives the number as the argument: the progress notice comes first and that very number is posted. |
| Dispatcher.OneMessage | cekkuota_bot.py:229-233 | A single reply sends once, posts nothing and touches no offset. |
| Dispatcher.CekValidEffects | cekkuota_bot.py:234-236 | The valid branch of `/cek` sends two messages, only to the sender, and makes one or two calls, only for that number. |
| Dispatcher.CekSingleEffects | cekkuota_bot.py:227-236 | `/cek` replies only to the sender: twice for a valid number, once otherwise. The API is called, at most twice, exactly when the number is valid. |
| Dispatcher.CekAllStepEffects | cekkuota_bot.py:219-224 | Each number of `/cek_all` sends exactly one message to the sender. The API is called exactly when the number is valid. |
| Dispatcher.CekAllRunEffects | cekkuota_bot.py:218-224 | The `/cek_all` loop sends one message per number, only to the sender, and calls the API only for numbers on the list. |
| Dispatcher.CekAllEffects | cekkuota_bot.py:216-225 | `/cek_all` sends the notice first, then one message per configured number (1 + n sends in all), only to the sender, and calls the API only for configured numbers. |
| Dispatcher.RespondEffects | cekkuota_bot.py:193-238 | Every branch replies only to the sender, posts only valid numbers and touches no offset. `/cek_all` sends the notice first, then 1 + n messages in all, and calls the API only for configured numbers. `/menu`, `/ping`, `/jadwal` and the fallback are one message and nothing else. |
| Dispatcher.HandleEffects | cekkuota_bot.py:190-238 | Whatever the text, `handle_command` replies only to `str(chat_id)`, posts only valid numbers and never touches the offset. The `/cek_all` and single-reply facts of RespondEffects hold for the branch its text selects. |
| Daemon.MessageOrEdited | cekkuota_bot.py:256-257 | `message or edited_message`: with a falsy message the update is handled exactly as one carrying only its edited message; with a truthy message the edited message has no effect; with neither truthy nothing happens. |
| Daemon.DispatchOne | cekkuota_bot.py:256-264 | One update appends exactly its step: nothing when it is skipped, otherwise `handle_command`. |
| Daemon.DispatchUpdates | cekkuota_bot.py:253-264 | The loop over a batch ends with the cursor at the running maximum and appends every update's events, in order. |
| Daemon.PollRound | cekkuota_bot.py:247-265 | One round appends the request for `offset + 1`. When the answer is usable it then appends the batch's events and the save of the new cursor. |
| Daemon.DaemonRun | cekkuota_bot.py:240-265 | Without a token, nothing happens. Otherwise the rounds run in order, each starting from the cursor left by the previous one, beginning at `load_offset()`. |
| Daemon.Accepted | cekkuota_bot.py:256-263 | Definition of the skip tests of the update loop; properties in DispatchStepEffects and MessageOrEdited. |
| Daemon.Cursor | cekkuota_bot.py:254-255 | Definition of the running `max`; properties in CursorIsMax and CursorIgnoresSeen. |
| Daemon.CursorFrom | cekkuota_bot.py:254-255 | From update `i` on, the cursor is the running maximum carried to `i`. |
| Daemon.CursorIsMax | cekkuota_bot.py:254-255 | The new cursor is at least the old one and every update id, skipped updates included. It equals the old cursor or one of the ids. |
| Daemon.CursorIgnoresSeen | cekkuota_bot.py:254-255 | A batch of already-seen ids leaves the cursor unchanged. |
| Daemon.DispatchStepEffects | cekkuota_bot.py:256-264 | An update is handled exactly when its payload is truthy, has a chat id and the chat is allowed. A handled update replies at least once, only to that chat. A skipped one does nothing. |
| Daemon.HandleNonEmpty | cekkuota_bot.py:190-238 | `handle_command` always replies, and its first event is a message to the sender. |
| Daemon.EmptyTextAnswered | cekkuota_bot.py:256-264 | An accepted update with no text or an empty text gets the fallback reply. |
| Daemon.SendersOfBatch | cekkuota_bot.py:259-264 | Every accepted update's chat is among the batch's senders. Unless any chat is allowed, every sender is a configured chat. |
| Daemon.BatchEffects | cekkuota_bot.py:253-264 | A batch replies only to its accepted chats, posts only valid numbers and touches no offset. |
| Daemon.OffsetsAppend | cekkuota_bot.py:247-265 | The offset discipline holds of two stretches exactly when it holds of each, carried from one to the next. |
| Daemon.UntouchedKeepsOffset | cekkuota_bot.py:253-264 | A stretch that neither polls nor saves keeps the cursor. |
| Daemon.RoundEffects | cekkuota_bot.py:247-265 | A round requests `offset + 1` first. An unusable answer leaves the cursor and sends nothing. A usable one saves, last, the maximum of the batch. Replies go only to accepted (configured, unless any chat is allowed) chats, and only valid numbers are posted. |
| Daemon.RoundShape | cekkuota_bot.py:247-265 | Request, batch, save: the offset discipline holds and the cursor ends at the saved value. |
| Daemon.PollAndSaveAreSilent | cekkuota_bot.py:247-265 | Requests and saves send nothing and post nothing. |
| Daemon.DaemonEffects | cekkuota_bot.py:240-269 | Over any sequence of rounds: nothing happens without a token, each request asks for one past the last saved cursor, saved cursors never go down, only valid numbers are posted, and outside "allow any" only configured chats are answered. |
| Daemon.RoundsKeep | cekkuota_bot.py:245-265 | Rounds that each keep the guarantees keep them together. |
| Daemon.RoundsCombine | cekkuota_bot.py:245-265 | One round's guarantees combined with those of the later rounds give the guarantees of all of them. |

## Left out

- HTTP and Telegram transport (`http_post_json`, `http_get_json`, `tg_send_text`, URL encoding, headers, the API URL and key) is not modelled. Each call is an event, and the answers are parameters.
- `tg_send_text`'s own empty-token guard and its swallowed errors are not modelled: a `Send` event means the call was made.
- The offset file is not modelled. `load_offset` is the `stored` parameter and `save_offset` is an event. STATE_DIR and its creation are left out because they are file-system effects.
- Sleeps, REQUEST_TIMEOUT and the `timeout=50` of `getUpdates` are left out because they affect only time.
- The daemon's endless `while True` is left out: the model runs as many rounds as there are answers.
- Exceptions are left out. The model does not capture any of these:
  - a `KeyboardInterrupt` ending the loop;
  - an `update_id` that is null or that `int()` cannot convert (such as a non-numeric string), or a chat object that is not a dict, which makes the round abort without saving;
  - a truthy `message` that is not a dict.
- Chat ids and update ids are integers in the model. An update id that `int()` converts without raising, such as `"5"` or `5.9`, is not represented; neither is a chat id that is not an integer. `str(chat_id)` is decimal.
- The model does not check that the Telegram answer corresponds to the requested offset. Each round's answer is given.
- `print` output is left out. `Cron.CronRun` returns the missing list instead of printing it. The daemon's missing-token message is not modelled.
- `json.dumps(indent=2, ensure_ascii=False)`, `str` of a float and `str` of a list or dict are the parameters of `Lib`, because the model does not reproduce Python's formatting of them. A JSON float is `Json.JFloat` with a `real` value; infinities and NaN are not represented. A JSON object is `Json.JObj` over a `map`, so the key order and duplicate keys of a decoded object are not kept, and `dumps` sees the object without them.
- `int()` of RETRIES and REQUEST_TIMEOUT is left out. `Environment.retries` is taken as the parsed integer, and a malformed value, which raises at start-up, is not modelled.
- Text.Lower: maps the ASCII capitals and U+212A KELVIN SIGN (to `k`) and keeps every other character. Python's other lower-case mappings are left out; each gives a character that is not an ASCII letter, except U+0130, which gives `i` followed by U+0307. No command prefix ends in `i` or holds U+0307, so which branch is taken is the same, but the lower-cased text itself is not.
- `main` and the `--cron` argument test are left out because they only select which of the two modelled entry points runs.

# Telegram bulk sender: the delivery core in Dafny

This project models the delivery core of a desktop bulk-messaging tool
(`python.py`). The tool sends one of a set of configured messages to every
user it can reach through a Telegram account, and paces itself so as not to
trip the platform's flood limits. The model covers:

- **TelegramConfig** (`config.dfy`): the settings record with all of its
  fields.
- **Pacing** (`rate_model.dfy`):
  - `calculate_delay`, the pause after a successful send. This is either a
    draw from the anti-flood tier for the current send count or a draw
    between the configured minimum and maximum.
  - The 300-second clamp on a FloodWait cooldown.
  - `random.uniform` as CPython computes it, `a + (b - a) * random()`, with
    the draw passed in.
- **Target collection** (`targets.dfy`): `collect_targets`, written as a
  method with a loop, as the source builds its list. It is proved against a
  specification function and lemmas about that function.
- **Delivery** (`delivery.dfy`): the class `TelegramSender` with its counters,
  its stop flag and a journal of the log lines it hands to the UI.
  - `send_to_target` retries after a FloodWait by recursion, as the source
    does.
  - `run_mailing` runs the loop over the targets, with its stop and
    message-limit checks.
  - `get_stats` and the stop button complete the class.
  - The platform is an oracle: for each attempt, a `Script` gives the FloodWait
    cooldowns signalled before the final reply, the reply itself, the message
    index `random.choice` picks and the draw behind the delay.
  - The stop request from the UI thread is the index `stopAt` at which the
    loop first sees the flag cleared.
- **Message list** (`settings_text.dfy`): how the settings form turns the
  text box into the message list. The text is stripped, split on line breaks,
  each line is stripped, and blank lines are dropped. `str.isspace` is used
  with Python 3's exact whitespace set.
- **Account list** (`sessions.dfy`): the session-file filter of the main
  window's account list. It has a finding, described below.

Behaviour of the code worth noting, all of it modelled:

- **Collection errors.** One `try` block covers both listings. A failing
  contact list ends the collection before the dialogs are fetched, so the
  target list is empty. A failing dialog list leaves the contact users.
- **Duplicates.** Only dialog users are checked before they are appended. The
  check is Python `in`, which compares whole entities. Contacts are taken as
  listed.
- **Users only.** The filter is `isinstance(entity, User)`, so bot accounts
  are users too.
- **Empty message list.** `random.choice` raises `IndexError`, and the generic
  handler of `send_to_target` counts it as an error, once for every target.
- **Stop checks.** The stop flag is read only at the top of the loop. A pause
  that has started runs to its end.
- **Delay tier.** The tier is chosen by the send count after it was raised
  for the current send.

## Model

| member | source | states |
|---|---|---|
| RateModel.Uniform | python.py:259-268 | `random.uniform(a, b)` lies between the two end points, whichever is smaller, and strictly below the upper one when a < b |
| RateModel.CalculateDelay | python.py:256-268 | the delay lies in [1,3), [3,7), [7,15) or [15,30) for send counts below 10, below 30, below 50 and from 50 on when anti-flood is on; otherwise it lies between min_delay and max_delay, in either order |
| RateModel.AntiFloodTier | python.py:258-265 | each anti-flood range is a proper interval between 1 and 30 seconds |
| RateModel.TierBoundsMonotone | python.py:258-265 | neither end point of the anti-flood range falls as the send count grows |
| RateModel.ForcedWait | python.py:244-246 | the cooldown slept is min(seconds, 300): never more than asked, never more than 300, and one of the two |
| Targets.Users | python.py:197 | the contacts kept are exactly the users of the contact list, each with its multiplicity, in list order |
| Targets.AddDialogPeers | python.py:200-205 | the dialog loop only appends to the list it is given, and appends nothing when messaging users is off |
| Targets.Collect | python.py:190-214 | every collected target is a user entity |
| Targets.CollectTargets | python.py:190-214 | the method builds exactly the list the collection function describes, including both failure paths of the single try block |
| Targets.AddDialogUsers | python.py:200-205 | the dialog loop appends to the list as the dialog-loop function describes |
| Targets.DialogPeersShape | python.py:200-205 | the dialog loop keeps what it was given as a prefix; it appends only users of the dialogs not already present, in the order of their first occurrence; it misses none when messaging users is on and adds nothing when it is off |
| Targets.DialogAdded | python.py:200-205 | every appended entity is a user from the dialogs that was not earlier in the list |
| Targets.DialogFirstOrder | python.py:200-205 | the appended entities come in the order of their first occurrence in the dialogs, so a repeated dialog entity is added where it first appears |
| Targets.DialogOrder | python.py:200-205 | the appended entities are a subsequence of the dialog list |
| Targets.DialogComplete | python.py:200-205 | with messaging users on, every user of the dialogs ends up in the list |
| Targets.CollectShape | python.py:190-214 | the result is the contact users first (when contacts are enabled), then the new dialog users in the order of their first occurrence; it is empty when the contact list fails, and it is only the contact part when the dialog list fails |
| Targets.CollectDistinct | python.py:190-214 | the target list has no duplicates whenever the contact users have none |
| Delivery.Verdict | python.py:226-254 | an attempt ends in Sent exactly on success with a non-empty message list, in Skipped exactly on a privacy or mutual-contact refusal, and in Failed otherwise, including an empty list; a sent message is one of the configured ones |
| Delivery.Attempt | python.py:216-254 | every attempt journals at least two entries, the first being the try of that target as the `current`-th of `total`; where the verdict stands is proved in AttemptTrace |
| Delivery.RetriesAt | python.py:223-247 | each FloodWait of a target is journalled as a try of that same target followed by a sleep of min(seconds, 300) |
| Delivery.AttemptTally | python.py:235-254 | one attempt raises exactly one counter by one: sent on success, skipped on a refusal, errors otherwise; FloodWait retries change no counter |
| Delivery.AttemptTrace | python.py:216-254 | one attempt's journal is its FloodWait tries with their clamped sleeps, then the final try and its verdict, then a pause drawn for the new send count, present exactly when the send succeeded and the target was not the last |
| Delivery.AttemptOutcome | python.py:216-254 | one attempt reports exactly one verdict, for its own target |
| Delivery.AttemptSentFrom | python.py:226-235 | every message an attempt reports as sent is one of the configured messages |
| Delivery.Deliver | python.py:172-182 | the loop stops at an index within the target list, and it has gone through every target exactly when neither the stop flag nor the limit ended it |
| Delivery.DeliverProgress | python.py:172-182 | the loop attempts a contiguous run of targets and raises one counter per attempted target; it attempts nothing at or after the stop index and ends for the reason it reports (all done, stopped, or limit reached with sent ≥ limit, the limit line then being the last journal entry) |
| Delivery.DeliverOrder | python.py:172-182 | the journal reports one verdict per attempted target, in target order |
| Delivery.DeliverWithinLimit | python.py:176-178 | with a positive limit, the send counter never goes past it |
| Delivery.DeliverSentFrom | python.py:172-182 | every message the loop reports as sent is one of the configured messages |
| Delivery.DeliverCountsOutcomes | python.py:172-182 | without a stop and without a limit, every target is attempted, and the counters grow by exactly the number of successes, errors and refusals the platform answered with |
| Delivery.DeliverReachesLimit | python.py:176-178 | with a positive limit N, enough targets, no stop and every send succeeding, the loop ends after exactly N sends |
| Delivery.TelegramSender.constructor | python.py:113-121 | a new sender is not running, has zero counters and no start time |
| Delivery.TelegramSender.SendToTarget | python.py:216-254 | the counters and the journal are updated exactly as the attempt function describes; with an empty message list the generic handler counts the IndexError; the flag and the start time are untouched |
| Delivery.TelegramSender.RunMailing | python.py:161-188 | a failed setup returns false and changes nothing; otherwise the run records the start time, journals the target count, then the loop's entries, then the disconnect, and ends with the loop's counters; the flag stays set unless a stop ended the run |
| Delivery.TelegramSender.DeliverAll | python.py:172-182 | the loop updates the counters and the journal exactly as the loop function describes from target 0 |
| Delivery.TelegramSender.Round | python.py:172-182 | one pass of the loop body: a stop, a limit stop, or one attempt, in step with the loop function |
| Delivery.TelegramSender.Stop | python.py:1171 | the stop button clears the flag the loop polls and changes nothing else |
| Delivery.TelegramSender.GetStats | python.py:275-287 | the stats report the three counters, and the time since the start, or 0 before any run |
| SettingsText.TrimStart | python.py:979 | the result is the suffix left after dropping leading whitespace, and it starts with a non-space |
| SettingsText.TrimEnd | python.py:979 | the result is the prefix left after dropping trailing whitespace, and it ends with a non-space |
| SettingsText.Strip | python.py:979-980 | `str.strip()` leaves no whitespace at either end, keeps a stripped string whole, and adds no characters |
| SettingsText.StripBlank | python.py:980 | a line strips to nothing exactly when it is all whitespace |
| SettingsText.StripInfix | python.py:979-980 | strip removes only whitespace, from around one contiguous piece of the text |
| SettingsText.Split | python.py:980 | `str.split('\n')` gives at least one piece, no piece contains the separator, and joining the pieces gives the text back |
| SettingsText.JoinSplit | python.py:980 | splitting a join of separator-free pieces gives the pieces back |
| SettingsText.NonBlank | python.py:980 | every message the comprehension keeps is non-empty and stripped |
| SettingsText.NonBlankLines | python.py:980 | the comprehension keeps the stripped text of every non-blank line, and no kept message spans a line break |
| SettingsText.NonBlankOrder | python.py:980 | the messages kept are a subsequence of the stripped lines, and each non-empty stripped line is kept as many times as it occurs, so only blank lines are left out |
| SettingsText.ParseMessages | python.py:979-980 | every message in the list is non-empty, has no whitespace at either end and spans a single line |
| SettingsText.ParseMessagesShape | python.py:979-980 | the parsed messages are a subsequence of the stripped lines in line order, every non-blank line contributes its stripped text, and each non-empty stripped line appears as many times as lines carry it |
| SettingsText.ParseJoin | python.py:979-980 | a list of non-empty, stripped, single-line messages typed one per line parses back to the same list |
| SettingsText.NonBlankKeeps | python.py:980 | lines that are already non-empty and stripped are kept unchanged |
| SettingsText.ParseIdempotent | python.py:979-980 | parsing the saved list again, one message per line, gives the same list |
| Sessions.ReplaceAll | python.py:431 | replacing with the empty string never lengthens, and a string without the pattern comes back unchanged |
| Sessions.SessionNamesAsWritten | python.py:429-432 | the code as written lists at most one name per file |
| Sessions.SessionName | python.py:431 | the account name is what follows the prefix: the prefix plus the name gives the file name back |
| Sessions.SessionNames | python.py:429-432 | the corrected listing gives at most one name per file |
| Sessions.AsWrittenMangles | python.py:429-432 | the file `session_session_1` is listed as `1` by the code as written, and as `session_1` by the corrected listing |
| Sessions.SessionNameRoundTrip | python.py:429-432 | a session saved under any name, except one whose file would end in `.json`, is listed under that very name |
| Sessions.SessionNamesFrom | python.py:429-432 | every listed name belongs to a session file of the directory, and every session file is listed |

## Findings

| source | as written | input that shows it | evidently intended | confidence | as-written member | corrected member |
|---|---|---|---|---|---|---|
| python.py:431 | `file.replace("session_", "")` removes every occurrence of the prefix, anywhere in the file name | an account saved as `session_1`, whose file is `session_session_1`, is listed as `1` | remove the prefix only at the front, so the account is listed as `session_1` | medium; not executed | Sessions.SessionNamesAsWritten (shown by Sessions.AsWrittenMangles) | Sessions.SessionNames (proved by Sessions.SessionNameRoundTrip and Sessions.SessionNamesFrom) |

## Left out

- The Tkinter UI, the threads and the asyncio event loop are not modelled.
  - The UI thread's stop request becomes the index `stopAt` at which the loop sees the flag cleared.
  - A stop can therefore only land between targets, which is also the only place the loop checks it.
  - `run_mailing` sets `is_running` to true only after `setup_client` returns (python.py:165), so a stop pressed while the client is being authorised is overwritten and lost. In the model that is a `stopAt` past the last target.
- The Telethon client is an oracle.
  - `setup_client` (python.py:126-148) is the `setupOk` input of `RunMailing`. Its authorization log lines are not journalled.
  - `get_contacts` and `get_dialogs` are `Fetch` values.
  - Each `send_message` reply is a `Script`.
  - The entity classes are reduced to the three `Peer` kinds. Each kind keeps the fields the core reads by name, plus a `more` list that stands for all the other attributes. Entity equality, which `entity not in targets` uses, compares all of them.
- The two count lines of `collect_targets` and its warning line are not journalled; the journal starts with the target count of `run_mailing`.
- The display name (first name, or `ID<id>`, with `@username`) and the text of each log line are not modelled. Each journal event carries the target entity, the message sent, the FloodWait seconds, the delay or the error type name instead.
- The `except Exception` of `run_mailing` (python.py:184-186) is not modelled. Every exception the platform raises in `send_to_target` is caught there and counted.
- Python's recursion limit is not modelled.
  - The FloodWait retry (python.py:248) calls `send_to_target` again from inside its handler, so every FloodWait of one target adds a frame.
  - Around a thousand FloodWaits in a row raise `RecursionError`. Depending on where it fires, that target is counted as an error, or the run ends through `run_mailing`'s `except` and returns false.
  - The model retries through any finite sequence of FloodWaits.
- `random` is an input.
  - Each attempt's `Script` carries one index for `random.choice` and one draw for `random.uniform`.
  - The index is read modulo the list length.
  - Only the choice of the final try of a FloodWait sequence is observable, because only that message is sent.
- Floating point is modelled as reals.
  - Over floats, `random.uniform(a, b)` can return `b` itself: `a + (b - a) * random()` may round up to `b`, for instance `uniform(1.0, 3.0)` when `random()` is `1 - 2**-53`. The strict upper bounds of `RateModel.Uniform` and `RateModel.CalculateDelay` hold over reals only.
  - `min_delay` and `max_delay` are the integers the settings form parses.
  - The clock is an integer `now` passed to `RunMailing` and `GetStats`; `total_seconds` is therefore whole seconds.
- `asyncio.sleep` is recorded as `FloodSleep` and `Pause` journal entries; no time passes in the model.
- The defaults of `TelegramConfig()`, including the built-in message, are not modelled. Neither is `load_config` / `save_config` (python.py:86-111), which read and write a JSON file by attribute name.
- The fields `message_to_groups`, `message_to_channels`, `message_to_comments`, the action-timeout fields, `simulate_actions` and the group-joining flags are kept in the record; nothing in the core reads them.
- The rest of `save_settings` is not modelled: parsing the integer fields with `int()` and deriving the session file name.
- `load_sessions` reads the directory with `os.listdir` and creates it when missing. The model takes the listing as a sequence of names in the order given.
- The model does not add the `.session` suffix the client library appends to a session file name. With it, the file of an account saved as `session_1` is `session_session_1.session`. The listing is then `1.session` as written and `session_1.session` corrected; the finding stands either way.
- `str.isspace` uses the fixed set of whitespace code points of Python 3. Strings are sequences of code points, with no normalisation.

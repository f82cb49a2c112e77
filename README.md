# warbot — a Dafny model of the game core

warbot runs a "battle royale" among a list of fighters. Every so often two
alive fighters are drawn at random and one defeats the other. The draw
favours fighters who have already killed. The result is queued for
announcement. One authorized administrator runs the game over Telegram with
commands such as `/addfighter`, `/forcebattle` and `/schedulebattle`.

This project models four source files:

- the persistent store `WarBotDB` (`warbot/lib/database.py`): a fighters
  table, a candidates table, and a `vars` table of named settings and
  queues;
- the game controller `WarBot` (`warbot/lib/warbot.py`): the weighted draw,
  duels, roster operations and the next-battle parser;
- the Telegram client `TelegramInterface` (`warbot/lib/telegram.py`):
  update decoding, keyboards, the outgoing queue and one round of the
  polling loop;
- the administrator front end `WarBotAdmin` (`warbot/lib/admin.py`): the
  routing of commands, every `handle_*` command and the button-prompt
  state machine.

Objects that the source updates in place are Dafny classes with `modifies`
frames:

- `Database.WarBotDB`, whose TinyDB file becomes three fields;
- `Warbot.WarBot`;
- `Telegram.TelegramInterface`, where a sent message is appended to
  `outbox`;
- `Admin.WarBotAdmin`.

Loops of the source are `while` loops with invariants. Examples are the
weight loop of `get_random_users`, `get_last_update_id`, `handle_updates`,
the queue drain, the paginated listings and the multi-name commands. Pure
logic is in functions with lemmas:

- name handling (`Text`);
- the date language (`Schedule`, over `Calendar`);
- table updates (`Roster`);
- command routing and pagination (`Commands`);
- the per-name effect of multi-name commands (`Handlers`).

Each handler method is proved to act as these functions say. What one
command, one message and one batch of messages do to the front end is
stated on values in `Dispatch`. The world there is the store's three tables,
`ask_status` and the messages sent. `Performs` gives the effect of one
command, `Processed` the effect of one message, and `Run` a batch, world by
world. The dispatch methods of `WarBotAdmin` are proved to act as these
predicates say.

Modules, by file:

| file | module | contents |
|---|---|---|
| `wrappers.dfy` | Wrappers | Option |
| `calendar.dfy` | Calendar | dates |
| `text.dfy` | Text | `split`, `join`, `int()`, `replace` |
| `schedule.dfy` | Schedule | `set_next_battle` parsing |
| `roster.dfy` | Roster | table rows and updates, weights |
| `database.dfy` | Database | the store |
| `warbot.dfy` | Warbot | the controller |
| `outbound.dfy` | Outbound | reply values |
| `telegram.dfy` | Telegram | the client |
| `commands.dfy` | Commands | routing, argument checks, pages |
| `handlers.dfy` | Handlers | command effects as functions |
| `dispatch.dfy` | Dispatch | replies and command effects on values |
| `admin.dfy` | Admin | the front end |
| `calls.dfy` | Calls | method names across layers |

## How the model reads the source

- **Mixed method names.** The three layers use two vocabularies, "user" and
  "fighter". `WarBot` calls `self.db.get_users`, `insert_user_kill` and
  others that `WarBotDB` does not define. `WarBotAdmin` calls
  `self.bot.add_fighter`, `get_fighters` and others that `WarBot` does not
  define. The model binds every call to the method with the same role
  (module `Calls`, and the Findings below). The constructors disagree as
  well. `WarBotAdmin.__init__` passes four arguments to `WarBot(...)`
  (admin.py:125-126): the database route and filename, and the phrases
  route and filename. `WarBot.__init__` takes only the first two
  (warbot.py:101), so building the front end raises TypeError. The model
  builds the controller from the store alone.
- **The frequency is stored as text.** `/setbattlefrequency` stores its two
  argument texts, not the integers it checked (admin.py:485). A frequency
  cell is therefore `Amount.Number` (the `setup_vars` default) or
  `Amount.Text`.
- **`add_candidate` does not check the fighters table.** A fighter can
  therefore also be a candidate. The model keeps this behaviour
  (`Handlers.AddCandidatesResult` states that fighters are not consulted).
- **`/revive` sends one reply.** The reply text is overwritten for each
  name, so only the outcome of the last name is sent (admin.py:895-897).
- **A batch is all or nothing.** When one update of a batch has no message
  text, `TelegramInterface.handle_updates` raises KeyError and the batch is
  dropped. The offset has already moved past it (telegram.py:101-104).
- **Parameters stand for outside inputs.**
  - `now` is the clock reading that `set_next_battle` takes from
    `datetime.now()`.
  - `removable` is the outcome of `os.remove` in `restart`.
  - One `now` and one `removable` serve a whole batch of updates.
- **The random draw is a free choice.** The weighted draw of
  `np.random.choice` becomes a choice of two different alive fighters. The
  weights and their normalisation are modelled and proved to form a
  probability distribution.
- **Replies carry facts, not wording.** A reply is a `Reply` value that
  carries the facts its text reports. The wording and the Markdown are not
  modelled.

## Model

| member | source | states |
|---|---|---|
| Calendar.DaysInMonth | warbot/lib/warbot.py:288-291 | month length 28..31; 29 exactly for February of a leap year, 30 exactly for April, June, September, November |
| Calendar.NextDay | warbot/lib/warbot.py:288 | `now + timedelta(days=1)` is a valid date, same time of day, on a later day |
| Calendar.NextDayIsSuccessor | warbot/lib/warbot.py:288 | no valid day lies strictly between a day and the next one |
| Calendar.WithTime | warbot/lib/warbot.py:297 | `replace(hour, minute)` keeps the day and sets exactly that time |
| Text.WordLength | warbot/lib/admin.py:175 | the run of non-space characters at the start, ended by a space or the end |
| Text.SplitWords | warbot/lib/admin.py:175 | `split()` yields only non-empty words without whitespace |
| Text.WordLengthOfWordThenSpace | warbot/lib/admin.py:175 | the first word of a word followed by a space or the end is that word |
| Text.SplitJoin | warbot/lib/admin.py:412 | splitting words joined by single spaces gives the words back |
| Text.RemoveAll | warbot/lib/admin.py:717 | `replace("!", "")` leaves no `!`, never lengthens, and is the identity on text without `!` |
| Text.DigitRun | warbot/lib/admin.py:482-483 | the maximal leading run of ASCII digits |
| Text.DigitChar | warbot/lib/database.py:296-303 | the digit character of a value below ten reads back as that value |
| Text.Pow10 | warbot/lib/database.py:296-303 | powers of ten are positive |
| Text.DigitRunOfDigitsThen | warbot/lib/admin.py:482-483 | the digit run of digits followed by a non-digit or the end is exactly those digits |
| Text.Pad | warbot/lib/database.py:296-303 | a zero-padded numeral of exactly the width, all digits |
| Text.PadValue | warbot/lib/database.py:296-303 | a padded numeral reads back as its number when it fits the width |
| Text.ParseInt | warbot/lib/admin.py:482-483 | `int(s)` succeeds only on non-empty text |
| Text.ParseIntOfPad | warbot/lib/admin.py:482-483 | `int` of a padded numeral is that number |
| Schedule.Field | warbot/lib/warbot.py:268 | a parsed field consumes input, so parsing terminates |
| Schedule.FieldOfPad | warbot/lib/warbot.py:268 | a padded numeral followed by its separator is read as that number, leaving the rest |
| Schedule.FieldOfPadAtEnd | warbot/lib/warbot.py:268 | a padded numeral at the end of the text is read as that number |
| Schedule.ParseAbsolute | warbot/lib/warbot.py:267-271 | `strptime('%d/%m/%Y %H:%M')` yields only valid dates |
| Schedule.ParseClock | warbot/lib/warbot.py:276-280 | `strptime('%H:%M')` yields hour < 24 and minute < 60 |
| Schedule.ParseFormatAbsolute | warbot/lib/warbot.py:267-271 | every valid date written as `dd/mm/yyyy HH:MM` parses back to itself |
| Schedule.ParseFormatClock | warbot/lib/warbot.py:276-280 | every `HH:MM` parses back to its hour and minute |
| Schedule.ClockIsNotAbsolute | warbot/lib/warbot.py:266-280 | a bare `HH:MM` fails the first parse and reaches the second |
| Schedule.Rollover | warbot/lib/warbot.py:284-297 | a valid instant with the requested time, today or tomorrow |
| Schedule.RolloverNotPast | warbot/lib/warbot.py:284-295 | the rolled-over time is never before now |
| Schedule.RolloverIsEarliest | warbot/lib/warbot.py:284-297 | it is the earliest instant at or after now with that clock time |
| Schedule.NextBattleFor | warbot/lib/warbot.py:264-301 | absolute form first, then bare hour with rollover; None exactly when both parses fail |
| Schedule.BareHourExamples | warbot/lib/warbot.py:284-297 | `09:00` at 10:00 is tomorrow, at 08:00 today |
| Roster.Count | warbot/lib/database.py:190-191 | occurrence count, at most the length, zero for an absent element |
| Roster.CountAppend | warbot/lib/database.py:190-191 | appending adds one occurrence exactly for the appended element |
| Roster.CountDistinct | warbot/lib/database.py:190-191 | an element of a repeat-free list occurs once |
| Roster.Usernames | warbot/lib/warbot.py:184-188 | `get_users`: one name per row, in order |
| Roster.AliveUsers | warbot/lib/warbot.py:190-193 | never more alive names than rows |
| Roster.DeadUsers | warbot/lib/warbot.py:195-198 | never more dead names than rows |
| Roster.AliveUsersMembership | warbot/lib/warbot.py:190-193 | listed as alive iff some alive row has the name |
| Roster.DeadUsersMembership | warbot/lib/warbot.py:195-198 | listed as dead iff some dead row has the name |
| Roster.AliveDeadPartition | warbot/lib/warbot.py:190-198 | alive and dead listings together have one entry per row |
| Roster.InsertFighter | warbot/lib/database.py:159-167 | a new row `(u, alive, [], show)` unless the name is taken; keeps well-formedness; the name is then present |
| Roster.InsertKill | warbot/lib/database.py:184-195 | the victim is appended once to the killer's list, all else unchanged |
| Roster.SetAlive | warbot/lib/database.py:198-204 | only the alive flag of the named rows changes |
| Roster.SetShow | warbot/lib/database.py:207-213 | only the show flag of the named rows changes |
| Roster.RemoveFighter | warbot/lib/database.py:216-218 | exactly the rows not named `u` remain |
| Roster.RemoveName | warbot/lib/database.py:221-223 | exactly the other candidates remain |
| Roster.InsertName | warbot/lib/database.py:173-181 | appended unless present; keeps the list repeat-free |
| Roster.RemoveNameDistinct | warbot/lib/database.py:221-223 | removal keeps the candidates repeat-free |
| Roster.RemoveFighterWellFormed | warbot/lib/database.py:216-218 | removal keeps names unique and kill lists repeat-free |
| Roster.InsertKillWellFormed | warbot/lib/database.py:184-195 | recording a kill keeps the table well-formed |
| Roster.InsertKillIdempotent | warbot/lib/database.py:191-192 | recording the same kill twice equals once |
| Roster.InsertKillOnce | warbot/lib/database.py:191-192 | after a kill the victim occurs exactly once in the list |
| Roster.NewFighter | warbot/lib/database.py:165 | the row `insert_fighter` writes: the given name and alive flag, no kills, shown; InsertFighter appends exactly this row |
| Roster.Weight | warbot/lib/warbot.py:144 | `1 + len(killed) * KILLFACTOR` with KILLFACTOR 0.5, as an exact real; its bounds are WeightAtLeastOne and WeightStrictlyIncreasing |
| Roster.WeightAtLeastOne | warbot/lib/warbot.py:144 | every weight is at least 1 |
| Roster.WeightStrictlyIncreasing | warbot/lib/warbot.py:144 | more kills, strictly larger weight |
| Roster.AliveWeights | warbot/lib/warbot.py:141-145 | one weight per alive fighter, each at least 1 |
| Roster.SumAtLeastLength | warbot/lib/warbot.py:148 | a sum of weights is at least their number |
| Roster.Normalize | warbot/lib/warbot.py:148 | one probability per weight |
| Roster.SumScaled | warbot/lib/warbot.py:148 | dividing every weight by a positive total divides the sum by it |
| Roster.DivideBounds | warbot/lib/warbot.py:148 | a weight of at least one over a total no smaller lies in (0, 1] |
| Roster.NormalizeIsDistribution | warbot/lib/warbot.py:148 | the normalised weights lie in (0, 1] and sum to 1 |
| Roster.AliveWeightsNormalize | warbot/lib/warbot.py:147-148 | with an alive fighter the normalisation is defined and sums to 1 |
| Roster.SumAtLeastTerm | warbot/lib/warbot.py:148 | each weight is at most the total |
| Database.DefaultVars | warbot/lib/database.py:234-266 | the fifteen values `setup_vars` inserts, among them the date 19/12/2000 00:00, a 6 h 0 m frequency and empty queues; DefaultVarsValid proves them a valid table |
| Database.SetupVarsOf | warbot/lib/database.py:234-266 | each variable keeps its stored value when present and takes its default otherwise; SetupVarsFills and SetupVarsIdempotent state what that means |
| Database.DateOf | warbot/lib/database.py:287-293 | the date read from the five next-battle fields, as `get_next_battle` builds it |
| Database.StoreDate | warbot/lib/database.py:296-303 | the five next-battle fields written from a date, everything else kept; StoreDateRoundTrip and StoreDateOnlyDate are its partners |
| Database.SetupVarsFills | warbot/lib/database.py:234-266 | afterwards every variable exists, existing values are kept, missing ones take the defaults |
| Database.SetupVarsIdempotent | warbot/lib/database.py:234-266 | a second `setup_vars` changes nothing |
| Database.SetupVarsOfEmpty | warbot/lib/database.py:234-266 | on a new file the table is exactly the defaults |
| Database.StoreDateRoundTrip | warbot/lib/database.py:287-303 | `update_next_battle` then `get_next_battle` gives the date back |
| Database.StoreDateOnlyDate | warbot/lib/database.py:296-303 | storing a date touches only the five date variables |
| Database.DefaultVarsValid | warbot/lib/database.py:238-249 | the defaults are valid; the default date is 19/12/2000 00:00 |
| Database.WarBotDB.constructor | warbot/lib/database.py:141-156 | opens the tables and runs `setup_vars` |
| Database.WarBotDB.SetupVars | warbot/lib/database.py:234-266 | the vars table becomes `SetupVarsOf(old)`; the roster is untouched |
| Database.WarBotDB.InsertFighter | warbot/lib/database.py:159-170 | `Roster.InsertFighter` on fighters, and the name leaves the candidates |
| Database.WarBotDB.InsertCandidate | warbot/lib/database.py:173-181 | `InsertName` on candidates, nothing else |
| Database.WarBotDB.InsertFighterKill | warbot/lib/database.py:184-195 | `InsertKill` on fighters, nothing else |
| Database.WarBotDB.ChangeFighterAlive | warbot/lib/database.py:198-204 | `SetAlive`, nothing else |
| Database.WarBotDB.ChangeFighterShow | warbot/lib/database.py:207-213 | `SetShow`, nothing else |
| Database.WarBotDB.DeleteFighter | warbot/lib/database.py:216-218 | `RemoveFighter`, nothing else |
| Database.WarBotDB.DeleteCandidate | warbot/lib/database.py:221-223 | `RemoveName`, nothing else |
| Database.WarBotDB.GetNextBattle | warbot/lib/database.py:287-293 | the stored date is always a valid `datetime` |
| Database.WarBotDB.UpdateLastSeen | warbot/lib/database.py:269-275 | sets `last_seen_id` only; the getter reads it back |
| Database.WarBotDB.UpdateOptinRunning | warbot/lib/database.py:278-284 | sets `optin_running` only; the getter reads it back |
| Database.WarBotDB.UpdateNextBattle | warbot/lib/database.py:296-303 | stores the five fields; the getter gives the date back |
| Database.WarBotDB.UpdateBattleFrequency | warbot/lib/database.py:305-313 | stores both cells as given; the getter reads them back |
| Database.WarBotDB.UpdateStopFrequency | warbot/lib/database.py:316-322 | sets `stop_frequency` only |
| Database.WarBotDB.UpdateStopNextBattle | warbot/lib/database.py:324-330 | sets `stop_next_battle` only |
| Database.WarBotDB.UpdateFighterAnnounce | warbot/lib/database.py:332-338 | sets `fighter_announce` only |
| Database.WarBotDB.UpdateAnnounceQueue | warbot/lib/database.py:349-355 | replaces the announce queue only |
| Database.WarBotDB.AddAnnounceQueue | warbot/lib/database.py:340-344 | appends one name at the end, order kept |
| Database.WarBotDB.DeleteAnnounceQueue | warbot/lib/database.py:346-347 | the announce queue becomes empty |
| Database.WarBotDB.UpdateBattleQueue | warbot/lib/database.py:366-372 | replaces the battle queue only |
| Database.WarBotDB.AddBattleQueue | warbot/lib/database.py:357-361 | appends one `{winner, defeated}` record |
| Database.WarBotDB.DeleteBattleQueue | warbot/lib/database.py:363-364 | the battle queue becomes empty |
| Database.WarBotDB.UpdateMessageQueue | warbot/lib/database.py:382-388 | replaces the message queue only |
| Database.WarBotDB.AddMessageQueue | warbot/lib/database.py:374-377 | appends one message at the end |
| Database.WarBotDB.DeleteMessageQueue | warbot/lib/database.py:379-380 | the message queue becomes empty |
| Database.WarBotDB.Restart | warbot/lib/database.py:390-405 | wipes to empty tables and default vars exactly when the file can be removed, else no change; reports which |
| Warbot.ApplyDuel | warbot/lib/warbot.py:163-168 | the fighters table after a duel: the kill recorded, the loser dead, and the loser hidden once ShowThreshold fighters are alive; ApplyDuelEffects states this row by row |
| Warbot.AliveUsersByFlags | warbot/lib/warbot.py:190-193 | the alive listing depends only on names and alive flags |
| Warbot.ApplyDuelEffects | warbot/lib/warbot.py:161-172 | winner has killed the defeated once, defeated dead, hidden exactly on a roster of at least 100 alive, everyone else unchanged |
| Warbot.ApplyDuelKillsIdempotent | warbot/lib/warbot.py:161-168 | repeating a duel adds no second kill |
| Warbot.AliveUsersAreUsers | warbot/lib/warbot.py:184-193 | every alive name is a fighter's name |
| Warbot.AliveUsersDistinct | warbot/lib/warbot.py:190-193 | unique names give a repeat-free alive listing |
| Warbot.WarBot.GetUsers | warbot/lib/warbot.py:184-188 | the usernames of the store's fighters, in row order |
| Warbot.WarBot.GetAliveUsers | warbot/lib/warbot.py:190-193 | the usernames of the alive fighters, in row order; AliveUsersMembership and AliveUsersAreUsers are about it |
| Warbot.WarBot.GetDeadUsers | warbot/lib/warbot.py:195-198 | the usernames of the dead fighters, in row order; DeadUsersMembership and AliveDeadPartition are about it |
| Warbot.WarBot.constructor | warbot/lib/warbot.py:101-112 | opens the store from the file contents |
| Warbot.WarBot.GetRandomUsers | warbot/lib/warbot.py:115-158 | two different alive fighters when at least two are alive, otherwise (None, None) |
| Warbot.WarBot.ForceBattle | warbot/lib/warbot.py:161-172 | true iff both are fighters; then applies the duel and queues the result; otherwise no change |
| Warbot.WarBot.Battle | warbot/lib/warbot.py:175-178 | a random duel between two different alive fighters, applied and queued, every other variable kept; no change with fewer than two alive |
| Warbot.WarBot.AddUser | warbot/lib/warbot.py:224-229 | false and no change for a known name, else a new alive row and the name leaves the candidates |
| Warbot.WarBot.DeleteUser | warbot/lib/warbot.py:231-236 | true iff the name was a fighter; its rows are removed |
| Warbot.WarBot.AddCandidate | warbot/lib/warbot.py:238-243 | true iff not yet a candidate; fighters not consulted |
| Warbot.WarBot.DeleteCandidate | warbot/lib/warbot.py:245-250 | true iff it was a candidate; it is removed |
| Warbot.WarBot.ReviveUser | warbot/lib/warbot.py:252-262 | true iff a dead fighter; then only its alive flag is set |
| Warbot.WarBot.SetNextBattle | warbot/lib/warbot.py:264-301 | true iff `NextBattleFor` succeeds; then stores that date, else no change |
| Warbot.FirstNamed | warbot/lib/warbot.py:254-255 | index of the first row with that name |
| Telegram.HasText | warbot/lib/telegram.py:58-60 | an update has a message and that message has a text, which is what the three lookups of `handle_updates` need |
| Telegram.Decode | warbot/lib/telegram.py:58-62 | the text, chat id and sender id of an update with text; HandleUpdates applies it to every update |
| Telegram.GetLastUpdateId | warbot/lib/telegram.py:48-52 | the largest update id of a non-empty batch |
| Telegram.HandleUpdates | warbot/lib/telegram.py:54-65 | text, chat and sender of every update in order; None iff some update lacks text |
| Telegram.GetLastChatIdAndText | warbot/lib/telegram.py:67-72 | text and chat of the last update; None on an empty batch or no text |
| Telegram.BuildKeyboard | warbot/lib/telegram.py:83-86 | one button per row in item order, one-time keyboard |
| Telegram.BuildKeyboardFlatten | warbot/lib/telegram.py:83-86 | reading the rows in order gives back the items |
| Telegram.RequestOffset | warbot/lib/telegram.py:41-46 | the offset is sent only when it is set and non-zero |
| Telegram.Deliveries | warbot/lib/telegram.py:74-78 | one plain message to the chat per queue entry, in order |
| Telegram.DeliveriesSnoc | warbot/lib/telegram.py:76-78 | draining one more entry appends its delivery |
| Telegram.TelegramInterface.SendMessage | warbot/lib/telegram.py:88-93 | appends exactly that message |
| Telegram.TelegramInterface.constructor | warbot/lib/telegram.py:25-29 | no authorized chat, empty queue, nothing sent |
| Telegram.TelegramInterface.MessageQueue | warbot/lib/telegram.py:74-78 | with an authorized chat, sends the queue front first and empties it; otherwise nothing |
| Commands.Dispatch | warbot/lib/admin.py:164-210 | the handler of the first prefix in the elif order the text starts with, or the unknown-command reply; FirstMatch, TableEntries and GetFighterOrGetFighters are about it |
| Commands.ArgsOf | warbot/lib/admin.py:175 | `text.split()[1:]`: the words after the first; ArgsOfJoin is its round trip |
| Commands.Pending | warbot/lib/admin.py:211-220 | the command a pending `BUTTONS_...` state hands the next message to; PromptStateRoundTrip pairs it with the state each command opens |
| Commands.Route | warbot/lib/admin.py:162-220 | a pending prompt gives the whole text to its command; otherwise, prefix dispatch with the words after the first as arguments |
| Commands.FirstMatch | warbot/lib/admin.py:164-210 | the first prefix in test order that the text starts with |
| Commands.TableEntries | warbot/lib/admin.py:164-187 | `/getfighters` is matched at position 10 and `/getfighter` at 11, and no earlier prefix starts with `/g` |
| Commands.DifferentPrefix | warbot/lib/admin.py:164-207 | prefixes differing at a shared position exclude each other |
| Commands.GetFighterOrGetFighters | warbot/lib/admin.py:184-187 | `/getfighters` reaches its handler iff the text has that prefix; `/getfighter` only without it |
| Commands.ArgsOfJoin | warbot/lib/admin.py:175 | the arguments of a space-joined message are its words after the first |
| Commands.CheckFrequency | warbot/lib/admin.py:480-493 | wrong count iff not two arguments; not-numbers iff one fails `int()`; accepted only with hours ≥ 0 and 0 < minutes < 60 |
| Commands.CheckFrequencyOfDigits | warbot/lib/admin.py:480-493 | every in-range frequency written in decimal is accepted as itself |
| Commands.WantsAnnouncement | warbot/lib/admin.py:713-715 | a name asks to be announced when it contains `!`; Unmarked never does |
| Commands.Unmarked | warbot/lib/admin.py:716-717 | the name without any `!`, unchanged if it had none |
| Commands.UnmarkedIdempotent | warbot/lib/admin.py:717 | removing the marker twice equals once |
| Commands.Pages | warbot/lib/admin.py:576-588 | a listing is at least one message |
| Commands.ConcatAppend | warbot/lib/admin.py:576-588 | concatenation distributes over appending |
| Commands.PagesConcat | warbot/lib/admin.py:576-588 | reading the messages in order gives the listing back |
| Commands.PagesShape | warbot/lib/admin.py:576-588 | max(1, ceil(n/5)) messages, full pages of five, last page non-empty unless the listing is |
| Commands.PagesAppend | warbot/lib/admin.py:584-586 | a short last page after whole pages is one more message |
| Handlers.AnnouncementFor | warbot/lib/admin.py:722-730 | by default exactly when `fighter_announce` is on, and not at all exactly when it is off and the name has no `!` |
| Handlers.Effect | warbot/lib/admin.py:711-898 | one name of a multi-name command: the tables it leaves and its note, per command as the loop bodies of the five handlers do; EffectSubject and EffectQueue are about it |
| Handlers.Step | warbot/lib/admin.py:711-898 | one turn of a multi-name loop: the tables of Effect with its note appended |
| Handlers.Fold | warbot/lib/admin.py:711-898 | the names handled one after the other, in order; the Result lemmas, FoldNotes, FoldSubject and the queue lemmas state what it yields |
| Handlers.EffectQueue | warbot/lib/admin.py:719-730 | one `/addfighter` name appends its unmarked form to the announce queue exactly when it is new and either `fighter_announce` is on or the name has a `!`; otherwise the queue is unchanged |
| Handlers.ToAnnounce | warbot/lib/admin.py:713-727 | the `i`-th name of `/addfighter` is to be announced: its unmarked form was not yet a fighter at its turn, and `fighter_announce` is on or the name has a `!` |
| Handlers.AnnouncedNames | warbot/lib/admin.py:711-732 | the unmarked forms of the names to announce |
| Handlers.AnnouncedNamesGrow | warbot/lib/admin.py:711-732 | a name to announce stays one when more names follow |
| Handlers.AddFightersQueueAdded | warbot/lib/admin.py:711-732 | `/addfighter` only appends to the announce queue, and every appended entry is the unmarked form of a name to announce (ToAnnounce) |
| Handlers.AddFightersQueued | warbot/lib/admin.py:711-732 | conversely, every name to announce (ToAnnounce) is in the final announce queue, without its marks |
| Handlers.EffectSubject | warbot/lib/admin.py:711-732 | the note of a name is about that name (unmarked for `/addfighter`) |
| Handlers.FoldNotes | warbot/lib/admin.py:711-732 | one note per name, earlier notes kept |
| Handlers.FoldSubject | warbot/lib/admin.py:711-732 | the i-th note is about the i-th name |
| Handlers.FoldWellFormed | warbot/lib/admin.py:711-732 | the multi-name commands keep the tables well-formed |
| Handlers.AddFightersResult | warbot/lib/admin.py:711-732 | every given name is then a fighter, and no fighter is lost |
| Handlers.DeleteFightersResult | warbot/lib/admin.py:760-775 | exactly the fighters named by no argument remain |
| Handlers.AddCandidatesResult | warbot/lib/admin.py:805-815 | candidates become the old ones plus the names; fighters untouched |
| Handlers.DeleteCandidatesResult | warbot/lib/admin.py:839-855 | exactly the candidates named by no argument remain |
| Handlers.ReviveFightersResult | warbot/lib/admin.py:884-898 | names kept; every named fighter alive; others unchanged |
| Handlers.FighterLines | warbot/lib/admin.py:577-582 | one numbered line per fighter, from 1 in row order, marked dead and hidden as the row says |
| Handlers.CandidateLines | warbot/lib/admin.py:670-671 | one numbered line per candidate, from 1 in order |
| Handlers.Listing | warbot/lib/admin.py:574-588 | the messages a listing is sent as, one per five-line page, titled once; ListingShape states their number and that they cover the lines in order |
| Handlers.ListingShape | warbot/lib/admin.py:560-590 | to the asking chat, titled once, at most five lines per message, all lines once in order |
| Handlers.FlushedEmpty | warbot/lib/admin.py:584-586 | nothing is flushed exactly before the first line |
| Handlers.FlushedStep | warbot/lib/admin.py:584-586 | each fifth line flushes one more full page |
| Handlers.FlushedLast | warbot/lib/admin.py:587-588 | the rest, if any, completes the listing |
| Handlers.PageMessagesAppend | warbot/lib/admin.py:585 | sending a page appends its message |
| Handlers.FighterReplyAsWritten | warbot/lib/admin.py:628-632 | the report as written, None for the TypeError |
| Handlers.FighterReplyAsWrittenFails | warbot/lib/admin.py:631-632 | the as-written report fails iff the fighter has killed someone |
| Handlers.FighterReplyAsWrittenExample | warbot/lib/admin.py:632 | a fighter who killed "ben" makes it fail |
| Handlers.FighterReply | warbot/lib/admin.py:620-640 | report with name, alive and show flags, and exactly the victims |
| Handlers.FighterReplyExtends | warbot/lib/admin.py:620-640 | agrees with the as-written report wherever that does not fail |
| Handlers.NextStatus | warbot/lib/admin.py:641-903 | `ask_status` after a command: a prompting command opens its prompt when bare and sets NONE otherwise, other commands leave it; PromptAnsweredOnce and PromptOpensOnlyBare are about it |
| Handlers.PromptStateRoundTrip | warbot/lib/admin.py:211-220 | each pending state hands its answer to the command that opens it, and each prompting command opens a state that hands back to it |
| Handlers.PromptAnsweredOnce | warbot/lib/admin.py:211-220 | a pending prompt is closed by the next authorized message |
| Handlers.PromptOpensOnlyBare | warbot/lib/admin.py:641-647 | a prompt opens iff a prompting command comes without arguments, and it is that command's |
| Dispatch.Performs | warbot/lib/admin.py:162-220 | what one administrator command does to the store, `ask_status` and the outbox, one case per handler, each the handler's own postcondition over values |
| Dispatch.Processed | warbot/lib/admin.py:158-224 | one update: the refusal for a stranger, otherwise Performs of the command the text routes to |
| Dispatch.Run | warbot/lib/admin.py:157-224 | a batch: each world follows from the one before by Processed of the next update, in order |
| Dispatch.Refusals | warbot/lib/admin.py:221-224 | one "not authorized" reply per update, to its chat |
| Dispatch.OneReply | warbot/lib/admin.py:144-224 | one message to the chat is a reply |
| Dispatch.ListingReplied | warbot/lib/admin.py:560-590 | a listing is a non-empty reply to the asking chat |
| Admin.StopIsNoDate | warbot/lib/admin.py:412-417 | a text starting with "stop" is never a date |
| Admin.PageBoundary | warbot/lib/admin.py:584 | from a page boundary the next one is five lines on |
| Admin.FlushPage | warbot/lib/admin.py:584-586 | sending a full page extends the listing sent so far |
| Admin.LastPage | warbot/lib/admin.py:587-588 | sending the rest finishes the listing |
| Dispatch.RestartReply | warbot/lib/admin.py:1023-1038 | success iff confirmed and wiped; failure iff confirmed and not wiped; confirmation request iff not confirmed |
| Admin.WarBotAdmin.constructor | warbot/lib/admin.py:103-128 | store opened and the controller built from it alone (see Findings), client idle with the administrator authorized, prompt idle |
| Admin.WarBotAdmin.UpdateMessageQueue | warbot/lib/admin.py:131-141 | the store's message queue moves to the client and is emptied in the store |
| Admin.WarBotAdmin.HandleHelp | warbot/lib/admin.py:227-283 | sends the help reply only |
| Admin.WarBotAdmin.HandleUnauthorized | warbot/lib/admin.py:286-296 | sends the refusal only |
| Admin.WarBotAdmin.HandleStart | warbot/lib/admin.py:299-316 | sends the welcome only |
| Admin.WarBotAdmin.HandleNoOption | warbot/lib/admin.py:208-210 | sends the "no option" reply only |
| Admin.WarBotAdmin.HandleRunOptin | warbot/lib/admin.py:319-340 | opt-in ends up running; the reply says whether it already was |
| Admin.WarBotAdmin.HandleStopOptin | warbot/lib/admin.py:343-364 | opt-in ends up stopped; the reply says whether it already was |
| Admin.WarBotAdmin.HandleNextBattle | warbot/lib/admin.py:367-389 | the stored date unless battles are stopped; nothing changes |
| Admin.WarBotAdmin.HandleScheduleBattle | warbot/lib/admin.py:392-433 | "stop…" stops battles; a parsed date is stored and resumes them; otherwise no change; the reply names the outcome and next date |
| Admin.WarBotAdmin.HandleBattleFrequency | warbot/lib/admin.py:436-459 | the stored frequency unless stopped; nothing changes |
| Admin.WarBotAdmin.HandleSetBattleFrequency | warbot/lib/admin.py:462-496 | on acceptance stores the two argument texts and resumes automatic battles; otherwise no change; reply per check outcome |
| Admin.WarBotAdmin.HandleStopFrequency | warbot/lib/admin.py:499-520 | automatic battles end up stopped; the reply says whether they already were |
| Admin.WarBotAdmin.HandleForceBattle | warbot/lib/admin.py:523-557 | two arguments force that duel, fewer draw a random one; a duel changes only the fighters and the battle queue, every other variable kept; the reply names the duel or the failure |
| Admin.WarBotAdmin.SendListing | warbot/lib/admin.py:574-588 | sends exactly `Listing(kind, lines, chat)` |
| Admin.WarBotAdmin.HandleGetFighters | warbot/lib/admin.py:560-590 | the fighters listing, numbered, dead and hidden marked |
| Admin.WarBotAdmin.HandleGetCandidates | warbot/lib/admin.py:653-680 | the candidates listing, numbered |
| Admin.WarBotAdmin.HandleGetFighter | warbot/lib/admin.py:593-650 | the report or "not found" and the prompt closes; with no name, buttons for every fighter and the prompt opens |
| Admin.WarBotAdmin.AddFighterStep | warbot/lib/admin.py:713-732 | one name of `/addfighter` acts as `Effect` says: it becomes a fighter and leaves the candidates unless already listed, and by EffectQueue it is queued for announcement exactly when new and `fighter_announce` is on or the name has a `!` |
| Admin.WarBotAdmin.HandleAddFighter | warbot/lib/admin.py:682-742 | fighters, candidates and announce queue become `Fold(AddFighters, …)` of the names, with the other vars kept and one reply with every note; AddFightersResult, AddFightersQueueAdded and AddFightersQueued prove of that fold that every name is then a fighter and that a name is queued exactly when newly added and announced by default or marked; with no name, candidate buttons and the prompt opens |
| Admin.WarBotAdmin.HandleDeleteFighter | warbot/lib/admin.py:745-787 | tables become `Fold(DeleteFighters, …)`; one reply with every note; with no name, fighter buttons |
| Admin.WarBotAdmin.HandleAddCandidate | warbot/lib/admin.py:790-821 | tables become `Fold(AddCandidates, …)`; one reply; with no name, a notice only |
| Admin.WarBotAdmin.HandleDeleteCandidate | warbot/lib/admin.py:824-866 | tables become `Fold(DeleteCandidates, …)`; one reply; with no name, candidate buttons |
| Admin.WarBotAdmin.HandleRevive | warbot/lib/admin.py:869-907 | tables become `Fold(ReviveFighters, …)`; the reply holds the last name's note only; with no name, dead-fighter buttons |
| Admin.WarBotAdmin.HandleAnnounceFighters | warbot/lib/admin.py:910-932 | automatic announcement ends up on; the reply says whether it already was |
| Admin.WarBotAdmin.HandleStopAnnounceFighters | warbot/lib/admin.py:935-956 | automatic announcement ends up off; the reply says whether it already was |
| Admin.WarBotAdmin.HandleStatus | warbot/lib/admin.py:959-1004 | the report of counts and settings; nothing changes |
| Admin.WarBotAdmin.HandleRestart | warbot/lib/admin.py:1007-1041 | wipes iff confirmed and removable, otherwise no change; reply as `RestartReply` |
| Admin.WarBotAdmin.HandleUpdate | warbot/lib/admin.py:157-224 | a stranger gets only the refusal and nothing else changes; an administrator's message does what `Performs` says for the command `Route` reads in the current prompt state: store effect, the exact reply and the new prompt state; every reply goes to the message's chat |
| Admin.WarBotAdmin.HandleListings | warbot/lib/admin.py:184-189 | `/getfighters` and `/getcandidates` send exactly their `Listing` of the current tables, to the asking chat, and change nothing else |
| Admin.WarBotAdmin.HandleFighters | warbot/lib/admin.py:186-193 | `/getfighter`, `/addfighter`, `/deletefighter` and their prompt answers act as `Performs` says: tables become the fold of the names, one exact reply, prompt state as `NextStatus` |
| Admin.WarBotAdmin.HandleCandidates | warbot/lib/admin.py:194-199 | `/addcandidate`, `/deletecandidate`, `/revive` and their prompt answers act as `Performs` says: tables become the fold of the names, one exact reply, prompt state as `NextStatus` |
| Admin.WarBotAdmin.HandleWelcome | warbot/lib/admin.py:164-171 | `/start`, `/help`, `/runoptin`, `/stopoptin` act as `Performs` says: the opt-in flag as set, one exact reply, the prompt idle |
| Admin.WarBotAdmin.HandleSchedule | warbot/lib/admin.py:172-179 | `/nextbattle`, `/schedulebattle`, `/battlefrequency`, `/setbattlefrequency` act as `Performs` says: date, stop flag and frequency as stored, one exact reply, the reports change nothing |
| Admin.WarBotAdmin.HandleBattles | warbot/lib/admin.py:180-183 | `/stopfrequency` and `/forcebattle` act as `Performs` says: the stop flag set, or a duel applied and queued to the battle queue, one exact reply |
| Admin.WarBotAdmin.HandleSettings | warbot/lib/admin.py:200-203 | `/announcefighters` and `/stopannouncefighters` act as `Performs` says: the announce flag set, one exact reply |
| Admin.WarBotAdmin.HandleStatusGroup | warbot/lib/admin.py:204-210 | `/status` and unknown text act as `Performs` says: the status report or the "no option" reply, nothing else changes |
| Admin.WarBotAdmin.HandleRestartGroup | warbot/lib/admin.py:206-207 | `/restart` acts as `Performs` says: the store wiped exactly when confirmed and removable, the reply as `RestartReply` |
| Admin.WarBotAdmin.HandleUpdates | warbot/lib/admin.py:144-224 | the batch runs through worlds `trace`, each message taking one world to the next as `Processed` says; at least one reply per message, earlier output kept, every reply to some message's chat; a batch with no administrator message changes nothing but the refusals |
| Admin.WarBotAdmin.Poll | warbot/lib/telegram.py:95-111 | a non-empty batch moves the offset to its largest id + 1; the messages `Handled` yields run through `trace` as `Processed` says; the store ends as the last world left it, with its message queue delivered to the administrator and emptied; a dropped batch changes only the message queue |
| Dispatch.Handled | warbot/lib/telegram.py:100-104 | the decoded batch when every update has text, none when the answer has no result or an update lacks text |
| Dispatch.PerformsReplies | warbot/lib/admin.py:162-220 | every command is answered in its own chat, earlier output kept, by exactly one message unless it is a listing |
| Dispatch.InspectingKeepsStore | warbot/lib/admin.py:162-220 | the reports, the bare prompts and an unconfirmed restart leave the store as it was |
| Dispatch.RunPrefix | warbot/lib/admin.py:157 | the first messages of a run form a run |
| Dispatch.PerformsSendsOne | warbot/lib/admin.py:162-220 | every command but the two listings sends exactly one message, to its own chat |
| Dispatch.RunExtend | warbot/lib/admin.py:157 | a run over the first messages followed by the next message's step is a run over one more message |
| Dispatch.RunReplies | warbot/lib/admin.py:157-224 | over a batch the output only grows, by at least one message per update, and every new message goes to the chat of some update of the batch |
| Dispatch.RunRepliesTo | warbot/lib/admin.py:157-224 | the same growth, prefix and reply-chat facts stated for given first and last outboxes, in the form the batch handler uses |
| Dispatch.RunRefused | warbot/lib/admin.py:221-224 | a batch with no administrator message ends in the first world plus one refusal per update |
| Calls.LookupAsWritten | warbot/lib/warbot.py:163-168 | a call reaches a method only under its exact name |
| Calls.LookupAsWrittenFails | warbot/lib/warbot.py:141 | `db.get_users` and `bot.add_fighter` find no method |
| Calls.Lookup | warbot/lib/admin.py:577 | exact name first, else the same method in the other vocabulary; agrees with the exact lookup where that succeeds |
| Calls.StoreCallsResolve | warbot/lib/warbot.py:141-346 | every store call of the controller reaches a store method |
| Calls.BotCallsResolve | warbot/lib/admin.py:131-1041 | every controller call of the front end reaches a controller method |
| Calls.Bind | warbot/lib/warbot.py:101 | positional binding succeeds iff the argument count matches the parameters, each parameter then taking the argument in its position |
| Calls.BuildBotAsWrittenFails | warbot/lib/admin.py:125-126 | the four arguments passed to `WarBot(...)` do not bind to its two parameters |
| Calls.BuildBotBinds | warbot/lib/warbot.py:101 | the store's route and filename bind, each to the parameter of its own name |

## Left out

- Logging (`log.send_message`) is left out: it has no effect on state.
- HTTP is not modelled. `get_url` and `get_json_from_url` are not, the URL
  text of `get_updates` and `send_message` is not, and
  `urllib.parse.quote_plus` is not. A sent message is an `outbox` entry, and
  the decoded JSON answer is a `Response` value.
- `main` is modelled as one round (`Poll`). The `while True` loop and
  `time.sleep` are left out, because they only repeat that round.
- The probabilities of `np.random.choice` are not modelled. Warbot.WarBot.GetRandomUsers and Warbot.WarBot.Battle state only that two
  different alive fighters are drawn, because a verifier cannot state a
  sampling distribution. The weights and their normalisation are proved
  instead: Roster.NormalizeIsDistribution and Roster.AliveWeightsNormalize.
- Text.ParseInt accepts only an optional sign and ASCII digits. It does not
  model `int()`'s surrounding whitespace, underscores or non-ASCII digits,
  because the model has no Unicode digit tables.
- Schedule.ParseAbsolute and Schedule.ParseClock read each field as ASCII
  digits followed by exactly the format's separator. Three leniencies of
  `strptime` are not modelled. The space of the format matches any run of
  whitespace. `%d` also accepts a space-padded day such as `" 5"`. `\d`
  matches non-ASCII decimal digits. The model has no whitespace or Unicode
  digit tables.
- Schedule.ValidClock requires a clock before the year 9999. The
  `OverflowError` of `now + timedelta(days=1)` on 31/12/9999 is not
  modelled.
- Admin.WarBotAdmin.HandleUpdates and Admin.WarBotAdmin.Poll: one `now`
  and one `removable` serve the whole batch. The source reads the clock for
  each `/schedulebattle` (warbot.py:283) and tries `os.remove` for each
  `/restart confirm` (database.py:394), message by message. So the model does
  not capture two messages of one batch seeing different clock readings, or
  one removal succeeding and a later one failing.
- Seconds and microseconds of `now` are not modelled, because
  `update_next_battle` stores only year, month, day, hour and minute.
- Reply wording, emoji and Markdown are not modelled. Each reply is a
  `Reply` value with the facts its text reports.
- Concurrency with the other bots sharing the database file is left out.
- `imagehandler.py`, `api.py`, `vars.py`, the Twitter and Telegram bots and
  `__main__.py` are not part of this model. They drive battles
  automatically and publish announcements.
- The TypeError of `/getfighter` propagating out of `main` is left out.
  The as-written report returns None for it; see Findings.
- `database.get_fighters` and `get_candidates` are the `fighters` and
  `candidates` fields. The pass-through getters and setters of `WarBot`
  (warbot.py:206-222, 303-346) are direct calls on the store.

## Findings

| source | as written | input that shows it | evidently intended | confidence | as-written member | corrected member |
|---|---|---|---|---|---|---|
| warbot/lib/admin.py:632 | `', '.join("`" + fighter["killed"] + "`")` concatenates a string with a list, which raises TypeError | `/getfighter ana` where `ana` is `Fighter("ana", true, ["ben"], true)` | list each victim, quoted and comma-separated | high; not executed | Handlers.FighterReplyAsWritten, Handlers.FighterReplyAsWrittenExample | Handlers.FighterReply, Handlers.FighterReplyExtends |
| warbot/lib/warbot.py:141 | `WarBot` calls store methods by "user" names (`get_users`, `insert_user_kill`, `change_user_alive`, …) that `WarBotDB` does not define; `WarBotAdmin` calls controller methods by "fighter" names (`add_fighter`, `get_fighters`, …) that `WarBot` does not define; each raises AttributeError | `battle()` calls `self.db.get_users()`; `/addfighter ana` calls `self.bot.add_fighter("ana")` | each call reaches the method of the same role in the other vocabulary | high; not executed | Calls.LookupAsWritten, Calls.LookupAsWrittenFails | Calls.Lookup, Calls.StoreCallsResolve, Calls.BotCallsResolve |
| warbot/lib/admin.py:125-126 | `WarBotAdmin.__init__` calls `WarBot(database_route, database_filename, phrases_route, phrases_filename)`, but `WarBot.__init__` (warbot.py:101) takes only `database_route` and `database_filename`, so the call raises TypeError and no front end can be built | constructing `WarBotAdmin` with any arguments | pass the store's route and filename only | high; not executed | Calls.BuildBotAsWrittenFails | Calls.Bind, Calls.BuildBotBinds |

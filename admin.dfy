/**
 * `WarBotAdmin`: the Telegram front end through which one authorized user
 * runs the game. Each `handle_*` method answers one command; the polling
 * step decodes a batch of updates, dispatches each message, then delivers
 * the store's message queue to the administrator.
 */
module Admin {
  import opened Wrappers
  import Calendar
  import opened Text
  import opened Roster
  import opened Database
  import opened Schedule
  import opened Warbot
  import opened Outbound
  import opened Telegram
  import opened Commands
  import opened Handlers
  import opened Dispatch

  /** Exactly `ms` was sent, and the client is otherwise as it was. */
  twostate predicate Sent(tg: TelegramInterface, ms: seq<Outgoing>)
    reads tg
  {
    tg.outbox == old(tg.outbox) + ms && tg.authId == old(tg.authId) && tg.mQueue == old(tg.mQueue)
  }

  /** The handler methods `HandleUpdate` hands a command to, by kind of command. */
  datatype Group = FighterGroup | CandidateGroup | ListingGroup | WelcomeGroup | ScheduleGroup | BattleGroup | SettingsGroup | StatusGroup | RestartGroup

  function GroupOf(a: Action): Group {
    match a
    case GetFighter | AddFighter | DeleteFighter => FighterGroup
    case AddCandidate | DeleteCandidate | Revive => CandidateGroup
    case GetFighters | GetCandidates => ListingGroup
    case Start | Help | RunOptin | StopOptin => WelcomeGroup
    case NextBattle | ScheduleBattle | BattleFrequency | SetBattleFrequency => ScheduleGroup
    case StopFrequency | ForceBattle => BattleGroup
    case AnnounceFighters | StopAnnounceFighters => SettingsGroup
    case Status | NoOption => StatusGroup
    case Restart => RestartGroup
  }

  /** The roster tables are as they were. */
  twostate predicate RosterKept(db: WarBotDB)
    reads db
  {
    db.fighters == old(db.fighters) && db.candidates == old(db.candidates)
  }

  /** A text that starts with "stop" is neither an absolute date nor a bare hour. */
  lemma StopIsNoDate(input: string, now: Calendar.DateTime)
    requires ValidClock(now) && StartsWith(input, "stop")
    ensures NextBattleFor(input, now).None?
  {
    assert input[0] == "stop"[0];
    assert DigitRun(input) == 0;
  }

  /** Counting on from a page boundary, the next boundary is a full page later. */
  lemma PageBoundary(k: nat, i: nat)
    requires k % PageSize == 0 && k < i <= k + PageSize
    ensures i % PageSize == 0 <==> i == k + PageSize
  {
  }

  /** Sending the page that completes five more lines extends the listing by that page. */
  lemma FlushPage(kind: ListKind, lines: seq<ListLine>, k: nat, chat: int, sent: seq<Outgoing>, title: bool, page: seq<ListLine>)
    requires k % PageSize == 0 && k + PageSize <= |lines| && page == lines[k..k + PageSize] && (title <==> k == 0)
    ensures sent + PageMessages(kind, Flushed(lines, k), chat) + [Outgoing(Answer(ListPage(kind, title, page)), chat, None)]
      == sent + PageMessages(kind, Flushed(lines, k + PageSize), chat)
  {
    FlushedStep(lines, k);
    PageMessagesAppend(kind, Flushed(lines, k), page, chat);
    FlushedEmpty(lines, k);
  }

  /** Sending the rest, or the title alone for an empty listing, completes it. */
  lemma LastPage(kind: ListKind, lines: seq<ListLine>, k: nat, chat: int, sent: seq<Outgoing>, title: bool, page: seq<ListLine>)
    requires k % PageSize == 0 && k <= |lines| && |lines| - k < PageSize && page == lines[k..] && (title <==> k == 0)
    requires title || page != []
    ensures sent + PageMessages(kind, Flushed(lines, k), chat) + [Outgoing(Answer(ListPage(kind, title, page)), chat, None)]
      == sent + Listing(kind, lines, chat)
  {
    FlushedLast(lines, k);
    PageMessagesAppend(kind, Flushed(lines, k), page, chat);
    FlushedEmpty(lines, k);
  }


  class WarBotAdmin {
    const bot: WarBot
    const tg: TelegramInterface
    /** `ask_status`. */
    var askStatus: AskStatus

    ghost predicate Valid()
      reads this, bot, bot.db, tg
    {
      bot.Valid() && tg.authId.Some?
    }

    /** The current world, as values. */
    function Snap(): World
      reads this, bot, bot.db, tg
    {
      World(bot.db.fighters, bot.db.candidates, bot.db.vars, askStatus, tg.outbox)
    }

    /** The tables a multi-name command starts from. */
    function Tables(): Batch
      requires Valid()
      reads this, bot, bot.db, tg
    {
      Batch(bot.db.fighters, bot.db.candidates, bot.db.GetAnnounceQueue(), [])
    }

    constructor (fs: seq<Fighter>, cs: seq<string>, v: Vars, authId: int)
      requires Persisted(fs, cs, v)
      ensures Valid() && fresh(bot) && fresh(bot.db) && fresh(tg)
      ensures bot.db.fighters == fs && bot.db.candidates == cs && bot.db.vars == SetupVarsOf(v)
      ensures tg.authId == Some(authId) && tg.mQueue == [] && tg.outbox == [] && askStatus == Idle
    {
      bot := new WarBot(fs, cs, v);
      var t := new TelegramInterface();
      t.authId := Some(authId);
      tg := t;
      askStatus := Idle;
    }

    /** `update_message_queue`: the store's message queue moves to the client's. */
    method UpdateMessageQueue()
      requires Valid()
      modifies bot.db, tg
      ensures Valid() && RosterKept(bot.db)
      ensures tg.mQueue == old(bot.db.GetMessageQueue()) && bot.db.GetMessageQueue() == []
      ensures bot.db.vars == old(bot.db.vars).(messageQueue := Some([]))
      ensures tg.outbox == old(tg.outbox) && tg.authId == old(tg.authId)
    {
      var messages := bot.db.GetMessageQueue();
      bot.db.DeleteMessageQueue();
      tg.mQueue := messages;
    }

    method HandleHelp(chat: int)
      requires Valid()
      modifies tg
      ensures Valid() && Sent(tg, [Said(HelpText, chat)])
    {
      tg.SendMessage(Answer(HelpText), chat, None);
    }

    method HandleUnauthorized(chat: int)
      requires Valid()
      modifies tg
      ensures Valid() && Sent(tg, [Said(Unauthorized, chat)])
    {
      tg.SendMessage(Answer(Unauthorized), chat, None);
    }

    method HandleStart(chat: int)
      requires Valid()
      modifies tg
      ensures Valid() && Sent(tg, [Said(Welcome, chat)])
    {
      tg.SendMessage(Answer(Welcome), chat, None);
    }

    /** Any other text with no prompt pending. */
    method HandleNoOption(chat: int)
      requires Valid()
      modifies tg
      ensures Valid() && Sent(tg, [Said(UnknownCommand, chat)])
    {
      tg.SendMessage(Answer(UnknownCommand), chat, None);
    }

    /** `/runoptin`: opt-in ends up running; the reply says whether it already was. */
    method HandleRunOptin(chat: int)
      requires Valid()
      modifies bot.db, tg
      ensures Valid() && RosterKept(bot.db)
      ensures bot.db.vars == old(bot.db.vars).(optinRunning := Some(true))
      ensures Sent(tg, [Said(if old(bot.db.GetOptinRunning()) then OptinAlreadyRunning else OptinActivated, chat)])
    {
      var text: Reply;
      if bot.db.GetOptinRunning() {
        text := OptinAlreadyRunning;
      } else {
        bot.db.UpdateOptinRunning(true);
        text := OptinActivated;
      }
      tg.SendMessage(Answer(text), chat, None);
    }

    /** `/stopoptin`: opt-in ends up stopped; the reply says whether it already was. */
    method HandleStopOptin(chat: int)
      requires Valid()
      modifies bot.db, tg
      ensures Valid() && RosterKept(bot.db)
      ensures bot.db.vars == old(bot.db.vars).(optinRunning := Some(false))
      ensures Sent(tg, [Said(if old(bot.db.GetOptinRunning()) then OptinDeactivated else OptinAlreadyStopped, chat)])
    {
      var text: Reply;
      if !bot.db.GetOptinRunning() {
        text := OptinAlreadyStopped;
      } else {
        bot.db.UpdateOptinRunning(false);
        text := OptinDeactivated;
      }
      tg.SendMessage(Answer(text), chat, None);
    }

    /** `/nextbattle`: the stored date, unless battles are stopped. */
    method HandleNextBattle(chat: int)
      requires Valid()
      modifies tg
      ensures Valid()
      ensures Sent(tg, [Said(if bot.db.GetStopNextBattle() then NoNextBattle else NextBattleAt(bot.db.GetNextBattle()), chat)])
    {
      var text: Reply;
      if bot.db.GetStopNextBattle() {
        text := NoNextBattle;
      } else {
        text := NextBattleAt(bot.db.GetNextBattle());
      }
      tg.SendMessage(Answer(text), chat, None);
    }

    /**
     * `/schedulebattle`: the arguments joined by spaces are given to
     * `set_next_battle`. A text starting with "stop" stops battles, a
     * scheduled date resumes them, anything else changes nothing. The reply
     * names the outcome and the next battle, if any.
     */
    method HandleScheduleBattle(chat: int, attr: seq<string>, now: Calendar.DateTime)
      requires Valid() && ValidClock(now)
      modifies bot.db, tg
      ensures Valid() && RosterKept(bot.db)
      ensures var input := Join(attr, " ");
        var next := NextBattleFor(input, now);
        var stopped := if StartsWith(input, "stop") then true else if next.Some? then false else old(bot.db.GetStopNextBattle());
        && bot.db.GetNextBattle() == (if next.Some? then next.value else old(bot.db.GetNextBattle()))
        && bot.db.GetStopNextBattle() == stopped
        && bot.db.vars == (if next.Some? then StoreDate(old(bot.db.vars), next.value) else old(bot.db.vars)).(stopNextBattle := Some(stopped))
        && Sent(tg, [Said(ScheduleResult(
             if StartsWith(input, "stop") then ScheduleStopped else if next.Some? then ScheduleModified else WrongFormat,
             if stopped then None else Some(bot.db.GetNextBattle())), chat)])
    {
      var input := Join(attr, " ");
      var result := bot.SetNextBattle(input, now);
      var note: ScheduleNote;
      if StartsWith(input, "stop") {
        note := ScheduleStopped;
        bot.db.UpdateStopNextBattle(true);
      } else if result {
        note := ScheduleModified;
        bot.db.UpdateStopNextBattle(false);
      } else {
        note := WrongFormat;
      }
      var next: Option<Calendar.DateTime>;
      if !bot.db.GetStopNextBattle() {
        next := Some(bot.db.GetNextBattle());
      } else {
        next := None;
      }
      tg.SendMessage(Answer(ScheduleResult(note, next)), chat, None);
    }

    /** `/battlefrequency`: the stored frequency, unless automatic battles are stopped. */
    method HandleBattleFrequency(chat: int)
      requires Valid()
      modifies tg
      ensures Valid()
      ensures Sent(tg, [Said(if bot.db.GetStopFrequency() then FrequencyAlreadyStopped
                             else FrequencyIs(bot.db.GetBattleFrequency().0, bot.db.GetBattleFrequency().1), chat)])
    {
      var text: Reply;
      if bot.db.GetStopFrequency() {
        text := FrequencyAlreadyStopped;
      } else {
        var (h, m) := bot.db.GetBattleFrequency();
        text := FrequencyIs(h, m);
      }
      tg.SendMessage(Answer(text), chat, None);
    }

    /**
     * `/setbattlefrequency hours minutes`: when the checks pass, the two
     * argument texts are stored as they were typed and automatic battles
     * resume; otherwise nothing changes.
     */
    method HandleSetBattleFrequency(chat: int, attr: seq<string>)
      requires Valid()
      modifies bot.db, tg
      ensures Valid() && RosterKept(bot.db)
      ensures CheckFrequency(attr).Accepted? ==> bot.db.vars == old(bot.db.vars).(
        battleFrequencyHours := Some(Amount.Text(attr[0])), battleFrequencyMinutes := Some(Amount.Text(attr[1])),
        stopFrequency := Some(false))
      ensures !CheckFrequency(attr).Accepted? ==> bot.db.vars == old(bot.db.vars)
      ensures Sent(tg, [Said(FrequencyReply(CheckFrequency(attr)), chat)])
    {
      var text: Reply;
      if |attr| == 2 {
        var h := ParseInt(attr[0]);
        var m := ParseInt(attr[1]);
        if h.Some? && m.Some? {
          if h.value >= 0 && m.value > 0 && m.value < 60 {
            bot.db.UpdateBattleFrequency(Amount.Text(attr[0]), Amount.Text(attr[1]));
            bot.db.UpdateStopFrequency(false);
            text := FrequencySet(h.value, m.value);
          } else {
            text := InvalidFrequency;
          }
        } else {
          text := InvalidFrequency;
        }
      } else {
        text := WrongArgumentCount;
      }
      tg.SendMessage(Answer(text), chat, None);
    }

    /** `/stopfrequency`: automatic battles end up stopped; the reply says whether they already were. */
    method HandleStopFrequency(chat: int)
      requires Valid()
      modifies bot.db, tg
      ensures Valid() && RosterKept(bot.db)
      ensures bot.db.vars == old(bot.db.vars).(stopFrequency := Some(true))
      ensures Sent(tg, [Said(if old(bot.db.GetStopFrequency()) then AutomaticAlreadyStopped else AutomaticStopped, chat)])
    {
      var text: Reply;
      if bot.db.GetStopFrequency() {
        text := AutomaticAlreadyStopped;
      } else {
        bot.db.UpdateStopFrequency(true);
        text := AutomaticStopped;
      }
      tg.SendMessage(Answer(text), chat, None);
    }

    /**
     * `/forcebattle winner defeated` forces that duel; with fewer than two
     * arguments a random duel is drawn. The reply names the duel or says it
     * could not happen.
     */
    method HandleForceBattle(chat: int, attr: seq<string>)
      requires Valid()
      modifies bot.db, tg
      ensures Valid() && bot.db.candidates == old(bot.db.candidates)
      ensures |attr| >= 2 ==>
        var ok := attr[0] in old(bot.GetUsers()) && attr[1] in old(bot.GetUsers());
        && (ok ==> bot.db.fighters == ApplyDuel(old(bot.db.fighters), attr[0], attr[1]))
        && (ok ==> bot.db.GetBattleQueue() == old(bot.db.GetBattleQueue()) + [BattleRecord(attr[0], attr[1])])
        && (ok ==> bot.db.vars == old(bot.db.vars).(battleQueue := Some(old(bot.db.GetBattleQueue()) + [BattleRecord(attr[0], attr[1])])))
        && (!ok ==> bot.db.fighters == old(bot.db.fighters) && bot.db.vars == old(bot.db.vars))
        && Sent(tg, [Said(if ok then BattleExecuted(attr[0], attr[1]) else BattleFailed, chat)])
      ensures |attr| < 2 && |AliveUsers(old(bot.db.fighters))| < 2 ==>
        bot.db.fighters == old(bot.db.fighters) && bot.db.vars == old(bot.db.vars) && Sent(tg, [Said(BattleFailed, chat)])
      ensures |attr| < 2 && |AliveUsers(old(bot.db.fighters))| >= 2 ==>
        exists w, d ::
          && w in AliveUsers(old(bot.db.fighters)) && d in AliveUsers(old(bot.db.fighters)) && w != d
          && bot.db.fighters == ApplyDuel(old(bot.db.fighters), w, d)
          && bot.db.GetBattleQueue() == old(bot.db.GetBattleQueue()) + [BattleRecord(w, d)]
          && bot.db.vars == old(bot.db.vars).(battleQueue := Some(old(bot.db.GetBattleQueue()) + [BattleRecord(w, d)]))
          && Sent(tg, [Said(BattleExecuted(w, d), chat)])
    {
      var text: Reply;
      if |attr| >= 2 {
        var result := bot.ForceBattle(attr[0], attr[1]);
        text := if result then BattleExecuted(attr[0], attr[1]) else BattleFailed;
      } else {
        var winner, defeated := bot.Battle();
        text := if winner.Some? && defeated.Some? then BattleExecuted(winner.value, defeated.value) else BattleFailed;
      }
      tg.SendMessage(Answer(text), chat, None);
    }

    /**
     * The paginated listing of `/getfighters` and `/getcandidates`: a message
     * goes out after every fifth line and at the end for the rest; the first
     * carries the title, so an empty listing is one titled message.
     */
    method SendListing(kind: ListKind, lines: seq<ListLine>, chat: int)
      requires Valid()
      modifies tg
      ensures Valid() && Sent(tg, Listing(kind, lines, chat))
    {
      var title := true;
      var page: seq<ListLine> := [];
      ghost var k := 0;
      var i := 0;
      while i < |lines|
        invariant 0 <= k <= i <= |lines| && k % PageSize == 0 && i - k < PageSize
        invariant title <==> k == 0
        invariant page == lines[k..i]
        invariant tg.outbox == old(tg.outbox) + PageMessages(kind, Flushed(lines, k), chat)
        invariant tg.authId == old(tg.authId) && tg.mQueue == old(tg.mQueue)
      {
        page := page + [lines[i]];
        i := i + 1;
        PageBoundary(k, i);
        if i % PageSize == 0 {
          FlushPage(kind, lines, k, chat, old(tg.outbox), title, page);
          tg.SendMessage(Answer(ListPage(kind, title, page)), chat, None);
          title := false;
          page := [];
          k := i;
        }
      }
      if title || page != [] {
        LastPage(kind, lines, k, chat, old(tg.outbox), title, page);
        tg.SendMessage(Answer(ListPage(kind, title, page)), chat, None);
      } else {
        FlushedLast(lines, k);
      }
    }

    /** `/getfighters`: every fighter, numbered, marked when dead or hidden. */
    method HandleGetFighters(chat: int)
      requires Valid()
      modifies tg
      ensures Valid() && Sent(tg, Listing(FighterList, FighterLines(bot.db.fighters), chat))
    {
      var fs := bot.db.fighters;
      var lines: seq<ListLine> := [];
      for i := 0 to |fs|
        invariant lines == FighterLines(fs[..i])
      {
        lines := lines + [ListLine(i + 1, fs[i].username, !fs[i].alive, !fs[i].show)];
      }
      assert fs[..|fs|] == fs;
      SendListing(FighterList, lines, chat);
    }

    /** `/getcandidates`: every candidate, numbered. */
    method HandleGetCandidates(chat: int)
      requires Valid()
      modifies tg
      ensures Valid() && Sent(tg, Listing(CandidateList, CandidateLines(bot.db.candidates), chat))
    {
      var cs := bot.db.candidates;
      var lines: seq<ListLine> := [];
      for i := 0 to |cs|
        invariant lines == CandidateLines(cs[..i])
      {
        lines := lines + [ListLine(i + 1, cs[i], false, false)];
      }
      assert cs[..|cs|] == cs;
      SendListing(CandidateList, lines, chat);
    }

    /**
     * `/getfighter name`: the report on that fighter, or "not found", and
     * the prompt is closed; without a name, buttons for every fighter and
     * the prompt opens.
     */
    method HandleGetFighter(chat: int, attr: seq<string>)
      requires Valid()
      modifies this, tg
      ensures Valid()
      ensures |attr| > 0 ==> askStatus == Idle
      ensures |attr| > 0 && attr[0] in Usernames(bot.db.fighters) ==>
        forall k :: 0 <= k < |bot.db.fighters| && bot.db.fighters[k].username == attr[0] ==>
          Sent(tg, [Offered(FighterReply(bot.db.fighters[k]), chat, [])])
      ensures |attr| > 0 && attr[0] !in Usernames(bot.db.fighters) ==> Sent(tg, [Offered(FighterUnknown, chat, [])])
      ensures |attr| == 0 ==> askStatus == AwaitGetFighter && Sent(tg, [Offered(Ask(GetFighterPrompt), chat, Usernames(bot.db.fighters))])
    {
      var items := bot.GetUsers();
      var text: Reply;
      if |attr| > 0 {
        if attr[0] in items {
          var k := FirstNamed(bot.db.fighters, attr[0]);
          text := FighterReply(bot.db.fighters[k]);
        } else {
          text := FighterUnknown;
        }
        askStatus := Idle;
        items := [];
      } else {
        text := Ask(GetFighterPrompt);
        askStatus := AwaitGetFighter;
      }
      tg.SendMessage(Answer(text), chat, Some(BuildKeyboard(items)));
    }

    /** The body of the loop of `/addfighter`: one name, as `Effect` says. */
    method AddFighterStep(raw: string, ghost b: Batch) returns (note: Note)
      requires Valid()
      requires b.fighters == bot.db.fighters && b.candidates == bot.db.candidates && b.queue == bot.db.GetAnnounceQueue()
      modifies bot.db
      ensures Valid()
      ensures var e := Effect(AddFighters(old(bot.db.GetFighterAnnounce())), b, raw);
        bot.db.fighters == e.0 && bot.db.candidates == e.1 && bot.db.GetAnnounceQueue() == e.2 && note == e.3
      ensures bot.db.vars == old(bot.db.vars).(announceQueue := Some(bot.db.GetAnnounceQueue()))
    {
      var announce := WantsAnnouncement(raw);
      var username := Unmarked(raw);
      var result := bot.AddUser(username);
      if result {
        if bot.db.GetFighterAnnounce() {
          bot.db.AddAnnounceQueue(username);
          note := FighterAdded(username, ByDefault);
        } else if announce {
          bot.db.AddAnnounceQueue(username);
          note := FighterAdded(username, OnRequest);
        } else {
          note := FighterAdded(username, NotAnnounced);
        }
      } else {
        note := FighterAlreadyListed(username);
      }
    }

    /**
     * `/addfighter name...`: each name, without its `!` marks, becomes a
     * fighter unless it already is one, and leaves the candidates; it is
     * queued for announcement by default or when marked. One reply lists
     * every outcome. Without a name, buttons for every candidate and the
     * prompt opens.
     */
    method HandleAddFighter(chat: int, attr: seq<string>)
      requires Valid()
      modifies this, bot.db, tg
      ensures Valid()
      ensures |attr| > 0 ==>
        var r := Fold(AddFighters(old(bot.db.GetFighterAnnounce())), old(Tables()), attr);
        && bot.db.fighters == r.fighters && bot.db.candidates == r.candidates
        && bot.db.vars == old(bot.db.vars).(announceQueue := Some(r.queue))
        && askStatus == Idle && Sent(tg, [Offered(Notes(r.notes), chat, [])])
      ensures |attr| == 0 ==>
        && RosterKept(bot.db) && bot.db.vars == old(bot.db.vars) && askStatus == AwaitAddFighter
        && Sent(tg, [Offered(Ask(AddFighterPrompt), chat, bot.db.candidates)])
    {
      var items: seq<string> := [];
      var text: Reply;
      if |attr| > 0 {
        ghost var op := AddFighters(bot.db.GetFighterAnnounce());
        ghost var b0 := Tables();
        ghost var v0 := bot.db.vars;
        var notes: seq<Note> := [];
        for i := 0 to |attr|
          invariant Valid() && tg.outbox == old(tg.outbox) && tg.authId == old(tg.authId) && tg.mQueue == old(tg.mQueue)
          invariant Fold(op, b0, attr[..i]) == Batch(bot.db.fighters, bot.db.candidates, bot.db.GetAnnounceQueue(), notes)
          invariant bot.db.vars == v0.(announceQueue := Some(bot.db.GetAnnounceQueue()))
          invariant op.automatic == bot.db.GetFighterAnnounce()
        {
          var note := AddFighterStep(attr[i], Fold(op, b0, attr[..i]));
          notes := notes + [note];
          assert attr[..i + 1][..i] == attr[..i];
        }
        assert attr[..|attr|] == attr;
        text := Notes(notes);
        askStatus := Idle;
      } else {
        items := bot.db.candidates;
        text := Ask(AddFighterPrompt);
        askStatus := AwaitAddFighter;
      }
      tg.SendMessage(Answer(text), chat, Some(BuildKeyboard(items)));
    }

    /**
     * `/deletefighter name...`: each name that is a fighter stops being one.
     * One reply lists every outcome. Without a name, buttons for every
     * fighter and the prompt opens.
     */
    method HandleDeleteFighter(chat: int, attr: seq<string>)
      requires Valid()
      modifies this, bot.db, tg
      ensures Valid() && bot.db.vars == old(bot.db.vars)
      ensures |attr| > 0 ==>
        var r := Fold(DeleteFighters, old(Tables()), attr);
        && bot.db.fighters == r.fighters && bot.db.candidates == r.candidates
        && askStatus == Idle && Sent(tg, [Offered(Notes(r.notes), chat, [])])
      ensures |attr| == 0 ==>
        && RosterKept(bot.db) && askStatus == AwaitDeleteFighter
        && Sent(tg, [Offered(Ask(DeleteFighterPrompt), chat, Usernames(bot.db.fighters))])
    {
      var items: seq<string> := [];
      var text: Reply;
      if |attr| > 0 {
        ghost var b0 := Tables();
        var notes: seq<Note> := [];
        for i := 0 to |attr|
          invariant Valid() && tg.outbox == old(tg.outbox) && tg.authId == old(tg.authId) && tg.mQueue == old(tg.mQueue)
          invariant Fold(DeleteFighters, b0, attr[..i]) == Batch(bot.db.fighters, bot.db.candidates, bot.db.GetAnnounceQueue(), notes)
          invariant bot.db.vars == old(bot.db.vars)
        {
          var result := bot.DeleteUser(attr[i]);
          var note := if result then FighterDeleted(attr[i]) else FighterNotFound(attr[i]);
          notes := notes + [note];
          assert attr[..i + 1][..i] == attr[..i];
        }
        assert attr[..|attr|] == attr;
        text := Notes(notes);
        askStatus := Idle;
      } else {
        items := bot.GetUsers();
        text := Ask(DeleteFighterPrompt);
        askStatus := AwaitDeleteFighter;
      }
      tg.SendMessage(Answer(text), chat, Some(BuildKeyboard(items)));
    }

    /**
     * `/addcandidate name...`: each name not yet a candidate becomes one,
     * whether or not it is a fighter. One reply lists every outcome; there
     * is no button prompt.
     */
    method HandleAddCandidate(chat: int, attr: seq<string>)
      requires Valid()
      modifies bot.db, tg
      ensures Valid() && bot.db.vars == old(bot.db.vars)
      ensures |attr| > 0 ==>
        var r := Fold(AddCandidates, old(Tables()), attr);
        && bot.db.fighters == r.fighters && bot.db.candidates == r.candidates
        && Sent(tg, [Said(Notes(r.notes), chat)])
      ensures |attr| == 0 ==> RosterKept(bot.db) && Sent(tg, [Said(NoCandidateGiven, chat)])
    {
      var text: Reply;
      if |attr| > 0 {
        ghost var b0 := Tables();
        var notes: seq<Note> := [];
        for i := 0 to |attr|
          invariant Valid() && tg.outbox == old(tg.outbox) && tg.authId == old(tg.authId) && tg.mQueue == old(tg.mQueue)
          invariant Fold(AddCandidates, b0, attr[..i]) == Batch(bot.db.fighters, bot.db.candidates, bot.db.GetAnnounceQueue(), notes)
          invariant bot.db.vars == old(bot.db.vars)
        {
          var result := bot.AddCandidate(attr[i]);
          var note := if result then CandidateAdded(attr[i]) else CandidateAlreadyListed(attr[i]);
          notes := notes + [note];
          assert attr[..i + 1][..i] == attr[..i];
        }
        assert attr[..|attr|] == attr;
        text := Notes(notes);
      } else {
        text := NoCandidateGiven;
      }
      tg.SendMessage(Answer(text), chat, None);
    }

    /**
     * `/deletecandidate name...`: each name that is a candidate stops being
     * one. One reply lists every outcome. Without a name, buttons for every
     * candidate and the prompt opens.
     */
    method HandleDeleteCandidate(chat: int, attr: seq<string>)
      requires Valid()
      modifies this, bot.db, tg
      ensures Valid() && bot.db.vars == old(bot.db.vars)
      ensures |attr| > 0 ==>
        var r := Fold(DeleteCandidates, old(Tables()), attr);
        && bot.db.fighters == r.fighters && bot.db.candidates == r.candidates
        && askStatus == Idle && Sent(tg, [Offered(Notes(r.notes), chat, [])])
      ensures |attr| == 0 ==>
        && RosterKept(bot.db) && askStatus == AwaitDeleteCandidate
        && Sent(tg, [Offered(Ask(DeleteCandidatePrompt), chat, bot.db.candidates)])
    {
      var items: seq<string> := [];
      var text: Reply;
      if |attr| > 0 {
        ghost var b0 := Tables();
        var notes: seq<Note> := [];
        for i := 0 to |attr|
          invariant Valid() && tg.outbox == old(tg.outbox) && tg.authId == old(tg.authId) && tg.mQueue == old(tg.mQueue)
          invariant Fold(DeleteCandidates, b0, attr[..i]) == Batch(bot.db.fighters, bot.db.candidates, bot.db.GetAnnounceQueue(), notes)
          invariant bot.db.vars == old(bot.db.vars)
        {
          var result := bot.DeleteCandidate(attr[i]);
          var note := if result then CandidateDeleted(attr[i]) else CandidateNotFound(attr[i]);
          notes := notes + [note];
          assert attr[..i + 1][..i] == attr[..i];
        }
        assert attr[..|attr|] == attr;
        text := Notes(notes);
        askStatus := Idle;
      } else {
        items := bot.db.candidates;
        text := Ask(DeleteCandidatePrompt);
        askStatus := AwaitDeleteCandidate;
      }
      tg.SendMessage(Answer(text), chat, Some(BuildKeyboard(items)));
    }

    /**
     * `/revive name...`: each name that is a dead fighter comes back alive.
     * The reply text is overwritten for every name, so only the outcome of
     * the last name is sent. Without a name, buttons for every dead fighter
     * and the prompt opens.
     */
    method HandleRevive(chat: int, attr: seq<string>)
      requires Valid()
      modifies this, bot.db, tg
      ensures Valid() && bot.db.vars == old(bot.db.vars)
      ensures |attr| > 0 ==>
        var r := Fold(ReviveFighters, old(Tables()), attr);
        && bot.db.fighters == r.fighters && bot.db.candidates == r.candidates
        && |r.notes| == |attr| && askStatus == Idle
        && Sent(tg, [Offered(Notes([r.notes[|attr| - 1]]), chat, [])])
      ensures |attr| == 0 ==>
        && RosterKept(bot.db) && askStatus == AwaitRevive
        && Sent(tg, [Offered(Ask(RevivePrompt), chat, DeadUsers(bot.db.fighters))])
    {
      var items: seq<string> := [];
      var text: Reply;
      if |attr| > 0 {
        ghost var b0 := Tables();
        ghost var notes: seq<Note> := [];
        var last: Note := NotRevived(attr[0]);
        for i := 0 to |attr|
          invariant Valid() && tg.outbox == old(tg.outbox) && tg.authId == old(tg.authId) && tg.mQueue == old(tg.mQueue)
          invariant Fold(ReviveFighters, b0, attr[..i]) == Batch(bot.db.fighters, bot.db.candidates, bot.db.GetAnnounceQueue(), notes)
          invariant bot.db.vars == old(bot.db.vars)
          invariant i > 0 ==> |notes| == i && notes[i - 1] == last
        {
          var result := bot.ReviveUser(attr[i]);
          last := if result then FighterRevived(attr[i]) else NotRevived(attr[i]);
          notes := notes + [last];
          assert attr[..i + 1][..i] == attr[..i];
        }
        assert attr[..|attr|] == attr;
        text := Notes([last]);
        askStatus := Idle;
      } else {
        items := bot.GetDeadUsers();
        text := Ask(RevivePrompt);
        askStatus := AwaitRevive;
      }
      tg.SendMessage(Answer(text), chat, Some(BuildKeyboard(items)));
    }

    /** `/announcefighters`: new fighters are announced by default from now on. */
    method HandleAnnounceFighters(chat: int)
      requires Valid()
      modifies bot.db, tg
      ensures Valid() && RosterKept(bot.db)
      ensures bot.db.vars == old(bot.db.vars).(fighterAnnounce := Some(true))
      ensures Sent(tg, [Said(if old(bot.db.GetFighterAnnounce()) then AnnounceAlreadyOn else AnnounceOn, chat)])
    {
      var text: Reply;
      if bot.db.GetFighterAnnounce() {
        text := AnnounceAlreadyOn;
      } else {
        bot.db.UpdateFighterAnnounce(true);
        text := AnnounceOn;
      }
      tg.SendMessage(Answer(text), chat, None);
    }

    /** `/stopannouncefighters`: new fighters are announced only when marked. */
    method HandleStopAnnounceFighters(chat: int)
      requires Valid()
      modifies bot.db, tg
      ensures Valid() && RosterKept(bot.db)
      ensures bot.db.vars == old(bot.db.vars).(fighterAnnounce := Some(false))
      ensures Sent(tg, [Said(if old(bot.db.GetFighterAnnounce()) then AnnounceOff else AnnounceAlreadyOff, chat)])
    {
      var text: Reply;
      if !bot.db.GetFighterAnnounce() {
        text := AnnounceAlreadyOff;
      } else {
        bot.db.UpdateFighterAnnounce(false);
        text := AnnounceOff;
      }
      tg.SendMessage(Answer(text), chat, None);
    }

    /** `/status`: the counts of the tables and the state of every setting. */
    method HandleStatus(chat: int)
      requires Valid()
      modifies tg
      ensures Valid()
      ensures Sent(tg, [Said(StatusReport(
        |bot.db.fighters|, |DeadUsers(bot.db.fighters)|, |bot.db.candidates|, bot.db.GetOptinRunning(),
        if bot.db.GetStopNextBattle() then None else Some(bot.db.GetNextBattle()),
        bot.db.GetBattleFrequency().0, bot.db.GetBattleFrequency().1,
        !bot.db.GetStopFrequency(), bot.db.GetFighterAnnounce()), chat)])
    {
      var next: Option<Calendar.DateTime> := None;
      if !bot.db.GetStopNextBattle() {
        next := Some(bot.db.GetNextBattle());
      }
      var (h, m) := bot.db.GetBattleFrequency();
      var text := StatusReport(|bot.GetUsers()|, |bot.GetDeadUsers()|, |bot.db.candidates|, bot.db.GetOptinRunning(),
        next, h, m, !bot.db.GetStopFrequency(), bot.db.GetFighterAnnounce());
      tg.SendMessage(Answer(text), chat, None);
    }

    /**
     * `/restart confirm`: the database is wiped when its file can be removed
     * (`removable`); without the keyword nothing happens and the reply asks
     * for confirmation. The reply follows the flag `restart` returns.
     */
    method HandleRestart(chat: int, attr: seq<string>, removable: bool)
      requires Valid()
      modifies bot.db, tg
      ensures Valid()
      ensures var confirmed := |attr| > 0 && attr[0] == "confirm";
        && (confirmed && removable ==> bot.db.fighters == [] && bot.db.candidates == [] && bot.db.vars == DefaultVars())
        && (!(confirmed && removable) ==> RosterKept(bot.db) && bot.db.vars == old(bot.db.vars))
        && Sent(tg, [Said(RestartReply(confirmed, removable), chat)])
    {
      var doRestart := false;
      if |attr| > 0 {
        if attr[0] == "confirm" {
          doRestart := true;
        }
      }
      var text: Reply;
      if doRestart {
        var result := bot.db.Restart(removable);
        text := if result then Restarted else RestartFailed;
      } else {
        text := RestartNeedsConfirm;
      }
      tg.SendMessage(Answer(text), chat, None);
    }

    /**
     * One message of `handle_updates`: from anyone but the administrator it
     * only gets the "not authorized" reply; otherwise it goes to the handler
     * `Route` picks. Every reply goes back to the message's chat.
     */
    method HandleUpdate(u: Update, now: Calendar.DateTime, removable: bool)
      requires Valid() && ValidClock(now)
      modifies this, bot.db, tg
      ensures Valid() && tg.authId == old(tg.authId) && tg.mQueue == old(tg.mQueue)
      ensures Replied(old(tg.outbox), tg.outbox, u.chat)
      ensures u.userId != tg.authId.value ==>
        && Sent(tg, [Said(Unauthorized, u.chat)]) && RosterKept(bot.db) && bot.db.vars == old(bot.db.vars)
        && askStatus == old(askStatus)
      ensures u.userId == tg.authId.value ==>
        var c := Route(old(askStatus), u.text);
        && askStatus == NextStatus(old(askStatus), c)
        && (Inspects(c) ==> RosterKept(bot.db) && bot.db.vars == old(bot.db.vars))
        && (!Lists(c.action) ==> |tg.outbox| == |old(tg.outbox)| + 1)
      ensures Processed(u, tg.authId.value, now, removable, old(Snap()), Snap())
    {
      if u.userId != tg.authId.value {
        HandleUnauthorized(u.chat);
        return;
      }
      var c := Route(askStatus, u.text);
      match GroupOf(c.action) {
        case FighterGroup => HandleFighters(c, u.chat, now, removable);
        case CandidateGroup => HandleCandidates(c, u.chat, now, removable);
        case ListingGroup => HandleListings(c, u.chat, now, removable);
        case WelcomeGroup => HandleWelcome(c, u.chat, now, removable);
        case ScheduleGroup => HandleSchedule(c, u.chat, now, removable);
        case BattleGroup => HandleBattles(c, u.chat, now, removable);
        case SettingsGroup => HandleSettings(c, u.chat, now, removable);
        case StatusGroup => HandleStatusGroup(c, u.chat, now, removable);
        case RestartGroup => HandleRestartGroup(c, u.chat, now, removable);
      }
    }

    /** The two listings. */
    method HandleListings(c: Command, chat: int, now: Calendar.DateTime, removable: bool)
      requires Valid() && ValidClock(now) && GroupOf(c.action) == ListingGroup
      modifies tg
      ensures Valid() && tg.authId == old(tg.authId) && tg.mQueue == old(tg.mQueue)
      ensures Replied(old(tg.outbox), tg.outbox, chat)
      ensures Performs(c, chat, now, removable, old(Snap()), Snap())
    {
      if c.action == GetFighters {
        HandleGetFighters(chat);
      } else {
        HandleGetCandidates(chat);
      }
      ListingReplied(old(tg.outbox), if c.action == GetFighters then FighterList else CandidateList,
        if c.action == GetFighters then FighterLines(bot.db.fighters) else CandidateLines(bot.db.candidates), chat);
    }

    /** `/getfighter` and the commands about fighters, which can open a button prompt. */
    method HandleFighters(c: Command, chat: int, now: Calendar.DateTime, removable: bool)
      requires Valid() && ValidClock(now) && GroupOf(c.action) == FighterGroup
      modifies this, bot.db, tg
      ensures Valid() && tg.authId == old(tg.authId) && tg.mQueue == old(tg.mQueue)
      ensures Replied(old(tg.outbox), tg.outbox, chat) && |tg.outbox| == |old(tg.outbox)| + 1
      ensures askStatus == NextStatus(old(askStatus), c)
      ensures Inspects(c) ==> RosterKept(bot.db) && bot.db.vars == old(bot.db.vars)
      ensures Performs(c, chat, now, removable, old(Snap()), Snap())
    {
      match c.action {
        case GetFighter => HandleGetFighter(chat, c.args);
        case AddFighter => HandleAddFighter(chat, c.args);
        case DeleteFighter => HandleDeleteFighter(chat, c.args);
      }
      OneReply(old(tg.outbox), tg.outbox, chat);
    }

    /** The commands about candidates and reviving; all but `/addcandidate` can open a button prompt. */
    method HandleCandidates(c: Command, chat: int, now: Calendar.DateTime, removable: bool)
      requires Valid() && ValidClock(now) && GroupOf(c.action) == CandidateGroup
      modifies this, bot.db, tg
      ensures Valid() && tg.authId == old(tg.authId) && tg.mQueue == old(tg.mQueue)
      ensures Replied(old(tg.outbox), tg.outbox, chat) && |tg.outbox| == |old(tg.outbox)| + 1
      ensures askStatus == NextStatus(old(askStatus), c)
      ensures Inspects(c) ==> RosterKept(bot.db) && bot.db.vars == old(bot.db.vars)
      ensures Performs(c, chat, now, removable, old(Snap()), Snap())
    {
      match c.action {
        case AddCandidate => HandleAddCandidate(chat, c.args);
        case DeleteCandidate => HandleDeleteCandidate(chat, c.args);
        case Revive => HandleRevive(chat, c.args);
      }
      OneReply(old(tg.outbox), tg.outbox, chat);
    }

    /** The greeting, the help text and the opt-in switches. */
    method HandleWelcome(c: Command, chat: int, now: Calendar.DateTime, removable: bool)
      requires Valid() && ValidClock(now)
      requires GroupOf(c.action) == WelcomeGroup
      modifies bot.db, tg
      ensures Valid() && tg.authId == old(tg.authId) && tg.mQueue == old(tg.mQueue)
      ensures Replied(old(tg.outbox), tg.outbox, chat) && |tg.outbox| == |old(tg.outbox)| + 1
      ensures askStatus == NextStatus(old(askStatus), c)
      ensures Inspects(c) ==> RosterKept(bot.db) && bot.db.vars == old(bot.db.vars)
      ensures Performs(c, chat, now, removable, old(Snap()), Snap())
    {
      match c.action {
        case Start => HandleStart(chat);
        case Help => HandleHelp(chat);
        case RunOptin => HandleRunOptin(chat);
        case StopOptin => HandleStopOptin(chat);
      }
      OneReply(old(tg.outbox), tg.outbox, chat);
    }

    /** Showing and setting the next battle and the battle frequency. */
    method HandleSchedule(c: Command, chat: int, now: Calendar.DateTime, removable: bool)
      requires Valid() && ValidClock(now)
      requires GroupOf(c.action) == ScheduleGroup
      modifies bot.db, tg
      ensures Valid() && tg.authId == old(tg.authId) && tg.mQueue == old(tg.mQueue)
      ensures Replied(old(tg.outbox), tg.outbox, chat) && |tg.outbox| == |old(tg.outbox)| + 1
      ensures askStatus == NextStatus(old(askStatus), c)
      ensures Inspects(c) ==> RosterKept(bot.db) && bot.db.vars == old(bot.db.vars)
      ensures Performs(c, chat, now, removable, old(Snap()), Snap())
    {
      match c.action {
        case NextBattle => HandleNextBattle(chat);
        case ScheduleBattle => HandleScheduleBattle(chat, c.args, now);
        case BattleFrequency => HandleBattleFrequency(chat);
        case SetBattleFrequency => HandleSetBattleFrequency(chat, c.args);
      }
      OneReply(old(tg.outbox), tg.outbox, chat);
    }

    /** Stopping automatic battles, and forced battles. */
    method HandleBattles(c: Command, chat: int, now: Calendar.DateTime, removable: bool)
      requires Valid() && ValidClock(now) && GroupOf(c.action) == BattleGroup
      modifies bot.db, tg
      ensures Valid() && tg.authId == old(tg.authId) && tg.mQueue == old(tg.mQueue)
      ensures Replied(old(tg.outbox), tg.outbox, chat) && |tg.outbox| == |old(tg.outbox)| + 1
      ensures askStatus == NextStatus(old(askStatus), c)
      ensures Performs(c, chat, now, removable, old(Snap()), Snap())
    {
      match c.action {
        case StopFrequency => HandleStopFrequency(chat);
        case ForceBattle => HandleForceBattle(chat, c.args);
      }
      OneReply(old(tg.outbox), tg.outbox, chat);
    }

    /** Switching the announcement of new fighters on and off. */
    method HandleSettings(c: Command, chat: int, now: Calendar.DateTime, removable: bool)
      requires Valid() && ValidClock(now) && GroupOf(c.action) == SettingsGroup
      modifies bot.db, tg
      ensures Valid() && tg.authId == old(tg.authId) && tg.mQueue == old(tg.mQueue)
      ensures Replied(old(tg.outbox), tg.outbox, chat) && |tg.outbox| == |old(tg.outbox)| + 1
      ensures askStatus == NextStatus(old(askStatus), c)
      ensures Performs(c, chat, now, removable, old(Snap()), Snap())
    {
      match c.action {
        case AnnounceFighters => HandleAnnounceFighters(chat);
        case StopAnnounceFighters => HandleStopAnnounceFighters(chat);
      }
      OneReply(old(tg.outbox), tg.outbox, chat);
    }

    /** The status report and the words no command matches. */
    method HandleStatusGroup(c: Command, chat: int, now: Calendar.DateTime, removable: bool)
      requires Valid() && ValidClock(now) && GroupOf(c.action) == StatusGroup
      modifies bot.db, tg
      ensures Valid() && tg.authId == old(tg.authId) && tg.mQueue == old(tg.mQueue)
      ensures Replied(old(tg.outbox), tg.outbox, chat) && |tg.outbox| == |old(tg.outbox)| + 1
      ensures askStatus == NextStatus(old(askStatus), c)
      ensures Inspects(c) ==> RosterKept(bot.db) && bot.db.vars == old(bot.db.vars)
      ensures Performs(c, chat, now, removable, old(Snap()), Snap())
    {
      match c.action {
        case Status => HandleStatus(chat);
        case NoOption => HandleNoOption(chat);
      }
      OneReply(old(tg.outbox), tg.outbox, chat);
    }

    /** `/restart`, which alone can wipe the store. */
    method HandleRestartGroup(c: Command, chat: int, now: Calendar.DateTime, removable: bool)
      requires Valid() && ValidClock(now) && GroupOf(c.action) == RestartGroup
      modifies bot.db, tg
      ensures Valid() && tg.authId == old(tg.authId) && tg.mQueue == old(tg.mQueue)
      ensures Replied(old(tg.outbox), tg.outbox, chat) && |tg.outbox| == |old(tg.outbox)| + 1
      ensures askStatus == NextStatus(old(askStatus), c)
      ensures Inspects(c) ==> RosterKept(bot.db) && bot.db.vars == old(bot.db.vars)
      ensures Performs(c, chat, now, removable, old(Snap()), Snap())
    {
      HandleRestart(chat, c.args, removable);
      OneReply(old(tg.outbox), tg.outbox, chat);
    }

    /**
     * `handle_updates` of the administrator's bot: the messages in order.
     * The worlds `trace` are the states the batch passes through, each
     * message taking the world before it to the one after it as `Processed`
     * says. Each message gets at least one reply, to its own chat; a batch in
     * which no message is the administrator's changes nothing but the
     * refusals sent.
     */
    method HandleUpdates(us: seq<Update>, now: Calendar.DateTime, removable: bool) returns (ghost trace: seq<World>)
      requires Valid() && ValidClock(now)
      modifies this, bot.db, tg
      ensures Valid() && tg.authId == old(tg.authId) && tg.mQueue == old(tg.mQueue)
      ensures |tg.outbox| >= |old(tg.outbox)| + |us| && tg.outbox[..|old(tg.outbox)|] == old(tg.outbox)
      ensures Run(us, tg.authId.value, now, removable, trace) && trace[0] == old(Snap()) && trace[|us|] == Snap()
      ensures forall j :: |old(tg.outbox)| <= j < |tg.outbox| ==> tg.outbox[j].chat in Chats(us)
      ensures (forall i :: 0 <= i < |us| ==> us[i].userId != tg.authId.value) ==>
        && Sent(tg, Refusals(us)) && RosterKept(bot.db) && bot.db.vars == old(bot.db.vars)
        && askStatus == old(askStatus)
    {
      trace := [Snap()];
      var n := 0;
      while n < |us|
        invariant n <= |us|
        invariant Valid() && tg.authId == old(tg.authId) && tg.mQueue == old(tg.mQueue)
        invariant |trace| == n + 1 && trace[0] == old(Snap()) && trace[n] == Snap()
        invariant Run(us[..n], tg.authId.value, now, removable, trace)
      {
        HandleUpdate(us[n], now, removable);
        RunExtend(us, tg.authId.value, now, removable, trace, n, Snap());
        trace := trace + [Snap()];
        n := n + 1;
      }
      assert us[..|us|] == us;
      RunRepliesTo(us, tg.authId.value, now, removable, trace, old(tg.outbox), tg.outbox);
      if forall i :: 0 <= i < |us| ==> us[i].userId != tg.authId.value {
        RunRefused(us, tg.authId.value, now, removable, trace);
      }
    }

    /**
     * One round of the polling loop of `main`, given the decoded answer of
     * `getUpdates`. A non-empty result moves the offset past its largest
     * update id and then has its messages handled, unless one of them has
     * no text, which drops the whole batch (the KeyError). Either way the
     * store's message queue then moves to the client and is delivered to
     * the administrator. `trace` are the worlds the handled messages pass
     * through; the store ends as the last of them left it, with its message
     * queue delivered and emptied.
     */
    method Poll(last: Option<int>, response: Response, now: Calendar.DateTime, removable: bool)
      returns (next: Option<int>, ghost trace: seq<World>)
      requires Valid() && ValidClock(now)
      modifies this, bot.db, tg
      ensures Valid() && tg.authId == old(tg.authId)
      ensures var us := Handled(response);
        && Run(us, tg.authId.value, now, removable, trace) && trace[0] == old(Snap())
        && var w := trace[|us|];
        && bot.db.fighters == w.fighters && bot.db.candidates == w.candidates && askStatus == w.status
        && w.vars.messageQueue.Some? && bot.db.vars == w.vars.(messageQueue := Some([]))
        && tg.outbox == w.outbox + Deliveries(w.vars.messageQueue.value, tg.authId.value)
      ensures tg.mQueue == [] && bot.db.GetMessageQueue() == []
      ensures |tg.outbox| >= |old(tg.outbox)| && tg.outbox[..|old(tg.outbox)|] == old(tg.outbox)
      ensures response.result.Some? && |response.result.value| > 0 ==>
        var rs := response.result.value;
        && next.Some?
        && (forall i :: 0 <= i < |rs| ==> rs[i].updateId < next.value)
        && (exists i :: 0 <= i < |rs| && rs[i].updateId + 1 == next.value)
      ensures response.result.None? || |response.result.value| == 0 ==> next == last
      ensures response.result.None? || (exists i :: 0 <= i < |response.result.value| && !HasText(response.result.value[i])) ==>
        && RosterKept(bot.db) && bot.db.vars == old(bot.db.vars).(messageQueue := Some([])) && askStatus == old(askStatus)
        && tg.outbox == old(tg.outbox) + Deliveries(old(bot.db.GetMessageQueue()), tg.authId.value)
    {
      next := last;
      trace := [Snap()];
      if response.result.Some? && |response.result.value| > 0 {
        var rs := response.result.value;
        var id := GetLastUpdateId(rs);
        next := Some(id + 1);
        var us := Telegram.HandleUpdates(rs);
        if us.Some? {
          assert us.value == Handled(response);
          trace := HandleUpdates(us.value, now, removable);
        }
      }
      UpdateMessageQueue();
      ghost var before := tg.outbox;
      tg.MessageQueue();
      assert tg.outbox[..|old(tg.outbox)|] == before[..|old(tg.outbox)|];
    }
  }
}

/**
 * What the administrator's front end does, stated on values: the replies
 * it sends, the world of store and prompt state it reads and writes, and
 * what one command, one message and one batch of messages do to it.
 */
module Dispatch {
  import opened Wrappers
  import Calendar
  import opened Text
  import opened Roster
  import opened Database
  import opened Schedule
  import opened Warbot
  import opened Outbound
  import opened Telegram
  import opened Commands
  import opened Handlers

  /** A reply without keyboard. */
  function Said(r: Reply, chat: int): Outgoing {
    Outgoing(Answer(r), chat, None)
  }

  /** A reply with a button per item (an empty keyboard when there are none). */
  function Offered(r: Reply, chat: int, items: seq<string>): Outgoing {
    Outgoing(Answer(r), chat, Some(BuildKeyboard(items)))
  }

  /** `after` extends `before` by at least one message, every one of them to `chat`. */
  predicate Replied(before: seq<Outgoing>, after: seq<Outgoing>, chat: int) {
    |after| > |before| && after[..|before|] == before
    && forall j :: |before| <= j < |after| ==> after[j].chat == chat
  }

  /** The replies to a batch in which nobody is the administrator. */
  function Refusals(us: seq<Update>): (ms: seq<Outgoing>)
    ensures |ms| == |us|
    ensures forall i :: 0 <= i < |us| ==> ms[i] == Said(Unauthorized, us[i].chat)
  {
    seq(|us|, i requires 0 <= i < |us| => Said(Unauthorized, us[i].chat))
  }

  /** The chats the messages of a batch come from. */
  function Chats(us: seq<Update>): set<int> {
    set i | 0 <= i < |us| :: us[i].chat
  }

  /** One message to `chat` is a reply. */
  lemma OneReply(before: seq<Outgoing>, after: seq<Outgoing>, chat: int)
    requires |after| == |before| + 1 && after[..|before|] == before && after[|before|].chat == chat
    ensures Replied(before, after, chat)
  {
  }

  /** A listing is a reply: it has at least one page, and every page goes to `chat`. */
  lemma ListingReplied(before: seq<Outgoing>, kind: ListKind, lines: seq<ListLine>, chat: int)
    ensures Replied(before, before + Listing(kind, lines, chat), chat)
  {
    assert (before + Listing(kind, lines, chat))[..|before|] == before;
  }

  /** The reply to `/setbattlefrequency` for each outcome of its checks. */
  function FrequencyReply(c: FrequencyCheck): Reply {
    match c
    case Accepted(h, m) => FrequencySet(h, m)
    case WrongCount => WrongArgumentCount
    case _ => InvalidFrequency
  }

  /** The reply to `/restart`: success is reported exactly when the file was wiped. */
  function RestartReply(confirmed: bool, wiped: bool): (r: Reply)
    ensures r == Restarted <==> confirmed && wiped
    ensures r == RestartFailed <==> confirmed && !wiped
    ensures r == RestartNeedsConfirm <==> !confirmed
  {
    if !confirmed then RestartNeedsConfirm else if wiped then Restarted else RestartFailed
  }

  /**
   * What the front end reads and writes, as values: the store's three
   * tables, `ask_status` and the messages sent so far.
   */
  datatype World = World(fighters: seq<Fighter>, candidates: seq<string>, vars: Vars, status: AskStatus, outbox: seq<Outgoing>)

  /** The tables a multi-name command starts from. */
  function BatchOf(w: World): Batch
    requires Complete(w.vars)
  {
    Batch(w.fighters, w.candidates, w.vars.announceQueue.value, [])
  }

  /** The store is as it was. */
  predicate StoreKept(s: World, t: World) {
    t.fighters == s.fighters && t.candidates == s.candidates && t.vars == s.vars
  }

  /** The roster tables are as they were and the variables became `v`. */
  predicate VarsBecome(s: World, t: World, v: Vars) {
    t.fighters == s.fighters && t.candidates == s.candidates && t.vars == v
  }

  /** Exactly the message `m` was sent. */
  predicate SentOne(s: World, t: World, m: Outgoing) {
    t.outbox == s.outbox + [m]
  }

  /** The duel of `w` over `d` was applied and queued, and nothing else changed in the store. */
  predicate Dueled(s: World, t: World, w: string, d: string)
    requires Complete(s.vars)
  {
    && t.fighters == ApplyDuel(s.fighters, w, d) && t.candidates == s.candidates
    && t.vars == s.vars.(battleQueue := Some(s.vars.battleQueue.value + [BattleRecord(w, d)]))
  }

  /**
   * What handling the administrator's command `c` from `chat` does to the
   * world `s`, giving `t`: the `handle_*` method `c.action` names, case by
   * case, and `ask_status` as `NextStatus` says. `now` is the clock
   * `/schedulebattle` reads and `removable` the outcome of `os.remove` for
   * `/restart`.
   */
  ghost predicate Performs(c: Command, chat: int, now: Calendar.DateTime, removable: bool, s: World, t: World) {
    && VarsValid(s.vars) && ValidClock(now)
    && t.status == NextStatus(s.status, c)
    && var v := s.vars;
    match c.action
    case Start => StoreKept(s, t) && SentOne(s, t, Said(Welcome, chat))
    case Help => StoreKept(s, t) && SentOne(s, t, Said(HelpText, chat))
    case RunOptin =>
      && VarsBecome(s, t, v.(optinRunning := Some(true)))
      && SentOne(s, t, Said(if v.optinRunning.value then OptinAlreadyRunning else OptinActivated, chat))
    case StopOptin =>
      && VarsBecome(s, t, v.(optinRunning := Some(false)))
      && SentOne(s, t, Said(if v.optinRunning.value then OptinDeactivated else OptinAlreadyStopped, chat))
    case NextBattle =>
      StoreKept(s, t) && SentOne(s, t, Said(if v.stopNextBattle.value then NoNextBattle else NextBattleAt(DateOf(v)), chat))
    case ScheduleBattle =>
      var input := Join(c.args, " ");
      var next := NextBattleFor(input, now);
      var stopped := if StartsWith(input, "stop") then true else if next.Some? then false else v.stopNextBattle.value;
      var v' := (if next.Some? then StoreDate(v, next.value) else v).(stopNextBattle := Some(stopped));
      && VarsBecome(s, t, v')
      && SentOne(s, t, Said(ScheduleResult(
           if StartsWith(input, "stop") then ScheduleStopped else if next.Some? then ScheduleModified else WrongFormat,
           if stopped then None else Some(DateOf(v'))), chat))
    case BattleFrequency =>
      && StoreKept(s, t)
      && SentOne(s, t, Said(if v.stopFrequency.value then FrequencyAlreadyStopped
                            else FrequencyIs(v.battleFrequencyHours.value, v.battleFrequencyMinutes.value), chat))
    case SetBattleFrequency =>
      var check := CheckFrequency(c.args);
      && VarsBecome(s, t, if check.Accepted? then v.(battleFrequencyHours := Some(Amount.Text(c.args[0])),
                                                      battleFrequencyMinutes := Some(Amount.Text(c.args[1])),
                                                      stopFrequency := Some(false))
                          else v)
      && SentOne(s, t, Said(FrequencyReply(check), chat))
    case StopFrequency =>
      && VarsBecome(s, t, v.(stopFrequency := Some(true)))
      && SentOne(s, t, Said(if v.stopFrequency.value then AutomaticAlreadyStopped else AutomaticStopped, chat))
    case ForceBattle =>
      if |c.args| >= 2 then
        var ok := c.args[0] in Usernames(s.fighters) && c.args[1] in Usernames(s.fighters);
        && (if ok then Dueled(s, t, c.args[0], c.args[1]) else StoreKept(s, t))
        && SentOne(s, t, Said(if ok then BattleExecuted(c.args[0], c.args[1]) else BattleFailed, chat))
      else if |AliveUsers(s.fighters)| < 2 then
        StoreKept(s, t) && SentOne(s, t, Said(BattleFailed, chat))
      else
        exists w, d ::
          && w in AliveUsers(s.fighters) && d in AliveUsers(s.fighters) && w != d
          && Dueled(s, t, w, d) && SentOne(s, t, Said(BattleExecuted(w, d), chat))
    case GetFighters => StoreKept(s, t) && t.outbox == s.outbox + Listing(FighterList, FighterLines(s.fighters), chat)
    case GetCandidates => StoreKept(s, t) && t.outbox == s.outbox + Listing(CandidateList, CandidateLines(s.candidates), chat)
    case GetFighter =>
      && StoreKept(s, t)
      && (c.args == [] ==> SentOne(s, t, Offered(Ask(GetFighterPrompt), chat, Usernames(s.fighters))))
      && (c.args != [] && c.args[0] !in Usernames(s.fighters) ==> SentOne(s, t, Offered(FighterUnknown, chat, [])))
      && (c.args != [] ==> forall k :: 0 <= k < |s.fighters| && s.fighters[k].username == c.args[0] ==>
            SentOne(s, t, Offered(FighterReply(s.fighters[k]), chat, [])))
    case AddFighter =>
      if c.args == [] then StoreKept(s, t) && SentOne(s, t, Offered(Ask(AddFighterPrompt), chat, s.candidates))
      else
        var r := Fold(AddFighters(v.fighterAnnounce.value), BatchOf(s), c.args);
        && t.fighters == r.fighters && t.candidates == r.candidates && t.vars == v.(announceQueue := Some(r.queue))
        && SentOne(s, t, Offered(Notes(r.notes), chat, []))
    case DeleteFighter =>
      if c.args == [] then StoreKept(s, t) && SentOne(s, t, Offered(Ask(DeleteFighterPrompt), chat, Usernames(s.fighters)))
      else
        var r := Fold(DeleteFighters, BatchOf(s), c.args);
        t.vars == v && t.fighters == r.fighters && t.candidates == r.candidates
        && SentOne(s, t, Offered(Notes(r.notes), chat, []))
    case AddCandidate =>
      if c.args == [] then StoreKept(s, t) && SentOne(s, t, Said(NoCandidateGiven, chat))
      else
        var r := Fold(AddCandidates, BatchOf(s), c.args);
        t.vars == v && t.fighters == r.fighters && t.candidates == r.candidates && SentOne(s, t, Said(Notes(r.notes), chat))
    case DeleteCandidate =>
      if c.args == [] then StoreKept(s, t) && SentOne(s, t, Offered(Ask(DeleteCandidatePrompt), chat, s.candidates))
      else
        var r := Fold(DeleteCandidates, BatchOf(s), c.args);
        t.vars == v && t.fighters == r.fighters && t.candidates == r.candidates
        && SentOne(s, t, Offered(Notes(r.notes), chat, []))
    case Revive =>
      if c.args == [] then StoreKept(s, t) && SentOne(s, t, Offered(Ask(RevivePrompt), chat, DeadUsers(s.fighters)))
      else
        var r := Fold(ReviveFighters, BatchOf(s), c.args);
        && t.vars == v && t.fighters == r.fighters && t.candidates == r.candidates && |r.notes| == |c.args|
        && SentOne(s, t, Offered(Notes([r.notes[|c.args| - 1]]), chat, []))
    case AnnounceFighters =>
      && VarsBecome(s, t, v.(fighterAnnounce := Some(true)))
      && SentOne(s, t, Said(if v.fighterAnnounce.value then AnnounceAlreadyOn else AnnounceOn, chat))
    case StopAnnounceFighters =>
      && VarsBecome(s, t, v.(fighterAnnounce := Some(false)))
      && SentOne(s, t, Said(if v.fighterAnnounce.value then AnnounceOff else AnnounceAlreadyOff, chat))
    case Status =>
      && StoreKept(s, t)
      && SentOne(s, t, Said(StatusReport(
           |s.fighters|, |DeadUsers(s.fighters)|, |s.candidates|, v.optinRunning.value,
           if v.stopNextBattle.value then None else Some(DateOf(v)),
           v.battleFrequencyHours.value, v.battleFrequencyMinutes.value,
           !v.stopFrequency.value, v.fighterAnnounce.value), chat))
    case Restart =>
      var confirmed := |c.args| > 0 && c.args[0] == "confirm";
      && (if confirmed && removable then t.fighters == [] && t.candidates == [] && t.vars == DefaultVars() else StoreKept(s, t))
      && SentOne(s, t, Said(RestartReply(confirmed, removable), chat))
    case NoOption => StoreKept(s, t) && SentOne(s, t, Said(UnknownCommand, chat))
  }

  /**
   * One message of `handle_updates`: from anyone but the administrator
   * `admin` it only gets the "not authorized" reply; the administrator's is
   * performed as `Route` reads it in the current prompt state.
   */
  ghost predicate Processed(u: Update, admin: int, now: Calendar.DateTime, removable: bool, s: World, t: World) {
    if u.userId != admin then t == s.(outbox := s.outbox + [Said(Unauthorized, u.chat)])
    else Performs(Route(s.status, u.text), u.chat, now, removable, s, t)
  }

  /** `ws` are the worlds a batch passes through, one step per message, in order. */
  ghost predicate Run(us: seq<Update>, admin: int, now: Calendar.DateTime, removable: bool, ws: seq<World>) {
    |ws| == |us| + 1 && forall i :: 0 <= i < |us| ==> Processed(us[i], admin, now, removable, ws[i], ws[i + 1])
  }

  /** Every command is answered in its own chat, by one message unless it is a listing. */
  lemma PerformsReplies(c: Command, chat: int, now: Calendar.DateTime, removable: bool, s: World, t: World)
    requires Performs(c, chat, now, removable, s, t)
    ensures Replied(s.outbox, t.outbox, chat)
    ensures !Lists(c.action) ==> |t.outbox| == |s.outbox| + 1
  {
    if c.action == GetFighters {
      ListingReplied(s.outbox, FighterList, FighterLines(s.fighters), chat);
    } else if c.action == GetCandidates {
      ListingReplied(s.outbox, CandidateList, CandidateLines(s.candidates), chat);
    } else {
      PerformsSendsOne(c, chat, now, removable, s, t);
      var m: Outgoing :| m.chat == chat && t.outbox == s.outbox + [m];
      assert t.outbox[..|s.outbox|] == s.outbox;
    }
  }

  /** Every command but the listings sends exactly one message, to its own chat. */
  lemma PerformsSendsOne(c: Command, chat: int, now: Calendar.DateTime, removable: bool, s: World, t: World)
    requires Performs(c, chat, now, removable, s, t) && !Lists(c.action)
    ensures exists m: Outgoing :: m.chat == chat && t.outbox == s.outbox + [m]
  {
  }

  /** The reports, the bare prompts and an unconfirmed restart leave the store as it was. */
  lemma InspectingKeepsStore(c: Command, chat: int, now: Calendar.DateTime, removable: bool, s: World, t: World)
    requires Performs(c, chat, now, removable, s, t) && Inspects(c)
    ensures StoreKept(s, t)
  {
  }

  /** A run over the first messages of a batch is a run over those messages. */
  lemma RunPrefix(us: seq<Update>, admin: int, now: Calendar.DateTime, removable: bool, ws: seq<World>, n: nat)
    requires Run(us, admin, now, removable, ws) && n <= |us|
    ensures Run(us[..n], admin, now, removable, ws[..n + 1])
  {
    forall i | 0 <= i < n
      ensures Processed(us[..n][i], admin, now, removable, ws[..n + 1][i], ws[..n + 1][i + 1])
    {
      assert us[..n][i] == us[i] && ws[..n + 1][i] == ws[i] && ws[..n + 1][i + 1] == ws[i + 1];
    }
  }

  /** A run over the first `n` messages, followed by the next message, is a run over `n + 1` of them. */
  lemma RunExtend(us: seq<Update>, admin: int, now: Calendar.DateTime, removable: bool, ws: seq<World>, n: nat, w: World)
    requires n < |us| && Run(us[..n], admin, now, removable, ws)
    requires Processed(us[n], admin, now, removable, ws[n], w)
    ensures Run(us[..n + 1], admin, now, removable, ws + [w])
  {
    var ws' := ws + [w];
    forall i | 0 <= i < n + 1
      ensures Processed(us[..n + 1][i], admin, now, removable, ws'[i], ws'[i + 1])
    {
      assert us[..n + 1][i] == us[i];
      if i < n {
        assert us[..n][i] == us[i] && ws'[i] == ws[i] && ws'[i + 1] == ws[i + 1];
      }
    }
  }

  /**
   * Over a batch the messages sent only grow, by at least one per message,
   * and every new one goes to the chat of some message of the batch.
   */
  lemma {:induction false} RunReplies(us: seq<Update>, admin: int, now: Calendar.DateTime, removable: bool, ws: seq<World>)
    requires Run(us, admin, now, removable, ws)
    ensures |ws[|us|].outbox| >= |ws[0].outbox| + |us|
    ensures ws[|us|].outbox[..|ws[0].outbox|] == ws[0].outbox
    ensures forall j :: |ws[0].outbox| <= j < |ws[|us|].outbox| ==> ws[|us|].outbox[j].chat in Chats(us)
    decreases |us|
  {
    if us != [] {
      var n := |us| - 1;
      RunPrefix(us, admin, now, removable, ws, n);
      RunReplies(us[..n], admin, now, removable, ws[..n + 1]);
      assert Processed(us[n], admin, now, removable, ws[n], ws[n + 1]);
      if us[n].userId == admin {
        PerformsReplies(Route(ws[n].status, us[n].text), us[n].chat, now, removable, ws[n], ws[n + 1]);
      }
      var before, after := ws[n].outbox, ws[n + 1].outbox;
      assert Replied(before, after, us[n].chat);
      forall j | |ws[0].outbox| <= j < |after|
        ensures after[j].chat in Chats(us)
      {
        if j < |before| {
          assert after[j] == before[j];
          var i :| 0 <= i < n && before[j].chat == us[..n][i].chat;
          assert us[..n][i] == us[i];
        } else {
          assert after[j].chat == us[n].chat;
        }
      }
      assert before[..|ws[0].outbox|] == ws[0].outbox;
    }
  }

  /** `RunReplies` for a run from the messages `before` to the messages `after`. */
  lemma RunRepliesTo(us: seq<Update>, admin: int, now: Calendar.DateTime, removable: bool, ws: seq<World>,
                     before: seq<Outgoing>, after: seq<Outgoing>)
    requires Run(us, admin, now, removable, ws) && ws[0].outbox == before && ws[|us|].outbox == after
    ensures |after| >= |before| + |us| && after[..|before|] == before
    ensures forall j :: |before| <= j < |after| ==> after[j].chat in Chats(us)
  {
    RunReplies(us, admin, now, removable, ws);
  }

  /** A batch with no message from the administrator only refuses, and the store and prompt stay as they were. */
  lemma {:induction false} RunRefused(us: seq<Update>, admin: int, now: Calendar.DateTime, removable: bool, ws: seq<World>)
    requires Run(us, admin, now, removable, ws)
    requires forall i :: 0 <= i < |us| ==> us[i].userId != admin
    ensures ws[|us|] == ws[0].(outbox := ws[0].outbox + Refusals(us))
    decreases |us|
  {
    if us != [] {
      var n := |us| - 1;
      RunPrefix(us, admin, now, removable, ws, n);
      RunRefused(us[..n], admin, now, removable, ws[..n + 1]);
      assert Processed(us[n], admin, now, removable, ws[n], ws[n + 1]);
      assert Refusals(us) == Refusals(us[..n]) + [Said(Unauthorized, us[n].chat)];
    }
  }

  /**
   * The messages a round of polling hands to `handle_updates`: the decoded
   * batch, or none when the answer has no result or an update without text
   * drops the batch.
   */
  function Handled(response: Response): (us: seq<Update>)
    ensures response.result.Some? && (forall i :: 0 <= i < |response.result.value| ==> HasText(response.result.value[i])) ==>
      |us| == |response.result.value| && forall i :: 0 <= i < |us| ==> us[i] == Decode(response.result.value[i])
    ensures response.result.None? || (exists i :: 0 <= i < |response.result.value| && !HasText(response.result.value[i])) ==> us == []
  {
    if response.result.Some? && forall i :: 0 <= i < |response.result.value| ==> HasText(response.result.value[i]) then
      var rs := response.result.value;
      seq(|rs|, i requires 0 <= i < |rs| => Decode(rs[i]))
    else []
  }
}

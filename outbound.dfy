/**
 * What the bot sends to Telegram. Each administrator reply is kept as a
 * structured value carrying the facts its text reports; the wording and
 * the Markdown decoration are not modelled.
 */
module Outbound {
  import opened Wrappers
  import Calendar
  import Database

  /** A reply keyboard: one button per row, hidden after one use. */
  datatype Keyboard = Keyboard(rows: seq<seq<string>>, oneTimeKeyboard: bool)

  /** Which list a paginated listing shows. */
  datatype ListKind = FighterList | CandidateList

  /** One numbered line of a listing; candidates are never marked dead or hidden. */
  datatype ListLine = ListLine(position: nat, username: string, dead: bool, hidden: bool)

  /** How an added fighter is to be announced. */
  datatype Announcement = ByDefault | OnRequest | NotAnnounced

  /** The per-username outcome reported by the multi-name commands. */
  datatype Note =
    | FighterAdded(username: string, announcement: Announcement)
    | FighterAlreadyListed(username: string)
    | FighterDeleted(username: string)
    | FighterNotFound(username: string)
    | CandidateAdded(username: string)
    | CandidateAlreadyListed(username: string)
    | CandidateDeleted(username: string)
    | CandidateNotFound(username: string)
    | FighterRevived(username: string)
    | NotRevived(username: string)

  /** Which button prompt a command without arguments shows. */
  datatype Prompt = GetFighterPrompt | AddFighterPrompt | DeleteFighterPrompt | DeleteCandidatePrompt | RevivePrompt

  /** The first sentence of the `/schedulebattle` reply. */
  datatype ScheduleNote = ScheduleStopped | ScheduleModified | WrongFormat

  datatype Reply =
    | Welcome
    | HelpText
    | Unauthorized
    | UnknownCommand
    | OptinAlreadyRunning
    | OptinActivated
    | OptinAlreadyStopped
    | OptinDeactivated
    | NoNextBattle
    | NextBattleAt(date: Calendar.DateTime)
      /** `next` is None when no battle is scheduled. */
    | ScheduleResult(note: ScheduleNote, next: Option<Calendar.DateTime>)
    | FrequencyAlreadyStopped
    | FrequencyIs(hours: Database.Amount, minutes: Database.Amount)
    | FrequencySet(setHours: int, setMinutes: int)
    | InvalidFrequency
    | WrongArgumentCount
    | AutomaticAlreadyStopped
    | AutomaticStopped
    | BattleExecuted(winner: string, defeated: string)
    | BattleFailed
      /** One message of a listing; only the first carries the title. */
    | ListPage(kind: ListKind, title: bool, lines: seq<ListLine>)
    | FighterInfo(username: string, alive: bool, killed: seq<string>, show: bool)
    | FighterUnknown
    | Ask(prompt: Prompt)
    | Notes(entries: seq<Note>)
    | NoCandidateGiven
    | AnnounceAlreadyOn
    | AnnounceOn
    | AnnounceAlreadyOff
    | AnnounceOff
      /** `next` is None when no battle is scheduled. */
    | StatusReport(fighters: nat, dead: nat, candidates: nat, optin: bool, next: Option<Calendar.DateTime>,
             hours: Database.Amount, minutes: Database.Amount, frequencyActive: bool, automaticAnnounce: bool)
    | Restarted
    | RestartFailed
    | RestartNeedsConfirm

  /** A message body: queued free text, or an administrator reply. */
  datatype Body = Text(text: string) | Answer(reply: Reply)

  /** One `send_message` call. */
  datatype Outgoing = Outgoing(body: Body, chat: int, keyboard: Option<Keyboard>)
}

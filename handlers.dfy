/**
 * What the administrator's commands do, as functions on values: the effect
 * of the commands that take several usernames, the listings, the fighter
 * report, and the button-prompt state machine. The handler methods of
 * `WarBotAdmin` are proved to act as these say.
 */
module Handlers {
  import opened Wrappers
  import opened Text
  import opened Roster
  import opened Outbound
  import opened Commands

  /** The tables a multi-name command changes, with the outcome of each name so far. */
  datatype Batch = Batch(fighters: seq<Fighter>, candidates: seq<string>, queue: seq<string>, notes: seq<Note>)

  /** The multi-name commands; `automatic` is the stored `fighter_announce` flag. */
  datatype Op = AddFighters(automatic: bool) | DeleteFighters | AddCandidates | DeleteCandidates | ReviveFighters

  /** How `/addfighter` announces a new fighter. */
  function AnnouncementFor(automatic: bool, raw: string): (a: Announcement)
    ensures a == ByDefault <==> automatic
    ensures a == NotAnnounced <==> !automatic && !WantsAnnouncement(raw)
  {
    if automatic then ByDefault else if WantsAnnouncement(raw) then OnRequest else NotAnnounced
  }

  /** One username of a multi-name command: the tables it leaves and the note it adds. */
  function Step(op: Op, b: Batch, name: string): Batch {
    var (fs, cs, q, n) := Effect(op, b, name);
    Batch(fs, cs, q, b.notes + [n])
  }

  function Effect(op: Op, b: Batch, name: string): (seq<Fighter>, seq<string>, seq<string>, Note) {
    match op
    case AddFighters(automatic) =>
      var u := Unmarked(name);
      if u in Usernames(b.fighters) then (b.fighters, b.candidates, b.queue, FighterAlreadyListed(u))
      else
        var a := AnnouncementFor(automatic, name);
        (InsertFighter(b.fighters, u, true), RemoveName(b.candidates, u),
         if a == NotAnnounced then b.queue else b.queue + [u], FighterAdded(u, a))
    case DeleteFighters =>
      if name in Usernames(b.fighters) then (RemoveFighter(b.fighters, name), b.candidates, b.queue, FighterDeleted(name))
      else (b.fighters, b.candidates, b.queue, FighterNotFound(name))
    case AddCandidates =>
      if name in b.candidates then (b.fighters, b.candidates, b.queue, CandidateAlreadyListed(name))
      else (b.fighters, b.candidates + [name], b.queue, CandidateAdded(name))
    case DeleteCandidates =>
      if name in b.candidates then (b.fighters, RemoveName(b.candidates, name), b.queue, CandidateDeleted(name))
      else (b.fighters, b.candidates, b.queue, CandidateNotFound(name))
    case ReviveFighters =>
      if name in DeadUsers(b.fighters) then (SetAlive(b.fighters, name, true), b.candidates, b.queue, FighterRevived(name))
      else (b.fighters, b.candidates, b.queue, NotRevived(name))
  }

  /** The names handled one after the other, in order. */
  function Fold(op: Op, b: Batch, names: seq<string>): Batch {
    if names == [] then b else Step(op, Fold(op, b, names[..|names| - 1]), names[|names| - 1])
  }

  /** The username a note is about. */
  function Subject(n: Note): string {
    n.username
  }

  /** The username a name given to `op` stands for: `/addfighter` drops the `!` marks. */
  function NameOf(op: Op, name: string): string {
    if op.AddFighters? then Unmarked(name) else name
  }

  lemma EffectSubject(op: Op, b: Batch, name: string)
    ensures Subject(Effect(op, b, name).3) == NameOf(op, name)
  {
  }

  /** The last name's note comes after the notes of the names before it. */
  lemma FoldLastNote(op: Op, b: Batch, names: seq<string>)
    requires names != []
    ensures Fold(op, b, names).notes == Fold(op, b, names[..|names| - 1]).notes + [Effect(op, Fold(op, b, names[..|names| - 1]), names[|names| - 1]).3]
  {
  }

  /** Each name gets exactly one note, and the notes from before stay. */
  lemma {:induction false} FoldNotes(op: Op, b: Batch, names: seq<string>)
    ensures |Fold(op, b, names).notes| == |b.notes| + |names|
    ensures Fold(op, b, names).notes[..|b.notes|] == b.notes
  {
    if names != [] {
      var init := names[..|names| - 1];
      var prev := Fold(op, b, init);
      FoldNotes(op, b, init);
      assert Fold(op, b, names).notes[..|b.notes|] == prev.notes[..|b.notes|];
    }
  }

  /** The note of the `i`-th name is about that name (without its `!` marks for `/addfighter`). */
  lemma {:induction false} FoldSubject(op: Op, b: Batch, names: seq<string>, i: nat)
    requires i < |names|
    ensures |b.notes| + i < |Fold(op, b, names).notes|
    ensures Subject(Fold(op, b, names).notes[|b.notes| + i]) == NameOf(op, names[i])
  {
    var init := names[..|names| - 1];
    var prev := Fold(op, b, init);
    FoldNotes(op, b, init);
    FoldLastNote(op, b, names);
    var r := Fold(op, b, names).notes;
    if i < |init| {
      FoldSubject(op, b, init, i);
      assert init[i] == names[i];
      assert r[|b.notes| + i] == prev.notes[|b.notes| + i];
    } else {
      EffectSubject(op, prev, names[|names| - 1]);
    }
  }

  /** Well-formed tables stay well-formed. */
  lemma {:induction false} FoldWellFormed(op: Op, b: Batch, names: seq<string>)
    requires WellFormed(b.fighters) && Distinct(b.candidates)
    ensures WellFormed(Fold(op, b, names).fighters) && Distinct(Fold(op, b, names).candidates)
  {
    if names != [] {
      var prev := Fold(op, b, names[..|names| - 1]);
      var name := names[|names| - 1];
      FoldWellFormed(op, b, names[..|names| - 1]);
      match op
      case AddFighters(_) =>
        RemoveNameDistinct(prev.candidates, Unmarked(name));
      case DeleteFighters =>
        RemoveFighterWellFormed(prev.fighters, name);
      case AddCandidates =>
      case DeleteCandidates =>
        RemoveNameDistinct(prev.candidates, name);
      case ReviveFighters =>
        assert forall i :: 0 <= i < |prev.fighters| ==> SetAlive(prev.fighters, name, true)[i].killed == prev.fighters[i].killed;
    }
  }

  /**
   * After `/addfighter`, every name given (without its `!` marks) is a
   * fighter, and every fighter from before is still one.
   */
  lemma {:induction false} AddFightersResult(automatic: bool, b: Batch, names: seq<string>)
    ensures forall i :: 0 <= i < |names| ==> Unmarked(names[i]) in Usernames(Fold(AddFighters(automatic), b, names).fighters)
    ensures forall u :: u in Usernames(b.fighters) ==> u in Usernames(Fold(AddFighters(automatic), b, names).fighters)
  {
    if names != [] {
      var op := AddFighters(automatic);
      var init := names[..|names| - 1];
      var prev := Fold(op, b, init);
      AddFightersResult(automatic, b, init);
      assert forall i :: 0 <= i < |init| ==> init[i] == names[i];
      var u := Unmarked(names[|names| - 1]);
      if u !in Usernames(prev.fighters) {
        assert Usernames(InsertFighter(prev.fighters, u, true)) == Usernames(prev.fighters) + [u];
      }
    }
  }

  /**
   * One name of `/addfighter` queues its unmarked form exactly when that
   * name is new and announcement is automatic or the name carries a `!`;
   * otherwise the queue is left as it was.
   */
  lemma EffectQueue(automatic: bool, b: Batch, name: string)
    ensures var q := Effect(AddFighters(automatic), b, name).2;
      if Unmarked(name) !in Usernames(b.fighters) && (automatic || WantsAnnouncement(name))
      then q == b.queue + [Unmarked(name)] else q == b.queue
  {
  }

  /**
   * The `i`-th name of `/addfighter` is one to announce: it was new when its
   * turn came, and announcement is automatic or the name carries a `!`.
   */
  predicate ToAnnounce(automatic: bool, b: Batch, names: seq<string>, i: int) {
    && 0 <= i < |names|
    && (automatic || WantsAnnouncement(names[i]))
    && Unmarked(names[i]) !in Usernames(Fold(AddFighters(automatic), b, names[..i]).fighters)
  }

  /** The unmarked forms of the names of `/addfighter` that are to be announced. */
  function AnnouncedNames(automatic: bool, b: Batch, names: seq<string>): set<string> {
    set i | 0 <= i < |names| && ToAnnounce(automatic, b, names, i) :: Unmarked(names[i])
  }

  /** A name to announce stays one when more names follow it. */
  lemma AnnouncedNamesGrow(automatic: bool, b: Batch, names: seq<string>)
    requires names != []
    ensures AnnouncedNames(automatic, b, names[..|names| - 1]) <= AnnouncedNames(automatic, b, names)
  {
    var init := names[..|names| - 1];
    forall x | x in AnnouncedNames(automatic, b, init)
      ensures x in AnnouncedNames(automatic, b, names)
    {
      var i :| 0 <= i < |init| && ToAnnounce(automatic, b, init, i) && x == Unmarked(init[i]);
      assert init[..i] == names[..i];
      assert ToAnnounce(automatic, b, names, i);
    }
  }

  /**
   * `/addfighter` only appends to the announce queue, and every name it
   * appends is the unmarked form of a given name to announce.
   */
  lemma {:induction false} AddFightersQueueAdded(automatic: bool, b: Batch, names: seq<string>)
    ensures b.queue <= Fold(AddFighters(automatic), b, names).queue
    ensures forall k :: |b.queue| <= k < |Fold(AddFighters(automatic), b, names).queue| ==>
      Fold(AddFighters(automatic), b, names).queue[k] in AnnouncedNames(automatic, b, names)
  {
    if names != [] {
      var init := names[..|names| - 1];
      var last := names[|names| - 1];
      var prev := Fold(AddFighters(automatic), b, init);
      AddFightersQueueAdded(automatic, b, init);
      AnnouncedNamesGrow(automatic, b, names);
      EffectQueue(automatic, prev, last);
      if Fold(AddFighters(automatic), b, names).queue != prev.queue {
        assert names[..|names| - 1] == init;
        assert ToAnnounce(automatic, b, names, |names| - 1);
      }
    }
  }

  /**
   * Conversely, a given name that is new when its turn comes and is
   * announced automatically or marked with `!` ends up in the announce
   * queue, without its marks.
   */
  lemma {:induction false} AddFightersQueued(automatic: bool, b: Batch, names: seq<string>, i: nat)
    requires ToAnnounce(automatic, b, names, i)
    ensures Unmarked(names[i]) in Fold(AddFighters(automatic), b, names).queue
  {
    var op := AddFighters(automatic);
    var init := names[..|names| - 1];
    var prev := Fold(op, b, init);
    EffectQueue(automatic, prev, names[|names| - 1]);
    if i == |names| - 1 {
      assert names[..i] == init;
    } else {
      assert init[..i] == names[..i];
      assert init[i] == names[i];
      AddFightersQueued(automatic, b, init, i);
    }
  }

  /**
   * After `/deletefighter`, exactly the fighters named by none of the
   * names remain.
   */
  lemma {:induction false} DeleteFightersResult(b: Batch, names: seq<string>)
    ensures forall f :: f in Fold(DeleteFighters, b, names).fighters <==> f in b.fighters && f.username !in names
  {
    if names != [] {
      var init := names[..|names| - 1];
      DeleteFightersResult(b, init);
      assert names == init + [names[|names| - 1]];
    }
  }

  /** After `/addcandidate` every name given is a candidate; the fighters are not consulted. */
  lemma {:induction false} AddCandidatesResult(b: Batch, names: seq<string>)
    ensures forall c :: c in Fold(AddCandidates, b, names).candidates <==> c in b.candidates || c in names
    ensures Fold(AddCandidates, b, names).fighters == b.fighters
  {
    if names != [] {
      var init := names[..|names| - 1];
      AddCandidatesResult(b, init);
      assert names == init + [names[|names| - 1]];
    }
  }

  /** After `/deletecandidate`, exactly the candidates named by none of the names remain. */
  lemma {:induction false} DeleteCandidatesResult(b: Batch, names: seq<string>)
    ensures forall c :: c in Fold(DeleteCandidates, b, names).candidates <==> c in b.candidates && c !in names
    ensures Fold(DeleteCandidates, b, names).fighters == b.fighters
  {
    if names != [] {
      var init := names[..|names| - 1];
      DeleteCandidatesResult(b, init);
      assert names == init + [names[|names| - 1]];
    }
  }

  /**
   * `/revive` keeps the roster's names and records, and leaves every named
   * fighter alive.
   */
  lemma {:induction false} ReviveFightersResult(b: Batch, names: seq<string>)
    ensures Usernames(Fold(ReviveFighters, b, names).fighters) == Usernames(b.fighters)
    ensures forall i :: 0 <= i < |b.fighters| && b.fighters[i].username in names ==> Fold(ReviveFighters, b, names).fighters[i].alive
    ensures forall i :: 0 <= i < |b.fighters| && b.fighters[i].username !in names ==> Fold(ReviveFighters, b, names).fighters[i] == b.fighters[i]
  {
    if names != [] {
      var init := names[..|names| - 1];
      var last := names[|names| - 1];
      var prev := Fold(ReviveFighters, b, init);
      ReviveFightersResult(b, init);
      assert names == init + [last];
      DeadUsersMembership(prev.fighters, last);
    }
  }

  /** The numbered lines of `/getfighters`, marking dead and hidden fighters. */
  function FighterLines(fs: seq<Fighter>): seq<ListLine> {
    seq(|fs|, i requires 0 <= i < |fs| => ListLine(i + 1, fs[i].username, !fs[i].alive, !fs[i].show))
  }

  /** The numbered lines of `/getcandidates`. */
  function CandidateLines(cs: seq<string>): seq<ListLine> {
    seq(|cs|, i requires 0 <= i < |cs| => ListLine(i + 1, cs[i], false, false))
  }

  /** The messages a listing is sent as: one per page, the title on the first only. */
  function Listing(kind: ListKind, lines: seq<ListLine>, chat: int): seq<Outgoing> {
    PageMessages(kind, Pages(lines), chat)
  }

  function PageMessages(kind: ListKind, ps: seq<seq<ListLine>>, chat: int): seq<Outgoing> {
    seq(|ps|, j requires 0 <= j < |ps| => Outgoing(Answer(ListPage(kind, j == 0, ps[j])), chat, None))
  }

  function PageLines(ms: seq<Outgoing>): seq<seq<ListLine>>
    requires forall j :: 0 <= j < |ms| ==> ms[j].body.Answer? && ms[j].body.reply.ListPage?
  {
    seq(|ms|, j requires 0 <= j < |ms| => ms[j].body.reply.lines)
  }

  /**
   * A listing goes to the asking chat without keyboard, is titled once, has
   * at most five lines per message, and read in order shows every line once.
   */
  lemma ListingShape(kind: ListKind, lines: seq<ListLine>, chat: int)
    ensures var ms := Listing(kind, lines, chat);
      && |ms| == (if |lines| == 0 then 1 else (|lines| + PageSize - 1) / PageSize)
      && (forall j :: 0 <= j < |ms| ==> ms[j].chat == chat && ms[j].keyboard.None? && ms[j].body.Answer? && ms[j].body.reply.ListPage?)
      && (forall j :: 0 <= j < |ms| ==> (ms[j].body.reply.title <==> j == 0))
      && (forall j :: 0 <= j < |ms| ==> |ms[j].body.reply.lines| <= PageSize)
      && Concat(PageLines(ms)) == lines
  {
    PagesShape(lines);
    PagesConcat(lines);
    var ms := Listing(kind, lines, chat);
    assert PageLines(ms) == Pages(lines);
  }

  /** The full pages sent once `k` lines, a multiple of five, have been listed. */
  function Flushed(lines: seq<ListLine>, k: nat): seq<seq<ListLine>>
    requires k <= |lines|
  {
    if k == 0 then [] else Pages(lines[..k])
  }

  /** Nothing is flushed exactly before the first line. */
  lemma FlushedEmpty(lines: seq<ListLine>, k: nat)
    requires k <= |lines|
    ensures |Flushed(lines, k)| == 0 <==> k == 0
  {
  }

  lemma FlushedStep(lines: seq<ListLine>, k: nat)
    requires k % PageSize == 0 && k + PageSize <= |lines|
    ensures Flushed(lines, k + PageSize) == Flushed(lines, k) + [lines[k..k + PageSize]]
  {
    if k > 0 {
      assert lines[..k + PageSize] == lines[..k] + lines[k..k + PageSize];
      PagesAppend(lines[..k], lines[k..k + PageSize]);
    }
  }

  /** The last, short page completes the listing. */
  lemma FlushedLast(lines: seq<ListLine>, k: nat)
    requires k % PageSize == 0 && k <= |lines| && |lines| - k < PageSize
    ensures Pages(lines) == if k > 0 && k == |lines| then Flushed(lines, k) else Flushed(lines, k) + [lines[k..]]
  {
    if k == |lines| {
      assert lines[..k] == lines;
    } else if k > 0 {
      assert lines == lines[..k] + lines[k..];
      PagesAppend(lines[..k], lines[k..]);
    }
  }

  lemma PageMessagesAppend(kind: ListKind, ps: seq<seq<ListLine>>, p: seq<ListLine>, chat: int)
    ensures PageMessages(kind, ps + [p], chat) == PageMessages(kind, ps, chat) + [Outgoing(Answer(ListPage(kind, |ps| == 0, p)), chat, None)]
  {
  }

  /**
   * `/getfighter name` as written: the killed list is joined by
   * concatenating it to a string, which raises TypeError whenever the
   * fighter has killed someone. None stands for that exception.
   */
  function FighterReplyAsWritten(f: Fighter): (r: Option<Reply>)
    ensures r.Some? ==> r.value.FighterInfo? && r.value.username == f.username && r.value.killed == []
  {
    if |f.killed| > 0 then None else Some(FighterInfo(f.username, f.alive, [], f.show))
  }

  /** The as-written report fails for every fighter with a kill. */
  lemma FighterReplyAsWrittenFails(f: Fighter)
    ensures FighterReplyAsWritten(f).None? <==> |f.killed| > 0
  {
  }

  /** For example, asking about a fighter who has killed "ben" fails. */
  lemma FighterReplyAsWrittenExample()
    ensures FighterReplyAsWritten(Fighter("ana", true, ["ben"], true)).None?
  {
  }

  /** `/getfighter name` as intended: the report lists each victim. */
  function FighterReply(f: Fighter): (r: Reply)
    ensures r.FighterInfo? && r.username == f.username && r.alive == f.alive && r.show == f.show
    ensures forall k :: k in r.killed <==> k in f.killed
    ensures |r.killed| == |f.killed|
  {
    FighterInfo(f.username, f.alive, f.killed, f.show)
  }

  /** The intended report agrees with the written one wherever that one does not fail. */
  lemma FighterReplyExtends(f: Fighter)
    ensures FighterReplyAsWritten(f).Some? ==> FighterReplyAsWritten(f).value == FighterReply(f)
  {
  }

  /** The prompt an argument-less command opens. */
  function PromptState(a: Action): AskStatus {
    match a
    case GetFighter => AwaitGetFighter
    case AddFighter => AwaitAddFighter
    case DeleteFighter => AwaitDeleteFighter
    case DeleteCandidate => AwaitDeleteCandidate
    case Revive => AwaitRevive
    case _ => Idle
  }

  /** The commands that can open a button prompt. */
  predicate Prompting(a: Action) {
    a == GetFighter || a == AddFighter || a == DeleteFighter || a == DeleteCandidate || a == Revive
  }

  /**
   * `ask_status` after an authorized message: the prompting commands open
   * their prompt when given no argument and close any prompt otherwise; the
   * other commands leave it alone.
   */
  function NextStatus(status: AskStatus, c: Command): AskStatus {
    if Prompting(c.action) then (if |c.args| == 0 then PromptState(c.action) else Idle) else status
  }

  /**
   * The prompt states and the prompting commands correspond one to one: a
   * pending prompt hands its answer to the command that opened it.
   */
  lemma PromptStateRoundTrip(status: AskStatus, a: Action)
    ensures status != Idle ==> Prompting(Pending(status)) && PromptState(Pending(status)) == status
    ensures Prompting(a) ==> PromptState(a) != Idle && Pending(PromptState(a)) == a
  {
  }

  /** A pending prompt is always closed by the next authorized message. */
  lemma PromptAnsweredOnce(status: AskStatus, text: string)
    requires status != Idle
    ensures NextStatus(status, Route(status, text)) == Idle
  {
  }

  /** A prompt opens only for a prompting command given without arguments, and then it is that command's. */
  lemma PromptOpensOnlyBare(text: string)
    ensures var c := Route(Idle, text);
      NextStatus(Idle, c) != Idle <==> Prompting(c.action) && c.args == []
    ensures var c := Route(Idle, text);
      NextStatus(Idle, c) != Idle ==> Pending(NextStatus(Idle, c)) == c.action
  {
  }

  /**
   * The commands whose handling leaves the store unchanged: the reports, the
   * prompts of the prompting commands, `/addcandidate` alone and an
   * unconfirmed `/restart`.
   */
  predicate Inspects(c: Command) {
    match c.action
    case Start | Help | NextBattle | BattleFrequency | GetFighters | GetFighter | GetCandidates | Status | NoOption => true
    case AddFighter | DeleteFighter | AddCandidate | DeleteCandidate | Revive => c.args == []
    case Restart => c.args == [] || c.args[0] != "confirm"
    case _ => false
  }

  /** The commands answered by a listing rather than by one message. */
  predicate Lists(a: Action) {
    a == GetFighters || a == GetCandidates
  }
}

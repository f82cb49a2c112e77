/**
 * The administrator's command language: how a chat text is routed to a
 * handler, how arguments are taken from it, the checks `/setbattlefrequency`
 * makes, the `!` announcement marker of `/addfighter`, and the grouping of a
 * listing into messages of five lines.
 */
module Commands {
  import opened Wrappers
  import opened Text

  /** `ask_status`: Idle is "NONE", the others the "BUTTONS_..." states. */
  datatype AskStatus = Idle | AwaitGetFighter | AwaitAddFighter | AwaitDeleteFighter | AwaitDeleteCandidate | AwaitRevive

  /** The handler a message is given to. */
  datatype Action =
    | Start | Help | RunOptin | StopOptin | NextBattle | ScheduleBattle
    | BattleFrequency | SetBattleFrequency | StopFrequency | ForceBattle
    | GetFighters | GetFighter | GetCandidates | AddFighter | DeleteFighter
    | AddCandidate | DeleteCandidate | Revive | AnnounceFighters
    | StopAnnounceFighters | Status | Restart | NoOption

  datatype Command = Command(action: Action, args: seq<string>)

  /** `text.split()[1:]`. */
  function ArgsOf(text: string): seq<string> {
    var ws := SplitWords(text);
    if |ws| == 0 then [] else ws[1..]
  }

  /**
   * The prefix tests of `handle_updates` in the order they are made: the
   * handler of the first entry of CommandTable the text starts with.
   */
  function Dispatch(text: string): Action {
    var k := FirstMatch(CommandTable, text);
    if k < |CommandTable| then CommandTable[k].1 else NoOption
  }

  /** The handler a pending button prompt gives the next message to. */
  function Pending(status: AskStatus): Action
    requires status != Idle
  {
    match status
    case AwaitGetFighter => GetFighter
    case AwaitAddFighter => AddFighter
    case AwaitDeleteFighter => DeleteFighter
    case AwaitDeleteCandidate => DeleteCandidate
    case AwaitRevive => Revive
  }

  /**
   * The routing of one authorized message: with no prompt pending, by
   * prefix, with the words after the first as arguments; with a prompt
   * pending, the whole text is the one argument of the prompting command.
   */
  function Route(status: AskStatus, text: string): (c: Command)
    ensures status != Idle ==> c == Command(Pending(status), [text])
    ensures status == Idle ==> c == Command(Dispatch(text), ArgsOf(text))
  {
    if status == Idle then Command(Dispatch(text), ArgsOf(text))
    else Command(Pending(status), [text])
  }

  /** The command prefixes with their handlers, in the order `handle_updates` tests them. */
  const CommandTable: seq<(string, Action)> := [
    ("/start", Start), ("/help", Help), ("/runoptin", RunOptin), ("/stopoptin", StopOptin),
    ("/nextbattle", NextBattle), ("/schedulebattle", ScheduleBattle),
    ("/battlefrequency", BattleFrequency), ("/setbattlefrequency", SetBattleFrequency),
    ("/stopfrequency", StopFrequency), ("/forcebattle", ForceBattle),
    ("/getfighters", GetFighters), ("/getfighter", GetFighter), ("/getcandidates", GetCandidates),
    ("/addfighter", AddFighter), ("/deletefighter", DeleteFighter),
    ("/addcandidate", AddCandidate), ("/deletecandidate", DeleteCandidate), ("/revive", Revive),
    ("/announcefighters", AnnounceFighters), ("/stopannouncefighters", StopAnnounceFighters),
    ("/status", Status), ("/restart", Restart)]

  /**
   * The position of the first entry whose prefix the text starts with, or
   * the table's length when there is none.
   */
  function FirstMatch(table: seq<(string, Action)>, text: string): (k: nat)
    ensures k <= |table|
    ensures k < |table| ==> StartsWith(text, table[k].0)
    ensures forall j :: 0 <= j < k ==> !StartsWith(text, table[j].0)
  {
    if table == [] then 0
    else if StartsWith(text, table[0].0) then 0
    else 1 + FirstMatch(table[1..], text)
  }

  /** A text that starts with `q` does not start with a `p` that differs from `q` at a position inside both. */
  lemma DifferentPrefix(s: string, p: string, q: string, i: nat)
    requires StartsWith(s, q)
    requires i < |p| && i < |q| && p[i] != q[i]
    ensures !StartsWith(s, p)
  {
    assert s[..|q|][i] == s[i];
    if |p| <= |s| {
      assert s[..|p|][i] == s[i];
    }
  }

  lemma TableEntries()
    ensures CommandTable[10] == ("/getfighters", GetFighters) && CommandTable[11] == ("/getfighter", GetFighter)
    ensures forall j :: 0 <= j < |CommandTable| && j != 10 ==> CommandTable[j].1 != GetFighters
    ensures forall j :: 0 <= j < |CommandTable| && j != 11 ==> CommandTable[j].1 != GetFighter
    ensures forall j :: 0 <= j < 10 ==> |CommandTable[j].0| > 1 && CommandTable[j].0[1] != 'g'
  {
  }

  /**
   * `/getfighters` comes before `/getfighter` in the chain: a text with the longer
   * prefix reaches GetFighters, one with only the shorter reaches GetFighter.
   */
  lemma GetFighterOrGetFighters(text: string)
    ensures Dispatch(text) == GetFighters <==> StartsWith(text, "/getfighters")
    ensures Dispatch(text) == GetFighter <==> StartsWith(text, "/getfighter") && !StartsWith(text, "/getfighters")
  {
    var t := CommandTable;
    TableEntries();
    if StartsWith(text, "/getfighter") {
      forall j | 0 <= j < 10
        ensures !StartsWith(text, t[j].0)
      {
        DifferentPrefix(text, t[j].0, "/getfighter", 1);
      }
    }
    if StartsWith(text, "/getfighters") {
      assert StartsWith("/getfighters", "/getfighter");
      assert StartsWith(text, "/getfighter");
    }
  }

  /** The arguments of a message made of words joined by single spaces are its words after the first. */
  lemma ArgsOfJoin(ws: seq<string>)
    requires |ws| > 0 && forall k :: 0 <= k < |ws| ==> IsWord(ws[k])
    ensures ArgsOf(Join(ws, " ")) == ws[1..]
  {
    SplitJoin(ws);
  }

  /** The outcome of `/setbattlefrequency`'s checks. */
  datatype FrequencyCheck = WrongCount | NotNumbers | OutOfRange | Accepted(hours: int, minutes: int)

  /**
   * Exactly two arguments, both integers, a non-negative number of hours and
   * a number of minutes strictly between 0 and 60.
   */
  function CheckFrequency(attr: seq<string>): (r: FrequencyCheck)
    ensures r == WrongCount <==> |attr| != 2
    ensures r == NotNumbers <==> |attr| == 2 && (ParseInt(attr[0]).None? || ParseInt(attr[1]).None?)
    ensures r.Accepted? ==> ParseInt(attr[0]) == Some(r.hours) && ParseInt(attr[1]) == Some(r.minutes)
    ensures r.Accepted? ==> r.hours >= 0 && 0 < r.minutes < 60
    ensures r == OutOfRange ==> !(ParseInt(attr[0]).value >= 0 && 0 < ParseInt(attr[1]).value < 60)
  {
    if |attr| != 2 then WrongCount
    else
      var h := ParseInt(attr[0]);
      var m := ParseInt(attr[1]);
      if h.None? || m.None? then NotNumbers
      else if h.value >= 0 && m.value > 0 && m.value < 60 then Accepted(h.value, m.value)
      else OutOfRange
  }

  /** Every frequency in range, written in decimal, is accepted as itself. */
  lemma CheckFrequencyOfDigits(h: nat, m: nat, wh: nat, wm: nat)
    requires 0 < m < 60
    requires wh > 0 && h < Pow10(wh) && wm > 0 && m < Pow10(wm)
    ensures CheckFrequency([Pad(h, wh), Pad(m, wm)]) == Accepted(h, m)
  {
    ParseIntOfPad(h, wh);
    ParseIntOfPad(m, wm);
  }

  /** `"!" in username`: the fighter is to be announced. */
  predicate WantsAnnouncement(username: string) {
    Contains(username, '!')
  }

  /** `username.replace("!", "")`. */
  function Unmarked(username: string): (r: string)
    ensures !WantsAnnouncement(r)
    ensures !WantsAnnouncement(username) ==> r == username
  {
    RemoveAll(username, '!')
  }

  /** Removing the marker a second time changes nothing. */
  lemma UnmarkedIdempotent(username: string)
    ensures Unmarked(Unmarked(username)) == Unmarked(username)
  {
  }

  /** Lines per message of `/getfighters` and `/getcandidates`. */
  const PageSize: nat := 5

  /**
   * The messages a listing is sent in: one message for every five lines and
   * one more for the rest; a listing with no lines is still one message.
   */
  function Pages<T>(xs: seq<T>): (ps: seq<seq<T>>)
    ensures |ps| >= 1
    decreases |xs|
  {
    if |xs| <= PageSize then [xs] else [xs[..PageSize]] + Pages(xs[PageSize..])
  }

  function Concat<T>(ps: seq<seq<T>>): seq<T> {
    if ps == [] then [] else ps[0] + Concat(ps[1..])
  }

  lemma {:induction false} ConcatAppend<T>(ps: seq<seq<T>>, qs: seq<seq<T>>)
    ensures Concat(ps + qs) == Concat(ps) + Concat(qs)
    decreases |ps|
  {
    if ps != [] {
      var pq := ps + qs;
      assert pq[0] == ps[0] && pq[1..] == ps[1..] + qs;
      ConcatAppend(ps[1..], qs);
      calc {
        Concat(pq);
        ps[0] + Concat(ps[1..] + qs);
        ps[0] + (Concat(ps[1..]) + Concat(qs));
        (ps[0] + Concat(ps[1..])) + Concat(qs);
      }
    } else {
      assert ps + qs == qs;
    }
  }

  /** Reading the messages in order gives back the listing. */
  lemma {:induction false} PagesConcat<T>(xs: seq<T>)
    ensures Concat(Pages(xs)) == xs
    decreases |xs|
  {
    if |xs| > PageSize {
      PagesConcat(xs[PageSize..]);
      ConcatAppend([xs[..PageSize]], Pages(xs[PageSize..]));
      assert xs == xs[..PageSize] + xs[PageSize..];
    }
  }

  /**
   * Every message but the last holds exactly five lines, the last holds one
   * to five (none only for an empty listing), so a listing of n lines takes
   * max(1, ceil(n / 5)) messages.
   */
  lemma {:induction false} PagesShape<T>(xs: seq<T>)
    ensures |Pages(xs)| == if |xs| == 0 then 1 else (|xs| + PageSize - 1) / PageSize
    ensures forall j :: 0 <= j < |Pages(xs)| - 1 ==> |Pages(xs)[j]| == PageSize
    ensures |xs| > 0 ==> 0 < |Pages(xs)[|Pages(xs)| - 1]| <= PageSize
    ensures xs == [] ==> Pages(xs) == [[]]
    decreases |xs|
  {
    if |xs| > PageSize {
      PagesShape(xs[PageSize..]);
      var rest := Pages(xs[PageSize..]);
      assert Pages(xs) == [xs[..PageSize]] + rest;
      assert forall j :: 1 <= j < |Pages(xs)| ==> Pages(xs)[j] == rest[j - 1];
    }
  }

  /** Appending a last message to a listing of whole messages. */
  lemma {:induction false} PagesAppend<T>(xs: seq<T>, ys: seq<T>)
    requires |xs| > 0 && |xs| % PageSize == 0 && 0 < |ys| <= PageSize
    ensures Pages(xs + ys) == Pages(xs) + [ys]
    decreases |xs|
  {
    var xy := xs + ys;
    if |xs| == PageSize {
      assert xy[..PageSize] == xs && xy[PageSize..] == ys;
    } else {
      assert xy[..PageSize] == xs[..PageSize];
      assert xy[PageSize..] == xs[PageSize..] + ys;
      PagesAppend(xs[PageSize..], ys);
    }
  }
}

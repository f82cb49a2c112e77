/**
 * The persistent store (`WarBotDB`): the fighters and candidates tables and the
 * `vars` table of named values, including the three notification queues.
 * The TinyDB file becomes three fields that the methods reassign.
 */
module Database {
  import opened Wrappers
  import Calendar
  import opened Roster

  /** One entry of the battle queue. */
  datatype BattleRecord = BattleRecord(winner: string, defeated: string)

  /**
   * A battle-frequency cell: `setup_vars` stores an integer, `/setbattlefrequency`
   * stores its raw argument text (admin.py:485).
   */
  datatype Amount = Number(n: int) | Text(s: string)

  /**
   * The `vars` table: one optional cell per `varname`. A cell is None while
   * that variable has never been inserted.
   */
  datatype Vars = Vars(
    lastSeenId: Option<int>,
    optinRunning: Option<bool>,
    nextBattleYear: Option<int>,
    nextBattleMonth: Option<int>,
    nextBattleDay: Option<int>,
    nextBattleHour: Option<int>,
    nextBattleMinute: Option<int>,
    battleFrequencyHours: Option<Amount>,
    battleFrequencyMinutes: Option<Amount>,
    stopFrequency: Option<bool>,
    stopNextBattle: Option<bool>,
    fighterAnnounce: Option<bool>,
    announceQueue: Option<seq<string>>,
    battleQueue: Option<seq<BattleRecord>>,
    messageQueue: Option<seq<string>>)

  /** An empty `vars` table, as in a new database file. */
  function NoVars(): Vars {
    Vars(None, None, None, None, None, None, None, None, None, None, None, None, None, None, None)
  }

  /** The values `setup_vars` inserts for missing variables. */
  function DefaultVars(): Vars {
    Vars(Some(1), Some(false), Some(2000), Some(12), Some(19), Some(0), Some(0),
         Some(Number(6)), Some(Number(0)), Some(true), Some(true), Some(false),
         Some([]), Some([]), Some([]))
  }

  /** Every variable is present. */
  predicate Complete(v: Vars) {
    && v.lastSeenId.Some? && v.optinRunning.Some?
    && v.nextBattleYear.Some? && v.nextBattleMonth.Some? && v.nextBattleDay.Some?
    && v.nextBattleHour.Some? && v.nextBattleMinute.Some?
    && v.battleFrequencyHours.Some? && v.battleFrequencyMinutes.Some?
    && v.stopFrequency.Some? && v.stopNextBattle.Some? && v.fighterAnnounce.Some?
    && v.announceQueue.Some? && v.battleQueue.Some? && v.messageQueue.Some?
  }

  function Keep<T>(present: Option<T>, fallback: Option<T>): Option<T> {
    if present.Some? then present else fallback
  }

  /** Cellwise: `v`'s cell where it has one, otherwise `d`'s. */
  function Merge(d: Vars, v: Vars): Vars {
    Vars(Keep(v.lastSeenId, d.lastSeenId), Keep(v.optinRunning, d.optinRunning),
         Keep(v.nextBattleYear, d.nextBattleYear), Keep(v.nextBattleMonth, d.nextBattleMonth),
         Keep(v.nextBattleDay, d.nextBattleDay), Keep(v.nextBattleHour, d.nextBattleHour),
         Keep(v.nextBattleMinute, d.nextBattleMinute),
         Keep(v.battleFrequencyHours, d.battleFrequencyHours),
         Keep(v.battleFrequencyMinutes, d.battleFrequencyMinutes),
         Keep(v.stopFrequency, d.stopFrequency), Keep(v.stopNextBattle, d.stopNextBattle),
         Keep(v.fighterAnnounce, d.fighterAnnounce), Keep(v.announceQueue, d.announceQueue),
         Keep(v.battleQueue, d.battleQueue), Keep(v.messageQueue, d.messageQueue))
  }

  /** `v` agrees with `w` on every cell that `w` has. */
  predicate Extends(v: Vars, w: Vars) {
    && (w.lastSeenId.Some? ==> v.lastSeenId == w.lastSeenId)
    && (w.optinRunning.Some? ==> v.optinRunning == w.optinRunning)
    && (w.nextBattleYear.Some? ==> v.nextBattleYear == w.nextBattleYear)
    && (w.nextBattleMonth.Some? ==> v.nextBattleMonth == w.nextBattleMonth)
    && (w.nextBattleDay.Some? ==> v.nextBattleDay == w.nextBattleDay)
    && (w.nextBattleHour.Some? ==> v.nextBattleHour == w.nextBattleHour)
    && (w.nextBattleMinute.Some? ==> v.nextBattleMinute == w.nextBattleMinute)
    && (w.battleFrequencyHours.Some? ==> v.battleFrequencyHours == w.battleFrequencyHours)
    && (w.battleFrequencyMinutes.Some? ==> v.battleFrequencyMinutes == w.battleFrequencyMinutes)
    && (w.stopFrequency.Some? ==> v.stopFrequency == w.stopFrequency)
    && (w.stopNextBattle.Some? ==> v.stopNextBattle == w.stopNextBattle)
    && (w.fighterAnnounce.Some? ==> v.fighterAnnounce == w.fighterAnnounce)
    && (w.announceQueue.Some? ==> v.announceQueue == w.announceQueue)
    && (w.battleQueue.Some? ==> v.battleQueue == w.battleQueue)
    && (w.messageQueue.Some? ==> v.messageQueue == w.messageQueue)
  }

  /** `setup_vars`' effect on the table. */
  function SetupVarsOf(v: Vars): Vars {
    Merge(DefaultVars(), v)
  }

  /** After `setup_vars` every variable exists, every existing value is untouched, and the missing ones hold defaults. */
  lemma SetupVarsFills(v: Vars)
    ensures Complete(SetupVarsOf(v))
    ensures Extends(SetupVarsOf(v), v)
    ensures Extends(SetupVarsOf(v), DefaultVars()) <==> Extends(DefaultVars(), v)
  {
  }

  /** A second `setup_vars` changes nothing. */
  lemma SetupVarsIdempotent(v: Vars)
    ensures SetupVarsOf(SetupVarsOf(v)) == SetupVarsOf(v)
  {
  }

  /** On a new file `setup_vars` yields exactly the defaults. */
  lemma SetupVarsOfEmpty()
    ensures SetupVarsOf(NoVars()) == DefaultVars()
  {
  }

  /** `get_next_battle`'s reading of the five date fields. */
  function DateOf(v: Vars): Calendar.DateTime
    requires Complete(v)
  {
    Calendar.DateTime(v.nextBattleYear.value, v.nextBattleMonth.value, v.nextBattleDay.value,
                      v.nextBattleHour.value, v.nextBattleMinute.value)
  }

  /** `update_next_battle`'s writing of the five date fields. */
  function StoreDate(v: Vars, d: Calendar.DateTime): Vars {
    v.(nextBattleYear := Some(d.year), nextBattleMonth := Some(d.month), nextBattleDay := Some(d.day),
       nextBattleHour := Some(d.hour), nextBattleMinute := Some(d.minute))
  }

  /** Storing a date and reading it back gives year, month, day, hour and minute unchanged. */
  lemma StoreDateRoundTrip(v: Vars, d: Calendar.DateTime)
    requires Complete(v)
    ensures Complete(StoreDate(v, d)) && DateOf(StoreDate(v, d)) == d
  {
  }

  /** Storing a date touches only the five date fields. */
  lemma StoreDateOnlyDate(v: Vars, d: Calendar.DateTime)
    ensures StoreDate(v, d).(nextBattleYear := v.nextBattleYear, nextBattleMonth := v.nextBattleMonth,
              nextBattleDay := v.nextBattleDay, nextBattleHour := v.nextBattleHour,
              nextBattleMinute := v.nextBattleMinute) == v
  {
  }

  /** The table invariant: every variable present and the stored date a real date. */
  predicate VarsValid(v: Vars) {
    Complete(v) && Calendar.Valid(DateOf(v))
  }

  /** The defaults are valid; the default date is 19/12/2000 00:00. */
  lemma DefaultVarsValid()
    ensures VarsValid(DefaultVars())
    ensures DateOf(DefaultVars()) == Calendar.DateTime(2000, 12, 19, 0, 0)
  {
  }

  /** What a database file written by this program holds: valid tables and, once filled in, a real date. */
  predicate Persisted(fs: seq<Fighter>, cs: seq<string>, v: Vars) {
    WellFormed(fs) && Distinct(cs) && Calendar.Valid(DateOf(SetupVarsOf(v)))
  }

  class WarBotDB {
    var fighters: seq<Fighter>
    var candidates: seq<string>
    var vars: Vars

    ghost predicate Valid()
      reads this
    {
      WellFormed(fighters) && Distinct(candidates) && VarsValid(vars)
    }

    /** Opens a database file with the given contents and runs `setup_vars`. */
    constructor (fs: seq<Fighter>, cs: seq<string>, v: Vars)
      requires Persisted(fs, cs, v)
      ensures Valid()
      ensures fighters == fs && candidates == cs && vars == SetupVarsOf(v)
    {
      fighters, candidates, vars := fs, cs, v;
      new;
      SetupVars();
    }

    /** `setup_vars`: each missing variable is inserted with its default, in the source's order. */
    method SetupVars()
      requires Calendar.Valid(DateOf(SetupVarsOf(vars)))
      modifies this
      ensures vars == SetupVarsOf(old(vars)) && VarsValid(vars)
      ensures fighters == old(fighters) && candidates == old(candidates)
    {
      // One line per `if len(search(varname == ...)) == 0: insert(default)`.
      var d := DefaultVars();
      vars := vars.(lastSeenId := Keep(vars.lastSeenId, d.lastSeenId));
      vars := vars.(optinRunning := Keep(vars.optinRunning, d.optinRunning));
      vars := vars.(nextBattleYear := Keep(vars.nextBattleYear, d.nextBattleYear));
      vars := vars.(nextBattleMonth := Keep(vars.nextBattleMonth, d.nextBattleMonth));
      vars := vars.(nextBattleDay := Keep(vars.nextBattleDay, d.nextBattleDay));
      vars := vars.(nextBattleHour := Keep(vars.nextBattleHour, d.nextBattleHour));
      vars := vars.(nextBattleMinute := Keep(vars.nextBattleMinute, d.nextBattleMinute));
      vars := vars.(battleFrequencyHours := Keep(vars.battleFrequencyHours, d.battleFrequencyHours));
      vars := vars.(battleFrequencyMinutes := Keep(vars.battleFrequencyMinutes, d.battleFrequencyMinutes));
      vars := vars.(stopFrequency := Keep(vars.stopFrequency, d.stopFrequency));
      vars := vars.(stopNextBattle := Keep(vars.stopNextBattle, d.stopNextBattle));
      vars := vars.(fighterAnnounce := Keep(vars.fighterAnnounce, d.fighterAnnounce));
      vars := vars.(announceQueue := Keep(vars.announceQueue, d.announceQueue));
      vars := vars.(battleQueue := Keep(vars.battleQueue, d.battleQueue));
      vars := vars.(messageQueue := Keep(vars.messageQueue, d.messageQueue));
    }

    // ---- fighters and candidates tables ----

    /** `insert_fighter`: adds the row unless the name is taken; the name leaves the candidates either way. */
    method InsertFighter(u: string, alive: bool)
      requires Valid()
      modifies this
      ensures Valid()
      ensures fighters == Roster.InsertFighter(old(fighters), u, alive)
      ensures candidates == RemoveName(old(candidates), u)
      ensures vars == old(vars)
    {
      fighters := Roster.InsertFighter(fighters, u, alive);
      DeleteCandidate(u);
    }

    /** `insert_candidate`: adds the name unless it is already a candidate. */
    method InsertCandidate(u: string)
      requires Valid()
      modifies this
      ensures Valid()
      ensures candidates == InsertName(old(candidates), u)
      ensures fighters == old(fighters) && vars == old(vars)
    {
      if u !in candidates {
        candidates := candidates + [u];
      }
    }

    /**
     * `insert_fighter_kill`: records that `u` killed `k`, at most once. For an
     * unknown `u` the source builds `[k]` and updates no record.
     */
    method InsertFighterKill(u: string, k: string)
      requires Valid()
      modifies this
      ensures Valid()
      ensures fighters == InsertKill(old(fighters), u, k)
      ensures candidates == old(candidates) && vars == old(vars)
    {
      InsertKillWellFormed(fighters, u, k);
      fighters := InsertKill(fighters, u, k);
    }

    /** `change_fighter_alive`: only the `alive` field of the rows named `u`. */
    method ChangeFighterAlive(u: string, alive: bool)
      requires Valid()
      modifies this
      ensures Valid()
      ensures fighters == SetAlive(old(fighters), u, alive)
      ensures candidates == old(candidates) && vars == old(vars)
    {
      fighters := SetAlive(fighters, u, alive);
    }

    /** `change_fighter_show`: only the `show` field of the rows named `u`. */
    method ChangeFighterShow(u: string, show: bool)
      requires Valid()
      modifies this
      ensures Valid()
      ensures fighters == SetShow(old(fighters), u, show)
      ensures candidates == old(candidates) && vars == old(vars)
    {
      fighters := SetShow(fighters, u, show);
    }

    /** `delete_fighter`. */
    method DeleteFighter(u: string)
      requires Valid()
      modifies this
      ensures Valid()
      ensures fighters == RemoveFighter(old(fighters), u)
      ensures candidates == old(candidates) && vars == old(vars)
    {
      RemoveFighterWellFormed(fighters, u);
      fighters := RemoveFighter(fighters, u);
    }

    /** `delete_candidate`. */
    method DeleteCandidate(u: string)
      requires WellFormed(fighters) && Distinct(candidates) && VarsValid(vars)
      modifies this
      ensures Valid()
      ensures candidates == RemoveName(old(candidates), u)
      ensures fighters == old(fighters) && vars == old(vars)
    {
      RemoveNameDistinct(candidates, u);
      candidates := RemoveName(candidates, u);
    }

    // ---- vars table: scalar variables ----

    function GetLastSeenId(): int
      requires Valid()
      reads this
    {
      vars.lastSeenId.value
    }

    method UpdateLastSeen(x: int)
      requires Valid()
      modifies this
      ensures Valid() && GetLastSeenId() == x
      ensures vars == old(vars).(lastSeenId := Some(x))
      ensures fighters == old(fighters) && candidates == old(candidates)
    {
      vars := vars.(lastSeenId := Some(x));
    }

    function GetOptinRunning(): bool
      requires Valid()
      reads this
    {
      vars.optinRunning.value
    }

    method UpdateOptinRunning(x: bool)
      requires Valid()
      modifies this
      ensures Valid() && GetOptinRunning() == x
      ensures vars == old(vars).(optinRunning := Some(x))
      ensures fighters == old(fighters) && candidates == old(candidates)
    {
      vars := vars.(optinRunning := Some(x));
    }

    /** `get_next_battle`: the stored date, always a valid `datetime`. */
    function GetNextBattle(): (d: Calendar.DateTime)
      requires Valid()
      reads this
      ensures Calendar.Valid(d)
    {
      DateOf(vars)
    }

    /** `update_next_battle`: writes the five fields; reading them back gives `d`. */
    method UpdateNextBattle(d: Calendar.DateTime)
      requires Valid() && Calendar.Valid(d)
      modifies this
      ensures Valid() && GetNextBattle() == d
      ensures vars == StoreDate(old(vars), d)
      ensures fighters == old(fighters) && candidates == old(candidates)
    {
      StoreDateRoundTrip(vars, d);
      vars := StoreDate(vars, d);
    }

    /** `get_battle_frequency`: the stored (hours, minutes) cells. */
    function GetBattleFrequency(): (Amount, Amount)
      requires Valid()
      reads this
    {
      (vars.battleFrequencyHours.value, vars.battleFrequencyMinutes.value)
    }

    /** `update_battle_frequency`: stores whatever it is given. */
    method UpdateBattleFrequency(hours: Amount, minutes: Amount)
      requires Valid()
      modifies this
      ensures Valid() && GetBattleFrequency() == (hours, minutes)
      ensures vars == old(vars).(battleFrequencyHours := Some(hours), battleFrequencyMinutes := Some(minutes))
      ensures fighters == old(fighters) && candidates == old(candidates)
    {
      vars := vars.(battleFrequencyHours := Some(hours), battleFrequencyMinutes := Some(minutes));
    }

    function GetStopFrequency(): bool
      requires Valid()
      reads this
    {
      vars.stopFrequency.value
    }

    method UpdateStopFrequency(x: bool)
      requires Valid()
      modifies this
      ensures Valid() && GetStopFrequency() == x
      ensures vars == old(vars).(stopFrequency := Some(x))
      ensures fighters == old(fighters) && candidates == old(candidates)
    {
      vars := vars.(stopFrequency := Some(x));
    }

    function GetStopNextBattle(): bool
      requires Valid()
      reads this
    {
      vars.stopNextBattle.value
    }

    method UpdateStopNextBattle(x: bool)
      requires Valid()
      modifies this
      ensures Valid() && GetStopNextBattle() == x
      ensures vars == old(vars).(stopNextBattle := Some(x))
      ensures fighters == old(fighters) && candidates == old(candidates)
    {
      vars := vars.(stopNextBattle := Some(x));
    }

    function GetFighterAnnounce(): bool
      requires Valid()
      reads this
    {
      vars.fighterAnnounce.value
    }

    method UpdateFighterAnnounce(x: bool)
      requires Valid()
      modifies this
      ensures Valid() && GetFighterAnnounce() == x
      ensures vars == old(vars).(fighterAnnounce := Some(x))
      ensures fighters == old(fighters) && candidates == old(candidates)
    {
      vars := vars.(fighterAnnounce := Some(x));
    }

    // ---- vars table: the three queues ----

    function GetAnnounceQueue(): seq<string>
      requires Valid()
      reads this
    {
      vars.announceQueue.value
    }

    method UpdateAnnounceQueue(q: seq<string>)
      requires Valid()
      modifies this
      ensures Valid() && GetAnnounceQueue() == q
      ensures vars == old(vars).(announceQueue := Some(q))
      ensures fighters == old(fighters) && candidates == old(candidates)
    {
      vars := vars.(announceQueue := Some(q));
    }

    /** `add_announce_queue`: appends at the end (the `list.sort` there is never called, so order is kept). */
    method AddAnnounceQueue(u: string)
      requires Valid()
      modifies this
      ensures Valid() && GetAnnounceQueue() == old(GetAnnounceQueue()) + [u]
      ensures vars == old(vars).(announceQueue := Some(old(GetAnnounceQueue()) + [u]))
      ensures fighters == old(fighters) && candidates == old(candidates)
    {
      var q := GetAnnounceQueue();
      q := q + [u];
      UpdateAnnounceQueue(q);
    }

    /** Resets the queue to the empty list. */
    method DeleteAnnounceQueue()
      requires Valid()
      modifies this
      ensures Valid() && GetAnnounceQueue() == []
      ensures vars == old(vars).(announceQueue := Some([]))
      ensures fighters == old(fighters) && candidates == old(candidates)
    {
      UpdateAnnounceQueue([]);
    }

    function GetBattleQueue(): seq<BattleRecord>
      requires Valid()
      reads this
    {
      vars.battleQueue.value
    }

    method UpdateBattleQueue(q: seq<BattleRecord>)
      requires Valid()
      modifies this
      ensures Valid() && GetBattleQueue() == q
      ensures vars == old(vars).(battleQueue := Some(q))
      ensures fighters == old(fighters) && candidates == old(candidates)
    {
      vars := vars.(battleQueue := Some(q));
    }

    /** `add_battle_queue`: appends one `{winner, defeated}` record at the end. */
    method AddBattleQueue(winner: string, defeated: string)
      requires Valid()
      modifies this
      ensures Valid() && GetBattleQueue() == old(GetBattleQueue()) + [BattleRecord(winner, defeated)]
      ensures vars == old(vars).(battleQueue := Some(old(GetBattleQueue()) + [BattleRecord(winner, defeated)]))
      ensures fighters == old(fighters) && candidates == old(candidates)
    {
      var q := GetBattleQueue();
      q := q + [BattleRecord(winner, defeated)];
      UpdateBattleQueue(q);
    }

    /** Resets the queue to the empty list. */
    method DeleteBattleQueue()
      requires Valid()
      modifies this
      ensures Valid() && GetBattleQueue() == []
      ensures vars == old(vars).(battleQueue := Some([]))
      ensures fighters == old(fighters) && candidates == old(candidates)
    {
      UpdateBattleQueue([]);
    }

    function GetMessageQueue(): seq<string>
      requires Valid()
      reads this
    {
      vars.messageQueue.value
    }

    method UpdateMessageQueue(q: seq<string>)
      requires Valid()
      modifies this
      ensures Valid() && GetMessageQueue() == q
      ensures vars == old(vars).(messageQueue := Some(q))
      ensures fighters == old(fighters) && candidates == old(candidates)
    {
      vars := vars.(messageQueue := Some(q));
    }

    /** `add_message_queue`: appends at the end. */
    method AddMessageQueue(m: string)
      requires Valid()
      modifies this
      ensures Valid() && GetMessageQueue() == old(GetMessageQueue()) + [m]
      ensures vars == old(vars).(messageQueue := Some(old(GetMessageQueue()) + [m]))
      ensures fighters == old(fighters) && candidates == old(candidates)
    {
      var q := GetMessageQueue();
      q := q + [m];
      UpdateMessageQueue(q);
    }

    /** Resets the queue to the empty list. */
    method DeleteMessageQueue()
      requires Valid()
      modifies this
      ensures Valid() && GetMessageQueue() == []
      ensures vars == old(vars).(messageQueue := Some([]))
      ensures fighters == old(fighters) && candidates == old(candidates)
    {
      UpdateMessageQueue([]);
    }

    /**
     * `restart`: when the file can be removed (`removable`, the outcome of
     * `os.remove`), both tables are emptied and the variables reset to their
     * defaults; otherwise nothing changes. Returns whether it wiped.
     */
    method Restart(removable: bool) returns (ok: bool)
      requires Valid()
      modifies this
      ensures Valid()
      ensures ok == removable
      ensures ok ==> fighters == [] && candidates == [] && vars == DefaultVars()
      ensures !ok ==> fighters == old(fighters) && candidates == old(candidates) && vars == old(vars)
    {
      ok := removable;
      if ok {
        fighters, candidates, vars := [], [], NoVars();
        SetupVars();
      }
    }
  }
}

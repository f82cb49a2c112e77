/**
 * The game controller (`WarBot`): roster operations with their checks, the
 * weighted draw of a duel, the application of a duel, and the next-battle
 * setter. It owns the store and changes it only through the store's methods.
 */
module Warbot {
  import opened Wrappers
  import Calendar
  import opened Roster
  import opened Database
  import opened Schedule

  /** `show_threshold`: losers are hidden once this many fighters are still alive. */
  const ShowThreshold := 100

  /** The fighters table after `winner` defeats `defeated` (warbot.py:163-168). */
  function ApplyDuel(fs: seq<Fighter>, winner: string, defeated: string): seq<Fighter> {
    var killed := SetAlive(InsertKill(fs, winner, defeated), defeated, false);
    if |AliveUsers(killed)| >= ShowThreshold then SetShow(killed, defeated, false) else killed
  }

  /** Only usernames and alive flags decide the alive listing. */
  lemma {:induction false} AliveUsersByFlags(a: seq<Fighter>, b: seq<Fighter>)
    requires |a| == |b|
    requires forall i :: 0 <= i < |a| ==> a[i].username == b[i].username && a[i].alive == b[i].alive
    ensures AliveUsers(a) == AliveUsers(b)
  {
    if a != [] {
      AliveUsersByFlags(a[..|a| - 1], b[..|b| - 1]);
    }
  }

  /**
   * The effects of a duel on the table: the winner has killed the defeated
   * exactly once, the defeated is dead, the defeated is hidden exactly when at
   * least ShowThreshold fighters are alive after the kill (otherwise its show
   * flag is untouched), and no other fighter changes.
   */
  lemma ApplyDuelEffects(fs: seq<Fighter>, w: string, d: string)
    requires WellFormed(fs)
    ensures var r := ApplyDuel(fs, w, d);
      && |r| == |fs| && Usernames(r) == Usernames(fs) && WellFormed(r)
      && (forall i :: 0 <= i < |fs| && fs[i].username == w ==> Count(r[i].killed, d) == 1)
      && (forall i :: 0 <= i < |fs| && fs[i].username == d ==> !r[i].alive)
      && (forall i :: 0 <= i < |fs| && fs[i].username == d ==>
            r[i].show == (if |AliveUsers(SetAlive(fs, d, false))| >= ShowThreshold then false else fs[i].show))
      && (forall i :: 0 <= i < |fs| && fs[i].username != w && fs[i].username != d ==> r[i] == fs[i])
      && (forall i :: 0 <= i < |fs| && fs[i].username == w && w != d ==>
            r[i].alive == fs[i].alive && r[i].show == fs[i].show)
  {
    var k := InsertKill(fs, w, d);
    var killed := SetAlive(k, d, false);
    AliveUsersByFlags(killed, SetAlive(fs, d, false));
    InsertKillWellFormed(fs, w, d);
    forall i | 0 <= i < |fs| && fs[i].username == w
      ensures Count(ApplyDuel(fs, w, d)[i].killed, d) == 1
    {
      InsertKillOnce(fs, w, d, i);
    }
  }

  /** A repeated duel between the same pair leaves every killed list as one duel did. */
  lemma ApplyDuelKillsIdempotent(fs: seq<Fighter>, w: string, d: string)
    ensures forall i :: 0 <= i < |fs| ==>
      ApplyDuel(ApplyDuel(fs, w, d), w, d)[i].killed == ApplyDuel(fs, w, d)[i].killed
  {
    var once := ApplyDuel(fs, w, d);
    forall i | 0 <= i < |fs|
      ensures ApplyDuel(once, w, d)[i].killed == once[i].killed
    {
      assert once[i].killed == InsertKill(fs, w, d)[i].killed;
    }
  }

  lemma {:induction false} AliveUsersAreUsers(fs: seq<Fighter>, u: string)
    requires u in AliveUsers(fs)
    ensures u in Usernames(fs)
  {
    AliveUsersMembership(fs, u);
    var i :| 0 <= i < |fs| && fs[i].username == u && fs[i].alive;
    assert Usernames(fs)[i] == u;
  }

  /** With unique usernames the alive listing has no repeats. */
  lemma {:induction false} AliveUsersDistinct(fs: seq<Fighter>)
    requires Distinct(Usernames(fs))
    ensures Distinct(AliveUsers(fs))
  {
    if fs != [] {
      var init := fs[..|fs| - 1];
      var last := fs[|fs| - 1];
      assert Usernames(init) == Usernames(fs)[..|fs| - 1];
      AliveUsersDistinct(init);
      if last.alive {
        assert last.username !in Usernames(init);
        if last.username in AliveUsers(init) {
          AliveUsersAreUsers(init, last.username);
        }
      }
    }
  }

  class WarBot {
    const db: WarBotDB

    ghost predicate Valid()
      reads this, db
    {
      db.Valid()
    }

    /** Opens the store with the given file contents. */
    constructor (fs: seq<Fighter>, cs: seq<string>, v: Vars)
      requires Persisted(fs, cs, v)
      ensures Valid() && fresh(db)
      ensures db.fighters == fs && db.candidates == cs && db.vars == SetupVarsOf(v)
    {
      db := new WarBotDB(fs, cs, v);
    }

    /** `get_users`. */
    function GetUsers(): seq<string>
      reads this, db
    {
      Usernames(db.fighters)
    }

    /** `get_alive_users`. */
    function GetAliveUsers(): seq<string>
      reads this, db
    {
      AliveUsers(db.fighters)
    }

    /** `get_dead_users`. */
    function GetDeadUsers(): seq<string>
      reads this, db
    {
      DeadUsers(db.fighters)
    }

    /**
     * `get_random_users`: collects the alive fighters and their weights, and
     * when at least two are alive draws two different ones (the weighted draw
     * itself is a free choice here); otherwise (None, None).
     */
    method GetRandomUsers() returns (winner: Option<string>, defeated: Option<string>)
      requires Valid()
      ensures winner.None? <==> |AliveUsers(db.fighters)| < 2
      ensures winner.None? <==> defeated.None?
      ensures winner.Some? ==> winner.value in AliveUsers(db.fighters) && defeated.value in AliveUsers(db.fighters)
      ensures winner.Some? ==> winner.value != defeated.value
    {
      var fs := db.fighters;
      var users: seq<string> := [];
      var weight: seq<real> := [];
      var i := 0;
      while i < |fs|
        invariant 0 <= i <= |fs|
        invariant users == AliveUsers(fs[..i])
        invariant weight == AliveWeights(fs[..i])
      {
        assert fs[..i + 1][..i] == fs[..i];
        if fs[i].alive {
          users := users + [fs[i].username];
          var w := 1.0 + |fs[i].killed| as real * KillFactor;
          weight := weight + [w];
        }
        i := i + 1;
      }
      assert fs[..i] == fs;
      if |weight| >= 2 {
        NormalizeIsDistribution(weight);
        var norm := Normalize(weight);
        var a, b :| 0 <= a < |users| && 0 <= b < |users| && a != b;
        AliveUsersDistinct(fs);
        winner, defeated := Some(users[a]), Some(users[b]);
      } else {
        winner, defeated := None, None;
      }
    }

    /**
     * `force_battle`: when both names are fighters (the same name twice and
     * dead fighters included), records the kill, kills the defeated, queues the
     * result and hides the defeated on a crowded roster. Otherwise nothing changes.
     */
    method ForceBattle(winner: string, defeated: string) returns (ok: bool)
      requires Valid()
      modifies db
      ensures Valid()
      ensures ok == (winner in old(GetUsers()) && defeated in old(GetUsers()))
      ensures ok ==> db.fighters == ApplyDuel(old(db.fighters), winner, defeated)
      ensures ok ==> db.GetBattleQueue() == old(db.GetBattleQueue()) + [BattleRecord(winner, defeated)]
      ensures ok ==> db.vars == old(db.vars).(battleQueue := Some(old(db.GetBattleQueue()) + [BattleRecord(winner, defeated)]))
      ensures db.candidates == old(db.candidates)
      ensures !ok ==> db.fighters == old(db.fighters) && db.vars == old(db.vars)
    {
      if winner in GetUsers() && defeated in GetUsers() {
        db.InsertFighterKill(winner, defeated);
        db.ChangeFighterAlive(defeated, false);
        db.AddBattleQueue(winner, defeated);
        if |GetAliveUsers()| >= ShowThreshold {
          db.ChangeFighterShow(defeated, false);
        }
        ok := true;
      } else {
        ok := false;
      }
    }

    /** `battle`: a random duel, applied; (None, None) and no change when fewer than two are alive. */
    method Battle() returns (winner: Option<string>, defeated: Option<string>)
      requires Valid()
      modifies db
      ensures Valid()
      ensures winner.None? <==> |AliveUsers(old(db.fighters))| < 2
      ensures winner.None? <==> defeated.None?
      ensures winner.None? ==> db.fighters == old(db.fighters) && db.vars == old(db.vars)
      ensures winner.Some? ==>
        && winner.value in AliveUsers(old(db.fighters)) && defeated.value in AliveUsers(old(db.fighters))
        && winner.value != defeated.value
        && db.fighters == ApplyDuel(old(db.fighters), winner.value, defeated.value)
        && db.GetBattleQueue() == old(db.GetBattleQueue()) + [BattleRecord(winner.value, defeated.value)]
        && db.vars == old(db.vars).(battleQueue := Some(old(db.GetBattleQueue()) + [BattleRecord(winner.value, defeated.value)]))
      ensures db.candidates == old(db.candidates)
    {
      winner, defeated := GetRandomUsers();
      if winner.Some? {
        AliveUsersAreUsers(db.fighters, winner.value);
        AliveUsersAreUsers(db.fighters, defeated.value);
        var ok := ForceBattle(winner.value, defeated.value);
      }
    }

    /** `add_user`: false and no change for a known name; otherwise `insert_fighter`. */
    method AddUser(u: string) returns (ok: bool)
      requires Valid()
      modifies db
      ensures Valid()
      ensures ok == (u !in old(GetUsers()))
      ensures ok ==> db.fighters == old(db.fighters) + [NewFighter(u, true)]
      ensures ok ==> db.candidates == RemoveName(old(db.candidates), u)
      ensures !ok ==> db.fighters == old(db.fighters) && db.candidates == old(db.candidates)
      ensures db.vars == old(db.vars)
    {
      if u in GetUsers() {
        ok := false;
      } else {
        db.InsertFighter(u, true);
        ok := true;
      }
    }

    /** `delete_user`: false and no change for an unknown name; otherwise the row is removed. */
    method DeleteUser(u: string) returns (ok: bool)
      requires Valid()
      modifies db
      ensures Valid()
      ensures ok == (u in old(GetUsers()))
      ensures db.fighters == RemoveFighter(old(db.fighters), u)
      ensures db.candidates == old(db.candidates) && db.vars == old(db.vars)
    {
      if u in GetUsers() {
        db.DeleteFighter(u);
        ok := true;
      } else {
        ok := false;
      }
    }

    /** `add_candidate`: false and no change for a known candidate. Fighters are not consulted. */
    method AddCandidate(u: string) returns (ok: bool)
      requires Valid()
      modifies db
      ensures Valid()
      ensures ok == (u !in old(db.candidates))
      ensures db.candidates == InsertName(old(db.candidates), u)
      ensures db.fighters == old(db.fighters) && db.vars == old(db.vars)
    {
      if u in db.candidates {
        ok := false;
      } else {
        db.InsertCandidate(u);
        ok := true;
      }
    }

    /** `delete_candidate`: false and no change for an unknown candidate. */
    method DeleteCandidate(u: string) returns (ok: bool)
      requires Valid()
      modifies db
      ensures Valid()
      ensures ok == (u in old(db.candidates))
      ensures db.candidates == RemoveName(old(db.candidates), u)
      ensures db.fighters == old(db.fighters) && db.vars == old(db.vars)
    {
      if u in db.candidates {
        db.DeleteCandidate(u);
        ok := true;
      } else {
        ok := false;
      }
    }

    /** `revive_user`: true exactly for an existing dead fighter, who is then alive. */
    method ReviveUser(u: string) returns (ok: bool)
      requires Valid()
      modifies db
      ensures Valid()
      ensures ok == (u in old(GetDeadUsers()))
      ensures ok ==> db.fighters == SetAlive(old(db.fighters), u, true)
      ensures !ok ==> db.fighters == old(db.fighters)
      ensures db.candidates == old(db.candidates) && db.vars == old(db.vars)
    {
      DeadUsersMembership(db.fighters, u);
      if u in GetUsers() {
        var k := FirstNamed(db.fighters, u);
        if !db.fighters[k].alive {
          db.ChangeFighterAlive(u, true);
          ok := true;
        } else {
          ok := false;
        }
      } else {
        ok := false;
      }
    }

    /**
     * `set_next_battle`: an absolute date is stored as given; a bare hour is
     * stored for today or, if already past, tomorrow; anything else is refused
     * and the stored date is left alone. `now` is the clock reading.
     */
    method SetNextBattle(input: string, now: Calendar.DateTime) returns (ok: bool)
      requires Valid() && ValidClock(now)
      modifies db
      ensures Valid()
      ensures ok == NextBattleFor(input, now).Some?
      ensures ok ==> db.GetNextBattle() == NextBattleFor(input, now).value
      ensures ok ==> db.vars == StoreDate(old(db.vars), NextBattleFor(input, now).value)
      ensures !ok ==> db.vars == old(db.vars)
      ensures db.fighters == old(db.fighters) && db.candidates == old(db.candidates)
    {
      var date := ParseAbsolute(input);
      if date.Some? {
        db.UpdateNextBattle(date.value);
        return true;
      }
      var hour := ParseClock(input);
      ok := hour.Some?;
      if ok {
        var (h, m) := hour.value;
        var next: Calendar.DateTime;
        if h < now.hour {
          next := Calendar.NextDay(now);
        } else if h == now.hour {
          if m < now.minute {
            next := Calendar.NextDay(now);
          } else {
            next := now;
          }
        } else {
          next := now;
        }
        next := Calendar.WithTime(next, h, m);
        db.UpdateNextBattle(next);
      }
    }
  }

  /** The index of the first row named `u` (the `next(...)` at warbot.py:254). */
  method FirstNamed(fs: seq<Fighter>, u: string) returns (k: nat)
    requires u in Usernames(fs)
    ensures k < |fs| && fs[k].username == u
    ensures forall j :: 0 <= j < k ==> fs[j].username != u
  {
    k := 0;
    while fs[k].username != u
      invariant k < |fs|
      invariant forall j :: 0 <= j < k ==> fs[j].username != u
      invariant exists j :: k <= j < |fs| && fs[j].username == u
      decreases |fs| - k
    {
      k := k + 1;
    }
  }
}

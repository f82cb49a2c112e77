/**
 * The fighters and candidates tables as values, and the record-level updates
 * the store applies to them. A TinyDB `update(..., username == u)` touches
 * every matching record, and `remove(where('username') == u)` drops every
 * matching record; the functions below do the same.
 */
module Roster {
  import opened Wrappers

  /** A row of the `fighters` table. */
  datatype Fighter = Fighter(username: string, alive: bool, killed: seq<string>, show: bool)

  predicate Distinct<T(==)>(s: seq<T>) {
    forall i, j :: 0 <= i < j < |s| ==> s[i] != s[j]
  }

  function Count<T(==)>(s: seq<T>, x: T): (n: nat)
    ensures n <= |s|
    ensures x !in s ==> n == 0
  {
    if s == [] then 0 else Count(s[..|s| - 1], x) + (if s[|s| - 1] == x then 1 else 0)
  }

  lemma {:induction false} CountAppend<T>(s: seq<T>, x: T, y: T)
    ensures Count(s + [y], x) == Count(s, x) + (if y == x then 1 else 0)
  {
    assert (s + [y])[..|s|] == s;
  }

  lemma {:induction false} CountDistinct<T>(s: seq<T>, x: T)
    requires Distinct(s) && x in s
    ensures Count(s, x) == 1
  {
    var last := s[|s| - 1];
    var init := s[..|s| - 1];
    assert s == init + [last];
    if last == x {
      assert x !in init by {
        forall i | 0 <= i < |init| ensures init[i] != x {
          assert s[i] == init[i];
        }
      }
    } else {
      assert x in init by {
        var k :| 0 <= k < |s| && s[k] == x;
        assert k < |s| - 1 && init[k] == x;
      }
      CountDistinct(init, x);
    }
  }

  /** `get_users`: every fighter's username, in table order. */
  function Usernames(fs: seq<Fighter>): (us: seq<string>)
    ensures |us| == |fs|
    ensures forall i :: 0 <= i < |fs| ==> us[i] == fs[i].username
  {
    seq(|fs|, i requires 0 <= i < |fs| => fs[i].username)
  }

  /** `get_alive_users`: the usernames of alive fighters, in table order. */
  function AliveUsers(fs: seq<Fighter>): (us: seq<string>)
    ensures |us| <= |fs|
  {
    if fs == [] then []
    else AliveUsers(fs[..|fs| - 1]) + (if fs[|fs| - 1].alive then [fs[|fs| - 1].username] else [])
  }

  /** `get_dead_users`: the usernames of dead fighters, in table order. */
  function DeadUsers(fs: seq<Fighter>): (us: seq<string>)
    ensures |us| <= |fs|
  {
    if fs == [] then []
    else DeadUsers(fs[..|fs| - 1]) + (if !fs[|fs| - 1].alive then [fs[|fs| - 1].username] else [])
  }

  /** A name is listed as alive exactly when some alive record carries it. */
  lemma {:induction false} AliveUsersMembership(fs: seq<Fighter>, u: string)
    ensures u in AliveUsers(fs) <==> exists i :: 0 <= i < |fs| && fs[i].username == u && fs[i].alive
  {
    if fs != [] {
      var init := fs[..|fs| - 1];
      AliveUsersMembership(init, u);
      assert forall i :: 0 <= i < |init| ==> init[i] == fs[i];
    }
  }

  /** A name is listed as dead exactly when some dead record carries it. */
  lemma {:induction false} DeadUsersMembership(fs: seq<Fighter>, u: string)
    ensures u in DeadUsers(fs) <==> exists i :: 0 <= i < |fs| && fs[i].username == u && !fs[i].alive
  {
    if fs != [] {
      var init := fs[..|fs| - 1];
      DeadUsersMembership(init, u);
      assert forall i :: 0 <= i < |init| ==> init[i] == fs[i];
    }
  }

  /** Alive and dead listings split the roster: every fighter is in exactly one. */
  lemma {:induction false} AliveDeadPartition(fs: seq<Fighter>)
    ensures |AliveUsers(fs)| + |DeadUsers(fs)| == |fs|
  {
    if fs != [] {
      AliveDeadPartition(fs[..|fs| - 1]);
    }
  }

  /** The table invariants the store keeps: unique usernames, no kill listed twice. */
  predicate WellFormed(fs: seq<Fighter>) {
    && Distinct(Usernames(fs))
    && forall i :: 0 <= i < |fs| ==> Distinct(fs[i].killed)
  }

  /** A row as `insert_fighter` creates it. */
  function NewFighter(u: string, alive: bool): Fighter {
    Fighter(u, alive, [], true)
  }

  /** `insert_fighter`'s effect on the fighters table: a new row unless the name is taken. */
  function InsertFighter(fs: seq<Fighter>, u: string, alive: bool): (r: seq<Fighter>)
    ensures u in Usernames(fs) ==> r == fs
    ensures u !in Usernames(fs) ==> r == fs + [Fighter(u, alive, [], true)]
    ensures WellFormed(fs) ==> WellFormed(r)
    ensures u in Usernames(r)
  {
    if u in Usernames(fs) then fs
    else
      var r := fs + [NewFighter(u, alive)];
      assert Usernames(r) == Usernames(fs) + [u];
      r
  }

  /** `insert_fighter_kill`: `k` is appended to the killed list of `u` unless already there. */
  function InsertKill(fs: seq<Fighter>, u: string, k: string): (r: seq<Fighter>)
    ensures |r| == |fs| && Usernames(r) == Usernames(fs)
    ensures forall i :: 0 <= i < |fs| && fs[i].username != u ==> r[i] == fs[i]
    ensures forall i :: 0 <= i < |fs| && fs[i].username == u ==>
              && r[i].alive == fs[i].alive && r[i].show == fs[i].show
              && k in r[i].killed
              && (k in fs[i].killed ==> r[i].killed == fs[i].killed)
              && (k !in fs[i].killed ==> r[i].killed == fs[i].killed + [k])
  {
    seq(|fs|, i requires 0 <= i < |fs| =>
      if fs[i].username == u && k !in fs[i].killed then fs[i].(killed := fs[i].killed + [k]) else fs[i])
  }

  /** `change_fighter_alive`. */
  function SetAlive(fs: seq<Fighter>, u: string, b: bool): (r: seq<Fighter>)
    ensures |r| == |fs| && Usernames(r) == Usernames(fs)
    ensures forall i :: 0 <= i < |fs| ==>
              && r[i].killed == fs[i].killed && r[i].show == fs[i].show
              && r[i].alive == (if fs[i].username == u then b else fs[i].alive)
  {
    seq(|fs|, i requires 0 <= i < |fs| => if fs[i].username == u then fs[i].(alive := b) else fs[i])
  }

  /** `change_fighter_show`. */
  function SetShow(fs: seq<Fighter>, u: string, b: bool): (r: seq<Fighter>)
    ensures |r| == |fs| && Usernames(r) == Usernames(fs)
    ensures forall i :: 0 <= i < |fs| ==>
              && r[i].killed == fs[i].killed && r[i].alive == fs[i].alive
              && r[i].show == (if fs[i].username == u then b else fs[i].show)
  {
    seq(|fs|, i requires 0 <= i < |fs| => if fs[i].username == u then fs[i].(show := b) else fs[i])
  }

  /** `delete_fighter`: every row named `u` removed, the others kept in order. */
  function RemoveFighter(fs: seq<Fighter>, u: string): (r: seq<Fighter>)
    ensures |r| <= |fs|
    ensures u !in Usernames(r)
    ensures u !in Usernames(fs) ==> r == fs
    ensures forall x :: x in r <==> x in fs && x.username != u
  {
    if fs == [] then []
    else
      var init := RemoveFighter(fs[..|fs| - 1], u);
      var last := fs[|fs| - 1];
      assert fs == fs[..|fs| - 1] + [last];
      if last.username == u then init
      else
        assert Usernames(init + [last]) == Usernames(init) + [last.username];
        init + [last]
  }

  /** `delete_candidate`: every occurrence of `u` removed, the others kept in order. */
  function RemoveName(cs: seq<string>, u: string): (r: seq<string>)
    ensures |r| <= |cs|
    ensures u !in r
    ensures u !in cs ==> r == cs
    ensures forall x :: x in r <==> x in cs && x != u
  {
    if cs == [] then []
    else
      var init := RemoveName(cs[..|cs| - 1], u);
      assert cs == cs[..|cs| - 1] + [cs[|cs| - 1]];
      if cs[|cs| - 1] == u then init else init + [cs[|cs| - 1]]
  }

  /** `insert_candidate`: a new candidate unless the name is already a candidate. */
  function InsertName(cs: seq<string>, u: string): (r: seq<string>)
    ensures u in cs ==> r == cs
    ensures u !in cs ==> r == cs + [u]
    ensures Distinct(cs) ==> Distinct(r)
  {
    if u in cs then cs else cs + [u]
  }

  lemma {:induction false} RemoveNameDistinct(cs: seq<string>, u: string)
    requires Distinct(cs)
    ensures Distinct(RemoveName(cs, u))
  {
    if cs != [] {
      var init := cs[..|cs| - 1];
      assert Distinct(init);
      RemoveNameDistinct(init, u);
      var last := cs[|cs| - 1];
      assert last !in init by {
        forall i | 0 <= i < |init| ensures init[i] != last {
          assert cs[i] == init[i];
        }
      }
    }
  }

  lemma {:induction false} RemoveFighterWellFormed(fs: seq<Fighter>, u: string)
    requires WellFormed(fs)
    ensures WellFormed(RemoveFighter(fs, u))
  {
    if fs != [] {
      var init := fs[..|fs| - 1];
      var last := fs[|fs| - 1];
      assert Usernames(init) == Usernames(fs)[..|fs| - 1];
      RemoveFighterWellFormed(init, u);
      var r := RemoveFighter(init, u);
      if last.username != u {
        assert last.username !in Usernames(r);
        assert Usernames(r + [last]) == Usernames(r) + [last.username];
        forall i | 0 <= i < |r + [last]| ensures Distinct((r + [last])[i].killed) {
          if i < |r| {
            assert r[i] in init;
          }
        }
      }
    }
  }

  lemma InsertKillWellFormed(fs: seq<Fighter>, u: string, k: string)
    requires WellFormed(fs)
    ensures WellFormed(InsertKill(fs, u, k))
  {
    var r := InsertKill(fs, u, k);
    forall i | 0 <= i < |r| ensures Distinct(r[i].killed) {
      if fs[i].username == u && k !in fs[i].killed {
        assert r[i].killed == fs[i].killed + [k];
      }
    }
  }

  /** Recording the same kill twice changes nothing more than recording it once. */
  lemma InsertKillIdempotent(fs: seq<Fighter>, u: string, k: string)
    ensures InsertKill(InsertKill(fs, u, k), u, k) == InsertKill(fs, u, k)
  {
  }

  /** After a kill is recorded, the victim appears exactly once in the killer's list. */
  lemma InsertKillOnce(fs: seq<Fighter>, u: string, k: string, i: nat)
    requires WellFormed(fs) && i < |fs| && fs[i].username == u
    ensures Count(InsertKill(fs, u, k)[i].killed, k) == 1
  {
    InsertKillWellFormed(fs, u, k);
    CountDistinct(InsertKill(fs, u, k)[i].killed, k);
  }

  /** Selection weight: `1 + KILLFACTOR * len(killed)` with KILLFACTOR = 0.5. */
  const KillFactor: real := 0.5

  function Weight(f: Fighter): real {
    1.0 + KillFactor * |f.killed| as real
  }

  /** Weights are at least 1, so every alive fighter can be drawn and the total is positive. */
  lemma WeightAtLeastOne(f: Fighter)
    ensures Weight(f) >= 1.0
  {
  }

  /** More kills means a strictly larger weight. */
  lemma WeightStrictlyIncreasing(a: Fighter, b: Fighter)
    requires |a.killed| < |b.killed|
    ensures Weight(a) < Weight(b)
  {
  }

  /** The weights of the alive fighters, in table order (the `weight` list). */
  function AliveWeights(fs: seq<Fighter>): (ws: seq<real>)
    ensures |ws| == |AliveUsers(fs)|
    ensures forall k :: 0 <= k < |ws| ==> ws[k] >= 1.0
  {
    if fs == [] then []
    else AliveWeights(fs[..|fs| - 1]) + (if fs[|fs| - 1].alive then [Weight(fs[|fs| - 1])] else [])
  }

  function Sum(ws: seq<real>): real {
    if ws == [] then 0.0 else Sum(ws[..|ws| - 1]) + ws[|ws| - 1]
  }

  lemma {:induction false} SumAtLeastLength(ws: seq<real>)
    requires forall k :: 0 <= k < |ws| ==> ws[k] >= 1.0
    ensures Sum(ws) >= |ws| as real
  {
    if ws != [] {
      SumAtLeastLength(ws[..|ws| - 1]);
    }
  }

  /** `[float(i)/sum(weight) for i in weight]`. */
  function Normalize(ws: seq<real>): (ps: seq<real>)
    requires Sum(ws) > 0.0
    ensures |ps| == |ws|
  {
    seq(|ws|, k requires 0 <= k < |ws| => ws[k] / Sum(ws))
  }

  lemma {:induction false} SumScaled(ws: seq<real>, c: real)
    requires c > 0.0
    ensures Sum(seq(|ws|, k requires 0 <= k < |ws| => ws[k] / c)) == Sum(ws) / c
  {
    if ws != [] {
      var init := ws[..|ws| - 1];
      var s := seq(|ws|, k requires 0 <= k < |ws| => ws[k] / c);
      assert s[..|s| - 1] == seq(|init|, k requires 0 <= k < |init| => init[k] / c);
      SumScaled(init, c);
    }
  }

  lemma DivideBounds(a: real, t: real)
    requires 1.0 <= a <= t
    ensures 0.0 < a / t <= 1.0
  {
    assert a / t * t == a;
  }

  /** Weights that are all at least 1 normalise to a probability vector. */
  lemma NormalizeIsDistribution(ws: seq<real>)
    requires |ws| >= 1 && forall k :: 0 <= k < |ws| ==> ws[k] >= 1.0
    ensures Sum(ws) >= 1.0
    ensures forall k :: 0 <= k < |ws| ==> 0.0 < Normalize(ws)[k] <= 1.0
    ensures Sum(Normalize(ws)) == 1.0
  {
    SumAtLeastLength(ws);
    var total := Sum(ws);
    SumScaled(ws, total);
    assert total / total == 1.0;
    forall k | 0 <= k < |ws| ensures 0.0 < Normalize(ws)[k] <= 1.0 {
      SumAtLeastTerm(ws, k);
      DivideBounds(ws[k], total);
    }
  }

  /** With at least one alive fighter the normalisation at warbot.py:148 is defined. */
  lemma AliveWeightsNormalize(fs: seq<Fighter>)
    requires |AliveUsers(fs)| >= 1
    ensures Sum(AliveWeights(fs)) >= 1.0
    ensures Sum(Normalize(AliveWeights(fs))) == 1.0
  {
    NormalizeIsDistribution(AliveWeights(fs));
  }

  lemma {:induction false} SumAtLeastTerm(ws: seq<real>, k: nat)
    requires forall j :: 0 <= j < |ws| ==> ws[j] >= 1.0
    requires k < |ws|
    ensures ws[k] <= Sum(ws)
  {
    var init := ws[..|ws| - 1];
    if k == |ws| - 1 {
      SumAtLeastLength(init);
    } else {
      SumAtLeastTerm(init, k);
    }
  }
}

/** Enemy rosters as the population controllers keep them: a list of spawn
    records that is only ever rewritten by marking one id dead or by appending
    a fresh spawn. */
module Roster {
  import opened Types

  /** One roster entry.  The zone pages keep no zone field; their entries carry
      the number of the zone the page belongs to. */
  datatype EnemySpawn = EnemySpawn(id: string, presetId: string, position: Vec3, zone: int, isAlive: bool)

  /** `prev.map(e => e.id === enemyId ? { ...e, isAlive: false } : e)` */
  function MarkDead(xs: seq<EnemySpawn>, enemyId: string): (r: seq<EnemySpawn>)
    ensures |r| == |xs|
    ensures forall i :: 0 <= i < |xs| && xs[i].id != enemyId ==> r[i] == xs[i]
    ensures forall i :: 0 <= i < |xs| && xs[i].id == enemyId ==> r[i] == xs[i].(isAlive := false)
    decreases |xs|
  {
    if |xs| == 0 then []
    else
      var e := xs[|xs| - 1];
      MarkDead(xs[..|xs| - 1], enemyId) + [if e.id == enemyId then e.(isAlive := false) else e]
  }

  /** A roster entry is alive after a death only if it was alive before: the
      death handler never revives, and it kills every entry with that id. */
  lemma MarkDeadNeverRevives(xs: seq<EnemySpawn>, enemyId: string)
    ensures forall i :: 0 <= i < |xs| ==>
      (MarkDead(xs, enemyId)[i].isAlive <==> xs[i].isAlive && xs[i].id != enemyId)
    ensures MarkDead(MarkDead(xs, enemyId), enemyId) == MarkDead(xs, enemyId)
  {
    var once := MarkDead(xs, enemyId);
    var twice := MarkDead(once, enemyId);
    assert forall i :: 0 <= i < |xs| ==> twice[i] == once[i];
  }

  /** `xs.filter(e => e.isAlive).length` */
  function AliveCount(xs: seq<EnemySpawn>): (n: nat)
    ensures n <= |xs|
    decreases |xs|
  {
    if |xs| == 0 then 0
    else AliveCount(xs[..|xs| - 1]) + (if xs[|xs| - 1].isAlive then 1 else 0)
  }

  /** `xs.filter(e => e.isAlive && e.zone === zone).length` */
  function AliveInZone(xs: seq<EnemySpawn>, zone: int): (n: nat)
    ensures n <= AliveCount(xs)
    decreases |xs|
  {
    if |xs| == 0 then 0
    else
      var e := xs[|xs| - 1];
      AliveInZone(xs[..|xs| - 1], zone) + (if e.isAlive && e.zone == zone then 1 else 0)
  }

  /** Appending one entry changes the counts by that entry alone. */
  lemma CountsAppend(xs: seq<EnemySpawn>, e: EnemySpawn, zone: int)
    ensures AliveCount(xs + [e]) == AliveCount(xs) + (if e.isAlive then 1 else 0)
    ensures AliveInZone(xs + [e], zone) == AliveInZone(xs, zone) + (if e.isAlive && e.zone == zone then 1 else 0)
  {
    assert (xs + [e])[..|xs|] == xs;
  }

  /** A death never raises the live count. */
  lemma {:induction false} MarkDeadAlive(xs: seq<EnemySpawn>, enemyId: string)
    ensures AliveCount(MarkDead(xs, enemyId)) <= AliveCount(xs)
    decreases |xs|
  {
    if |xs| > 0 {
      var n := |xs| - 1;
      var e := xs[n];
      var d := if e.id == enemyId then e.(isAlive := false) else e;
      var init := MarkDead(xs[..n], enemyId);
      assert MarkDead(xs, enemyId) == init + [d];
      CountsAppend(init, d, e.zone);
      MarkDeadAlive(xs[..n], enemyId);
      assert AliveCount(xs) == AliveCount(xs[..n]) + (if e.isAlive then 1 else 0);
    }
  }

  /** A death that names a live entry lowers the live count. */
  lemma {:induction false} MarkDeadKills(xs: seq<EnemySpawn>, enemyId: string, i: nat)
    requires i < |xs| && xs[i].id == enemyId && xs[i].isAlive
    ensures AliveCount(MarkDead(xs, enemyId)) < AliveCount(xs)
    decreases |xs|
  {
    var n := |xs| - 1;
    var e := xs[n];
    var d := if e.id == enemyId then e.(isAlive := false) else e;
    var init := MarkDead(xs[..n], enemyId);
    assert MarkDead(xs, enemyId) == init + [d];
    CountsAppend(init, d, e.zone);
    assert AliveCount(xs) == AliveCount(xs[..n]) + (if e.isAlive then 1 else 0);
    if i < n {
      assert xs[..n][i] == xs[i];
      MarkDeadKills(xs[..n], enemyId, i);
    } else {
      MarkDeadAlive(xs[..n], enemyId);
    }
  }

  /** A death never raises a zone's live count. */
  lemma {:induction false} MarkDeadAliveInZone(xs: seq<EnemySpawn>, enemyId: string, zone: int)
    ensures AliveInZone(MarkDead(xs, enemyId), zone) <= AliveInZone(xs, zone)
    decreases |xs|
  {
    if |xs| > 0 {
      var n := |xs| - 1;
      var e := xs[n];
      var d := if e.id == enemyId then e.(isAlive := false) else e;
      var init := MarkDead(xs[..n], enemyId);
      assert MarkDead(xs, enemyId) == init + [d];
      CountsAppend(init, d, zone);
      MarkDeadAliveInZone(xs[..n], enemyId, zone);
      assert AliveInZone(xs, zone) == AliveInZone(xs[..n], zone) + (if e.isAlive && e.zone == zone then 1 else 0);
    }
  }

  /** A death that names an entry alive in a zone lowers that zone's live
      count. */
  lemma {:induction false} MarkDeadKillsInZone(xs: seq<EnemySpawn>, enemyId: string, zone: int, i: nat)
    requires i < |xs| && xs[i].id == enemyId && xs[i].isAlive && xs[i].zone == zone
    ensures AliveInZone(MarkDead(xs, enemyId), zone) < AliveInZone(xs, zone)
    decreases |xs|
  {
    var n := |xs| - 1;
    var e := xs[n];
    var d := if e.id == enemyId then e.(isAlive := false) else e;
    var init := MarkDead(xs[..n], enemyId);
    assert MarkDead(xs, enemyId) == init + [d];
    CountsAppend(init, d, zone);
    assert AliveInZone(xs, zone) == AliveInZone(xs[..n], zone) + (if e.isAlive && e.zone == zone then 1 else 0);
    if i < n {
      assert xs[..n][i] == xs[i];
      MarkDeadKillsInZone(xs[..n], enemyId, zone, i);
    } else {
      MarkDeadAliveInZone(xs[..n], enemyId, zone);
    }
  }

  // ---------------------------------------------------------------------------
  // Generated spawn ids
  // ---------------------------------------------------------------------------

  predicate AllDigits(s: string) {
    forall i :: 0 <= i < |s| ==> '0' <= s[i] <= '9'
  }

  /** `${prefix}${now}-${counter}`, the id of a respawned enemy. */
  function SpawnId(prefix: string, now: nat, counter: nat): (id: string)
    ensures |id| > |prefix| + 1
    ensures id[..|prefix|] == prefix
  {
    prefix + DecimalString(now) + "-" + DecimalString(counter)
  }

  /** Different numbers print differently. */
  lemma {:induction false} DecimalStringInjective(a: nat, b: nat)
    requires DecimalString(a) == DecimalString(b)
    ensures a == b
    decreases a
  {
    var sa, sb := DecimalString(a), DecimalString(b);
    assert sa[|sa| - 1] == sb[|sb| - 1];
    assert a % 10 == b % 10;
    if a >= 10 && b >= 10 {
      assert sa[..|sa| - 1] == DecimalString(a / 10);
      assert sb[..|sb| - 1] == DecimalString(b / 10);
      DecimalStringInjective(a / 10, b / 10);
    }
  }

  /** In `p + a + "-" + b` with a and b made of digits, the first dash after
      p separates a from b, so the string determines both parts. */
  lemma SplitAtDash(p: string, a1: string, b1: string, a2: string, b2: string)
    requires AllDigits(a1) && AllDigits(b1) && AllDigits(a2) && AllDigits(b2)
    requires p + a1 + "-" + b1 == p + a2 + "-" + b2
    ensures a1 == a2 && b1 == b2
  {
    var s1, s2 := p + a1 + "-" + b1, p + a2 + "-" + b2;
    if |a1| < |a2| {
      DashSeparates(p, a1, b1, a2, b2);
      assert false;
    } else if |a2| < |a1| {
      DashSeparates(p, a2, b2, a1, b1);
      assert false;
    }
    assert a1 == s1[|p|..|p| + |a1|];
    assert a2 == s2[|p|..|p| + |a2|];
    assert b1 == s1[|p| + |a1| + 1..];
    assert b2 == s2[|p| + |a2| + 1..];
  }

  /** A shorter digit run puts its dash where the longer run has a digit. */
  lemma DashSeparates(p: string, a1: string, b1: string, a2: string, b2: string)
    requires AllDigits(a2) && |a1| < |a2|
    ensures p + a1 + "-" + b1 != p + a2 + "-" + b2
  {
    var s1, s2 := p + a1 + "-" + b1, p + a2 + "-" + b2;
    assert s1[|p| + |a1|] == '-';
    assert s2[|p| + |a1|] == a2[|a1|];
  }

  /** A spawn id determines the time and the counter it was made from, so a
      counter that never repeats gives ids that never repeat. */
  lemma SpawnIdsUnique(prefix: string, now1: nat, c1: nat, now2: nat, c2: nat)
    ensures SpawnId(prefix, now1, c1) == SpawnId(prefix, now2, c2) <==> now1 == now2 && c1 == c2
  {
    if SpawnId(prefix, now1, c1) == SpawnId(prefix, now2, c2) {
      SplitAtDash(prefix, DecimalString(now1), DecimalString(c1), DecimalString(now2), DecimalString(c2));
      DecimalStringInjective(now1, now2);
      DecimalStringInjective(c1, c2);
    }
  }

  // ---------------------------------------------------------------------------
  // Spawn-point choice
  // ---------------------------------------------------------------------------

  /** `Math.floor(draw * count)` for a draw in [0, 1): always a valid index. */
  function PickIndex(draw: real, count: nat): (i: nat)
    requires 0.0 <= draw < 1.0 && count > 0
    ensures i < count
    ensures i as real <= draw * count as real < i as real + 1.0
  {
    var f := (draw * count as real).Floor;
    assert draw * count as real < count as real;
    f as nat
  }
}

/** An enemy's per-frame update: it chases the player, requests its own
    destruction once it has fallen off the world, and, if it is a boss, polls
    its spawn deadline and asks the spawn manager for mini-enemies. */
module Enemies {
  import opened Scene

  /** Heights strictly below this are off the world. */
  const FallLimit: real := -10.0

  /** The fields the update reads; only `nextSpawn` is ever written. */
  datatype EnemyState = EnemyState(isBoss: bool, spawnInterval: real, nextSpawn: real,
                                   miniEnemyCount: int)

  /** The mini-enemy counts requested by `fx`, in order. */
  function SpawnRequests(fx: seq<Effect>): seq<int>
  {
    if fx == [] then []
    else SpawnRequests(fx[..|fx| - 1])
         + (if fx[|fx| - 1].SpawnMini? then [fx[|fx| - 1].count] else [])
  }

  lemma {:induction false} SpawnRequestsAppend(xs: seq<Effect>, ys: seq<Effect>)
    ensures SpawnRequests(xs + ys) == SpawnRequests(xs) + SpawnRequests(ys)
    decreases |ys|
  {
    if ys != [] {
      var n := |ys| - 1;
      var last := if ys[n].SpawnMini? then [ys[n].count] else [];
      assert (xs + ys)[..|xs + ys| - 1] == xs + ys[..n];
      assert SpawnRequests(xs + ys) == SpawnRequests(xs + ys[..n]) + last;
      assert SpawnRequests(ys) == SpawnRequests(ys[..n]) + last;
      SpawnRequestsAppend(xs, ys[..n]);
    } else {
      assert xs + ys == xs;
    }
  }

  lemma {:induction false} NoSpawnRequests(fx: seq<Effect>)
    requires forall i :: 0 <= i < |fx| ==> !fx[i].SpawnMini?
    ensures SpawnRequests(fx) == []
    decreases |fx|
  {
    if fx != [] {
      NoSpawnRequests(fx[..|fx| - 1]);
    }
  }

  /** The boss's poll fires: strictly past the deadline. */
  predicate Overdue(e: EnemyState, now: real)
  {
    e.isBoss && now > e.nextSpawn
  }

  /** One update at clock `now` with the enemy at height `y`. Destruction
      does not end the update, so a boss that falls off still polls. Nothing
      is requested besides the chase, the self-destruction and the spawn. */
  function EnemyFrame(e: EnemyState, now: real, y: real): (r: Step<EnemyState>)
    ensures |r.effects| == 1 + (if y < FallLimit then 1 else 0) + (if Overdue(e, now) then 1 else 0)
    ensures forall i :: 0 <= i < |r.effects| ==>
      r.effects[i] in [SteerTowardPlayer, DestroySelf, SpawnMini(e.miniEnemyCount)]
    ensures r.effects[0] == SteerTowardPlayer
    ensures DestroySelf in r.effects <==> y < FallLimit
    ensures y < FallLimit ==> r.effects[1] == DestroySelf
    ensures SpawnRequests(r.effects) == if Overdue(e, now) then [e.miniEnemyCount] else []
    ensures Overdue(e, now) ==> r.next == e.(nextSpawn := now + e.spawnInterval)
    ensures !Overdue(e, now) ==> r.next == e
  {
    var fx := [SteerTowardPlayer] + (if y < FallLimit then [DestroySelf] else []);
    NoSpawnRequests(fx);
    if Overdue(e, now) then
      var spawn := [SpawnMini(e.miniEnemyCount)];
      assert (fx + spawn)[..|fx + spawn| - 1] == fx;
      Step(e.(nextSpawn := now + e.spawnInterval), fx + spawn)
    else
      Step(e, fx)
  }

  /** What the host reports for one frame: the clock and the enemy's height. */
  datatype EnemyTick = EnemyTick(now: real, y: real)

  /** The enemy after a sequence of frames, with all effects requested. */
  function EnemyRun(e: EnemyState, ticks: seq<EnemyTick>): (r: Step<EnemyState>)
    ensures r.next == e.(nextSpawn := r.next.nextSpawn)
    decreases |ticks|
  {
    if ticks == [] then Step(e, [])
    else
      var p := EnemyRun(e, ticks[..|ticks| - 1]);
      var t := ticks[|ticks| - 1];
      var s := EnemyFrame(p.next, t.now, t.y);
      Step(s.next, p.effects + s.effects)
  }

  /** The clock readings of the frames in which the enemy spawned. */
  function SpawnTimes(e: EnemyState, ticks: seq<EnemyTick>): seq<real>
    decreases |ticks|
  {
    if ticks == [] then []
    else
      var p := EnemyRun(e, ticks[..|ticks| - 1]);
      var t := ticks[|ticks| - 1];
      SpawnTimes(e, ticks[..|ticks| - 1]) + (if Overdue(p.next, t.now) then [t.now] else [])
  }

  /** An ordinary enemy never asks for mini-enemies and never moves its
      spawn deadline. */
  lemma {:induction false} NonBossNeverSpawns(e: EnemyState, ticks: seq<EnemyTick>)
    requires !e.isBoss
    ensures EnemyRun(e, ticks).next == e
    ensures SpawnRequests(EnemyRun(e, ticks).effects) == []
    decreases |ticks|
  {
    if ticks != [] {
      var n := |ticks| - 1;
      NonBossNeverSpawns(e, ticks[..n]);
      var p := EnemyRun(e, ticks[..n]);
      SpawnRequestsAppend(p.effects, EnemyFrame(p.next, ticks[n].now, ticks[n].y).effects);
    }
  }

  /** With a non-negative interval the spawn deadline never moves back. */
  lemma {:induction false} NextSpawnNeverDecreases(e: EnemyState, ticks: seq<EnemyTick>)
    requires e.spawnInterval >= 0.0
    ensures EnemyRun(e, ticks).next.nextSpawn >= e.nextSpawn
    decreases |ticks|
  {
    if ticks != [] {
      NextSpawnNeverDecreases(e, ticks[..|ticks| - 1]);
    }
  }

  /** Every request of `rs` is for `count` mini-enemies. */
  predicate AllFor(rs: seq<int>, count: int)
  {
    forall i :: 0 <= i < |rs| ==> rs[i] == count
  }

  lemma AllForAppend(xs: seq<int>, ys: seq<int>, count: int)
    requires AllFor(xs, count) && AllFor(ys, count)
    ensures AllFor(xs + ys, count)
  {
  }

  /** Every spawn of a run requests exactly `miniEnemyCount` mini-enemies,
      one request per spawning frame. */
  lemma {:induction false} EachSpawnRequestsMiniEnemyCount(e: EnemyState, ticks: seq<EnemyTick>)
    ensures var rs := SpawnRequests(EnemyRun(e, ticks).effects);
      |rs| == |SpawnTimes(e, ticks)| && AllFor(rs, e.miniEnemyCount)
    decreases |ticks|
  {
    if ticks != [] {
      var n := |ticks| - 1;
      EachSpawnRequestsMiniEnemyCount(e, ticks[..n]);
      var p := EnemyRun(e, ticks[..n]);
      var s := EnemyFrame(p.next, ticks[n].now, ticks[n].y);
      assert EnemyRun(e, ticks).effects == p.effects + s.effects;
      SpawnRequestsAppend(p.effects, s.effects);
      AllForAppend(SpawnRequests(p.effects), SpawnRequests(s.effects), e.miniEnemyCount);
    }
  }

  /** Any two of the times `ts` are more than `gap` apart, in order. */
  predicate Separated(ts: seq<real>, gap: real)
  {
    forall i, j :: 0 <= i < j < |ts| ==> ts[j] > ts[i] + gap
  }

  /** Every time of `ts` is strictly after `d`. */
  predicate AllAfter(ts: seq<real>, d: real)
  {
    forall i :: 0 <= i < |ts| ==> ts[i] > d
  }

  lemma AllAfterSnoc(ts: seq<real>, t: real, d: real)
    requires AllAfter(ts, d) && t > d
    ensures AllAfter(ts + [t], d)
  {
  }

  /** Appending a time more than `gap` after the last keeps the times separated. */
  lemma SeparatedSnoc(ts: seq<real>, t: real, gap: real)
    requires gap >= 0.0 && Separated(ts, gap)
    requires ts != [] ==> t > ts[|ts| - 1] + gap
    ensures Separated(ts + [t], gap)
  {
  }

  /** However the frames fall, two spawns are more than `spawnInterval`
      apart: the boss never spawns twice for one overdue window. Each spawn
      comes after the initial deadline, and the deadline afterwards is the
      last spawn time plus the interval. */
  lemma {:induction false} SpawnsSeparatedByInterval(e: EnemyState, ticks: seq<EnemyTick>)
    requires e.spawnInterval >= 0.0
    ensures var ts := SpawnTimes(e, ticks);
      && AllAfter(ts, e.nextSpawn)
      && Separated(ts, e.spawnInterval)
      && (ts == [] ==> EnemyRun(e, ticks).next.nextSpawn == e.nextSpawn)
      && (ts != [] ==> EnemyRun(e, ticks).next.nextSpawn == ts[|ts| - 1] + e.spawnInterval)
    decreases |ticks|
  {
    if ticks != [] {
      var n := |ticks| - 1;
      SpawnsSeparatedByInterval(e, ticks[..n]);
      var ts := SpawnTimes(e, ticks[..n]);
      var p := EnemyRun(e, ticks[..n]);
      var t := ticks[n];
      assert SpawnTimes(e, ticks) == ts + (if Overdue(p.next, t.now) then [t.now] else []);
      assert EnemyRun(e, ticks).next == EnemyFrame(p.next, t.now, t.y).next;
      if Overdue(p.next, t.now) {
        assert p.next.nextSpawn >= e.nextSpawn;
        AllAfterSnoc(ts, t.now, e.nextSpawn);
        SeparatedSnoc(ts, t.now, e.spawnInterval);
      } else {
        assert SpawnTimes(e, ticks) == ts;
      }
    }
  }

  class Enemy {
    var isBoss: bool
    var spawnInterval: real
    var nextSpawn: real
    var miniEnemyCount: int

    function State(): EnemyState
      reads this
    {
      EnemyState(isBoss, spawnInterval, nextSpawn, miniEnemyCount)
    }

    constructor (isBoss: bool, spawnInterval: real, nextSpawn: real, miniEnemyCount: int)
      ensures State() == EnemyState(isBoss, spawnInterval, nextSpawn, miniEnemyCount)
    {
      this.isBoss := isBoss;
      this.spawnInterval := spawnInterval;
      this.nextSpawn := nextSpawn;
      this.miniEnemyCount := miniEnemyCount;
    }

    /** The per-frame update at clock `now` with the enemy at height `y`. */
    method Update(now: real, y: real) returns (fx: seq<Effect>)
      modifies this`nextSpawn
      ensures var s := EnemyFrame(old(State()), now, y); State() == s.next && fx == s.effects
    {
      fx := [SteerTowardPlayer];
      if y < FallLimit {
        fx := fx + [DestroySelf];
      }
      if !isBoss {
        return;
      }
      if now > nextSpawn {
        nextSpawn := now + spawnInterval;
        fx := fx + [SpawnMini(miniEnemyCount)];
      }
    }
  }
}

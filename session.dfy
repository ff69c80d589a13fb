/** The pure state updaters of the session component (App.tsx): the record
    merge behind `handlePlayerUpdate`, the score step of `handleScoreUpdate`
    with its 100-point boundary test, and the bounded radio-message feed. */
module Session {
  import opened Types
  import Constants

  /** The feed keeps the new message and at most this many older ones. */
  const KeptOlderMessages: nat := 4
  /** The longest the radio-message feed can be. */
  const FeedCapacity: nat := KeptOlderMessages + 1

  /** The player record a session begins with. */
  const FreshPlayer: PlayerState := PlayerState(100, 100, 0, false, 0, Pistol)

  /** The magazine shown when a session begins: the pistol's. */
  function FreshAmmo(): (a: int)
    ensures a == Constants.Weapons(FreshPlayer.currentWeapon).maxAmmo
    ensures a == 12
  {
    Constants.Weapons(Pistol).ammo
  }

  function Min(a: int, b: int): (m: int) { if a <= b then a else b }

  function GetOr<T>(o: Option<T>, default: T): (v: T)
  {
    match o
    case Some(v) => v
    case None => default
  }

  // ---------------------------------------------------------------------
  // handlePlayerUpdate: `{ ...prev, ...update }`

  /** Object spread of a partial update over the previous record: a field
      present in `u` is overwritten, every absent field keeps its value. */
  function Merge(prev: PlayerState, u: PlayerUpdate): (r: PlayerState)
    ensures u.health.Some? ==> r.health == u.health.value
    ensures u.health.None? ==> r.health == prev.health
    ensures u.maxHealth.Some? ==> r.maxHealth == u.maxHealth.value
    ensures u.maxHealth.None? ==> r.maxHealth == prev.maxHealth
    ensures u.score.Some? ==> r.score == u.score.value
    ensures u.score.None? ==> r.score == prev.score
    ensures u.isDashing.Some? ==> r.isDashing == u.isDashing.value
    ensures u.isDashing.None? ==> r.isDashing == prev.isDashing
    ensures u.dashCooldown.Some? ==> r.dashCooldown == u.dashCooldown.value
    ensures u.dashCooldown.None? ==> r.dashCooldown == prev.dashCooldown
    ensures u.currentWeapon.Some? ==> r.currentWeapon == u.currentWeapon.value
    ensures u.currentWeapon.None? ==> r.currentWeapon == prev.currentWeapon
  {
    PlayerState(
      GetOr(u.health, prev.health),
      GetOr(u.maxHealth, prev.maxHealth),
      GetOr(u.score, prev.score),
      GetOr(u.isDashing, prev.isDashing),
      GetOr(u.dashCooldown, prev.dashCooldown),
      GetOr(u.currentWeapon, prev.currentWeapon))
  }

  /** The update with no field present. */
  const NoChange: PlayerUpdate := PlayerUpdate(None, None, None, None, None, None)

  /** Spreading `first` and then `second` into one object: `second` wins
      where both have a field. */
  function Then(first: PlayerUpdate, second: PlayerUpdate): (u: PlayerUpdate)
  {
    PlayerUpdate(
      if second.health.Some? then second.health else first.health,
      if second.maxHealth.Some? then second.maxHealth else first.maxHealth,
      if second.score.Some? then second.score else first.score,
      if second.isDashing.Some? then second.isDashing else first.isDashing,
      if second.dashCooldown.Some? then second.dashCooldown else first.dashCooldown,
      if second.currentWeapon.Some? then second.currentWeapon else first.currentWeapon)
  }

  /** Merging the empty update changes nothing. */
  lemma MergeNoChange(p: PlayerState)
    ensures Merge(p, NoChange) == p
  {
  }

  /** Applying the same partial update twice is the same as applying it once. */
  lemma MergeIdempotent(p: PlayerState, u: PlayerUpdate)
    ensures Merge(Merge(p, u), u) == Merge(p, u)
  {
  }

  /** Two successive merges are one merge of the combined update. */
  lemma MergeThen(p: PlayerState, u1: PlayerUpdate, u2: PlayerUpdate)
    ensures Merge(Merge(p, u1), u2) == Merge(p, Then(u1, u2))
  {
  }

  /** The update the engine's `onHealthChange` callback passes. */
  function HealthChange(health: int): (u: PlayerUpdate)
    ensures forall p :: Merge(p, u) == p.(health := health)
  {
    NoChange.(health := Some(health))
  }

  /** The update the engine's `onDashUpdate` callback passes. */
  function DashChange(isDashing: bool, dashCooldown: int): (u: PlayerUpdate)
    ensures forall p :: Merge(p, u) == p.(isDashing := isDashing, dashCooldown := dashCooldown)
  {
    NoChange.(isDashing := Some(isDashing), dashCooldown := Some(dashCooldown))
  }

  /** The update the engine's `onWeaponChange` callback passes. */
  function WeaponChange(w: WeaponType): (u: PlayerUpdate)
    ensures forall p :: Merge(p, u) == p.(currentWeapon := w)
  {
    NoChange.(currentWeapon := Some(w))
  }

  // ---------------------------------------------------------------------
  // handleScoreUpdate

  /** `Math.floor(n / 100)`: the unique q with 100q <= n < 100q + 100. */
  function Hundreds(n: int): (q: int)
    ensures 100 * q <= n < 100 * q + 100
  {
    n / 100
  }

  /** The value `setPlayer` receives: the score grows by `points` and every
      other field is kept. */
  function AddScore(prev: PlayerState, points: int): (r: PlayerState)
    ensures r.score == prev.score + points
    ensures r.(score := prev.score) == prev
    ensures points >= 0 ==> r.score >= prev.score
  {
    prev.(score := prev.score + points)
  }

  /** `m` is a multiple of 100 that a step from `lo` to `hi` reaches. */
  ghost predicate BoundaryIn(lo: int, hi: int, m: int)
  {
    lo < m <= hi && m % 100 == 0
  }

  /** Some multiple of 100 lies above `lo` and at or below `hi`. */
  ghost predicate ReachesBoundary(lo: int, hi: int)
  {
    exists m :: BoundaryIn(lo, hi, m)
  }

  /** The flavour-text request one score update issues, if any: a request
      for the new score exactly when the step reaches a multiple of 100 it
      was below. An `Option` carries at most one request, however many
      multiples the step passes. */
  function SurvivorRequest(prevScore: int, points: int): (r: Option<int>)
    ensures r.Some? <==> ReachesBoundary(prevScore, prevScore + points)
    ensures r.Some? ==> r.value == prevScore + points
  {
    var newScore := prevScore + points;
    CrossesIffBoundary(prevScore, newScore);
    if Hundreds(newScore) > Hundreds(prevScore) then Some(newScore) else None
  }

  /** The floor-division test of the source and the "reaches a multiple
      of 100" reading of it agree on every pair of scores. */
  lemma CrossesIffBoundary(lo: int, hi: int)
    ensures Hundreds(hi) > Hundreds(lo) <==> ReachesBoundary(lo, hi)
  {
    var qh, ql := Hundreds(hi), Hundreds(lo);
    if qh > ql {
      var m := 100 * qh;
      assert m % 100 == 0;
      assert BoundaryIn(lo, hi, m);
    }
    if m :| BoundaryIn(lo, hi, m) {
      var k := m / 100;
      assert 100 * k == m;
      assert 100 * ql <= lo < 100 * k;
      assert 100 * k <= hi < 100 * qh + 100;
    }
  }

  /** The multiples of 100 a step from `lo` up to `hi` reaches. */
  ghost function Boundaries(lo: int, hi: int): set<int>
  {
    set m | lo < m <= hi && m % 100 == 0
  }

  lemma {:induction false} BoundariesCount(lo: int, hi: int)
    requires lo <= hi
    ensures |Boundaries(lo, hi)| == Hundreds(hi) - Hundreds(lo)
    decreases hi - lo
  {
    if hi > lo {
      BoundariesCount(lo, hi - 1);
      if hi % 100 == 0 {
        assert Boundaries(lo, hi) == Boundaries(lo, hi - 1) + {hi};
      } else {
        assert Boundaries(lo, hi) == Boundaries(lo, hi - 1);
      }
    } else {
      assert Boundaries(lo, hi) == {};
    }
  }

  /** The number of multiples of 100 a step from `lo` up to `hi` reaches,
      counted from the hundreds of the two scores. */
  function BoundariesCrossed(lo: int, hi: int): (n: int)
    requires lo <= hi
    ensures n == |Boundaries(lo, hi)|
    ensures n > 0 <==> ReachesBoundary(lo, hi)
  {
    BoundariesCount(lo, hi);
    CrossesIffBoundary(lo, hi);
    Hundreds(hi) - Hundreds(lo)
  }

  /** A step from 80 to 120 issues exactly one request, for 120. */
  lemma OneRequestFrom80To120()
    ensures SurvivorRequest(80, 40) == Some(120)
    ensures BoundariesCrossed(80, 120) == 1
  {
  }

  /** A step from 95 to 245 reaches two multiples of 100 (100 and 200) but
      still issues a single request, for 245. */
  lemma OneRequestFrom95To245()
    ensures BoundaryIn(95, 245, 100) && BoundaryIn(95, 245, 200)
    ensures BoundariesCrossed(95, 245) == 2
    ensures SurvivorRequest(95, 150) == Some(245)
  {
  }

  /** No step that stays inside one hundred-block issues a request. */
  lemma NoRequestWithinBlock(prevScore: int, points: int)
    requires Hundreds(prevScore + points) == Hundreds(prevScore)
    ensures SurvivorRequest(prevScore, points) == None
  {
  }

  // ---------------------------------------------------------------------
  // The radio-message feed: `[msg, ...prevMsgs.slice(0, 4)]`

  /** `s.slice(0, n)`: the first `n` elements, or all of `s` if it is shorter. */
  function Take<T>(s: seq<T>, n: nat): (r: seq<T>)
    ensures |r| == Min(|s|, n)
    ensures forall i :: 0 <= i < |r| ==> r[i] == s[i]
  {
    s[..Min(|s|, n)]
  }

  /** Putting a new message at the head of the feed: it lands at index 0,
      the previous messages follow in their order, and the feed is cut to
      its five newest entries. */
  function PushMessage(feed: seq<GameMessage>, m: GameMessage): (r: seq<GameMessage>)
    ensures r == Take([m] + feed, FeedCapacity)
    ensures |r| <= FeedCapacity && r[0] == m
  {
    [m] + Take(feed, KeptOlderMessages)
  }

  function Reverse<T>(s: seq<T>): (r: seq<T>)
    ensures |r| == |s|
  {
    if s == [] then [] else Reverse(s[1..]) + [s[0]]
  }

  /** The feed after the messages of `ms` arrive one by one, first to last. */
  function PushAll(feed: seq<GameMessage>, ms: seq<GameMessage>): (r: seq<GameMessage>)
    decreases |ms|
  {
    if ms == [] then feed else PushAll(PushMessage(feed, ms[0]), ms[1..])
  }

  lemma {:induction false} TakeOfTake<T>(x: seq<T>, y: seq<T>, k: nat, n: nat)
    requires n <= |x| + k
    ensures Take(x + Take(y, k), n) == Take(x + y, n)
  {
  }

  /** Whatever arrives, the feed holds the (up to) five newest messages,
      newest first, ahead of what it held before. */
  lemma {:induction false} PushAllKeepsNewest(feed: seq<GameMessage>, ms: seq<GameMessage>)
    requires |feed| <= FeedCapacity
    ensures PushAll(feed, ms) == Take(Reverse(ms) + feed, FeedCapacity)
    decreases |ms|
  {
    if ms == [] {
      assert Reverse(ms) + feed == feed;
    } else {
      var rest := ms[1..];
      PushAllKeepsNewest(PushMessage(feed, ms[0]), rest);
      TakeOfTake(Reverse(rest), [ms[0]] + feed, FeedCapacity, FeedCapacity);
      assert Reverse(ms) + feed == Reverse(rest) + ([ms[0]] + feed);
    }
  }
}

/** The two particle pools of the main page: cursor particles spawned by mouse
    moves and neural sparks spawned on a timer. Both are capped rolling
    histories; both age by a map-then-filter step that drops dead particles. */
module Particles {
  import opened Common

  /** `prev.slice(-15)`: a cursor pool holds at most 16 particles. */
  const CursorCap: nat := 15
  /** `prev.slice(-30)`: a spark pool holds at most 31 particles. */
  const SparkCap: nat := 30
  const CursorDecay: real := 0.02
  const SparkDecay: real := 0.008

  const CursorColors: seq<string> := ["#22c55e", "#8b5cf6", "#3b82f6", "#ec4899"]
  const SparkColors: seq<string> := ["#22c55e", "#8b5cf6", "#3b82f6", "#ec4899", "#ef4444"]

  datatype CursorParticle = CursorParticle(id: real, x: real, y: real, life: real, color: string, size: real)

  datatype Spark = Spark(id: real, x: real, y: real, vx: real, vy: real, life: real, color: string, size: real)

  /** `pool.map(step).filter(p => life(p) > 0)`. */
  function Evolve<P>(pool: seq<P>, step: P -> P, life: P -> real): (r: seq<P>)
    ensures |r| <= |pool|
    ensures forall i :: 0 <= i < |r| ==> life(r[i]) > 0.0
    decreases |pool|
  {
    if |pool| == 0 then []
    else
      var q := step(pool[0]);
      (if life(q) > 0.0 then [q] else []) + Evolve(pool[1..], step, life)
  }

  /** Aging distributes over concatenation: each particle ages on its own and
      the survivors keep their relative order. */
  lemma {:induction false} EvolveAppend<P>(a: seq<P>, b: seq<P>, step: P -> P, life: P -> real)
    ensures Evolve(a + b, step, life) == Evolve(a, step, life) + Evolve(b, step, life)
    decreases |a|
  {
    if |a| == 0 {
      assert a + b == b;
    } else {
      assert (a + b)[1..] == a[1..] + b;
      EvolveAppend(a[1..], b, step, life);
    }
  }

  /** n aging steps. */
  function EvolveN<P>(pool: seq<P>, step: P -> P, life: P -> real, n: nat): seq<P>
    decreases n
  {
    if n == 0 then pool else Evolve(EvolveN(pool, step, life, n - 1), step, life)
  }

  predicate LifeAtMost<P>(pool: seq<P>, life: P -> real, bound: real) {
    forall i :: 0 <= i < |pool| ==> life(pool[i]) <= bound
  }

  /** When every step lowers life by dec, one aging step lowers every life bound by dec. */
  lemma {:induction false} EvolveLowersLife<P>(pool: seq<P>, step: P -> P, life: P -> real, dec: real, bound: real)
    requires forall p :: life(step(p)) == life(p) - dec
    requires LifeAtMost(pool, life, bound)
    ensures LifeAtMost(Evolve(pool, step, life), life, bound - dec)
    decreases |pool|
  {
    if |pool| > 0 {
      EvolveLowersLife(pool[1..], step, life, dec, bound);
    }
  }

  lemma {:induction false} EvolveNLowersLife<P>(pool: seq<P>, step: P -> P, life: P -> real, dec: real, bound: real, n: nat)
    requires forall p :: life(step(p)) == life(p) - dec
    requires LifeAtMost(pool, life, bound)
    ensures LifeAtMost(EvolveN(pool, step, life, n), life, bound - n as real * dec)
    decreases n
  {
    if n > 0 {
      var before := bound - (n - 1) as real * dec;
      assert before - dec == bound - n as real * dec;
      EvolveNLowersLife(pool, step, life, dec, bound, n - 1);
      EvolveLowersLife(EvolveN(pool, step, life, n - 1), step, life, dec, before);
    }
  }

  /** A pool whose lives are at most `bound` is empty after any n steps with n * dec >= bound. */
  lemma EvolveDrains<P>(pool: seq<P>, step: P -> P, life: P -> real, dec: real, bound: real, n: nat)
    requires forall p :: life(step(p)) == life(p) - dec
    requires LifeAtMost(pool, life, bound)
    requires n > 0 && bound <= n as real * dec
    ensures EvolveN(pool, step, life, n) == []
  {
    EvolveNLowersLife(pool, step, life, dec, bound, n);
    var r := EvolveN(pool, step, life, n);
    assert r == Evolve(EvolveN(pool, step, life, n - 1), step, life);
    HeadLife(r, life, bound - n as real * dec);
  }

  /** The head of a pool of live particles whose lives are at most bound. */
  lemma HeadLife<P>(r: seq<P>, life: P -> real, bound: real)
    requires LifeAtMost(r, life, bound)
    requires forall i :: 0 <= i < |r| ==> life(r[i]) > 0.0
    ensures |r| > 0 ==> 0.0 < life(r[0]) <= bound
  {
  }

  /** `step` applied n times. */
  function Iterate<P>(p: P, step: P -> P, n: nat): P
    decreases n
  {
    if n == 0 then p else step(Iterate(p, step, n - 1))
  }

  /** A lone particle survives n steps exactly while its life minus n decrements is positive. */
  lemma {:induction false} EvolveSingleton<P>(p: P, step: P -> P, life: P -> real, dec: real, n: nat)
    requires dec > 0.0 && forall q :: life(step(q)) == life(q) - dec
    ensures life(Iterate(p, step, n)) == life(p) - n as real * dec
    ensures EvolveN([p], step, life, n)
      == if n == 0 || life(p) - n as real * dec > 0.0 then [Iterate(p, step, n)] else []
    decreases n
  {
    if n > 0 {
      EvolveSingleton(p, step, life, dec, n - 1);
      var q := Iterate(p, step, n - 1);
      assert life(p) - n as real * dec == life(q) - dec;
      assert Evolve([q], step, life) == (if life(step(q)) > 0.0 then [step(q)] else []) by {
        assert [q][1..] == [];
      }
      assert Evolve([], step, life) == [];
    }
  }

  /** The 50 ms cursor decay of one particle. */
  function DecayCursor(c: CursorParticle): CursorParticle {
    c.(life := c.life - CursorDecay, size := c.size * 0.98)
  }

  function CursorLife(c: CursorParticle): real {
    c.life
  }

  /** One cursor-pool tick: age every particle, then drop the dead ones. */
  function CursorTick(pool: seq<CursorParticle>): (r: seq<CursorParticle>)
    ensures |r| <= |pool|
    ensures forall i :: 0 <= i < |r| ==> r[i].life > 0.0
  {
    Evolve(pool, DecayCursor, CursorLife)
  }

  /** A cursor tick keeps exactly the particles that are still alive after
      decaying, each decayed, in their original order. */
  lemma CursorTickIsPerParticle(a: seq<CursorParticle>, b: seq<CursorParticle>, c: CursorParticle)
    ensures CursorTick(a + b) == CursorTick(a) + CursorTick(b)
    ensures CursorTick([c]) == if c.life > CursorDecay then [DecayCursor(c)] else []
  {
    EvolveAppend(a, b, DecayCursor, CursorLife);
  }

  /** A fresh cursor particle (life 1) survives exactly 49 decay ticks and is gone at the 50th. */
  lemma CursorLifetime(c: CursorParticle, n: nat)
    requires c.life == 1.0
    ensures |EvolveN([c], DecayCursor, CursorLife, n)| == 1 <==> n < 50
  {
    assert forall q :: CursorLife(DecayCursor(q)) == CursorLife(q) - CursorDecay;
    EvolveSingleton(c, DecayCursor, CursorLife, CursorDecay, n);
    assert n < 50 <==> 1.0 - n as real * CursorDecay > 0.0;
  }

  /** Any cursor pool is empty after 50 decay ticks. */
  lemma CursorPoolDrains(pool: seq<CursorParticle>, n: nat)
    requires LifeAtMost(pool, CursorLife, 1.0) && n >= 50
    ensures EvolveN(pool, DecayCursor, CursorLife, n) == []
  {
    assert forall q :: CursorLife(DecayCursor(q)) == CursorLife(q) - CursorDecay;
    assert 1.0 <= n as real * CursorDecay;
    EvolveDrains(pool, DecayCursor, CursorLife, CursorDecay, 1.0, n);
  }

  /** The draws of one mouse move: whether to spawn (probability 0.3), the
      fraction added to the clock for the id, the jitter, the colour and the size. */
  datatype CursorDraw = CursorDraw(spawn: Draw, tag: Draw, dx: Draw, dy: Draw, color: Draw, size: Draw)

  /** A new cursor particle at the mouse position jittered by [-10, 10). */
  function NewCursorParticle(mx: real, my: real, now: real, d: CursorDraw): CursorParticle {
    CursorParticle(now + d.tag, mx + Spread(d.dx, 10.0), my + Spread(d.dy, 10.0), 1.0,
                   CursorColors[PickIndex(d.color, |CursorColors|)], Scale(d.size, 3.0) + 1.0)
  }

  /** A mouse move: with probability 0.3 the newest 15 particles are kept and a fresh one appended. */
  function MouseMove(pool: seq<CursorParticle>, mx: real, my: real, now: real, d: CursorDraw): (r: seq<CursorParticle>)
    ensures d.spawn <= 0.7 ==> r == pool
    ensures d.spawn > 0.7 ==>
      |r| == Min(|pool| + 1, CursorCap + 1) && r[|r| - 1] == NewCursorParticle(mx, my, now, d)
      && IsSuffix(r, pool + [NewCursorParticle(mx, my, now, d)])
  {
    if d.spawn > 0.7 then PushCapped(pool, NewCursorParticle(mx, my, now, d), CursorCap) else pool
  }

  /** What holds of the cursor pool at all times: at most 16 particles, each
      with life in (0, 1], size positive, colour from the palette. */
  predicate CursorPoolOk(pool: seq<CursorParticle>) {
    |pool| <= CursorCap + 1 && forall i :: 0 <= i < |pool| ==> CursorOk(pool[i])
  }

  predicate CursorOk(c: CursorParticle) {
    0.0 < c.life <= 1.0 && c.size > 0.0 && c.color in CursorColors
  }

  lemma NewCursorOk(mx: real, my: real, now: real, d: CursorDraw)
    ensures CursorOk(NewCursorParticle(mx, my, now, d))
  {
  }

  lemma MouseMoveKeeps(pool: seq<CursorParticle>, mx: real, my: real, now: real, d: CursorDraw)
    requires CursorPoolOk(pool)
    ensures CursorPoolOk(MouseMove(pool, mx, my, now, d))
  {
    if d.spawn > 0.7 {
      NewCursorOk(mx, my, now, d);
      SuffixOfPushAll(pool, NewCursorParticle(mx, my, now, d), MouseMove(pool, mx, my, now, d), CursorOk);
    }
  }

  /** Both mouse moves and ticks keep the cursor pool well formed. */
  lemma CursorPoolStaysOk(pool: seq<CursorParticle>, mx: real, my: real, now: real, d: CursorDraw)
    requires CursorPoolOk(pool)
    ensures CursorPoolOk(MouseMove(pool, mx, my, now, d))
    ensures CursorPoolOk(CursorTick(pool))
  {
    MouseMoveKeeps(pool, mx, my, now, d);
    CursorTickKeeps(pool);
  }

  lemma {:induction false} CursorTickKeeps(pool: seq<CursorParticle>)
    requires CursorPoolOk(pool)
    ensures CursorPoolOk(CursorTick(pool))
    decreases |pool|
  {
    if |pool| > 0 {
      CursorTickKeeps(pool[1..]);
    }
  }

  /** The 50 ms spark update: drift by the velocity, lose 0.008 life, shrink by 0.5 %. */
  function MoveSpark(s: Spark): Spark {
    s.(x := s.x + s.vx, y := s.y + s.vy, life := s.life - SparkDecay, size := s.size * 0.995)
  }

  function SparkLife(s: Spark): real {
    s.life
  }

  function SparkTick(pool: seq<Spark>): (r: seq<Spark>)
    ensures |r| <= |pool|
    ensures forall i :: 0 <= i < |r| ==> r[i].life > 0.0
  {
    Evolve(pool, MoveSpark, SparkLife)
  }

  /** A spark tick moves each surviving spark by its own velocity, keeps the
      survivors' order, and drops exactly the sparks whose life runs out. */
  lemma SparkTickIsPerParticle(a: seq<Spark>, b: seq<Spark>, s: Spark)
    ensures SparkTick(a + b) == SparkTick(a) + SparkTick(b)
    ensures SparkTick([s]) == if s.life > SparkDecay then [MoveSpark(s)] else []
    ensures MoveSpark(s).x - s.x == s.vx && MoveSpark(s).y - s.y == s.vy
  {
    EvolveAppend(a, b, MoveSpark, SparkLife);
  }

  /** A fresh spark (life 1) survives exactly 124 update ticks and is gone at the 125th. */
  lemma SparkLifetime(s: Spark, n: nat)
    requires s.life == 1.0
    ensures |EvolveN([s], MoveSpark, SparkLife, n)| == 1 <==> n < 125
  {
    assert forall q :: SparkLife(MoveSpark(q)) == SparkLife(q) - SparkDecay;
    EvolveSingleton(s, MoveSpark, SparkLife, SparkDecay, n);
    assert n < 125 <==> 1.0 - n as real * SparkDecay > 0.0;
  }

  /** Any spark pool is empty after 125 update ticks. */
  lemma SparkPoolDrains(pool: seq<Spark>, n: nat)
    requires LifeAtMost(pool, SparkLife, 1.0) && n >= 125
    ensures EvolveN(pool, MoveSpark, SparkLife, n) == []
  {
    assert forall q :: SparkLife(MoveSpark(q)) == SparkLife(q) - SparkDecay;
    assert 1.0 <= n as real * SparkDecay;
    EvolveDrains(pool, MoveSpark, SparkLife, SparkDecay, 1.0, n);
  }

  /** The draws of one spark: position, velocity, colour and size. */
  datatype SparkDraw = SparkDraw(x: Draw, y: Draw, vx: Draw, vy: Draw, color: Draw, size: Draw)

  /** A new spark anywhere in the window, with each velocity component in [-1, 1). */
  function NewSpark(width: nat, height: nat, now: real, jitter: Draw, d: SparkDraw): Spark {
    Spark(now + jitter, Across(d.x, width), Across(d.y, height), Spread(d.vx, 1.0), Spread(d.vy, 1.0), 1.0,
          SparkColors[PickIndex(d.color, |SparkColors|)], Scale(d.size, 2.0) + 1.0)
  }

  /** The 300 ms spawn: keep the newest 30 sparks and append a fresh one. */
  function SpawnSpark(pool: seq<Spark>, width: nat, height: nat, now: real, jitter: Draw, d: SparkDraw): (r: seq<Spark>)
    ensures |r| == Min(|pool| + 1, SparkCap + 1)
    ensures r[|r| - 1] == NewSpark(width, height, now, jitter, d)
    ensures IsSuffix(r, pool + [NewSpark(width, height, now, jitter, d)])
  {
    PushCapped(pool, NewSpark(width, height, now, jitter, d), SparkCap)
  }

  /** What holds of the spark pool at all times: at most 31 sparks, each with
      life in (0, 1], velocity components in [-1, 1) and colour from the palette. */
  predicate SparkPoolOk(pool: seq<Spark>) {
    |pool| <= SparkCap + 1 && forall i :: 0 <= i < |pool| ==> SparkOk(pool[i])
  }

  predicate SparkOk(s: Spark) {
    0.0 < s.life <= 1.0 && -1.0 <= s.vx < 1.0 && -1.0 <= s.vy < 1.0 && s.color in SparkColors
  }

  lemma {:induction false} SparkTickKeeps(pool: seq<Spark>)
    requires SparkPoolOk(pool)
    ensures SparkPoolOk(SparkTick(pool))
    decreases |pool|
  {
    if |pool| > 0 {
      SparkTickKeeps(pool[1..]);
    }
  }

  lemma NewSparkOk(width: nat, height: nat, now: real, jitter: Draw, d: SparkDraw)
    ensures SparkOk(NewSpark(width, height, now, jitter, d))
  {
  }

  lemma SpawnKeeps(pool: seq<Spark>, width: nat, height: nat, now: real, jitter: Draw, d: SparkDraw)
    requires SparkPoolOk(pool)
    ensures SparkPoolOk(SpawnSpark(pool, width, height, now, jitter, d))
  {
    NewSparkOk(width, height, now, jitter, d);
    SuffixOfPushAll(pool, NewSpark(width, height, now, jitter, d), SpawnSpark(pool, width, height, now, jitter, d), SparkOk);
  }

  /** Both spawns and ticks keep the spark pool well formed. */
  lemma SparkPoolStaysOk(pool: seq<Spark>, width: nat, height: nat, now: real, jitter: Draw, d: SparkDraw)
    requires SparkPoolOk(pool)
    ensures SparkPoolOk(SpawnSpark(pool, width, height, now, jitter, d))
    ensures SparkPoolOk(SparkTick(pool))
  {
    SpawnKeeps(pool, width, height, now, jitter, d);
    SparkTickKeeps(pool);
  }
}

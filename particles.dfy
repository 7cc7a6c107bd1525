/** The pointer-trail particle buffer of `AdvancedParticleSystem`
    (src/components/effects.tsx). A pointer move may spawn one particle at the
    pointer; a timer tick moves, fades and shrinks every particle and drops the
    ones whose life ran out. `Math.random()` draws are parameters. */
module Particles {

  /** The two palette colours a particle can take. */
  const GOLD: string := "#E4CFA4"
  const LILAC: string := "#DAD7F0"

  /** A pointer move spawns a particle only when its gate draw exceeds this. */
  const SPAWN_THRESHOLD: real := 0.95
  /** A spawn keeps this many of the existing particles (`prev.slice(-20)`). */
  const KEEP: nat := 20
  /** The most particles the live list can hold: the kept ones and the new one. */
  const CAPACITY: nat := KEEP + 1
  /** What one tick takes off a particle's life. */
  const LIFE_STEP: real := 0.02
  /** What one tick multiplies a particle's size by. */
  const SIZE_DECAY: real := 0.99

  datatype Particle = Particle(
    id: real, x: real, y: real, vx: real, vy: real, size: real, color: string, life: real)

  /** The five `Math.random()` draws `createParticle` makes, in evaluation order. */
  datatype Draws = Draws(id: real, vx: real, vy: real, size: real, color: real)

  predicate IsUnitDraw(r: real) { 0.0 <= r < 1.0 }

  predicate ValidDraws(d: Draws) {
    IsUnitDraw(d.id) && IsUnitDraw(d.vx) && IsUnitDraw(d.vy) && IsUnitDraw(d.size) && IsUnitDraw(d.color)
  }

  predicate InPalette(c: string) { c == GOLD || c == LILAC }

  /** A particle that may be on screen: life in (0, 1], positive size, a palette colour. */
  predicate Live(p: Particle) { 0.0 < p.life <= 1.0 && p.size > 0.0 && InPalette(p.color) }

  predicate AllLive(s: seq<Particle>) { forall i :: 0 <= i < |s| ==> Live(s[i]) }

  /** The invariant of the live list: bounded and every particle live. */
  predicate Inv(s: seq<Particle>) { |s| <= CAPACITY && AllLive(s) }

  /** `createParticle(x, y)`: a fresh particle at the pointer with full life. */
  function CreateParticle(x: real, y: real, d: Draws): (p: Particle)
    ensures p.x == x && p.y == y && p.life == 1.0 && p.id == d.id
    ensures InPalette(p.color)
    ensures ValidDraws(d) ==> -1.0 <= p.vx < 1.0 && -1.0 <= p.vy < 1.0 && 2.0 <= p.size < 8.0
    ensures ValidDraws(d) ==> Live(p)
  {
    Particle(d.id, x, y, (d.vx - 0.5) * 2.0, (d.vy - 0.5) * 2.0, d.size * 6.0 + 2.0,
             if d.color > 0.5 then GOLD else LILAC, 1.0)
  }

  /** JavaScript's `s.slice(-n)` for a positive `n`: the last `n` elements, or
      all of `s` when it is shorter. (For `n` = 0 JavaScript returns the whole
      array, a case the spawn never uses.) */
  function SliceLast<T>(s: seq<T>, n: nat): (r: seq<T>)
    requires n > 0
    ensures |r| == if |s| < n then |s| else n
    ensures r == s[|s| - |r|..]
  {
    var start := if |s| >= n then |s| - n else 0;
    s[start..]
  }

  /** `[...prev.slice(-20), newParticle]`: the spawn transform of the list. */
  function Spawned(prev: seq<Particle>, p: Particle): (r: seq<Particle>)
    ensures |r| <= CAPACITY
    ensures |r| == (if |prev| < KEEP then |prev| else KEEP) + 1
    ensures r[|r| - 1] == p
    ensures r[..|r| - 1] == prev[|prev| - (|r| - 1)..]
    ensures |prev| <= KEEP ==> r == prev + [p]
  {
    SliceLast(prev, KEEP) + [p]
  }

  /** `handleMouseMove`: spawn only when the gate draw passes the threshold. */
  function MouseMoved(prev: seq<Particle>, clientX: real, clientY: real, gate: real, d: Draws): (r: seq<Particle>)
    ensures gate <= SPAWN_THRESHOLD ==> r == prev
    ensures gate > SPAWN_THRESHOLD ==>
      && |r| == (if |prev| < KEEP then |prev| else KEEP) + 1
      && r[|r| - 1] == CreateParticle(clientX, clientY, d)
      && r[..|r| - 1] == SliceLast(prev, KEEP)
    ensures Inv(prev) && ValidDraws(d) ==> Inv(r)
  {
    if gate > SPAWN_THRESHOLD then
      var p := CreateParticle(clientX, clientY, d);
      SpawnPreservesInv(prev, p);
      Spawned(prev, p)
    else prev
  }

  /** The per-particle step of `animateParticles`. */
  function Advance(p: Particle): (q: Particle)
    ensures q.id == p.id && q.color == p.color && q.vx == p.vx && q.vy == p.vy
    ensures q.life < p.life
    ensures p.size > 0.0 ==> 0.0 < q.size < p.size
    ensures p.size >= 0.0 ==> q.size <= p.size
  {
    p.(x := p.x + p.vx, y := p.y + p.vy, life := p.life - LIFE_STEP, size := p.size * SIZE_DECAY)
  }

  /** `prev.map(...)`: every particle advanced, in the same order. */
  function Advanced(s: seq<Particle>): (r: seq<Particle>)
    ensures |r| == |s|
    ensures forall i :: 0 <= i < |s| ==> r[i] == Advance(s[i])
  {
    if s == [] then [] else [Advance(s[0])] + Advanced(s[1..])
  }

  /** `.filter(particle => particle.life > 0)`. */
  function Alive(s: seq<Particle>): (r: seq<Particle>)
    ensures |r| <= |s|
    ensures forall k :: 0 <= k < |r| ==> r[k].life > 0.0
  {
    if s == [] then []
    else if s[0].life > 0.0 then [s[0]] + Alive(s[1..])
    else Alive(s[1..])
  }

  /** The whole tick of the list: map, then filter. */
  function TickList(s: seq<Particle>): (r: seq<Particle>)
    ensures |r| <= |s|
    ensures forall k :: 0 <= k < |r| ==> r[k].life > 0.0
  {
    Alive(Advanced(s))
  }

  /** `r` is `s` with exactly the particles of positive life kept, in order:
      `idx` lists the kept positions, strictly increasing. */
  ghost predicate KeptAt(s: seq<Particle>, r: seq<Particle>, idx: seq<int>) {
    && |idx| == |r|
    && (forall k :: 0 <= k < |idx| ==> 0 <= idx[k] < |s| && r[k] == s[idx[k]])
    && (forall k, l :: 0 <= k < l < |idx| ==> idx[k] < idx[l])
    && (forall i :: 0 <= i < |s| ==> (s[i].life > 0.0 <==> i in idx))
  }

  /** The filter keeps exactly the particles with positive life, in their order. */
  lemma {:induction false} AliveIndices(s: seq<Particle>) returns (idx: seq<int>)
    ensures KeptAt(s, Alive(s), idx)
  {
    if s == [] {
      idx := [];
    } else {
      var rest := AliveIndices(s[1..]);
      idx := PrependKept(s, Alive(s[1..]), rest);
    }
  }

  /** One more particle in front: kept (at position 0) exactly when its life is positive. */
  lemma PrependKept(s: seq<Particle>, r: seq<Particle>, rest: seq<int>) returns (idx: seq<int>)
    requires s != [] && KeptAt(s[1..], r, rest)
    ensures KeptAt(s, (if s[0].life > 0.0 then [s[0]] else []) + r, idx)
  {
    var shifted := ShiftKept(s, r, rest);
    if s[0].life > 0.0 {
      idx := PrependLive(s, r, shifted);
    } else {
      idx := shifted;
      assert [] + r == r;
    }
  }

  lemma PrependLive(s: seq<Particle>, r: seq<Particle>, shifted: seq<int>) returns (idx: seq<int>)
    requires s != [] && s[0].life > 0.0
    requires |shifted| == |r| && 0 !in shifted
    requires forall k :: 0 <= k < |shifted| ==> 0 < shifted[k] < |s| && r[k] == s[shifted[k]]
    requires forall k, l :: 0 <= k < l < |shifted| ==> shifted[k] < shifted[l]
    requires forall i :: 1 <= i < |s| ==> (s[i].life > 0.0 <==> i in shifted)
    ensures KeptAt(s, [s[0]] + r, idx)
  {
    idx := [0] + shifted;
    var a := [s[0]] + r;
    forall k | 0 <= k < |idx| ensures 0 <= idx[k] < |s| && a[k] == s[idx[k]] {
      if k > 0 {
        assert idx[k] == shifted[k - 1] && a[k] == r[k - 1];
      }
    }
    forall k, l | 0 <= k < l < |idx| ensures idx[k] < idx[l] {
      assert idx[l] == shifted[l - 1];
      if k > 0 {
        assert idx[k] == shifted[k - 1];
      }
    }
    forall i | 0 <= i < |s| ensures s[i].life > 0.0 <==> i in idx {
      assert i in idx <==> i == 0 || i in shifted;
    }
  }

  /** The positions kept from the tail, seen from the whole list. */
  lemma ShiftKept(s: seq<Particle>, r: seq<Particle>, rest: seq<int>) returns (shifted: seq<int>)
    requires s != [] && KeptAt(s[1..], r, rest)
    ensures |shifted| == |r| && 0 !in shifted
    ensures forall k :: 0 <= k < |shifted| ==> 0 < shifted[k] < |s| && r[k] == s[shifted[k]]
    ensures forall k, l :: 0 <= k < l < |shifted| ==> shifted[k] < shifted[l]
    ensures forall i :: 1 <= i < |s| ==> (s[i].life > 0.0 <==> i in shifted)
  {
    var t := s[1..];
    shifted := Shifted(rest);
    forall k | 0 <= k < |shifted| ensures 0 < shifted[k] < |s| && r[k] == s[shifted[k]] {
      assert s[rest[k] + 1] == t[rest[k]];
    }
    forall i | 1 <= i < |s| ensures s[i].life > 0.0 <==> i in shifted {
      assert s[i] == t[i - 1];
      ShiftedMember(rest, i);
    }
  }

  /** Every index moved up by one, as the filter does when it recurses on the tail. */
  function Shifted(idx: seq<int>): (r: seq<int>)
    ensures |r| == |idx|
    ensures forall k :: 0 <= k < |idx| ==> r[k] == idx[k] + 1
  {
    seq(|idx|, k requires 0 <= k < |idx| => idx[k] + 1)
  }

  lemma ShiftedMember(idx: seq<int>, i: int)
    requires i >= 1
    ensures i in Shifted(idx) <==> i - 1 in idx
  {
  }

  /** A tick keeps exactly the particles whose decremented life is positive, each
      advanced one step, in their original relative order. */
  lemma TickIndices(s: seq<Particle>) returns (idx: seq<int>)
    ensures |idx| == |TickList(s)| <= |s|
    ensures forall k :: 0 <= k < |idx| ==> 0 <= idx[k] < |s| && TickList(s)[k] == Advance(s[idx[k]])
    ensures forall k, l :: 0 <= k < l < |idx| ==> idx[k] < idx[l]
    ensures forall i :: 0 <= i < |s| ==> (s[i].life > LIFE_STEP <==> i in idx)
  {
    idx := AliveIndices(Advanced(s));
  }

  /** A tick never adds particles and keeps every particle live. */
  lemma TickPreservesInv(s: seq<Particle>)
    requires Inv(s)
    ensures Inv(TickList(s))
  {
    var t := TickList(s);
    var idx := TickIndices(s);
    forall k | 0 <= k < |t| ensures Live(t[k]) {
      assert Live(s[idx[k]]);
    }
  }

  /** A spawn keeps the list bounded and every particle live. */
  lemma SpawnPreservesInv(prev: seq<Particle>, p: Particle)
    ensures AllLive(prev) && Live(p) ==> Inv(Spawned(prev, p))
  {
  }

  /** One event reaching the component: a pointer move with its draws, or a timer tick. */
  datatype Event = Move(clientX: real, clientY: real, gate: real, draws: Draws) | Frame

  function Step(s: seq<Particle>, e: Event): seq<Particle>
  {
    match e
    case Move(cx, cy, g, d) => MouseMoved(s, cx, cy, g, d)
    case Frame => TickList(s)
  }

  function Run(s: seq<Particle>, es: seq<Event>): seq<Particle>
    decreases |es|
  {
    if es == [] then s else Run(Step(s, es[0]), es[1..])
  }

  predicate DrawsInRange(es: seq<Event>) {
    forall i :: 0 <= i < |es| ==> es[i].Move? ==> ValidDraws(es[i].draws)
  }

  /** Any interleaving of pointer moves and ticks keeps the list within 21
      live particles. */
  lemma {:induction false} RunPreservesInv(s: seq<Particle>, es: seq<Event>)
    requires Inv(s) && DrawsInRange(es)
    ensures Inv(Run(s, es))
    decreases |es|
  {
    if es != [] {
      match es[0] {
        case Move(cx, cy, g, d) =>
          if g > SPAWN_THRESHOLD {
            SpawnPreservesInv(s, CreateParticle(cx, cy, d));
          }
        case Frame =>
          TickPreservesInv(s);
      }
      assert DrawsInRange(es[1..]) by {
        forall i | 0 <= i < |es[1..]| ensures es[1..][i].Move? ==> ValidDraws(es[1..][i].draws) {
          assert es[1..][i] == es[i + 1];
        }
      }
      RunPreservesInv(Step(s, es[0]), es[1..]);
    }
  }

  /** When no gate draw passes the threshold, the list never grows. */
  lemma {:induction false} ClosedGateNeverGrows(s: seq<Particle>, es: seq<Event>)
    requires forall i :: 0 <= i < |es| ==> es[i].Move? ==> es[i].gate <= SPAWN_THRESHOLD
    ensures |Run(s, es)| <= |s|
    decreases |es|
  {
    if es != [] {
      assert forall i :: 0 <= i < |es[1..]| ==> es[1..][i] == es[i + 1];
      ClosedGateNeverGrows(Step(s, es[0]), es[1..]);
    }
  }

  /** When every gate draw passes, each pointer move adds exactly one particle
      until the list holds 21. */
  lemma {:induction false} OpenGateFills(s: seq<Particle>, es: seq<Event>)
    requires |s| <= CAPACITY
    requires forall i :: 0 <= i < |es| ==> es[i].Move? && es[i].gate > SPAWN_THRESHOLD
    ensures |Run(s, es)| == if |s| + |es| < CAPACITY then |s| + |es| else CAPACITY
    decreases |es|
  {
    if es != [] {
      var e := es[0];
      var next := Spawned(s, CreateParticle(e.clientX, e.clientY, e.draws));
      assert Step(s, e) == next;
      assert |next| == if |s| < CAPACITY then |s| + 1 else CAPACITY;
      assert forall i :: 0 <= i < |es[1..]| ==> es[1..][i] == es[i + 1];
      OpenGateFills(next, es[1..]);
    }
  }

  /** The state of `AdvancedParticleSystem`: its `particles` list. */
  class AdvancedParticleSystem {
    var particles: seq<Particle>

    ghost predicate Valid()
      reads this
    {
      Inv(particles)
    }

    constructor ()
      ensures Valid() && particles == []
    {
      particles := [];
    }

    /** `handleMouseMove`, with its gate draw and the draws of `createParticle`. */
    method HandleMouseMove(clientX: real, clientY: real, gate: real, d: Draws)
      requires Valid() && ValidDraws(d)
      modifies this
      ensures Valid()
      ensures particles == MouseMoved(old(particles), clientX, clientY, gate, d)
    {
      particles := MouseMoved(particles, clientX, clientY, gate, d);
    }

    /** `animateParticles`, run on every timer tick. */
    method AnimateParticles()
      requires Valid()
      modifies this
      ensures Valid()
      ensures particles == TickList(old(particles))
      ensures |particles| <= |old(particles)|
    {
      TickPreservesInv(particles);
      particles := TickList(particles);
    }
  }
}

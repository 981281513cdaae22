/**
  The particle network of the NetworkParticles scene component: a fixed set of
  particles that drift by their velocity every frame and wrap around at the
  edges of a square, and a line buffer that connects every pair of particles
  closer than a connection distance, up to a fixed number of lines.

  Coordinates are exact `real`s. The component computes the particle fields
  and distances in double precision and stores the buffers in single
  precision; neither rounding is modelled, so a pair whose squared distance
  rounds across the threshold may be decided differently.
*/
module ParticleNetwork {

  /** One particle: its position and the displacement it moves by per frame. */
  datatype Particle = Particle(x: real, y: real, z: real, vx: real, vy: real, vz: real)

  /** A colour with red, green and blue components in [0, 1]. */
  datatype Rgb = Rgb(r: real, g: real, b: real)

  /** A line between particle i and particle j. */
  datatype Edge = Edge(i: nat, j: nat)

  /** x and y wrap around when they leave [-WrapBound, WrapBound]. */
  const WrapBound: real := 15.0

  /** The line buffers have room for this many lines per particle. */
  const LinesPerParticle: nat := 15

  /** #00f3ff, the colour of lines whose lower endpoint has an even index. */
  const Cyan: Rgb := Rgb(0.0, 243.0 / 255.0, 1.0)

  /** #bc13fe, the colour of lines whose lower endpoint has an odd index. */
  const Purple: Rgb := Rgb(188.0 / 255.0, 19.0 / 255.0, 254.0 / 255.0)

  // ---------------------------------------------------------------------------
  // Moving the particles
  // ---------------------------------------------------------------------------

  /** Wrap one coordinate: past the upper bound it jumps to the lower bound, and
      below the lower bound it jumps to the upper bound (two tests in a row). */
  function Wrap(v: real): (w: real)
    ensures -WrapBound <= w <= WrapBound
    ensures -WrapBound <= v <= WrapBound ==> w == v
    ensures v > WrapBound ==> w == -WrapBound
    ensures v < -WrapBound ==> w == WrapBound
  {
    var afterHigh := if v > WrapBound then -WrapBound else v;
    if afterHigh < -WrapBound then WrapBound else afterHigh
  }

  /** A particle after one frame: moved by its velocity, x and y wrapped, z free. */
  function Moved(p: Particle): (q: Particle)
    ensures -WrapBound <= q.x <= WrapBound && -WrapBound <= q.y <= WrapBound
    ensures -WrapBound <= p.x + p.vx <= WrapBound ==> q.x == p.x + p.vx
    ensures -WrapBound <= p.y + p.vy <= WrapBound ==> q.y == p.y + p.vy
    ensures q.z == p.z + p.vz
    ensures q.vx == p.vx && q.vy == p.vy && q.vz == p.vz
  {
    p.(x := Wrap(p.x + p.vx), y := Wrap(p.y + p.vy), z := p.z + p.vz)
  }

  /** The flat position buffer of a list of particles: x, y, z of each in turn. */
  function Positions(ps: seq<Particle>): (pp: seq<real>)
    ensures |pp| == 3 * |ps|
    ensures forall k :: 0 <= k < |ps| ==>
      pp[3 * k] == ps[k].x && pp[3 * k + 1] == ps[k].y && pp[3 * k + 2] == ps[k].z
  {
    if ps == [] then []
    else
      var last := ps[|ps| - 1];
      Positions(ps[..|ps| - 1]) + [last.x, last.y, last.z]
  }

  // ---------------------------------------------------------------------------
  // Which pairs are connected
  // ---------------------------------------------------------------------------

  /** Squared distance between particles i and j of a flat position buffer. */
  function DistSq(pp: seq<real>, i: nat, j: nat): real
    requires 3 * i + 3 <= |pp| && 3 * j + 3 <= |pp|
  {
    var dx := pp[3 * i] - pp[3 * j];
    var dy := pp[3 * i + 1] - pp[3 * j + 1];
    var dz := pp[3 * i + 2] - pp[3 * j + 2];
    dx * dx + dy * dy + dz * dz
  }

  /** Particles i and j are strictly closer than distance d. */
  predicate Near(pp: seq<real>, i: nat, j: nat, d: real)
    requires 3 * i + 3 <= |pp| && 3 * j + 3 <= |pp|
  {
    DistSq(pp, i, j) < d * d
  }

  /** Edges are ordered lexicographically by (i, j). */
  predicate LexLess(a: Edge, b: Edge) {
    a.i < b.i || (a.i == b.i && a.j < b.j)
  }

  /** Strictly increasing in lexicographic order: hence without duplicates. */
  predicate StrictlyOrdered(es: seq<Edge>) {
    forall a, b :: 0 <= a < b < |es| ==> LexLess(es[a], es[b])
  }

  /** The close pairs (i, j') with i < j' < j, in increasing j'. */
  function RowPrefix(pp: seq<real>, n: nat, d: real, i: nat, j: nat): seq<Edge>
    requires |pp| == 3 * n && i < n && j <= n
    decreases j
  {
    if j <= i + 1 then []
    else RowPrefix(pp, n, d, i, j - 1) + (if Near(pp, i, j - 1, d) then [Edge(i, j - 1)] else [])
  }

  /** The close pairs (i', j') with i' < i and i' < j' < n, in lexicographic order. */
  function RowsBefore(pp: seq<real>, n: nat, d: real, i: nat): seq<Edge>
    requires |pp| == 3 * n && i <= n
    decreases i
  {
    if i == 0 then []
    else RowsBefore(pp, n, d, i - 1) + RowPrefix(pp, n, d, i - 1, n)
  }

  /** Every close pair of the n particles, in the order the double loop visits them. */
  function Qualifying(pp: seq<real>, n: nat, d: real): seq<Edge>
    requires |pp| == 3 * n
  {
    RowsBefore(pp, n, d, n)
  }

  /** The first m elements of s, or all of s when it is shorter. */
  function Take<T>(s: seq<T>, m: nat): (t: seq<T>)
    ensures t <= s
    ensures |t| == if |s| <= m then |s| else m
  {
    if |s| <= m then s else s[..m]
  }

  /** The lines a frame records: the close pairs, cut off at the capacity m. */
  function Recorded(pp: seq<real>, n: nat, d: real, m: nat): seq<Edge>
    requires |pp| == 3 * n
  {
    Take(Qualifying(pp, n, d), m)
  }

  /** The colour of both endpoints of a line whose lower endpoint is i. */
  function EdgeColor(i: nat): Rgb {
    if i % 2 == 0 then Cyan else Purple
  }

  /** Line k of the buffers holds edge e: its two endpoints' positions in
      slots 6k..6k+5 of lp, and the colour of e.i at both endpoints in lc. */
  ghost predicate EdgeWrittenAt(lp: seq<real>, lc: seq<real>, pp: seq<real>, k: nat, e: Edge) {
    && 6 * k + 6 <= |lp| && 6 * k + 6 <= |lc|
    && 3 * e.i + 3 <= |pp| && 3 * e.j + 3 <= |pp|
    && lp[6 * k] == pp[3 * e.i] && lp[6 * k + 1] == pp[3 * e.i + 1] && lp[6 * k + 2] == pp[3 * e.i + 2]
    && lp[6 * k + 3] == pp[3 * e.j] && lp[6 * k + 4] == pp[3 * e.j + 1] && lp[6 * k + 5] == pp[3 * e.j + 2]
    && var c := EdgeColor(e.i);
    && lc[6 * k] == c.r && lc[6 * k + 1] == c.g && lc[6 * k + 2] == c.b
    && lc[6 * k + 3] == c.r && lc[6 * k + 4] == c.g && lc[6 * k + 5] == c.b
  }

  /** Lines 0 .. |es|-1 of the buffers hold the edges es, in order. */
  ghost predicate EdgesWritten(lp: seq<real>, lc: seq<real>, pp: seq<real>, es: seq<Edge>) {
    forall k :: 0 <= k < |es| ==> EdgeWrittenAt(lp, lc, pp, k, es[k])
  }

  // ---------------------------------------------------------------------------
  // Properties of the connection rule
  // ---------------------------------------------------------------------------

  /** e is a pair the scan may connect: lower index first, both in range, close. */
  predicate ClosePair(pp: seq<real>, n: nat, d: real, e: Edge)
    requires |pp| == 3 * n
  {
    e.i < e.j < n && Near(pp, e.i, e.j, d)
  }

  /** Every pair of a row prefix is (i, j') with j' < j and close. */
  lemma {:induction false} RowPrefixSound(pp: seq<real>, n: nat, d: real, i: nat, j: nat)
    requires |pp| == 3 * n && i < n && j <= n
    ensures forall k :: 0 <= k < |RowPrefix(pp, n, d, i, j)| ==>
      RowPrefix(pp, n, d, i, j)[k].i == i && RowPrefix(pp, n, d, i, j)[k].j < j &&
      ClosePair(pp, n, d, RowPrefix(pp, n, d, i, j)[k])
    decreases j
  {
    if j > i + 1 {
      RowPrefixSound(pp, n, d, i, j - 1);
    }
  }

  /** Every close pair (i, j') with i < j' < j is in the row prefix. */
  lemma {:induction false} RowPrefixComplete(pp: seq<real>, n: nat, d: real, i: nat, j: nat)
    requires |pp| == 3 * n && i < n && j <= n
    ensures forall j' :: i < j' < j && Near(pp, i, j', d) ==> Edge(i, j') in RowPrefix(pp, n, d, i, j)
    decreases j
  {
    if j > i + 1 {
      RowPrefixComplete(pp, n, d, i, j - 1);
    }
  }

  /** Concatenating two ordered lists, every element of the first below every
      element of the second, gives an ordered list. */
  lemma OrderedConcat(a: seq<Edge>, b: seq<Edge>)
    requires StrictlyOrdered(a) && StrictlyOrdered(b)
    requires forall p, q :: 0 <= p < |a| && 0 <= q < |b| ==> LexLess(a[p], b[q])
    ensures StrictlyOrdered(a + b)
  {
    forall x, y | 0 <= x < y < |a + b| ensures LexLess((a + b)[x], (a + b)[y]) {
      if y < |a| {
        assert (a + b)[x] == a[x] && (a + b)[y] == a[y];
      } else if x >= |a| {
        assert (a + b)[x] == b[x - |a|] && (a + b)[y] == b[y - |a|];
      } else {
        assert (a + b)[x] == a[x] && (a + b)[y] == b[y - |a|];
      }
    }
  }

  /** A row prefix lists its pairs in strictly increasing order. */
  lemma {:induction false} RowPrefixOrdered(pp: seq<real>, n: nat, d: real, i: nat, j: nat)
    requires |pp| == 3 * n && i < n && j <= n
    ensures StrictlyOrdered(RowPrefix(pp, n, d, i, j))
    decreases j
  {
    if j > i + 1 {
      var front := RowPrefix(pp, n, d, i, j - 1);
      var last: seq<Edge> := if Near(pp, i, j - 1, d) then [Edge(i, j - 1)] else [];
      RowPrefixOrdered(pp, n, d, i, j - 1);
      RowPrefixSound(pp, n, d, i, j - 1);
      OrderedConcat(front, last);
    }
  }

  /** A shorter row prefix is a prefix of a longer one. */
  lemma {:induction false} RowPrefixGrows(pp: seq<real>, n: nat, d: real, i: nat, j: nat, j': nat)
    requires |pp| == 3 * n && i < n && j <= j' <= n
    ensures RowPrefix(pp, n, d, i, j) <= RowPrefix(pp, n, d, i, j')
    decreases j'
  {
    if j < j' {
      RowPrefixGrows(pp, n, d, i, j, j' - 1);
    }
  }

  /** Every pair recorded for the rows before i is a close pair whose lower index is below i. */
  lemma {:induction false} RowsBeforeSound(pp: seq<real>, n: nat, d: real, i: nat)
    requires |pp| == 3 * n && i <= n
    ensures forall k :: 0 <= k < |RowsBefore(pp, n, d, i)| ==>
      RowsBefore(pp, n, d, i)[k].i < i && ClosePair(pp, n, d, RowsBefore(pp, n, d, i)[k])
    decreases i
  {
    if i > 0 {
      var front: seq<Edge>, row: seq<Edge> := RowsBefore(pp, n, d, i - 1), RowPrefix(pp, n, d, i - 1, n);
      RowsBeforeSound(pp, n, d, i - 1);
      RowPrefixSound(pp, n, d, i - 1, n);
      forall k | 0 <= k < |front + row|
        ensures (front + row)[k].i < i && ClosePair(pp, n, d, (front + row)[k])
      {
        if k < |front| {
          assert (front + row)[k] == front[k];
        } else {
          assert (front + row)[k] == row[k - |front|];
        }
      }
    }
  }

  /** Every close pair (i', j') with i' < i and i' < j' < n is recorded for the rows before i. */
  lemma {:induction false} RowsBeforeComplete(pp: seq<real>, n: nat, d: real, i: nat)
    requires |pp| == 3 * n && i <= n
    ensures forall i': nat, j': nat :: i' < i && i' < j' < n && Near(pp, i', j', d) ==>
      Edge(i', j') in RowsBefore(pp, n, d, i)
    decreases i
  {
    if i > 0 {
      var front: seq<Edge>, row: seq<Edge> := RowsBefore(pp, n, d, i - 1), RowPrefix(pp, n, d, i - 1, n);
      RowsBeforeComplete(pp, n, d, i - 1);
      RowPrefixComplete(pp, n, d, i - 1, n);
      forall i': nat, j': nat | i' < i && i' < j' < n && Near(pp, i', j', d)
        ensures Edge(i', j') in front + row
      {
        if i' < i - 1 {
          assert Edge(i', j') in front;
        } else {
          assert Edge(i', j') in row;
        }
      }
    }
  }

  /** The rows before i list their pairs in strictly increasing lexicographic order. */
  lemma {:induction false} RowsBeforeOrdered(pp: seq<real>, n: nat, d: real, i: nat)
    requires |pp| == 3 * n && i <= n
    ensures StrictlyOrdered(RowsBefore(pp, n, d, i))
    decreases i
  {
    if i > 0 {
      var front: seq<Edge>, row: seq<Edge> := RowsBefore(pp, n, d, i - 1), RowPrefix(pp, n, d, i - 1, n);
      RowsBeforeOrdered(pp, n, d, i - 1);
      RowsBeforeSound(pp, n, d, i - 1);
      RowPrefixOrdered(pp, n, d, i - 1, n);
      RowPrefixSound(pp, n, d, i - 1, n);
      OrderedConcat(front, row);
    }
  }

  /** A pair is connected exactly when it is (i, j) with i < j < n and the two
      particles are strictly closer than d: no self-edges, no reversed pairs. */
  lemma QualifyingIff(pp: seq<real>, n: nat, d: real, i: nat, j: nat)
    requires |pp| == 3 * n
    ensures Edge(i, j) in Qualifying(pp, n, d) <==> i < j < n && Near(pp, i, j, d)
  {
    RowsBeforeSound(pp, n, d, n);
    RowsBeforeComplete(pp, n, d, n);
    var q := Qualifying(pp, n, d);
    if Edge(i, j) in q {
      var k :| 0 <= k < |q| && q[k] == Edge(i, j);
      assert ClosePair(pp, n, d, q[k]);
    }
  }

  /** The close pairs come in lexicographic order, so each appears once. */
  lemma QualifyingOrdered(pp: seq<real>, n: nat, d: real)
    requires |pp| == 3 * n
    ensures StrictlyOrdered(Qualifying(pp, n, d))
    ensures forall a, b :: 0 <= a < b < |Qualifying(pp, n, d)| ==> Qualifying(pp, n, d)[a] != Qualifying(pp, n, d)[b]
  {
    RowsBeforeOrdered(pp, n, d, n);
  }

  /** A prefix of the qualifying pairs that is already m long fixes the cut at m. */
  lemma TakeOfLongPrefix<T>(a: seq<T>, b: seq<T>, m: nat)
    requires a <= b && |a| >= m
    ensures Take(a, m) == Take(b, m)
  {
    assert a[..m] == b[..m];
  }

  /** The recorded lines never exceed the capacity m, are all close pairs in
      lexicographic order, and are the first qualifying pairs the loop meets. */
  lemma RecordedWithinCapacity(pp: seq<real>, n: nat, d: real, m: nat)
    requires |pp| == 3 * n
    ensures |Recorded(pp, n, d, m)| <= m
    ensures Recorded(pp, n, d, m) <= Qualifying(pp, n, d)
    ensures StrictlyOrdered(Recorded(pp, n, d, m))
    ensures forall k :: 0 <= k < |Recorded(pp, n, d, m)| ==> ClosePair(pp, n, d, Recorded(pp, n, d, m)[k])
  {
    var q := Qualifying(pp, n, d);
    var r := Recorded(pp, n, d, m);
    RowsBeforeSound(pp, n, d, n);
    RowsBeforeOrdered(pp, n, d, n);
    forall k | 0 <= k < |r| ensures ClosePair(pp, n, d, r[k]) {
      assert r[k] == q[k];
    }
    forall a, b | 0 <= a < b < |r| ensures LexLess(r[a], r[b]) {
      assert r[a] == q[a] && r[b] == q[b];
    }
  }

  /** Below the capacity, every close pair is recorded, exactly once. */
  lemma RecordedAllWhenRoom(pp: seq<real>, n: nat, d: real, m: nat)
    requires |pp| == 3 * n
    requires |Qualifying(pp, n, d)| <= m
    ensures forall i: nat, j: nat :: i < j < n && Near(pp, i, j, d) ==> Edge(i, j) in Recorded(pp, n, d, m)
    ensures forall a, b :: 0 <= a < b < |Recorded(pp, n, d, m)| ==> Recorded(pp, n, d, m)[a] != Recorded(pp, n, d, m)[b]
  {
    RowsBeforeComplete(pp, n, d, n);
    QualifyingOrdered(pp, n, d);
  }

  /** Once the capacity is reached nothing more is recorded: exactly m lines are
      recorded, and every close pair dropped comes after all the recorded ones. */
  lemma RecordedStopsAtCapacity(pp: seq<real>, n: nat, d: real, m: nat)
    requires |pp| == 3 * n
    requires |Qualifying(pp, n, d)| > m
    ensures |Recorded(pp, n, d, m)| == m
    ensures forall k, e :: 0 <= k < m && e in Qualifying(pp, n, d)[m..] ==>
      LexLess(Recorded(pp, n, d, m)[k], e)
  {
    var q := Qualifying(pp, n, d);
    QualifyingOrdered(pp, n, d);
    forall k, e | 0 <= k < m && e in q[m..] ensures LexLess(Recorded(pp, n, d, m)[k], e) {
      var t :| 0 <= t < |q[m..]| && q[m..][t] == e;
      assert q[m + t] == e;
    }
  }

  /** Extending a scan by one pair: a close pair is appended, and once m pairs
      are recorded an appended pair changes nothing. */
  lemma TakeStep<T>(s: seq<T>, x: T, m: nat)
    ensures |Take(s, m)| < m ==> Take(s + [x], m) == Take(s, m) + [x]
    ensures |Take(s, m)| >= m ==> Take(s + [x], m) == Take(s, m)
  {
    if |Take(s, m)| >= m {
      TakeOfLongPrefix(s, s + [x], m);
    }
  }

  /** One step of the inner loop: pair (i, j) is appended to the recorded
      lines exactly when it is close and there is still room. */
  lemma RowStep(pp: seq<real>, n: nat, d: real, i: nat, j: nat, m: nat, before: seq<Edge>)
    requires |pp| == 3 * n && i < j < n
    requires before == Take(RowsBefore(pp, n, d, i) + RowPrefix(pp, n, d, i, j), m)
    ensures Near(pp, i, j, d) && |before| < m ==>
      Take(RowsBefore(pp, n, d, i) + RowPrefix(pp, n, d, i, j + 1), m) == before + [Edge(i, j)]
    ensures !(Near(pp, i, j, d) && |before| < m) ==>
      Take(RowsBefore(pp, n, d, i) + RowPrefix(pp, n, d, i, j + 1), m) == before
  {
    var scanned := RowsBefore(pp, n, d, i) + RowPrefix(pp, n, d, i, j);
    assert RowsBefore(pp, n, d, i) + RowPrefix(pp, n, d, i, j + 1) ==
      scanned + (if Near(pp, i, j, d) then [Edge(i, j)] else []);
    if Near(pp, i, j, d) {
      TakeStep(scanned, Edge(i, j), m);
    } else {
      assert scanned + [] == scanned;
    }
  }

  /** After the break at capacity in row i, the rest of the row adds nothing. */
  lemma CappedRow(pp: seq<real>, n: nat, d: real, i: nat, j: nat, m: nat)
    requires |pp| == 3 * n && i < n && j <= n
    requires |Take(RowsBefore(pp, n, d, i) + RowPrefix(pp, n, d, i, j), m)| >= m
    ensures Take(RowsBefore(pp, n, d, i + 1), m) == Take(RowsBefore(pp, n, d, i) + RowPrefix(pp, n, d, i, j), m)
  {
    var front := RowsBefore(pp, n, d, i);
    RowPrefixGrows(pp, n, d, i, j, n);
    assert front + RowPrefix(pp, n, d, i, j) <= front + RowPrefix(pp, n, d, i, n);
    TakeOfLongPrefix(front + RowPrefix(pp, n, d, i, j), front + RowPrefix(pp, n, d, i, n), m);
  }

  /** A buffer that holds x, y, z of every particle in turn is their position buffer. */
  lemma {:induction false} PositionsFromSlots(pp: seq<real>, ps: seq<Particle>)
    requires |pp| == 3 * |ps|
    requires forall k :: 0 <= k < |ps| ==>
      pp[3 * k] == ps[k].x && pp[3 * k + 1] == ps[k].y && pp[3 * k + 2] == ps[k].z
    ensures pp == Positions(ps)
  {
    if ps != [] {
      var n := |ps| - 1;
      PositionsFromSlots(pp[..3 * n], ps[..n]);
      assert pp == pp[..3 * n] + [pp[3 * n], pp[3 * n + 1], pp[3 * n + 2]];
    }
  }

  /** Writing line |es| as e, leaving the slots of lines 0 .. |es|-1 alone,
      extends the lines held by the buffers from es to es + [e]. */
  lemma EdgesWrittenExtend(lp0: seq<real>, lc0: seq<real>, lp: seq<real>, lc: seq<real>,
                           pp: seq<real>, es: seq<Edge>, e: Edge)
    requires EdgesWritten(lp0, lc0, pp, es)
    requires EdgeWrittenAt(lp, lc, pp, |es|, e)
    requires |lp0| == |lp| && |lc0| == |lc|
    requires forall t :: 0 <= t < 6 * |es| ==> lp[t] == lp0[t] && lc[t] == lc0[t]
    ensures EdgesWritten(lp, lc, pp, es + [e])
  {
    forall k | 0 <= k < |es| + 1
      ensures EdgeWrittenAt(lp, lc, pp, k, (es + [e])[k])
    {
      if k < |es| {
        assert (es + [e])[k] == es[k];
        assert EdgeWrittenAt(lp0, lc0, pp, k, es[k]);
      }
    }
  }

  /** Two particles at (0,0,0) and (3,0,0): one line with connection distance 4.5, none with 2. */
  lemma TwoParticleScenario()
    ensures Qualifying([0.0, 0.0, 0.0, 3.0, 0.0, 0.0], 2, 4.5) == [Edge(0, 1)]
    ensures Qualifying([0.0, 0.0, 0.0, 3.0, 0.0, 0.0], 2, 2.0) == []
  {
    var pp := [0.0, 0.0, 0.0, 3.0, 0.0, 0.0];
    assert DistSq(pp, 0, 1) == 9.0;
    assert RowPrefix(pp, 2, 4.5, 1, 2) == [];
    assert RowPrefix(pp, 2, 2.0, 1, 2) == [];
    assert RowsBefore(pp, 2, 4.5, 1) == RowPrefix(pp, 2, 4.5, 0, 2);
    assert RowsBefore(pp, 2, 2.0, 1) == RowPrefix(pp, 2, 2.0, 0, 2);
  }

  // ---------------------------------------------------------------------------
  // The component: particles and fixed-size render buffers
  // ---------------------------------------------------------------------------

  /** The component's state kept across frames. The four arrays are allocated
      once, at mount, and never reallocated; drawCount is the number of line
      vertices the line geometry draws. */
  class NetworkParticles {
    const count: nat
    const connectionDistance: real
    const maxConnections: nat
    const particles: array<Particle>
    const particlePositions: array<real>
    const linePositions: array<real>
    const lineColors: array<real>
    var drawCount: nat

    ghost predicate Valid()
      reads this
    {
      && particles.Length == count
      && particlePositions.Length == 3 * count
      && maxConnections == LinesPerParticle * count
      && linePositions.Length == 6 * maxConnections
      && lineColors.Length == 6 * maxConnections
      && particlePositions != linePositions && particlePositions != lineColors && linePositions != lineColors
      && drawCount <= 2 * maxConnections
    }

    /** The lines this frame's positions call for, cut off at the capacity. */
    ghost function CurrentEdges(): seq<Edge>
      reads this, particlePositions
      requires Valid()
    {
      Recorded(particlePositions[..], count, connectionDistance, maxConnections)
    }

    /** Mount: the initial particles are given (they are random in the
        component, 100 of them by default, with connection distance 4.5 by
        default), the buffers are zero-filled, and the line geometry draws
        its whole buffer until the first frame sets a draw range. */
    constructor (initial: seq<Particle>, connectionDistance: real)
      ensures Valid()
      ensures count == |initial| && this.connectionDistance == connectionDistance
      ensures maxConnections == LinesPerParticle * |initial|
      ensures particles[..] == initial
      ensures forall t :: 0 <= t < particlePositions.Length ==> particlePositions[t] == 0.0
      ensures forall t :: 0 <= t < linePositions.Length ==> linePositions[t] == 0.0 && lineColors[t] == 0.0
      ensures drawCount == 2 * maxConnections
      ensures fresh(particles) && fresh(particlePositions) && fresh(linePositions) && fresh(lineColors)
    {
      count := |initial|;
      this.connectionDistance := connectionDistance;
      maxConnections := LinesPerParticle * |initial|;
      particles := new Particle[|initial|](k requires 0 <= k < |initial| => initial[k]);
      particlePositions := new real[3 * |initial|](_ => 0.0);
      linePositions := new real[6 * (LinesPerParticle * |initial|)](_ => 0.0);
      lineColors := new real[6 * (LinesPerParticle * |initial|)](_ => 0.0);
      drawCount := 2 * (LinesPerParticle * |initial|);
    }

    /** Step 1 of a frame: move and wrap every particle in place, and copy the
        new positions into the position buffer. */
    method MoveParticles()
      requires Valid()
      modifies particles, particlePositions
      ensures Valid()
      ensures forall k :: 0 <= k < count ==> particles[k] == Moved(old(particles[k]))
      ensures particlePositions[..] == Positions(particles[..])
    {
      for i := 0 to count
        invariant forall k :: 0 <= k < i ==> particles[k] == Moved(old(particles[k]))
        invariant forall k :: i <= k < count ==> particles[k] == old(particles[k])
        invariant forall k :: 0 <= k < i ==>
          && particlePositions[3 * k] == particles[k].x
          && particlePositions[3 * k + 1] == particles[k].y
          && particlePositions[3 * k + 2] == particles[k].z
      {
        var p := particles[i];
        p := p.(x := p.x + p.vx, y := p.y + p.vy, z := p.z + p.vz);
        if p.x > WrapBound { p := p.(x := -WrapBound); }
        if p.x < -WrapBound { p := p.(x := WrapBound); }
        if p.y > WrapBound { p := p.(y := -WrapBound); }
        if p.y < -WrapBound { p := p.(y := WrapBound); }
        particles[i] := p;
        particlePositions[3 * i] := p.x;
        particlePositions[3 * i + 1] := p.y;
        particlePositions[3 * i + 2] := p.z;
      }
      PositionsFromSlots(particlePositions[..], particles[..]);
    }

    /** Write line k as edge (i, j): both endpoints' positions, and the colour
        chosen by the parity of i at both endpoints. No other slot changes. */
    method WriteEdge(k: nat, i: nat, j: nat)
      requires Valid() && k < maxConnections && i < count && j < count
      modifies linePositions, lineColors
      ensures EdgeWrittenAt(linePositions[..], lineColors[..], particlePositions[..], k, Edge(i, j))
      ensures forall t :: 0 <= t < linePositions.Length && (t < 6 * k || 6 * k + 6 <= t) ==>
        linePositions[t] == old(linePositions[t]) && lineColors[t] == old(lineColors[t])
    {
      linePositions[6 * k] := particlePositions[3 * i];
      linePositions[6 * k + 1] := particlePositions[3 * i + 1];
      linePositions[6 * k + 2] := particlePositions[3 * i + 2];

      linePositions[6 * k + 3] := particlePositions[3 * j];
      linePositions[6 * k + 4] := particlePositions[3 * j + 1];
      linePositions[6 * k + 5] := particlePositions[3 * j + 2];

      var isEven := i % 2 == 0;
      lineColors[6 * k] := if isEven then Cyan.r else Purple.r;
      lineColors[6 * k + 1] := if isEven then Cyan.g else Purple.g;
      lineColors[6 * k + 2] := if isEven then Cyan.b else Purple.b;

      lineColors[6 * k + 3] := if isEven then Cyan.r else Purple.r;
      lineColors[6 * k + 4] := if isEven then Cyan.g else Purple.g;
      lineColors[6 * k + 5] := if isEven then Cyan.b else Purple.b;
    }

    /** Record edge (i, j) as line k, just after the lines already written. */
    method RecordEdge(ghost pp: seq<real>, ghost written: seq<Edge>, k: nat, i: nat, j: nat)
      requires Valid() && pp == particlePositions[..]
      requires k == |written| && k < maxConnections && i < count && j < count
      requires EdgesWritten(linePositions[..], lineColors[..], pp, written)
      modifies linePositions, lineColors
      ensures EdgesWritten(linePositions[..], lineColors[..], pp, written + [Edge(i, j)])
      ensures forall t :: 6 * k + 6 <= t < linePositions.Length ==>
        linePositions[t] == old(linePositions[t]) && lineColors[t] == old(lineColors[t])
    {
      ghost var lp0, lc0 := linePositions[..], lineColors[..];
      WriteEdge(k, i, j);
      EdgesWrittenExtend(lp0, lc0, linePositions[..], lineColors[..], pp, written, Edge(i, j));
    }

    /** Whether particles i and j, read from the position buffer, are closer
        than the connection distance (compared squared, without a root). */
    method IsClose(i: nat, j: nat) returns (close: bool)
      requires Valid() && i < count && j < count
      ensures close == Near(particlePositions[..], i, j, connectionDistance)
    {
      var dx := particlePositions[3 * i] - particlePositions[3 * j];
      var dy := particlePositions[3 * i + 1] - particlePositions[3 * j + 1];
      var dz := particlePositions[3 * i + 2] - particlePositions[3 * j + 2];
      var distSq := dx * dx + dy * dy + dz * dz;
      close := distSq < connectionDistance * connectionDistance;
    }

    /** The body of the inner loop for pair (i, j): if the pair is close,
        either report that the buffers are full (the loop then breaks) or
        record it as the next line. `written` and `written'` are the lines
        recorded before and after. */
    method VisitPair(ghost pp: seq<real>, ghost written: seq<Edge>, i: nat, j: nat, lineIndex: nat)
      returns (next: nat, ghost written': seq<Edge>, full: bool)
      requires Valid() && pp == particlePositions[..] && i < j < count
      requires written == Take(RowsBefore(pp, count, connectionDistance, i) +
                               RowPrefix(pp, count, connectionDistance, i, j), maxConnections)
      requires lineIndex == |written|
      requires EdgesWritten(linePositions[..], lineColors[..], pp, written)
      modifies linePositions, lineColors
      ensures full ==>
        && Near(pp, i, j, connectionDistance) && lineIndex >= maxConnections
        && next == lineIndex && written' == written
        && Take(RowsBefore(pp, count, connectionDistance, i + 1), maxConnections) == written
      ensures !full ==> written' == Take(RowsBefore(pp, count, connectionDistance, i) +
                                         RowPrefix(pp, count, connectionDistance, i, j + 1), maxConnections)
      ensures next == |written'| && lineIndex <= next
      ensures EdgesWritten(linePositions[..], lineColors[..], pp, written')
      ensures forall t :: 6 * next <= t < linePositions.Length ==>
        linePositions[t] == old(linePositions[t]) && lineColors[t] == old(lineColors[t])
    {
      next, written', full := lineIndex, written, false;
      var close := IsClose(i, j);
      RowStep(pp, count, connectionDistance, i, j, maxConnections, written);
      if close {
        if lineIndex >= maxConnections {
          CappedRow(pp, count, connectionDistance, i, j + 1, maxConnections);
          full := true;
          return;
        }
        RecordEdge(pp, written, lineIndex, i, j);
        written' := written + [Edge(i, j)];
        next := lineIndex + 1;
      }
    }

    /** The inner loop for row i: scan j = i+1 .. count-1, write a line for each
        close pair while there is room, and stop the row at the first close
        pair found with the buffers full. */
    method ScanRow(ghost pp: seq<real>, i: nat, lineIndex: nat) returns (next: nat)
      requires Valid() && pp == particlePositions[..] && i < count
      requires lineIndex == |Take(RowsBefore(pp, count, connectionDistance, i), maxConnections)|
      requires EdgesWritten(linePositions[..], lineColors[..], pp,
                            Take(RowsBefore(pp, count, connectionDistance, i), maxConnections))
      modifies linePositions, lineColors
      ensures next == |Take(RowsBefore(pp, count, connectionDistance, i + 1), maxConnections)|
      ensures EdgesWritten(linePositions[..], lineColors[..], pp,
                           Take(RowsBefore(pp, count, connectionDistance, i + 1), maxConnections))
      ensures lineIndex <= next
      ensures forall t :: 6 * next <= t < linePositions.Length ==>
        linePositions[t] == old(linePositions[t]) && lineColors[t] == old(lineColors[t])
    {
      ghost var front := RowsBefore(pp, count, connectionDistance, i);
      ghost var written := Take(front, maxConnections);
      assert front + RowPrefix(pp, count, connectionDistance, i, i + 1) == front;
      next := lineIndex;
      for j := i + 1 to count
        invariant written == Take(front + RowPrefix(pp, count, connectionDistance, i, j), maxConnections)
        invariant next == |written| && lineIndex <= next
        invariant EdgesWritten(linePositions[..], lineColors[..], pp, written)
        invariant forall t :: 6 * next <= t < linePositions.Length ==>
          linePositions[t] == old(linePositions[t]) && lineColors[t] == old(lineColors[t])
      {
        var full;
        next, written, full := VisitPair(pp, written, i, j, next);
        if full {
          break;
        }
      }
    }

    /** Step 2 of a frame: scan every pair i < j of the position buffer, write a
        line for each close pair until the buffers are full, and set the draw
        range to the lines written. Slots past the written lines keep their
        values from earlier frames. */
    method BuildLines()
      requires Valid()
      modifies linePositions, lineColors, this`drawCount
      ensures Valid()
      ensures |CurrentEdges()| <= maxConnections
      ensures drawCount == 2 * |CurrentEdges()|
      ensures EdgesWritten(linePositions[..], lineColors[..], particlePositions[..], CurrentEdges())
      ensures forall t :: 6 * |CurrentEdges()| <= t < linePositions.Length ==>
        linePositions[t] == old(linePositions[t]) && lineColors[t] == old(lineColors[t])
    {
      ghost var pp := particlePositions[..];
      ghost var written: seq<Edge> := [];
      var lineIndex: nat := 0;
      for i := 0 to count
        invariant Valid()
        invariant written == Take(RowsBefore(pp, count, connectionDistance, i), maxConnections)
        invariant lineIndex == |written|
        invariant EdgesWritten(linePositions[..], lineColors[..], pp, written)
        invariant forall t :: 6 * lineIndex <= t < linePositions.Length ==>
          linePositions[t] == old(linePositions[t]) && lineColors[t] == old(lineColors[t])
      {
        lineIndex := ScanRow(pp, i, lineIndex);
        written := Take(RowsBefore(pp, count, connectionDistance, i + 1), maxConnections);
      }
      assert written == CurrentEdges();
      drawCount := lineIndex * 2;
    }

    /** One frame. The component only moves the particles once the point
        geometry is mounted, and only rebuilds the lines once the line geometry
        is mounted as well; the lines always use this frame's positions. */
    method Frame(pointsReady: bool, linesReady: bool)
      requires Valid()
      modifies particles, particlePositions, linePositions, lineColors, this`drawCount
      ensures Valid()
      ensures pointsReady ==>
        && (forall k :: 0 <= k < count ==> particles[k] == Moved(old(particles[k])))
        && particlePositions[..] == Positions(particles[..])
      ensures !pointsReady ==> unchanged(particles, particlePositions)
      ensures pointsReady && linesReady ==>
        && drawCount == 2 * |CurrentEdges()|
        && EdgesWritten(linePositions[..], lineColors[..], particlePositions[..], CurrentEdges())
        && (forall t :: 6 * |CurrentEdges()| <= t < linePositions.Length ==>
              linePositions[t] == old(linePositions[t]) && lineColors[t] == old(lineColors[t]))
      ensures !(pointsReady && linesReady) ==> unchanged(linePositions, lineColors) && drawCount == old(drawCount)
    {
      if pointsReady {
        MoveParticles();
      }
      if linesReady && pointsReady {
        BuildLines();
      }
    }
  }
}

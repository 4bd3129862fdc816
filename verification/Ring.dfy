/**
 * The hash ring: 360 degrees cut into one arc per location and, inside each arc, into
 * equally wide virtual node stores. Arithmetic is exact.
 */
module Ring {
  import opened Types

  const RING_RANGE: real := 360.0

  datatype Arc = Arc(lower: real, upper: real)

  /** `hash` is the string hash of node ids; nothing is assumed of it here. */
  datatype RawRing = RawRing(regions: nat, partitions: nat, perPartition: nat, hash: string -> uint64)

  type Ring = r: RawRing | r.regions > 0 && r.partitions > 0 && r.perPartition > 0
    witness RawRing(1, 1, 1, _ => 0)

  predicate HasLocation(r: Ring, loc: Location) {
    0 <= loc.region < r.regions && 0 <= loc.partition < r.partitions
  }

  function StoreCount(r: Ring): nat {
    r.perPartition * r.regions * r.partitions
  }

  /** Position of a location in ring order. */
  function Block(r: Ring, loc: Location): int {
    loc.region * r.partitions + loc.partition
  }

  function Granularity(r: Ring): real
    requires StoreCount(r) > 0
  {
    RING_RANGE / (StoreCount(r) as real)
  }

  function RegionWidth(regions: nat): real
    requires regions > 0
  {
    RING_RANGE / (regions as real)
  }

  function ArcWidth(regions: nat, partitions: nat): real
    requires regions > 0 && partitions > 0
  {
    RegionWidth(regions) / (partitions as real)
  }

  /** Where the arc of a location lies, in closed form. */
  function ArcAt(regions: nat, partitions: nat, loc: Location): Arc
    requires regions > 0 && partitions > 0
  {
    var w := ArcWidth(regions, partitions);
    var b := loc.region * partitions + loc.partition;
    Arc((b as real) * w, (b as real) * w + w)
  }

  /** The hash of an id as a fraction of the ring, in (0, 1]. */
  function RingValue(r: Ring, id: string): real {
    var h := r.hash(id);
    if h == 0 then 1.0 else (h as real) / (MAX_UINT64 as real)
  }

  /** The ring position of a node: its ring value compacted onto the arc of its location. */
  function NodeHash(r: Ring, loc: Location, id: string): real {
    var arc := ArcAt(r.regions, r.partitions, loc);
    arc.lower + RingValue(r, id) * (arc.upper - arc.lower)
  }

  lemma StoreCountPositive(r: Ring)
    ensures StoreCount(r) > 0
  {
    assert r.perPartition * r.regions > 0;
  }

  /** The virtual node store a node is routed to; may be off the ring. */
  function StoreIndex(r: Ring, loc: Location, id: string): int {
    StoreCountPositive(r);
    (NodeHash(r, loc, id) / Granularity(r)).Floor
  }

  /** Hashes 0 and MaxUint64 both give ring value 1; every other hash lies strictly inside the arc. */
  predicate Inner(r: Ring, id: string) {
    0 < r.hash(id) < MAX_UINT64
  }

  lemma {:induction false} CastMul(a: nat, b: nat)
    ensures (a * b) as real == (a as real) * (b as real)
  {
    if a > 0 {
      CastMul(a - 1, b);
      assert a * b == (a - 1) * b + b;
    }
  }

  /** One partition's arc is exactly `perPartition` stores wide. */
  lemma ArcIsWholeStores(r: Ring)
    ensures StoreCount(r) > 0
    ensures Granularity(r) > 0.0
    ensures ArcWidth(r.regions, r.partitions) == (r.perPartition as real) * Granularity(r)
  {
    StoreCountPositive(r);
    var R, P, v := r.regions as real, r.partitions as real, r.perPartition as real;
    CastMul(r.perPartition * r.regions, r.partitions);
    CastMul(r.perPartition, r.regions);
    var n := StoreCount(r) as real;
    assert n == v * R * P;
    var g := Granularity(r);
    assert g * n == RING_RANGE;
    var w := ArcWidth(r.regions, r.partitions);
    assert w * P == RING_RANGE / R;
    assert w * P * R == RING_RANGE;
    CancelScale(w, v * g, P * R) by {
      assert (v * g) * (P * R) == g * (v * R * P);
      assert w * (P * R) == w * P * R;
    }
  }

  lemma CancelScale(x: real, y: real, k: real)
    requires k > 0.0 && x * k == y * k
    ensures x == y
  {
    assert (x - y) * k == 0.0;
  }

  /** The ring value is 1 exactly for the two boundary hashes, and below 1 otherwise. */
  lemma RingValueRange(r: Ring, id: string)
    ensures 0.0 < RingValue(r, id) <= 1.0
    ensures Inner(r, id) <==> RingValue(r, id) < 1.0
  {
    var h, m := r.hash(id) as real, MAX_UINT64 as real;
    var x := h / m;
    assert x * m == h;
    assert x >= 1.0 ==> x * m >= m;
    assert x <= 0.0 ==> x * m <= 0.0;
  }

  lemma CastMulInt(b: int, v: nat)
    ensures (b * v) as real == (b as real) * (v as real)
  {
    if b >= 0 {
      CastMul(b, v);
    } else {
      CastMul(-b, v);
      assert b * v == -((-b) * v);
    }
  }

  /** A position on an arc of `v` stores of width `g`, measured in store widths. */
  lemma PositionInStores(b: real, x: real, v: real, g: real, w: real)
    requires g > 0.0 && w == v * g
    ensures (b * w + x * (b * w + w - b * w)) / g == b * v + x * v
  {
    var t := b * v + x * v;
    assert b * w + x * (b * w + w - b * w) == b * w + x * w;
    assert b * w == (b * v) * g;
    assert x * w == (x * v) * g;
    Quotient(b * w + x * (b * w + w - b * w), t, g);
  }

  /** The hash measured in store widths: whole stores before the arc, then a fraction of it. */
  lemma HashInStores(r: Ring, loc: Location, id: string)
    ensures StoreCount(r) > 0 && Granularity(r) > 0.0
    ensures NodeHash(r, loc, id) / Granularity(r)
         == ((Block(r, loc) * r.perPartition) as real) + RingValue(r, id) * (r.perPartition as real)
  {
    hide StoreCount, Granularity, RingValue, ArcWidth;
    ArcIsWholeStores(r);
    CastMulInt(Block(r, loc), r.perPartition);
    PositionInStores(Block(r, loc) as real, RingValue(r, id), r.perPartition as real, Granularity(r),
        ArcWidth(r.regions, r.partitions));
  }

  lemma Quotient(x: real, t: real, g: real)
    requires g > 0.0 && x == t * g
    ensures x / g == t
  {
    CancelScale(x / g, t, g);
  }

  /**
   * Routing stays home exactly for inner hashes: the store a node is routed to is one of the
   * stores of its own location. For the two boundary hashes it is the first store of the next
   * location on the ring, which for the last location does not exist.
   */
  lemma RoutingStaysHome(r: Ring, loc: Location, id: string)
    ensures var v := r.perPartition; var k := StoreIndex(r, loc, id);
            if Inner(r, id) then Block(r, loc) * v <= k < Block(r, loc) * v + v
            else k == Block(r, loc) * v + v
  {
    hide NodeHash, Granularity, RingValue, Inner, Block, StoreCount;
    HashInStores(r, loc, id);
    RingValueRange(r, id);
    FloorOfFraction(Block(r, loc) * r.perPartition, RingValue(r, id), r.perPartition);
  }

  lemma FloorBetween(f: real, m: real, q: int, rest: real)
    requires 0.0 <= rest < m && f * m == (q as real) * m + rest
    ensures f.Floor == q
  {
    var d := f - q as real;
    assert d * m == rest;
    assert d < 0.0 ==> d * m < 0.0;
    assert d >= 1.0 ==> (d - 1.0) * m >= 0.0;
  }

  lemma FloorOfQuotient(a: nat, m: nat)
    requires m > 0
    ensures ((a as real) / (m as real)).Floor == a / m
  {
    var q, rest := a / m, a % m;
    CastMul(q, m);
    var f := (a as real) / (m as real);
    assert f * (m as real) == a as real == (q as real) * (m as real) + (rest as real);
    FloorBetween(f, m as real, q, rest as real);
  }

  /** So many of `v` stores lie wholly before the hash. */
  lemma {:induction false} StoresBefore(r: Ring, id: string, v: nat)
    ensures (RingValue(r, id) * (v as real)).Floor
            == if r.hash(id) == 0 then v else (r.hash(id) * v) / 0xFFFF_FFFF_FFFF_FFFF
  {
    var h, m := r.hash(id), MAX_UINT64;
    if h == 0 {
      assert 1.0 * (v as real) == v as real;
    } else {
      CastMul(h, v);
      ScaledQuotient(h as real, m as real, v as real);
      FloorOfQuotient(h * v, m);
    }
  }

  lemma ScaledQuotient(h: real, m: real, v: real)
    requires m > 0.0
    ensures (h / m) * v == (h * v) / m
  {
    assert (h / m) * m == h;
    assert ((h / m) * v) * m == h * v;
    Quotient(h * v, (h / m) * v, m);
  }

  /**
   * The store of a node in whole numbers: the stores before its location, and then that share of
   * the location's stores which its hash has of all hashes. Hash 0 counts as the greatest.
   */
  lemma {:induction false} StoreIndexFromHash(r: Ring, loc: Location, id: string)
    ensures StoreIndex(r, loc, id)
            == (loc.region * r.partitions + loc.partition) * r.perPartition
               + if r.hash(id) == 0 then r.perPartition else (r.hash(id) * r.perPartition) / 0xFFFF_FFFF_FFFF_FFFF
  {
    hide NodeHash, Granularity, StoreCount, RingValue;
    HashInStores(r, loc, id);
    StoresBefore(r, id, r.perPartition);
    var n, x := Block(r, loc) * r.perPartition, RingValue(r, id) * (r.perPartition as real);
    assert ((n as real) + x).Floor == n + x.Floor;
  }

  /** An arc in degrees: with `n` locations, location number `b` has the arc from 360*b/n to 360*(b+1)/n. */
  lemma {:induction false} ArcInDegrees(regions: nat, partitions: nat, loc: Location)
    requires regions > 0 && partitions > 0
    ensures var arc, n := ArcAt(regions, partitions, loc), (regions * partitions) as real;
            var b := (loc.region * partitions + loc.partition) as real;
            arc.lower * n == 360.0 * b && arc.upper * n == 360.0 * (b + 1.0)
  {
    CastMul(regions, partitions);
    var b, w := (loc.region * partitions + loc.partition) as real, ArcWidth(regions, partitions);
    WidthTimes(w, regions as real, partitions as real);
    WidthsInDegrees(b, w, (regions * partitions) as real);
  }

  lemma WidthTimes(w: real, R: real, P: real)
    requires R > 0.0 && P > 0.0 && w == (RING_RANGE / R) / P
    ensures w * (R * P) == RING_RANGE
  {
    assert w * P == RING_RANGE / R;
    assert (w * P) * R == RING_RANGE;
  }

  lemma WidthsInDegrees(b: real, w: real, n: real)
    requires w * n == RING_RANGE
    ensures (b * w) * n == 360.0 * b && (b * w + w) * n == 360.0 * (b + 1.0)
  {
    assert (b * w) * n == b * (w * n);
    assert (b * w + w) * n == (b * w) * n + w * n;
  }

  /**
   * The position of a node in degrees: on the arc of its location, at that share of it which the hash
   * has of all hashes. Hash 0 counts as the greatest.
   */
  lemma {:induction false} NodeHashInDegrees(r: Ring, loc: Location, id: string)
    ensures var n, all := (r.regions * r.partitions) as real, 0xFFFF_FFFF_FFFF_FFFF as real;
            var b, h := (loc.region * r.partitions + loc.partition) as real, r.hash(id) as real;
            NodeHash(r, loc, id) * n * all == 360.0 * (b * all + if r.hash(id) == 0 then all else h)
  {
    hide ArcAt;
    ArcInDegrees(r.regions, r.partitions, loc);
    var arc, n, all := ArcAt(r.regions, r.partitions, loc), (r.regions * r.partitions) as real, MAX_UINT64 as real;
    var b, x := (loc.region * r.partitions + loc.partition) as real, RingValue(r, id);
    assert x * all == if r.hash(id) == 0 then all else r.hash(id) as real;
    hide *;
    OnArcInDegrees(arc.lower, arc.upper, x, n, b, all, x * all);
  }

  lemma OnArcInDegrees(lower: real, upper: real, x: real, n: real, b: real, all: real, h: real)
    requires lower * n == 360.0 * b && upper * n == 360.0 * (b + 1.0) && x * all == h
    ensures (lower + x * (upper - lower)) * n * all == 360.0 * (b * all + h)
  {
    assert (upper - lower) * n == 360.0;
    assert (x * (upper - lower)) * n == x * 360.0;
    assert (lower + x * (upper - lower)) * n == 360.0 * b + x * 360.0;
    assert (360.0 * b + x * 360.0) * all == 360.0 * (b * all + x * all);
  }

  lemma Fraction(x: real, v: real)
    requires 0.0 < x <= 1.0 && v > 0.0
    ensures 0.0 < x * v <= v
    ensures x < 1.0 ==> x * v < v
    ensures x == 1.0 ==> x * v == v
  {
    assert x * v > 0.0;
    assert (1.0 - x) * v >= 0.0;
    assert x < 1.0 ==> (1.0 - x) * v > 0.0;
  }

  lemma FloorOf(n: int, t: real, v: nat)
    requires 0.0 < t <= v as real
    ensures if t < v as real then n <= ((n as real) + t).Floor < n + v else ((n as real) + t).Floor == n + v
  {
    assert ((n as real) + t).Floor == n + t.Floor;
  }

  lemma FloorOfFraction(n: int, x: real, v: nat)
    requires 0.0 < x <= 1.0 && v > 0
    ensures var k := ((n as real) + x * (v as real)).Floor; if x < 1.0 then n <= k < n + v else k == n + v
  {
    var t := x * (v as real);
    Fraction(x, v as real);
    FloorOf(n, t, v);
  }

  /** The hash of a node lies within the bounds of the store it is routed to. */
  lemma HashWithinStore(r: Ring, loc: Location, id: string)
    ensures StoreCount(r) > 0
    ensures var k := StoreIndex(r, loc, id) as real; var g := Granularity(r);
            k * g <= NodeHash(r, loc, id) < k * g + g
  {
    hide NodeHash, Granularity, StoreCount, ArcWidth;
    ArcIsWholeStores(r);
    BetweenMultiples(NodeHash(r, loc, id), Granularity(r), StoreIndex(r, loc, id) as real);
  }

  lemma BetweenMultiples(h: real, g: real, k: real)
    requires g > 0.0 && k <= h / g < k + 1.0
    ensures k * g <= h < k * g + g
  {
    assert (h / g) * g == h;
    ScaledBetween(h, h / g, g, k);
  }

  lemma ScaledBetween(h: real, q: real, g: real, k: real)
    requires g > 0.0 && k <= q < k + 1.0 && q * g == h
    ensures k * g <= h < k * g + g
  {
    var next := k + 1.0;
    MultipleOrder(k, q, g);
    MultipleStrict(q, next, g);
    NextMultiple(k, g);
    assert h < next * g;
  }

  lemma NextMultiple(k: real, g: real)
    ensures (k + 1.0) * g == k * g + g
  {
  }

  lemma MultipleOrder(a: real, b: real, g: real)
    requires g > 0.0 && a <= b
    ensures a * g <= b * g
  {
  }

  lemma MultipleStrict(a: real, b: real, g: real)
    requires g > 0.0 && a < b
    ensures a * g < b * g
  {
  }

  /** Routing never leaves the ring, except for a boundary hash in the very last location. */
  lemma {:induction false} RoutingOnRing(r: Ring, loc: Location, id: string)
    requires HasLocation(r, loc)
    ensures 0 <= StoreIndex(r, loc, id) < StoreCount(r)
        <==> Inner(r, id) || loc != Location(r.regions - 1, r.partitions - 1)
  {
    RoutingStaysHome(r, loc, id);
    BlockRange(r, loc);
    hide *;
    var n := r.regions * r.partitions;
    StoreCountIs(r);
    OnRing(Block(r, loc), n, r.perPartition, StoreIndex(r, loc, id), Inner(r, id));
  }

  /** A node of the last location with a boundary hash is routed behind the last store, where the source panics. */
  lemma BoundaryHashLeavesTheRing(r: Ring, id: string)
    requires !Inner(r, id)
    ensures HasLocation(r, Location(r.regions - 1, r.partitions - 1))
    ensures StoreIndex(r, Location(r.regions - 1, r.partitions - 1), id) == StoreCount(r)
  {
    var last := Location(r.regions - 1, r.partitions - 1);
    hide StoreIndex, Inner, StoreCount, Block;
    RoutingStaysHome(r, last, id);
    BlockRange(r, last);
    StoreCountIs(r);
    MulDistributes(Block(r, last), r.perPartition);
  }

  /** Such a hash: 0, on a ring of one store. */
  function ZeroHashRing(): Ring {
    RawRing(1, 1, 1, _ => 0)
  }

  lemma ZeroHashLeavesTheRing(id: string)
    ensures !Inner(ZeroHashRing(), id)
    ensures StoreIndex(ZeroHashRing(), Location(0, 0), id) == StoreCount(ZeroHashRing()) == 1
  {
    hide StoreIndex;
    BoundaryHashLeavesTheRing(ZeroHashRing(), id);
  }

  lemma MulDistributes(a: int, b: int)
    ensures a * b + b == (a + 1) * b
  {
  }

  lemma NextBound(n: nat, g: real)
    ensures (n as real) * g + g == ((n + 1) as real) * g
  {
  }

  /** An arc starts and ends on store boundaries. */
  lemma ArcEnds(r: Ring, loc: Location)
    requires HasLocation(r, loc)
    ensures StoreCount(r) > 0 && Block(r, loc) >= 0
    ensures var arc := ArcAt(r.regions, r.partitions, loc); var start := Block(r, loc) * r.perPartition;
            && arc.lower == (start as real) * Granularity(r)
            && arc.upper == ((start + r.perPartition) as real) * Granularity(r)
  {
    ArcIsWholeStores(r);
    BlockRange(r, loc);
    var b, v, g, w := Block(r, loc), r.perPartition, Granularity(r), ArcWidth(r.regions, r.partitions);
    assert ArcAt(r.regions, r.partitions, loc) == Arc((b as real) * w, (b as real) * w + w);
    hide *;
    CastMul(b, v);
    assert (b as real) * ((v as real) * g) == ((b * v) as real) * g;
    assert ((b * v + v) as real) * g == ((b * v) as real) * g + (v as real) * g;
  }

  /** The last store ends where the ring does. */
  lemma RingEnds(r: Ring)
    ensures StoreCount(r) > 0
    ensures ((StoreCount(r) - 1) as real) * Granularity(r) + Granularity(r) == RING_RANGE
  {
    StoreCountPositive(r);
    var n := StoreCount(r);
    NextBound(n - 1, Granularity(r));
    assert Granularity(r) * (n as real) == RING_RANGE;
  }

  /** Where store `k` starts, and store `k - 1` ends. */
  function Edge(r: Ring, k: nat): real
    requires StoreCount(r) > 0
  {
    (k as real) * Granularity(r)
  }

  /** Stores are one granularity wide, which is positive. */
  lemma EdgeStep(r: Ring, k: nat)
    ensures StoreCount(r) > 0 && Edge(r, k + 1) == Edge(r, k) + Granularity(r) > Edge(r, k)
  {
    hide StoreCount, Granularity, ArcWidth;
    ArcIsWholeStores(r);
    NextBound(k, Granularity(r));
  }

  lemma RingEdges(r: Ring)
    ensures StoreCount(r) > 0 && Edge(r, 0) == 0.0 && Edge(r, StoreCount(r)) == RING_RANGE
  {
    hide StoreCount, Granularity;
    RingEnds(r);
    var n, g := StoreCount(r), Granularity(r);
    NextBound(n - 1, g);
    assert Edge(r, n) == (n as real) * g;
    assert Edge(r, 0) == 0.0 * g;
    assert 0.0 * g == 0.0;
  }

  lemma ArcEdges(r: Ring, loc: Location)
    requires HasLocation(r, loc)
    ensures StoreCount(r) > 0 && Block(r, loc) * r.perPartition >= 0
    ensures var arc, start := ArcAt(r.regions, r.partitions, loc), Block(r, loc) * r.perPartition;
            arc.lower == Edge(r, start) && arc.upper == Edge(r, start + r.perPartition)
  {
    hide StoreCount, Granularity, ArcAt;
    ArcEnds(r, loc);
    MulNotNegative(Block(r, loc), r.perPartition);
  }

  lemma MulNotNegative(a: int, b: nat)
    requires a >= 0
    ensures a * b >= 0
  {
  }

  lemma StoreCountIs(r: Ring)
    ensures StoreCount(r) == (r.regions * r.partitions) * r.perPartition
  {
  }

  lemma {:induction false} OnRing(b: int, n: nat, v: nat, k: int, inner: bool)
    requires 0 <= b < n && v > 0
    requires if inner then b * v <= k < b * v + v else k == b * v + v
    ensures 0 <= k < n * v <==> inner || b != n - 1
  {
    assert b * v >= 0;
    MulGap(b, n, v);
    if b < n - 1 {
      MulGap(b, b + 1, v);
      MulGap(b + 1, n, v);
    } else {
      assert n * v == b * v + v;
    }
  }

  lemma {:induction false} BlockRange(r: Ring, loc: Location)
    requires HasLocation(r, loc)
    ensures 0 <= Block(r, loc) < r.regions * r.partitions
    ensures Block(r, loc) == r.regions * r.partitions - 1 <==> loc == Location(r.regions - 1, r.partitions - 1)
  {
    var R, P := r.regions, r.partitions;
    var gap := R - 1 - loc.region;
    assert R * P == loc.region * P + gap * P + P;
    assert gap > 0 ==> gap * P >= P;
  }

  /** The location whose stores include store `k`: the `k / v`-th, counted partition by partition. */
  lemma {:induction false} LocationOfStore(r: Ring, loc: Location, k: nat)
    requires HasLocation(r, loc)
    requires Block(r, loc) * r.perPartition <= k < Block(r, loc) * r.perPartition + r.perPartition
    ensures loc == Location(k / r.perPartition / r.partitions, k / r.perPartition % r.partitions)
  {
    var v, P, b := r.perPartition, r.partitions, Block(r, loc);
    assert k == (k / v) * v + k % v && b == (b / P) * P + b % P;
    SameBlock(b, k / v, v, k);
    SameBlock(loc.region, b / P, P, b);
  }

  /** Store `k` of `n` has the degrees from 360*k/n to 360*(k+1)/n. */
  lemma EdgeInDegrees(r: Ring, k: nat)
    ensures StoreCount(r) > 0
    ensures Edge(r, k) * ((r.perPartition * r.regions * r.partitions) as real) == 360.0 * (k as real)
  {
    StoreCountPositive(r);
    var n, g := StoreCount(r) as real, Granularity(r);
    assert g * n == RING_RANGE;
    assert ((k as real) * g) * n == (k as real) * (g * n);
  }

  /** Distinct locations occupy distinct blocks. */
  lemma {:induction false} BlockInjective(r: Ring, a: Location, b: Location)
    requires HasLocation(r, a) && HasLocation(r, b) && Block(r, a) == Block(r, b)
    ensures a == b
  {
    SameBlock(a.region, b.region, r.partitions, Block(r, a));
  }

  /** Ids with distinct inner hashes keep distinct ring positions, within and across locations. */
  lemma {:induction false} NodeHashInjective(r: Ring, a: Location, b: Location, x: string, y: string)
    requires HasLocation(r, a) && HasLocation(r, b)
    requires Inner(r, x) && Inner(r, y)
    requires NodeHash(r, a, x) == NodeHash(r, b, y)
    ensures a == b && r.hash(x) == r.hash(y)
  {
    RoutingStaysHome(r, a, x);
    RoutingStaysHome(r, b, y);
    var v, k := r.perPartition, StoreIndex(r, a, x);
    SameBlock(Block(r, a), Block(r, b), v, k);
    BlockInjective(r, a, b);
    ArcIsWholeStores(r);
    var w := ArcWidth(r.regions, r.partitions);
    assert w > 0.0 by {
      assert (v as real) * Granularity(r) > 0.0;
    }
    CancelScale(RingValue(r, x), RingValue(r, y), w);
    CancelDivisor(r.hash(x) as real, r.hash(y) as real, MAX_UINT64 as real);
  }

  lemma {:induction false} SameBlock(a: int, b: int, v: nat, k: int)
    requires a * v <= k < a * v + v && b * v <= k < b * v + v
    ensures a == b
  {
    if a < b {
      MulGap(a, b, v);
    } else if b < a {
      MulGap(b, a, v);
    }
  }

  lemma MulGap(a: int, b: int, v: nat)
    requires a < b
    ensures a * v + v <= b * v
  {
    var d := b - a - 1;
    assert b == a + 1 + d;
    assert b * v == a * v + v + d * v;
  }

  lemma CancelDivisor(x: real, y: real, m: real)
    requires m > 0.0 && x / m == y / m
    ensures x == y
  {
    assert (x / m) * m == x && (y / m) * m == y;
  }

  /** A running bound after `n` additions of `grain`. */
  function Steps(start: real, grain: real, n: nat): real {
    if n == 0 then start else Steps(start, grain, n - 1) + grain
  }

  lemma {:induction false} StepsAre(start: real, grain: real, n: nat)
    ensures Steps(start, grain, n) == start + (n as real) * grain
  {
    if n > 0 {
      StepsAre(start, grain, n - 1);
      assert ((n - 1) as real) * grain + grain == (n as real) * grain;
    }
  }

  /** The running bounds of the loops give the closed form, and the end corrections change nothing. */
  lemma RunningBounds(regions: nat, partitions: nat, i: nat, j: nat)
    requires i < regions && j < partitions
    ensures var width := ArcWidth(regions, partitions);
            var regionLower := Steps(0.0, RegionWidth(regions), i);
            var lower := Steps(regionLower, width, j);
            && ArcAt(regions, partitions, Location(i, j)) == Arc(lower, lower + width)
            && (j == partitions - 1 ==> lower + width == regionLower + RegionWidth(regions))
            && (j == partitions - 1 && i == regions - 1 ==> lower + width == RING_RANGE)
  {
    hide *;
    StepsAre(0.0, RegionWidth(regions), i);
    StepsAre(Steps(0.0, RegionWidth(regions), i), ArcWidth(regions, partitions), j);
    ArcInWidths(regions, partitions, i, j);
  }

  lemma ArcInWidths(regions: nat, partitions: nat, i: nat, j: nat)
    requires i < regions && j < partitions
    ensures var grain, width := RegionWidth(regions), ArcWidth(regions, partitions);
            var lower := (0.0 + (i as real) * grain) + (j as real) * width;
            && ArcAt(regions, partitions, Location(i, j)) == Arc(lower, lower + width)
            && (j == partitions - 1 ==> lower + width == (0.0 + (i as real) * grain) + grain)
            && (j == partitions - 1 && i == regions - 1 ==> lower + width == RING_RANGE)
  {
    var grain, width := RegionWidth(regions), ArcWidth(regions, partitions);
    CastMul(i, partitions);
    var b := (i * partitions + j) as real;
    assert b == (i as real) * (partitions as real) + (j as real);
    assert ArcAt(regions, partitions, Location(i, j)) == Arc(b * width, b * width + width);
    GrainArithmetic(i as real, j as real, partitions as real, regions as real, grain, width);
  }

  lemma GrainArithmetic(i: real, j: real, P: real, R: real, grain: real, w: real)
    requires P > 0.0 && R > 0.0
    requires grain == RING_RANGE / R && w == grain / P
    ensures (i * P + j) * w == (0.0 + i * grain) + j * w
    ensures j == P - 1.0 ==> j * w + w == grain
    ensures i == R - 1.0 ==> i * grain + grain == RING_RANGE
  {
    assert w * P == grain;
    assert grain * R == RING_RANGE;
    calc {
      (i * P + j) * w;
      i * P * w + j * w;
      { assert i * P * w == i * (w * P); }
      i * grain + j * w;
    }
    assert (P - 1.0) * w + w == P * w;
    assert (R - 1.0) * grain + grain == R * grain;
  }

  /** The locations whose arcs exist when the loops stand at region `i`, partition `j`. */
  predicate LaidOut(partitions: nat, i: nat, j: nat, loc: Location) {
    || (0 <= loc.region < i && 0 <= loc.partition < partitions)
    || (loc.region == i && 0 <= loc.partition < j)
  }

  ghost predicate ArcsSoFar(arcs: map<Location, Arc>, regions: nat, partitions: nat, i: nat, j: nat)
    requires regions > 0 && partitions > 0
  {
    && (forall loc :: loc in arcs <==> LaidOut(partitions, i, j, loc))
    && (forall loc :: loc in arcs ==> arcs[loc] == ArcAt(regions, partitions, loc))
  }

  /**
   * The two nested loops that lay the arcs out with running bounds. The last partition of a
   * region takes the running region bound as its upper end and the last of all takes 360.
   */
  method BuildArcs(regions: nat, partitions: nat) returns (arcs: map<Location, Arc>)
    requires regions > 0 && partitions > 0
    ensures forall loc :: loc in arcs <==> 0 <= loc.region < regions && 0 <= loc.partition < partitions
    ensures forall loc :: loc in arcs ==> arcs[loc] == ArcAt(regions, partitions, loc)
  {
    arcs := map[];
    var regionGrain := RING_RANGE / (regions as real);
    var regionLower, regionUpper := 0.0, regionGrain;
    var i := 0;
    while i < regions
      invariant 0 <= i <= regions
      invariant regionLower == Steps(0.0, regionGrain, i)
      invariant regionUpper == regionLower + regionGrain
      invariant ArcsSoFar(arcs, regions, partitions, i, 0)
    {
      var rpLower := regionLower;
      var rpGrain := regionGrain / (partitions as real);
      var rpUpper := regionLower + rpGrain;
      var j := 0;
      while j < partitions
        invariant 0 <= j <= partitions
        invariant j < partitions ==> rpLower == Steps(regionLower, rpGrain, j) && rpUpper == rpLower + rpGrain
        invariant ArcsSoFar(arcs, regions, partitions, i, j)
      {
        var loc := Location(i, j);
        RunningBounds(regions, partitions, i, j);
        if j == partitions - 1 {
          if i == regions - 1 {
            arcs := arcs[loc := Arc(rpLower, RING_RANGE)];
          } else {
            arcs := arcs[loc := Arc(rpLower, regionUpper)];
          }
        } else {
          arcs := arcs[loc := Arc(rpLower, rpUpper)];
          rpLower := rpUpper;
          rpUpper := rpUpper + rpGrain;
        }
        j := j + 1;
      }
      regionLower := regionUpper;
      regionUpper := regionUpper + regionGrain;
      i := i + 1;
    }
  }
}

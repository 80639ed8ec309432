/**
 The range scan of `render_env` and the hit display of `render_slam_map`.
 Each ray is marched outward from the robot through `SamplesPerRay` points
 evenly spaced from distance 0 to `MaxRange`; the first blocked point is the
 ray's hit. The trigonometry is not modelled: a ray is given by its direction
 vector (cos, sin).
 */
module Scan {
  import opened Optional
  import opened Geometry

  /** `np.linspace(0, 2*np.pi, 24)` angles. */
  const RayCount: nat := 24
  /** `np.linspace(0, 3, 30)` distances. */
  const SamplesPerRay: nat := 30
  const MaxRange: real := 3.0

  /** A ray's direction: the cosine and sine of its angle. */
  datatype Ray = Ray(cos: real, sin: real)

  /** The k-th value of `np.linspace(0, MaxRange, SamplesPerRay)`. */
  function SampleRadius(k: nat): (r: real)
    requires k < SamplesPerRay
    ensures 0.0 <= r <= MaxRange
    ensures r == 0.0 <==> k == 0
    ensures r == MaxRange <==> k == SamplesPerRay - 1
  {
    MaxRange * (k as real) / ((SamplesPerRay - 1) as real)
  }

  /** The samples are evenly spaced: consecutive ones lie `MaxRange / 29` apart. */
  lemma SamplesEvenlySpaced(k: nat)
    requires 0 < k < SamplesPerRay
    ensures SampleRadius(k) == SampleRadius(k - 1) + MaxRange / ((SamplesPerRay - 1) as real)
  {
  }

  /** The k-th point marched along `ray` from `from`. */
  function Sample(from: Point, ray: Ray, k: nat): Point
    requires k < SamplesPerRay
  {
    Point(from.x + SampleRadius(k) * ray.cos, from.z + SampleRadius(k) * ray.sin)
  }

  /** The index of the first blocked sample at or after `k`, if any. */
  function FirstHitFrom(obstacles: seq<Obstacle>, from: Point, ray: Ray, k: nat): (r: Option<nat>)
    requires k <= SamplesPerRay
    ensures r.Some? ==> k <= r.value < SamplesPerRay
    ensures r.Some? ==> CheckCollision(obstacles, Sample(from, ray, r.value).x, Sample(from, ray, r.value).z)
    ensures forall i :: k <= i < SamplesPerRay && (r.None? || i < r.value) ==>
              !CheckCollision(obstacles, Sample(from, ray, i).x, Sample(from, ray, i).z)
    decreases SamplesPerRay - k
  {
    if k == SamplesPerRay then None
    else
      var q := Sample(from, ray, k);
      if CheckCollision(obstacles, q.x, q.z) then Some(k)
      else FirstHitFrom(obstacles, from, ray, k + 1)
  }

  /** The hit one ray contributes: its first blocked sample, or nothing. */
  function RayHit(obstacles: seq<Obstacle>, from: Point, ray: Ray): Option<Point> {
    match FirstHitFrom(obstacles, from, ray, 0)
    case None => None
    case Some(k) => Some(Sample(from, ray, k))
  }

  /** A ray's hit is a blocked sample on it, and every sample before it is free;
      a ray without a hit has no blocked sample at all. */
  lemma RayHitIsFirstBlocked(obstacles: seq<Obstacle>, from: Point, ray: Ray)
    ensures RayHit(obstacles, from, ray).Some? ==>
              exists k :: 0 <= k < SamplesPerRay
                && RayHit(obstacles, from, ray).value == Sample(from, ray, k)
                && CheckCollision(obstacles, Sample(from, ray, k).x, Sample(from, ray, k).z)
                && forall i :: 0 <= i < k ==> !CheckCollision(obstacles, Sample(from, ray, i).x, Sample(from, ray, i).z)
    ensures RayHit(obstacles, from, ray).None? ==>
              forall k :: 0 <= k < SamplesPerRay ==> !CheckCollision(obstacles, Sample(from, ray, k).x, Sample(from, ray, k).z)
  {
    var first := FirstHitFrom(obstacles, from, ray, 0);
    if first.Some? {
      var k := first.value;
      assert RayHit(obstacles, from, ray).value == Sample(from, ray, k);
    }
  }

  function HitList(hit: Option<Point>): (r: seq<Point>)
    ensures |r| <= 1
    ensures forall q :: q in r <==> hit == Some(q)
  {
    match hit
    case None => []
    case Some(q) => [q]
  }

  /** The hits of one scan, in ray order: each ray contributes its first hit, if any. */
  function ScanHits(obstacles: seq<Obstacle>, from: Point, rays: seq<Ray>): (hits: seq<Point>)
    ensures |hits| <= |rays|
    ensures forall i :: 0 <= i < |hits| ==>
              exists j :: 0 <= j < |rays| && RayHit(obstacles, from, rays[j]) == Some(hits[i])
    decreases |rays|
  {
    if rays == [] then []
    else
      var front := rays[..|rays| - 1];
      var earlier := ScanHits(obstacles, from, front);
      var last := RayHit(obstacles, from, rays[|rays| - 1]);
      assert forall j :: 0 <= j < |front| ==> front[j] == rays[j];
      earlier + HitList(last)
  }

  /** A scan of one ray yields exactly that ray's first hit, if any. */
  lemma OneRay(obstacles: seq<Obstacle>, from: Point, ray: Ray)
    ensures ScanHits(obstacles, from, [ray]) == HitList(RayHit(obstacles, from, ray))
  {
    assert [ray][..0] == [];
  }

  /** Scanning two groups of rays yields the hits of the first group followed by the
      hits of the second: with `OneRay`, each ray contributes exactly its own first
      hit, in ray order. */
  lemma {:induction false} ScanHitsAppend(obstacles: seq<Obstacle>, from: Point, a: seq<Ray>, b: seq<Ray>)
    ensures ScanHits(obstacles, from, a + b) == ScanHits(obstacles, from, a) + ScanHits(obstacles, from, b)
    decreases |b|
  {
    if b == [] {
      assert a + b == a;
    } else {
      var front := b[..|b| - 1];
      var last := HitList(RayHit(obstacles, from, b[|b| - 1]));
      assert (a + b)[..|a + b| - 1] == a + front;
      assert (a + b)[|a + b| - 1] == b[|b| - 1];
      assert ScanHits(obstacles, from, a + front) == ScanHits(obstacles, from, a) + ScanHits(obstacles, from, front) by {
        ScanHitsAppend(obstacles, from, a, front);
      }
      assert ScanHits(obstacles, from, b) == ScanHits(obstacles, from, front) + last;
      assert ScanHits(obstacles, from, a + b) == ScanHits(obstacles, from, a + front) + last;
    }
  }

  /** No ray's hit is lost: the first hit of every ray is among the scan's hits. */
  lemma {:induction false} ScanHitsComplete(obstacles: seq<Obstacle>, from: Point, rays: seq<Ray>)
    ensures forall j :: 0 <= j < |rays| && RayHit(obstacles, from, rays[j]).Some? ==>
              RayHit(obstacles, from, rays[j]).value in ScanHits(obstacles, from, rays)
    decreases |rays|
  {
    if rays != [] {
      var front := rays[..|rays| - 1];
      ScanHitsComplete(obstacles, from, front);
      var earlier := ScanHits(obstacles, from, front);
      var last := HitList(RayHit(obstacles, from, rays[|rays| - 1]));
      var hits := ScanHits(obstacles, from, rays);
      assert hits == earlier + last;
      forall j | 0 <= j < |rays| && RayHit(obstacles, from, rays[j]).Some?
        ensures RayHit(obstacles, from, rays[j]).value in hits
      {
        if j < |front| {
          assert front[j] == rays[j];
          assert RayHit(obstacles, from, rays[j]).value in earlier;
        } else {
          assert RayHit(obstacles, from, rays[j]).value in last;
        }
      }
    }
  }

  /** Every hit of a scan is a blocked point. */
  lemma ScanHitsBlocked(obstacles: seq<Obstacle>, from: Point, rays: seq<Ray>)
    ensures forall i :: 0 <= i < |ScanHits(obstacles, from, rays)| ==>
              CheckCollision(obstacles, ScanHits(obstacles, from, rays)[i].x, ScanHits(obstacles, from, rays)[i].z)
  {
    var hits := ScanHits(obstacles, from, rays);
    forall i | 0 <= i < |hits|
      ensures CheckCollision(obstacles, hits[i].x, hits[i].z)
    {
      var j :| 0 <= j < |rays| && RayHit(obstacles, from, rays[j]) == Some(hits[i]);
      RayHitIsFirstBlocked(obstacles, from, rays[j]);
    }
  }

  /** Every sample at radius 0 is the robot's own position, so a robot standing in a
      blocked region sees every ray hit exactly where it stands. */
  lemma {:induction false} ScanFromBlockedPosition(obstacles: seq<Obstacle>, from: Point, rays: seq<Ray>)
    requires CheckCollision(obstacles, from.x, from.z)
    ensures ScanHits(obstacles, from, rays) == seq(|rays|, _ => from)
    decreases |rays|
  {
    if rays != [] {
      var front := rays[..|rays| - 1];
      ScanFromBlockedPosition(obstacles, from, front);
      assert Sample(from, rays[|rays| - 1], 0) == from;
      assert RayHit(obstacles, from, rays[|rays| - 1]) == Some(from);
      assert seq(|rays|, _ => from) == seq(|front|, _ => from) + [from];
    }
  }

  /** The inner `for` loop of `render_env` with its `break`: it stops at the ray's
      first blocked sample. */
  method MarchRay(obstacles: seq<Obstacle>, from: Point, ray: Ray) returns (hit: Option<Point>)
    ensures hit == RayHit(obstacles, from, ray)
  {
    var k := 0;
    while k < SamplesPerRay
      invariant 0 <= k <= SamplesPerRay
      invariant FirstHitFrom(obstacles, from, ray, k) == FirstHitFrom(obstacles, from, ray, 0)
    {
      var q := Sample(from, ray, k);
      if CheckCollision(obstacles, q.x, q.z) {
        return Some(q);
      }
      k := k + 1;
    }
    return None;
  }

  /** The outer `for` loop of `render_env`: the hits it appends are exactly those of
      `ScanHits`, in ray order. */
  method ScanLoop(obstacles: seq<Obstacle>, from: Point, rays: seq<Ray>) returns (found: seq<Point>)
    ensures found == ScanHits(obstacles, from, rays)
  {
    found := [];
    var j := 0;
    while j < |rays|
      invariant 0 <= j <= |rays|
      invariant found == ScanHits(obstacles, from, rays[..j])
    {
      var hit := MarchRay(obstacles, from, rays[j]);
      assert rays[..j + 1][..j] == rays[..j];
      found := found + HitList(hit);
      j := j + 1;
    }
    assert rays[..|rays|] == rays;
  }

  /** Palette of `render_slam_map`. */
  datatype Color = Red | Green | Blue

  const Palette: seq<Color> := [Red, Green, Blue]

  /** `rgb_colors[color_index % 3]`. */
  function PaletteColor(index: nat): Color {
    Palette[index % |Palette|]
  }

  /** Consecutive indices give different colours and the palette repeats every three. */
  lemma PaletteCycles(index: nat)
    ensures PaletteColor(index + 1) != PaletteColor(index)
    ensures PaletteColor(index + 2) != PaletteColor(index)
    ensures PaletteColor(index + 3) == PaletteColor(index)
  {
  }

  /** Number of hits `render_slam_map` draws. */
  const DisplayedHits: nat := 20

  /** `s[-n:]` for n > 0: the last `n` elements, or all of `s` when it is shorter. */
  function Recent<T>(s: seq<T>, n: nat): (r: seq<T>)
    requires n > 0
    ensures |r| == if |s| < n then |s| else n
    ensures r == s[|s| - |r|..]
  {
    if |s| < n then s else s[|s| - n..]
  }
}

/**
 * `BlockMatcher` (app/minecraft/texturepack/matcher.py): keeps the catalogue records that
 * have a L*a*b* colour (and, unless transparency is allowed, are solid) and returns, for a
 * target colour, the first record at the smallest CIE76 colour difference (Euclidean
 * distance in L*a*b*). Distances are compared squared: the square root is monotone on
 * non-negative reals (`SquareOrder`), so the chosen record is the same.
 */
module Matcher {
  import opened Wrappers
  import opened Models

  /** The eligibility test of the constructor's list comprehension. */
  predicate IsEligible(b: BlockTexture, allowTransparency: bool)
  {
    b.labColor.Some? && (allowTransparency || !b.hasTransparency)
  }

  /** The eligible records, in catalogue order. */
  function Eligible(blocks: seq<BlockTexture>, allowTransparency: bool): (r: seq<BlockTexture>)
    ensures |r| <= |blocks|
    ensures forall b :: b in r ==> b in blocks && IsEligible(b, allowTransparency)
  {
    if blocks == [] then []
    else
      var init := blocks[..|blocks| - 1];
      var last := blocks[|blocks| - 1];
      assert forall b :: b in init ==> b in blocks;
      Eligible(init, allowTransparency) + (if IsEligible(last, allowTransparency) then [last] else [])
  }

  /** Every eligible catalogue record is kept. */
  lemma {:induction false} EligibleComplete(blocks: seq<BlockTexture>, allowTransparency: bool, b: BlockTexture)
    requires b in blocks && IsEligible(b, allowTransparency)
    ensures b in Eligible(blocks, allowTransparency)
  {
    var init := blocks[..|blocks| - 1];
    if b != blocks[|blocks| - 1] {
      assert b in init;
      EligibleComplete(init, allowTransparency, b);
    }
  }

  /** Filtering keeps catalogue order: it distributes over concatenation. */
  lemma {:induction false} EligibleAppend(a: seq<BlockTexture>, b: seq<BlockTexture>, allowTransparency: bool)
    ensures Eligible(a + b, allowTransparency) == Eligible(a, allowTransparency) + Eligible(b, allowTransparency)
    decreases |b|
  {
    if b == [] {
      assert a + b == a;
    } else {
      var b' := b[..|b| - 1];
      assert (a + b)[..|a + b| - 1] == a + b';
      EligibleAppend(a, b', allowTransparency);
    }
  }

  /** A list whose every record is eligible is kept whole. */
  lemma {:induction false} EligibleAll(blocks: seq<BlockTexture>, allowTransparency: bool)
    requires forall b :: b in blocks ==> IsEligible(b, allowTransparency)
    ensures Eligible(blocks, allowTransparency) == blocks
  {
    if blocks != [] {
      var init := blocks[..|blocks| - 1];
      var last := blocks[|blocks| - 1];
      forall b | b in init
        ensures IsEligible(b, allowTransparency)
      {
        assert b in blocks;
      }
      EligibleAll(init, allowTransparency);
      assert IsEligible(last, allowTransparency);
      assert blocks == init + [last];
    }
  }

  /** Allowing transparency can only add candidates. */
  lemma EligibleWidens(blocks: seq<BlockTexture>, b: BlockTexture)
    requires b in Eligible(blocks, false)
    ensures b in Eligible(blocks, true)
  {
    EligibleComplete(blocks, true, b);
  }

  /** A constructed matcher: `blocks` is its filtered candidate list. */
  datatype BlockMatcher = BlockMatcher(blocks: seq<BlockTexture>)
  {
    /** What the constructor guarantees: at least one candidate, each with a colour. */
    predicate Valid()
    {
      blocks != [] && forall i :: 0 <= i < |blocks| ==> blocks[i].labColor.Some?
    }
  }

  type ValidMatcher = m: BlockMatcher | m.Valid()
    witness BlockMatcher([BlockTexture("", Path("", ""), None, Some(Lab(0.0, 0.0, 0.0)), None, false)])

  const NoBlocksMessage: string := "No blocks with LAB color available for matching"
  const MatchRgbMessage: string := "Use match_lab() ou converta RGB para LAB antes"

  /** `BlockMatcher(blocks, allow_transparency)`: fails with ValueError exactly when no record
      is eligible. */
  function NewMatcher(blocks: seq<BlockTexture>, allowTransparency: bool): (r: Result<ValidMatcher, Error>)
    ensures r.Failure? <==> Eligible(blocks, allowTransparency) == []
    ensures r.Failure? ==> r.error == ValueError(NoBlocksMessage)
    ensures r.Success? ==> r.value.blocks == Eligible(blocks, allowTransparency)
  {
    var eligible := Eligible(blocks, allowTransparency);
    if eligible == [] then Failure(ValueError(NoBlocksMessage))
    else
      assert forall i :: 0 <= i < |eligible| ==> eligible[i] in eligible;
      Success(BlockMatcher(eligible))
  }

  /** `match_rgb` is not implemented: it always raises NotImplementedError. */
  function MatchRgb(m: ValidMatcher, rgb: Rgb): (r: Result<BlockTexture, Error>)
    ensures r == Failure(NotImplementedError(MatchRgbMessage))
  {
    Failure(NotImplementedError(MatchRgbMessage))
  }

  /** The square of `_delta_e`. */
  function DistSq(p: Lab, q: Lab): (d: real)
    ensures d >= 0.0
  {
    (p.l - q.l) * (p.l - q.l) + (p.a - q.a) * (p.a - q.a) + (p.b - q.b) * (p.b - q.b)
  }

  /** The distance is symmetric and zero between identical colours. */
  lemma DistSqMetric(p: Lab, q: Lab)
    ensures DistSq(p, q) == DistSq(q, p)
    ensures DistSq(p, p) == 0.0
  {
  }

  lemma ProductNonNegative(a: real, b: real)
    requires a >= 0.0 && b >= 0.0
    ensures a * b >= 0.0
  {
  }

  lemma ProductPositive(a: real, b: real)
    requires a > 0.0 && b > 0.0
    ensures a * b > 0.0
  {
  }

  /** Comparing two non-negative distances gives the same answer as comparing their squares. */
  lemma SquareOrder(x: real, y: real)
    requires x >= 0.0 && y >= 0.0
    ensures x < y <==> x * x < y * y
  {
    if x < y {
      ProductNonNegative(x, y - x);
      ProductPositive(y, y - x);
      assert y * y - x * x == x * (y - x) + y * (y - x);
    } else {
      ProductNonNegative(y, x - y);
      ProductNonNegative(x, x - y);
      assert x * x - y * y == y * (x - y) + x * (x - y);
    }
  }

  /** Squared distance from the target to candidate `i`. */
  function CandidateDist(m: ValidMatcher, target: Lab, i: int): real
    requires 0 <= i < |m.blocks|
  {
    DistSq(target, m.blocks[i].labColor.value)
  }

  /** `k` is the candidate `match_lab` returns: no candidate is closer, and every earlier
      candidate is strictly farther. */
  predicate IsFirstNearest(m: ValidMatcher, target: Lab, n: int, k: int)
    requires 0 < n <= |m.blocks|
  {
    0 <= k < n
    && (forall j :: 0 <= j < n ==> CandidateDist(m, target, k) <= CandidateDist(m, target, j))
    && (forall j :: 0 <= j < k ==> CandidateDist(m, target, k) < CandidateDist(m, target, j))
  }

  /** The index of the first nearest candidate among the first `n`: a candidate replaces the
      best only when strictly closer. */
  function FirstNearest(m: ValidMatcher, target: Lab, n: int): (k: int)
    requires 0 < n <= |m.blocks|
    ensures IsFirstNearest(m, target, n, k)
  {
    if n == 1 then 0
    else
      var k := FirstNearest(m, target, n - 1);
      if CandidateDist(m, target, n - 1) < CandidateDist(m, target, k) then n - 1 else k
  }

  /** There is only one first nearest candidate. */
  lemma FirstNearestUnique(m: ValidMatcher, target: Lab, n: int, k: int)
    requires 0 < n <= |m.blocks|
    requires IsFirstNearest(m, target, n, k)
    ensures k == FirstNearest(m, target, n)
  {
  }

  /** What `match_lab` returns for a target colour. */
  function Nearest(m: ValidMatcher, target: Lab): (b: BlockTexture)
    ensures b in m.blocks
  {
    m.blocks[FirstNearest(m, target, |m.blocks|)]
  }

  /** When some candidate has exactly the target colour, the returned record is at distance
      zero from the target. */
  lemma ExactColourFound(m: ValidMatcher, target: Lab, i: int)
    requires 0 <= i < |m.blocks| && m.blocks[i].labColor == Some(target)
    ensures DistSq(target, Nearest(m, target).labColor.value) == 0.0
  {
    DistSqMetric(target, target);
    assert CandidateDist(m, target, i) == 0.0;
  }

  /** `match_lab`: a linear scan keeping the best candidate so far; `best` None plays the role
      of the infinite initial distance. */
  method MatchLab(m: ValidMatcher, lab: Lab) returns (r: BlockTexture)
    ensures r == Nearest(m, lab)
    ensures r in m.blocks
    ensures forall b :: b in m.blocks ==> DistSq(lab, r.labColor.value) <= DistSq(lab, b.labColor.value)
  {
    var best: Option<int> := None;
    var bestDistance: real := 0.0;
    for i := 0 to |m.blocks|
      invariant i == 0 <==> best.None?
      invariant best.Some? ==>
        best.value == FirstNearest(m, lab, i) && bestDistance == CandidateDist(m, lab, best.value)
    {
      var d := DistSq(lab, m.blocks[i].labColor.value);
      if best.None? || d < bestDistance {
        bestDistance := d;
        best := Some(i);
      }
    }
    r := m.blocks[best.value];
    forall b | b in m.blocks
      ensures DistSq(lab, r.labColor.value) <= DistSq(lab, b.labColor.value)
    {
      var j :| 0 <= j < |m.blocks| && m.blocks[j] == b;
      assert CandidateDist(m, lab, best.value) <= CandidateDist(m, lab, j);
    }
  }
}

/** The fixed DPI catalog and the index arithmetic that turns the OS's
    relative DPI offsets into percentages and back. */
module Catalog {
  import opened Machine
  import opened Outcomes

  /** The scaling percentages the OS supports, ascending.  Every DPI offset
      the OS exchanges is a distance between two positions of this list. */
  const DpiValues: seq<int32> := [100, 125, 150, 175, 200, 225, 250, 300, 350, 400, 450, 500]

  predicate StrictlyAscending(s: seq<int32>) {
    forall i, j :: 0 <= i < j < |s| ==> s[i] < s[j]
  }

  lemma CatalogShape()
    ensures |DpiValues| == 12
    ensures StrictlyAscending(DpiValues)
  {
  }

  /** `iter().position(|&v| v == x)`: the first index holding `x`. */
  function Position(s: seq<int32>, x: int32): (r: Option<nat>)
    ensures r.Some? ==> r.value < |s| && s[r.value] == x
    ensures r.Some? ==> forall k :: 0 <= k < r.value ==> s[k] != x
    ensures r.None? <==> x !in s
  {
    if s == [] then None
    else if s[0] == x then Some(0)
    else match Position(s[1..], x)
      case None => None
      case Some(k) => Some(k + 1)
  }

  /** In a strictly ascending list the first index of a member is its only
      index, so position and indexing are inverse to each other. */
  lemma PositionInAscending(s: seq<int32>, k: nat)
    requires StrictlyAscending(s) && k < |s|
    ensures Position(s, s[k]) == Some(k)
  {
  }

  lemma PositionOfMember(k: nat)
    requires k < |DpiValues|
    ensures Position(DpiValues, DpiValues[k]) == Some(k)
  {
    CatalogShape();
    PositionInAscending(DpiValues, k);
  }

  lemma IndexOfPosition(x: int32)
    requires x in DpiValues
    ensures Position(DpiValues, x).Some? && DpiValues[Position(DpiValues, x).value] == x
  {
  }

  /** The two indices the code derives from the OS's minimum and current
      offsets: `cur = |min| + cur_rel` and `rec = cur - cur_rel`, both as
      wrapping `usize` operations. */
  function DpiIndices(minRel: int32, curRel: int32): (usize, usize) {
    var minAbs := UnsignedAbs(minRel) as usize;
    var curIndex := WrappingAdd(minAbs, I32AsUsize(curRel));
    var recIndex := WrappingSub(curIndex, I32AsUsize(curRel));
    (curIndex, recIndex)
  }

  /** The (current, recommended) percentages for the offsets the OS reported
      (display.rs:213-222): an out-of-catalog current index is an error, an
      out-of-catalog recommended index a panic of the unchecked indexing. */
  function ScalingFromOffsets(minRel: int32, curRel: int32): Outcome<(int32, int32)> {
    var (curIndex, recIndex) := DpiIndices(minRel, curRel);
    if curIndex < |DpiValues| then
      if recIndex < |DpiValues| then Ok((DpiValues[curIndex], DpiValues[recIndex]))
      else Fail(Panic(RecommendedIndexOutOfBounds))
    else Fail(Err(DpiIndexOutOfRange))
  }

  /** The wrapping arithmetic in mathematical terms: the recommended index is
      always exactly |min|, and the current index is |min| + cur when that
      lies in the catalog; a negative sum wraps to a huge index. */
  lemma DpiIndicesExact(minRel: int32, curRel: int32)
    ensures DpiIndices(minRel, curRel).1 == UnsignedAbs(minRel)
    ensures DpiIndices(minRel, curRel).0 < |DpiValues| <==> 0 <= UnsignedAbs(minRel) + curRel < |DpiValues|
    ensures DpiIndices(minRel, curRel).0 < |DpiValues| ==> DpiIndices(minRel, curRel).0 == UnsignedAbs(minRel) + curRel
  {
    var minAbs := UnsignedAbs(minRel) as usize;
    WrappingSubAdd(minAbs, I32AsUsize(curRel));
    WrappingAddSigned(minAbs, curRel);
  }

  /** All three outcomes of the scaling lookup, with the percentages read
      straight from the catalog. */
  lemma ScalingFromOffsetsCases(minRel: int32, curRel: int32)
    ensures var a := UnsignedAbs(minRel); var c := a + curRel;
      && (!(0 <= c < 12) ==> ScalingFromOffsets(minRel, curRel) == Fail(Err(DpiIndexOutOfRange)))
      && (0 <= c < 12 && a >= 12 ==> ScalingFromOffsets(minRel, curRel) == Fail(Panic(RecommendedIndexOutOfBounds)))
      && (0 <= c < 12 && a < 12 ==> ScalingFromOffsets(minRel, curRel) == Ok((DpiValues[c], DpiValues[a])))
  {
    DpiIndicesExact(minRel, curRel);
  }

  /** A successful lookup yields two catalog members. */
  lemma ScalingInCatalog(minRel: int32, curRel: int32)
    requires ScalingFromOffsets(minRel, curRel).Ok?
    ensures ScalingFromOffsets(minRel, curRel).value.0 in DpiValues
    ensures ScalingFromOffsets(minRel, curRel).value.1 in DpiValues
  {
  }

  /** The signed offset that the DPI set call takes: the target's catalog
      position minus the recommended one's (display.rs:282-300).  A value
      outside the catalog panics in `unwrap`, the recommended one first. */
  function RelativeOffset(recommended: int32, target: int32): Outcome<int32> {
    match Position(DpiValues, recommended)
    case None => Fail(Panic(RecommendedNotInCatalog))
    case Some(recIndex) =>
      match Position(DpiValues, target)
      case None => Fail(Panic(TargetNotInCatalog))
      case Some(targetIndex) => Ok(targetIndex - recIndex)
  }

  /** The offset in terms of the two catalog positions: a missing position
      panics, the recommended one's first; otherwise stepping from the
      recommended position by the offset lands on the target. */
  lemma RelativeOffsetCases(recommended: int32, target: int32)
    ensures var r := RelativeOffset(recommended, target);
      var pr, pt := Position(DpiValues, recommended), Position(DpiValues, target);
      && (pr.None? ==> r == Fail(Panic(RecommendedNotInCatalog)))
      && (pr.Some? && pt.None? ==> r == Fail(Panic(TargetNotInCatalog)))
      && (pr.Some? && pt.Some? ==>
            && r.Ok? && r.value == pt.value - pr.value
            && 0 <= pr.value + r.value < |DpiValues|
            && DpiValues[pr.value + r.value] == target)
  {
  }

  /** The offset exists exactly when both percentages are catalog members,
      and it is then the distance between their catalog positions. */
  lemma RelativeOffsetOfMembers(recommended: int32, target: int32)
    ensures RelativeOffset(recommended, target).Ok? <==> recommended in DpiValues && target in DpiValues
    ensures recommended !in DpiValues ==> RelativeOffset(recommended, target) == Fail(Panic(RecommendedNotInCatalog))
    ensures recommended in DpiValues && target !in DpiValues ==>
      RelativeOffset(recommended, target) == Fail(Panic(TargetNotInCatalog))
  {
    RelativeOffsetCases(recommended, target);
  }

  /** Stepping from one catalog member to another by their offset and back:
      the offset is determined by the two percentages and nothing else. */
  lemma RelativeOffsetBetweenMembers(i: nat, j: nat)
    requires i < |DpiValues| && j < |DpiValues|
    ensures RelativeOffset(DpiValues[i], DpiValues[j]).Ok?
    ensures RelativeOffset(DpiValues[i], DpiValues[j]).value == j - i
  {
    PositionOfMember(i);
    PositionOfMember(j);
    RelativeOffsetCases(DpiValues[i], DpiValues[j]);
  }

  /** Recommended 150% (index 2) and target 175% (index 3) give offset 1. */
  lemma RelativeOffsetExample()
    ensures RelativeOffset(150, 175).Ok? && RelativeOffset(150, 175).value == 1
    ensures RelativeOffset(150, 120) == Fail(Panic(TargetNotInCatalog))
  {
    RelativeOffsetBetweenMembers(2, 3);
    assert 120 !in DpiValues;
  }
}

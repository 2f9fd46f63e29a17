/** Crossover of two parent routes (`Simulation::mate`): a contiguous slice of the first
    parent, the "DNA slice", is spliced as one block into the order of the second parent. */
module Mating {
  import opened Routes
  import Rand

  datatype Option<T> = None | Some(value: T)

  /** How many locations the DNA slice holds at least, by route length. */
  function SliceSizeAdjustment(length: nat): (adj: nat)
    ensures 1 <= adj <= 3
    ensures length <= 4 ==> adj == 1
    ensures 11 <= length ==> adj == 3
  {
    if length <= 4 then 1 else if length <= 10 then 2 else 3
  }

  /** The bounds of a DNA slice of a parent of `length` locations: it starts before
      `length - adj`, stays inside the parent, and holds at least `adj` and fewer than
      `length / 2 + adj` locations. */
  ghost predicate SliceInRange(length: nat, start: nat, end: nat)
  {
    var adj := SliceSizeAdjustment(length);
    start < length - adj && start + adj <= end <= length && end - start < length / 2 + adj
  }

  /** The end of the DNA slice for the two draws: the start, drawn from [0, length - adj),
      and the span, drawn from [adj, length / 2 + adj), cut at the end of the parent.
      The slice stays inside the parent and holds at least `adj` locations. */
  function DnaSliceEnd(length: nat, start: nat, span: nat): (end: nat)
    requires SliceSizeAdjustment(length) < length
    requires start < length - SliceSizeAdjustment(length)
    requires SliceSizeAdjustment(length) <= span < length / 2 + SliceSizeAdjustment(length)
    ensures SliceInRange(length, start, end)
    ensures SliceSizeAdjustment(length) <= end - start < length / 2 + SliceSizeAdjustment(length)
    ensures SliceSizeAdjustment(length) >= 1
  {
    if start + span < length then start + span else length
  }

  /** The child's locations: walking `parentY` in order, every location outside `slice` is
      kept; the first time the walk meets the slice's first location, the whole slice is
      emitted; every other location of the slice is skipped. */
  function Recombine(parentY: seq<Location>, slice: seq<Location>, recombined: bool): (r: seq<Location>)
    ensures |r| <= |parentY| + (if recombined then 0 else |slice|)
    decreases |parentY|
  {
    if parentY == [] then []
    else if parentY[0] !in slice then [parentY[0]] + Recombine(parentY[1..], slice, recombined)
    else if !recombined && parentY[0] == slice[0] then slice + Recombine(parentY[1..], slice, true)
    else Recombine(parentY[1..], slice, recombined)
  }

  /** The locations of `s` that are not in `slice`, in their order in `s`. */
  ghost function Without(s: seq<Location>, slice: seq<Location>): seq<Location>
    decreases |s|
  {
    if s == [] then []
    else if s[0] in slice then Without(s[1..], slice)
    else [s[0]] + Without(s[1..], slice)
  }

  /** The walk of `mate` over the second parent, pushing onto the offspring. */
  method Splice(parentY: seq<Location>, slice: seq<Location>) returns (offspring: seq<Location>)
    ensures offspring == Recombine(parentY, slice, false)
  {
    offspring := [];
    var recombined := false;
    for i := 0 to |parentY|
      invariant offspring + Recombine(parentY[i..], slice, recombined) == Recombine(parentY, slice, false)
    {
      var yLocation := parentY[i];
      assert parentY[i..][1..] == parentY[i + 1..];
      if yLocation !in slice {
        offspring := offspring + [yLocation];
      } else if !recombined && yLocation == slice[0] {
        offspring := offspring + slice;
        recombined := true;
      }
    }
    assert parentY[|parentY|..] == [];
  }

  /** `mate`: draws the DNA slice of `parentX` and splices it into `parentY`. A parent of
      fewer than two locations makes the generator panic on an empty range. */
  method Mate(dist: Metric, parentX: Route, parentY: Route, rng: Rand.Rng)
    returns (child: Option<Route>, ghost sliceStart: nat, ghost sliceEnd: nat)
    modifies rng
    ensures child.None? <==> |parentX.locations| <= 1
    ensures child.Some? ==> SliceInRange(|parentX.locations|, sliceStart, sliceEnd)
    ensures child.Some? ==>
      child.value == NewRoute(dist, Recombine(parentY.locations, parentX.locations[sliceStart..sliceEnd], false))
  {
    sliceStart, sliceEnd := 0, 0;
    var length := |parentX.locations|;
    var adjustment := SliceSizeAdjustment(length);
    if length <= adjustment {
      return None, sliceStart, sliceEnd;
    }
    var start := rng.GenRange(0, length - adjustment);
    var span := rng.GenRange(adjustment, length / 2 + adjustment);
    var end := DnaSliceEnd(length, start, span);
    var offspring := Splice(parentY.locations, parentX.locations[start..end]);
    child, sliceStart, sliceEnd := Some(NewRoute(dist, offspring)), start, end;
  }

  // ---------------------------------------------------------------------------------------
  // What the splice does to the order of the second parent

  lemma {:induction false} WithoutAppend(a: seq<Location>, b: seq<Location>, slice: seq<Location>)
    ensures Without(a + b, slice) == Without(a, slice) + Without(b, slice)
    decreases |a|
  {
    if a == [] {
      assert a + b == b;
    } else {
      assert (a + b)[0] == a[0];
      assert (a + b)[1..] == a[1..] + b;
      WithoutAppend(a[1..], b, slice);
    }
  }

  lemma {:induction false} WithoutSelf(slice: seq<Location>, rest: seq<Location>)
    requires forall e :: e in slice ==> e in rest
    ensures Without(slice, rest) == []
    decreases |slice|
  {
    if slice != [] {
      WithoutSelf(slice[1..], rest);
    }
  }

  /** Once the slice has been emitted, the walk keeps exactly the locations outside it. */
  lemma {:induction false} RecombinedRest(t: seq<Location>, slice: seq<Location>)
    ensures Recombine(t, slice, true) == Without(t, slice)
    decreases |t|
  {
    if t != [] {
      RecombinedRest(t[1..], slice);
    }
  }

  /** Whatever the parents, the locations outside the slice keep the relative order they
      have in the second parent. */
  lemma {:induction false} RecombineKeepsOrderOfOthers(parentY: seq<Location>, slice: seq<Location>, recombined: bool)
    ensures Without(Recombine(parentY, slice, recombined), slice) == Without(parentY, slice)
    decreases |parentY|
  {
    if parentY != [] {
      var splicesHere := parentY[0] in slice && !recombined && parentY[0] == slice[0];
      var rest := Recombine(parentY[1..], slice, recombined || splicesHere);
      RecombineKeepsOrderOfOthers(parentY[1..], slice, recombined || splicesHere);
      if parentY[0] !in slice {
        WithoutAppend([parentY[0]], rest, slice);
        assert Without([parentY[0]], slice) == [parentY[0]] by {
          assert [parentY[0]][1..] == [];
        }
      } else if !recombined && parentY[0] == slice[0] {
        WithoutAppend(slice, rest, slice);
        WithoutSelf(slice, slice);
      }
    }
  }

  /** The child keeps every location of the second parent that is outside the slice, and
      holds no location that is in neither the second parent nor the slice. */
  lemma {:induction false} RecombineDrawsFrom(parentY: seq<Location>, slice: seq<Location>, recombined: bool)
    ensures forall l :: l in parentY && l !in slice ==> l in Recombine(parentY, slice, recombined)
    ensures forall l :: l in Recombine(parentY, slice, recombined) ==> l in parentY || l in slice
    decreases |parentY|
  {
    if parentY != [] {
      RecombineDrawsFrom(parentY[1..], slice, recombined);
      RecombineDrawsFrom(parentY[1..], slice, true);
      assert parentY == [parentY[0]] + parentY[1..];
    }
  }

  /** When the first location of the slice occurs at `p` in the second parent and not
      before, the child is the second parent's other locations before `p`, then the whole
      slice as one block, then the second parent's other locations after `p`. */
  lemma {:induction false} RecombineAtFirstElement(t: seq<Location>, slice: seq<Location>, p: nat)
    requires p < |t| && slice != [] && t[p] == slice[0] && slice[0] !in t[..p]
    ensures Recombine(t, slice, false) == Without(t[..p], slice) + slice + Without(t[p + 1..], slice)
    decreases p
  {
    if p == 0 {
      assert t[..0] == [];
      RecombinedRest(t[1..], slice);
    } else {
      assert t[1..][..p - 1] == t[1..p];
      assert t[1..][p - 1 + 1..] == t[p + 1..];
      assert t[..p] == [t[0]] + t[1..p];
      RecombineAtFirstElement(t[1..], slice, p - 1);
      WithoutAppend([t[0]], t[1..p], slice);
    }
  }

  // ---------------------------------------------------------------------------------------
  // Counting occurrences

  lemma {:induction false} WithoutCount(s: seq<Location>, slice: seq<Location>, e: Location)
    ensures multiset(Without(s, slice))[e] == if e in slice then 0 else multiset(s)[e]
    decreases |s|
  {
    if s != [] {
      WithoutCount(s[1..], slice, e);
      assert s == [s[0]] + s[1..];
    }
  }

  lemma DistinctCount(s: seq<Location>, e: Location)
    requires Distinct(s)
    ensures multiset(s)[e] == if e in s then 1 else 0
  {
  }

  /** A slice of a sequence without repetitions has none either. */
  lemma SliceDistinct(x: seq<Location>, start: nat, end: nat)
    requires start <= end <= |x| && Distinct(x)
    ensures Distinct(x[start..end])
  {
    assert x == x[..start] + x[start..end] + x[end..];
    assert multiset(x) == multiset(x[..start]) + multiset(x[start..end]) + multiset(x[end..]);
    forall e ensures multiset(x[start..end])[e] <= 1 {
      assert multiset(x[start..end])[e] <= multiset(x)[e];
    }
  }

  /** In a sequence without repetitions, a location found at `p` does not occur before `p`. */
  lemma FirstOccurrence(t: seq<Location>, p: nat)
    requires p < |t| && Distinct(t)
    ensures t[p] !in t[..p]
  {
    assert t == t[..p] + t[p..];
    assert multiset(t) == multiset(t[..p]) + multiset(t[p..]);
    assert t[p] in multiset(t[p..]);
    assert multiset(t)[t[p]] <= 1;
  }

  // ---------------------------------------------------------------------------------------
  // The crossover of two permutations of the same locations

  /** Both parents order the same distinct locations. */
  ghost predicate Parents(locations: seq<Location>, parentX: seq<Location>, parentY: seq<Location>)
  {
    Distinct(locations) && multiset(parentX) == multiset(locations) && multiset(parentY) == multiset(locations)
  }

  /** The DNA slice is spliced in as one block where its first location stands in the
      second parent, and the other locations keep the second parent's order. */
  lemma MateSplicesSlice(locations: seq<Location>, parentX: seq<Location>, parentY: seq<Location>,
                         start: nat, end: nat, p: nat)
    requires Parents(locations, parentX, parentY)
    requires start < end <= |parentX| && p < |parentY| && parentY[p] == parentX[start]
    ensures Recombine(parentY, parentX[start..end], false)
         == Without(parentY[..p], parentX[start..end]) + parentX[start..end] + Without(parentY[p + 1..], parentX[start..end])
  {
    assert Distinct(parentY) by { assert multiset(parentY) == multiset(locations); }
    FirstOccurrence(parentY, p);
    RecombineAtFirstElement(parentY, parentX[start..end], p);
  }

  /** The splice of a distinct slice into a distinct sequence holding the slice's locations
      counts every location as often as the sequence does. */
  lemma SpliceCounts(t: seq<Location>, slice: seq<Location>, p: nat, e: Location)
    requires Distinct(t) && Distinct(slice) && p < |t| && slice != [] && t[p] == slice[0]
    requires forall l :: l in slice ==> l in t
    ensures multiset(Without(t[..p], slice) + slice + Without(t[p + 1..], slice))[e] == multiset(t)[e]
  {
    var before, after := t[..p], t[p + 1..];
    assert t == before + [t[p]] + after;
    assert multiset(t) == multiset(before) + multiset{t[p]} + multiset(after);
    assert multiset(Without(before, slice) + slice + Without(after, slice))
        == multiset(Without(before, slice)) + multiset(slice) + multiset(Without(after, slice));
    WithoutCount(before, slice, e);
    WithoutCount(after, slice, e);
    DistinctCount(slice, e);
    if e in slice {
      DistinctCount(t, e);
    } else {
      assert e != t[p];
    }
  }

  /** The child orders exactly the parents' locations: each of them once, none else. */
  lemma MateIsPermutation(locations: seq<Location>, parentX: seq<Location>, parentY: seq<Location>,
                          start: nat, end: nat)
    requires Parents(locations, parentX, parentY)
    requires start < end <= |parentX|
    ensures multiset(Recombine(parentY, parentX[start..end], false)) == multiset(locations)
    ensures |Recombine(parentY, parentX[start..end], false)| == |locations|
  {
    var slice := parentX[start..end];
    assert parentX[start] in multiset(parentY) by { assert parentX[start] in multiset(parentX); }
    var p :| 0 <= p < |parentY| && parentY[p] == parentX[start];
    MateSplicesSlice(locations, parentX, parentY, start, end, p);
    var child := Without(parentY[..p], slice) + slice + Without(parentY[p + 1..], slice);
    assert Distinct(parentY) by { assert multiset(parentY) == multiset(locations); }
    SliceDistinct(parentX, start, end);
    forall l | l in slice ensures l in parentY {
      assert l in multiset(parentX) by { assert l in parentX; }
    }
    forall e ensures multiset(child)[e] == multiset(parentY)[e] {
      SpliceCounts(parentY, slice, p, e);
    }
    assert multiset(child) == multiset(parentY);
  }
}

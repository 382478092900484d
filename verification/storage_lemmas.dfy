/** Properties relating the operations of the collection store to each other. */
module StorageLemmas {
  import opened Wrappers
  import opened VinylTypes
  import opened Storage

  /** Only the entry at the requested position disappears; the kept entries stay in order. */
  lemma DeleteRemovesExactlyOne(b: Blob, index: int)
    requires 0 <= index < |GetMyVinyls(b)|
    ensures |GetMyVinyls(DeleteVinyl(b, index))| == |GetMyVinyls(b)| - 1
    ensures multiset(GetMyVinyls(DeleteVinyl(b, index))) + multiset{GetMyVinyls(b)[index]}
            == multiset(GetMyVinyls(b))
  {
    var s := GetMyVinyls(b);
    assert s == s[..index] + [s[index]] + s[index + 1..];
  }

  /** Deleting the last position undoes a save: the list read back is the one before it. */
  lemma DeleteUndoesSave(b: Blob, v: MyVinyl)
    ensures GetMyVinyls(DeleteVinyl(SaveVinyl(b, v), |GetMyVinyls(b)|)) == GetMyVinyls(b)
  {
  }

  /** A failed update leaves nothing to write: the caller's stored list is the one it had. */
  lemma UpdateMissingIdFails(b: Blob, id: Num, u: Patch)
    requires !HasId(GetMyVinyls(b), id)
    ensures UpdateVinyl(b, id, u) == Failure(NotFound)
  {
  }

  /** An update keeps the length and every position other than the first match. */
  lemma UpdateFramesOtherEntries(b: Blob, id: Num, u: Patch, j: int)
    requires UpdateVinyl(b, id, u).Success?
    requires 0 <= j < |GetMyVinyls(b)| && j != FindIndex(GetMyVinyls(b), id)
    ensures |GetMyVinyls(UpdateVinyl(b, id, u).value)| == |GetMyVinyls(b)|
    ensures GetMyVinyls(UpdateVinyl(b, id, u).value)[j] == GetMyVinyls(b)[j]
  {
  }

  /** A patch with no keys changes nothing. */
  lemma MergeEmptyPatch(v: MyVinyl)
    ensures Merge(v, Patch(None, None, None)) == v
  {
  }

  /** Updating only the rating keeps the id and the review. */
  lemma MergeRatingKeepsReview(v: MyVinyl, r: int)
    ensures Merge(v, RatingPatch(r)) == MyVinyl(v.id, Some(r), v.review)
  {
  }

  /** Updating only the review keeps the id and the rating. */
  lemma MergeReviewKeepsRating(v: MyVinyl, t: string)
    ensures Merge(v, ReviewPatch(t)) == MyVinyl(v.id, v.rating, Some(t))
  {
  }

  /** Merging two patches in turn is merging their spread combination. */
  lemma MergeCombine(v: MyVinyl, a: Patch, b: Patch)
    ensures Merge(Merge(v, a), b) == Merge(v, Combine(a, b))
  {
  }

  /** Applying the same patch twice is applying it once. */
  lemma MergeIdempotent(v: MyVinyl, u: Patch)
    ensures Merge(Merge(v, u), u) == Merge(v, u)
  {
  }

  /** Saving an entry whose id is fresh keeps the ids distinct. */
  lemma SaveFreshKeepsIdsDistinct(b: Blob, v: MyVinyl)
    requires IdsDistinct(GetMyVinyls(b))
    requires !HasId(GetMyVinyls(b), v.id)
    ensures IdsDistinct(GetMyVinyls(SaveVinyl(b, v)))
  {
  }

  /** The store does not enforce uniqueness: saving an id already present duplicates it. */
  lemma SaveExistingBreaksIdsDistinct(b: Blob, v: MyVinyl)
    requires HasId(GetMyVinyls(b), v.id)
    ensures !IdsDistinct(GetMyVinyls(SaveVinyl(b, v)))
  {
  }

  /** Deleting keeps distinct ids distinct. */
  lemma DeleteKeepsIdsDistinct(b: Blob, index: int)
    requires IdsDistinct(GetMyVinyls(b))
    ensures IdsDistinct(GetMyVinyls(DeleteVinyl(b, index)))
  {
  }

  /** An update that does not touch the id keeps distinct ids distinct. */
  lemma UpdateKeepsIdsDistinct(b: Blob, id: Num, u: Patch)
    requires IdsDistinct(GetMyVinyls(b))
    requires u.id.None?
    requires UpdateVinyl(b, id, u).Success?
    ensures IdsDistinct(GetMyVinyls(UpdateVinyl(b, id, u).value))
  {
  }
}

/**
 * app/add-review.tsx: the modal that adds the release named by the `vinylId`
 * route parameter to the collection, with the rating and review from its form.
 * The parameter is converted with `Number` and checked against the stored ids
 * before anything is saved.
 */
module AddReview {
  import opened Wrappers
  import opened VinylTypes
  import opened JsText
  import opened Storage
  import StarRating

  /** The modal's form state. */
  datatype ReviewForm = ReviewForm(rating: int, reviewText: string)

  /** The form as the modal opens: unrated and with no review text. */
  function InitialForm(): ReviewForm {
    ReviewForm(0, "")
  }

  /** A press on star `k` of the form's star row. */
  function PressStar(f: ReviewForm, k: int): ReviewForm {
    f.(rating := StarRating.HandlePress(f.rating, k))
  }

  /** What pressing the add button leads to. */
  datatype AddReviewOutcome = NoVinylId | AlreadyAdded | Added(blob: Blob)

  /** The stored blob once the handler finished. */
  function BlobAfter(b: Blob, o: AddReviewOutcome): Blob {
    if o.Added? then o.blob else b
  }

  /** `!vinylId`: the parameter is missing or the empty string. */
  predicate IsFalsy(vinylId: Option<string>) {
    vinylId.None? || vinylId.value == ""
  }

  /** The entry the modal saves for the parameter and the form. */
  function EntryFor(vinylId: string, f: ReviewForm): MyVinyl {
    MyVinyl(ToNumber(vinylId), Some(f.rating), Some(f.reviewText))
  }

  /**
   * `handleAdd`: a falsy parameter does nothing; an id already stored only
   * raises an alert; otherwise the form's entry is appended.
   */
  function HandleAdd(b: Blob, vinylId: Option<string>, f: ReviewForm): (r: AddReviewOutcome)
    ensures IsFalsy(vinylId) ==> r == NoVinylId
    ensures !IsFalsy(vinylId) && HasId(GetMyVinyls(b), ToNumber(vinylId.value)) ==> r == AlreadyAdded
    ensures !IsFalsy(vinylId) && !HasId(GetMyVinyls(b), ToNumber(vinylId.value)) ==>
      r.Added? && GetMyVinyls(r.blob) == GetMyVinyls(b) + [EntryFor(vinylId.value, f)]
  {
    if IsFalsy(vinylId) then NoVinylId
    else
      var id := ToNumber(vinylId.value);
      if HasId(GetMyVinyls(b), id) then AlreadyAdded
      else Added(SaveVinyl(b, EntryFor(vinylId.value, f)))
  }

  /** Whatever the outcome, the entries stored before stay where they were. */
  lemma HandleAddKeepsExistingEntries(b: Blob, vinylId: Option<string>, f: ReviewForm)
    ensures var s, t := GetMyVinyls(b), GetMyVinyls(BlobAfter(b, HandleAdd(b, vinylId, f)));
      && |t| >= |s| && t[..|s|] == s
      && (HandleAdd(b, vinylId, f).Added? ==> |t| == |s| + 1 && t[|s|] == EntryFor(vinylId.value, f))
      && (!HandleAdd(b, vinylId, f).Added? ==> t == s)
  {
  }

  /** The guard combined with the append: distinct stored ids stay distinct. */
  lemma HandleAddKeepsIdsDistinct(b: Blob, vinylId: Option<string>, f: ReviewForm)
    requires IdsDistinct(GetMyVinyls(b))
    ensures IdsDistinct(GetMyVinyls(BlobAfter(b, HandleAdd(b, vinylId, f))))
  {
  }

  /** Adding from an untouched form stores rating 0 and an empty review. */
  lemma UntouchedFormSavesDefaults(b: Blob, vinylId: string)
    requires vinylId != "" && !HasId(GetMyVinyls(b), ToNumber(vinylId))
    ensures var t := GetMyVinyls(BlobAfter(b, HandleAdd(b, Some(vinylId), InitialForm())));
      t[|t| - 1] == MyVinyl(ToNumber(vinylId), Some(0), Some(""))
  {
  }

  /**
   * The detail screen opens the modal with `vinylId=${id}`: the stored entry
   * gets that integer id, and the duplicate check compares exactly that id.
   */
  lemma RouteIdRoundTrip(b: Blob, id: int, f: ReviewForm)
    ensures HandleAdd(b, Some(DecimalString(id)), f) == AlreadyAdded <==> HasId(GetMyVinyls(b), Int(id))
    ensures HandleAdd(b, Some(DecimalString(id)), f).Added? ==>
      var t := GetMyVinyls(HandleAdd(b, Some(DecimalString(id)), f).blob);
      t[|t| - 1].id == Int(id)
  {
    NumberOfDecimalString(id);
    assert DecimalString(id) != "" by {
      if id >= 0 {
        assert |NatDigits(id)| > 0;
      }
    }
  }

  /** A parameter that is not a number gives the id NaN, which no stored id equals: it is always added. */
  lemma NaNIdIsNeverADuplicate(b: Blob, vinylId: string, f: ReviewForm)
    requires vinylId != "" && ToNumber(vinylId) == NaN
    ensures HandleAdd(b, Some(vinylId), f).Added?
  {
  }

  /**
   * Distinctness is `===`, under which NaN ids never collide: adding the same
   * non-numeric parameter twice stores two entries with the same (NaN) id.
   */
  lemma RepeatedNaNAddStoresEqualIds(f: ReviewForm)
    ensures var b1 := BlobAfter(Json([]), HandleAdd(Json([]), Some("abc"), f));
      var s := GetMyVinyls(BlobAfter(b1, HandleAdd(b1, Some("abc"), f)));
      |s| == 2 && s[0].id == NaN && s[1].id == NaN && IdsDistinct(s)
  {
    assert ToNumber("abc") == NaN by {
      TrimUnchanged("abc");
      assert !IsDigit("abc"[0]);
    }
    var e := EntryFor("abc", f);
    var b1 := BlobAfter(Json([]), HandleAdd(Json([]), Some("abc"), f));
    assert GetMyVinyls(b1) == [e];
    var s := GetMyVinyls(BlobAfter(b1, HandleAdd(b1, Some("abc"), f)));
    assert !HasId([e], NaN);
    assert s == [e, e];
  }

  /** The rating stored from a form whose stars were pressed any number of times lies in 0..MAX_STARS. */
  lemma {:induction false} PressedFormRatingInRange(f: ReviewForm, presses: seq<int>)
    requires 0 <= f.rating <= StarRating.MAX_STARS
    requires forall i :: 0 <= i < |presses| ==> StarRating.IsPress(presses[i])
    ensures 0 <= PressAll(f, presses).rating <= StarRating.MAX_STARS
    ensures PressAll(f, presses).rating == StarRating.PressAll(f.rating, presses)
    decreases |presses|
  {
    if |presses| > 0 {
      PressedFormRatingInRange(PressStar(f, presses[0]), presses[1..]);
    }
  }

  /** The form after a sequence of star presses. */
  function PressAll(f: ReviewForm, presses: seq<int>): ReviewForm
    decreases |presses|
  {
    if |presses| == 0 then f else PressAll(PressStar(f, presses[0]), presses[1..])
  }
}

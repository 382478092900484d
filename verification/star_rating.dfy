/**
 * components/star-rating.tsx: a row of MAX_STARS star buttons. Pressing star k
 * (numbered from 1) sets the rating to k, or clears it to 0 when k is already
 * the rating; a star is drawn filled when its number is at most the rating.
 */
module StarRating {

  const MAX_STARS: int := 5

  /** The button at 0-based position `index` reports star number `index + 1`. */
  predicate IsPress(k: int) {
    1 <= k <= MAX_STARS
  }

  /** `handlePress`: the rating reported to `onRatingChange` when star `selected` is pressed. */
  function HandlePress(rating: int, selected: int): (r: int)
    ensures r == 0 || r == selected
    ensures r == selected <==> selected != rating || selected == 0
  {
    if selected == rating then 0 else selected
  }

  /** The star at 0-based `index` shows the filled icon. */
  predicate IsFilled(index: int, rating: int) {
    index + 1 <= rating
  }

  /** How many of the first `n` stars are drawn filled. */
  function FilledCount(rating: int, n: nat): nat {
    if n == 0 then 0 else FilledCount(rating, n - 1) + (if IsFilled(n - 1, rating) then 1 else 0)
  }

  function Clamp(x: int, lo: int, hi: int): int
    requires lo <= hi
  {
    if x < lo then lo else if x > hi then hi else x
  }

  /** Of the first `n` stars, exactly the rating (clamped to 0..n) are filled. */
  lemma {:induction false} FilledCountIsClamped(rating: int, n: nat)
    ensures FilledCount(rating, n) == Clamp(rating, 0, n)
  {
    if n > 0 {
      FilledCountIsClamped(rating, n - 1);
    }
  }

  /** For a rating in 0..MAX_STARS, exactly `rating` of the stars are filled. */
  lemma FilledStarsMatchRating(rating: int)
    requires 0 <= rating <= MAX_STARS
    ensures FilledCount(rating, MAX_STARS) == rating
  {
    FilledCountIsClamped(rating, MAX_STARS);
  }

  /** The rating after a sequence of presses, starting from `rating`. */
  function PressAll(rating: int, presses: seq<int>): int
    decreases |presses|
  {
    if |presses| == 0 then rating else PressAll(HandlePress(rating, presses[0]), presses[1..])
  }

  /** Presses come only from the buttons, so a rating starting in 0..MAX_STARS stays there. */
  lemma {:induction false} PressesStayInRange(rating: int, presses: seq<int>)
    requires 0 <= rating <= MAX_STARS
    requires forall i :: 0 <= i < |presses| ==> IsPress(presses[i])
    ensures 0 <= PressAll(rating, presses) <= MAX_STARS
    decreases |presses|
  {
    if |presses| > 0 {
      PressesStayInRange(HandlePress(rating, presses[0]), presses[1..]);
    }
  }

  /** Pressing the current star clears the rating; pressing another sets it to that star. */
  lemma PressToggles(rating: int, k: int)
    requires IsPress(k)
    ensures k == rating ==> HandlePress(rating, k) == 0
    ensures k != rating ==> HandlePress(rating, k) == k
  {
  }

  /** Pressing the same star twice from an unrated form returns to unrated. */
  lemma PressTwiceFromZero(k: int)
    requires IsPress(k)
    ensures HandlePress(0, k) == k
    ensures HandlePress(HandlePress(0, k), k) == 0
  {
  }

  /** After any press the stars filled are exactly the new rating's worth. */
  lemma PressFillsStars(rating: int, k: int)
    requires IsPress(k)
    ensures FilledCount(HandlePress(rating, k), MAX_STARS) == HandlePress(rating, k)
  {
  }
}

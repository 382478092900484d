/**
 * utils/storage.ts: the user's collection is one ordered list of `MyVinyl`
 * records, kept as a single serialized blob under one storage key. Every
 * operation reads the whole list, transforms it and writes the whole list back.
 * The device store is modelled as the blob value itself; serialization is the
 * identity on the list.
 */
module Storage {
  import opened Wrappers
  import opened VinylTypes

  /**
   * What the device store returns for the key: nothing (`null`), the empty
   * string, or the serialized list. `JSON.stringify` of a list is never empty.
   */
  datatype Blob = Absent | EmptyText | Json(vinyls: seq<MyVinyl>)

  /** The error `updateVinyl` throws when no entry carries the requested id. */
  datatype StoreError = NotFound

  /** `getMyVinyls`: a falsy blob (missing or empty) reads as the empty collection. */
  function GetMyVinyls(b: Blob): (r: seq<MyVinyl>)
    ensures b.Absent? || b.EmptyText? ==> r == []
    ensures b.Json? ==> r == b.vinyls
  {
    match b
    case Json(vs) => vs
    case _ => []
  }

  /** Writing a list stores it whole; reading it back gives the same list. */
  function SetItem(vinyls: seq<MyVinyl>): (r: Blob)
    ensures GetMyVinyls(r) == vinyls
  {
    Json(vinyls)
  }

  /** `saveVinyl`: appends at the end, with no duplicate check. */
  function SaveVinyl(b: Blob, v: MyVinyl): (r: Blob)
    ensures |GetMyVinyls(r)| == |GetMyVinyls(b)| + 1
    ensures GetMyVinyls(r)[..|GetMyVinyls(b)|] == GetMyVinyls(b)
    ensures GetMyVinyls(r)[|GetMyVinyls(b)|] == v
  {
    SetItem(GetMyVinyls(b) + [v])
  }

  /**
   * `vinyls.filter((_, i) => i !== index)`: keeps every element whose position
   * differs from `index`. An index outside the list matches no position.
   */
  function WithoutPosition(s: seq<MyVinyl>, index: int): (r: seq<MyVinyl>)
    ensures 0 <= index < |s| ==> |r| == |s| - 1
    ensures 0 <= index < |s| ==> forall i :: 0 <= i < index ==> r[i] == s[i]
    ensures 0 <= index < |s| ==> forall i :: index <= i < |r| ==> r[i] == s[i + 1]
    ensures !(0 <= index < |s|) ==> r == s
  {
    if |s| == 0 then []
    else (if index == 0 then [] else [s[0]]) + WithoutPosition(s[1..], index - 1)
  }

  /** `deleteVinyl`: removes the entry at position `index`, if there is one, and writes the rest. */
  function DeleteVinyl(b: Blob, index: int): (r: Blob)
    ensures r.Json?
    ensures 0 <= index < |GetMyVinyls(b)| ==>
      GetMyVinyls(r) == GetMyVinyls(b)[..index] + GetMyVinyls(b)[index + 1..]
    ensures !(0 <= index < |GetMyVinyls(b)|) ==> GetMyVinyls(r) == GetMyVinyls(b)
  {
    var s := GetMyVinyls(b);
    var r := WithoutPosition(s, index);
    assert 0 <= index < |s| ==> r == s[..index] + s[index + 1..];
    SetItem(r)
  }

  /** `findIndex(vinyl => vinyl.id === id)`: the first matching position, or -1. */
  function FindIndex(s: seq<MyVinyl>, id: Num): (r: int)
    ensures -1 <= r < |s|
    ensures r == -1 <==> forall i :: 0 <= i < |s| ==> !StrictEquals(s[i].id, id)
    ensures r >= 0 ==> StrictEquals(s[r].id, id)
    ensures r >= 0 ==> forall i :: 0 <= i < r ==> !StrictEquals(s[i].id, id)
  {
    if |s| == 0 then -1
    else if StrictEquals(s[0].id, id) then 0
    else
      var k := FindIndex(s[1..], id);
      if k == -1 then -1 else k + 1
  }

  /** `{ ...v, ...u }`: every key present in the patch overwrites, every absent key keeps its value. */
  function Merge(v: MyVinyl, u: Patch): MyVinyl {
    MyVinyl(
      if u.id.Some? then u.id.value else v.id,
      if u.rating.Some? then u.rating.value else v.rating,
      if u.review.Some? then u.review.value else v.review)
  }

  /** `{ ...a, ...b }` on two patches: the later one wins key by key. */
  function Combine(a: Patch, b: Patch): Patch {
    Patch(
      if b.id.Some? then b.id else a.id,
      if b.rating.Some? then b.rating else a.rating,
      if b.review.Some? then b.review else a.review)
  }

  /**
   * `updateVinyl`: merges the patch into the first entry with the id and writes
   * the list; when no entry has the id it throws and writes nothing.
   */
  function UpdateVinyl(b: Blob, id: Num, u: Patch): (r: Result<Blob, StoreError>)
    ensures r.Failure? <==> forall i :: 0 <= i < |GetMyVinyls(b)| ==> !StrictEquals(GetMyVinyls(b)[i].id, id)
    ensures r.Success? ==>
      var s, k := GetMyVinyls(b), FindIndex(GetMyVinyls(b), id);
      && 0 <= k < |s|
      && GetMyVinyls(r.value) == s[k := Merge(s[k], u)]
  {
    var s := GetMyVinyls(b);
    var k := FindIndex(s, id);
    if k == -1 then Failure(NotFound)
    else Success(SetItem(s[k := Merge(s[k], u)]))
  }

  /** No two entries of the list carry `===`-equal ids. */
  predicate IdsDistinct(s: seq<MyVinyl>) {
    forall i, j :: 0 <= i < j < |s| ==> !StrictEquals(s[i].id, s[j].id)
  }

  /** Some entry of the list carries an id `===` to `id`. */
  predicate HasId(s: seq<MyVinyl>, id: Num) {
    exists i :: 0 <= i < |s| && StrictEquals(s[i].id, id)
  }
}

/** The persisted image pool of the background manager in src/App.jsx: the
    record kept under the storage key `backgroundImageData`, the fixed fallback
    list, the rule deciding whether a load grows the pool, and the append step. */
module ImagePool {
  import opened Wrappers
  import opened JsNumbers

  /** The record `{images, usageCount, totalLoads}`. `usageCount` is stored and
      written back but never read or changed by the cycle. */
  datatype Pool = Pool(images: seq<string>, usageCount: int, totalLoads: int)

  /** What `localStorage.getItem` followed by `JSON.parse` yields.
      `Absent` covers a missing key and the empty string (both falsy);
      `Malformed` covers text that `JSON.parse` rejects and parsed values on
      which reading `totalLoads` or `images.length` throws. */
  datatype Stored = Absent | Malformed | Present(pool: Pool)

  /** The record a first-ever load starts from. */
  const EmptyPool: Pool := Pool([], 0, 0)

  /** The images shown when the pool is empty or the cycle failed. */
  const FallbackBackgrounds: seq<string> := [
    "https://images.unsplash.com/photo-1506905925346-21bda4d32df4?q=80&w=2070&auto=format&fit=crop",
    "https://images.unsplash.com/photo-1511884642898-4c92249e20b6?q=80&w=2070&auto=format&fit=crop",
    "https://images.unsplash.com/photo-1485470733090-0aae1788d5af?q=80&w=2517&auto=format&fit=crop"
  ]

  /** Three distinct fallback URLs, so a pick from the list is always defined. */
  lemma FallbackWellFormed()
    ensures |FallbackBackgrounds| == 3
    ensures forall i, j :: 0 <= i < j < |FallbackBackgrounds| ==> FallbackBackgrounds[i] != FallbackBackgrounds[j]
  {
  }

  /** The growth predicate, evaluated on the pool size before any append and on
      the already incremented load counter: below three images every load
      grows; at exactly three, every hundredth load; at four or more, every
      fifth load. */
  predicate ShouldGrow(size: nat, totalLoads: int)
    ensures size < 3 ==> ShouldGrow(size, totalLoads)
    ensures size == 3 ==> (ShouldGrow(size, totalLoads) <==> totalLoads % 100 == 0)
    ensures size >= 4 ==> (ShouldGrow(size, totalLoads) <==> totalLoads % 5 == 0)
    // once the pool has its three images, growth needs a multiple of five
    ensures size >= 3 && ShouldGrow(size, totalLoads) ==> totalLoads % 5 == 0
  {
    size < 3
    || (size == 3 && JsRem(totalLoads, 100) == 0)
    || (size >= 4 && JsRem(totalLoads, 5) == 0)
  }

  /** A URL the generator returned counts only when it is truthy; in
      JavaScript the empty string is falsy. */
  predicate IsTruthyUrl(fetched: Option<string>) {
    fetched.Some? && fetched.value != ""
  }

  /** `images.push(imageUrl)` guarded by `if (imageUrl)`: appends the fetched URL
      at the end when there is a truthy one and otherwise leaves the list alone. */
  function AppendFetched(images: seq<string>, fetched: Option<string>): (r: seq<string>)
    ensures IsTruthyUrl(fetched) ==> |r| == |images| + 1 && r[|images|] == fetched.value
    ensures !IsTruthyUrl(fetched) ==> r == images
    ensures r[..|images|] == images
  {
    if IsTruthyUrl(fetched) then images + [fetched.value] else images
  }
}

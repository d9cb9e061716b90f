# Background image pool — a Dafny model

This project models the image-pool cache policy of the journalling app's
background manager (`generateAndManageBackgrounds` in `src/App.jsx`). Each
time the application starts, that routine does the following:

1. It reads the record `{images, usageCount, totalLoads}` stored under the key
   `backgroundImageData`, or starts from an empty record.
2. It counts the load.
3. It decides whether to grow the pool. With fewer than 3 images it always
   grows. With exactly 3, it grows every hundredth load. With 4 or more, it
   grows every fifth load.
4. When it grows, it asks the image generator for one URL and appends it if
   the generator returned a non-empty one.
5. It picks an image at random from the pool, or from a fixed list of three
   fallback URLs when the pool is empty.
6. It writes the record back. Any exception jumps to a catch block, which
   shows a random fallback image and writes nothing.

The model is pure and deterministic. The outside world enters through the
`BackgroundCycle.Effects` value:

- what the generator returns (`Option<string>`);
- whether the storage write returns normally;
- the `Math.random()` values. Each value is a real in [0, 1), and the index is
  `Floor(u * n)`, as in the source.

Stored content enters as `Absent | Malformed | Present(pool)`.

Modules:
- `Wrappers`: the `Option` type.
- `JsNumbers`: JavaScript's truncating `%` and the random-index idiom.
- `ImagePool`: the record, the stored state, the fallback list, the growth
  predicate and the append step.
- `BackgroundCycle`: one load cycle, `LoadCycle`, built from steps that follow
  the source line by line.
- `LoadTrace`: consecutive starts. Each start reads what the previous one
  wrote, or the old content when nothing was written.

## Behaviour worth noting

- **Three images.** A pool of exactly three images grows only when the counted
  load is a multiple of 100 (`src/App.jsx:36`). From four images on, it grows
  every fifth load.
- **One image per load.** An empty pool grows by at most one generated image
  per load. Reaching three images takes at least three loads.
- **Failed write.** If the storage write throws, the catch block replaces the
  shown image with a fallback pick. The counter is not saved either, so the
  next start sees the same counter and, when the pool grows on that load,
  calls the generator again. The image generated by the failed start is lost
  (`LoadTrace.FailedWriteRepeatsGeneration`).
- **Empty URL.** The generator's result is appended only when it is truthy,
  so an empty-string URL is treated like no URL.
- **Unreadable record.** A record that cannot be read is never written over,
  so every later start shows a fallback image and never grows the pool.

## Model

| member | source | states |
|---|---|---|
| JsNumbers.JsRem | src/App.jsx:36-38 | JavaScript's `%` keeps the dividend's sign: the remainder is strictly between -m and m, non-negative for a non-negative dividend, non-positive for a non-positive one, and zero exactly when m divides the dividend |
| JsNumbers.RandomIndex | src/App.jsx:58-61 | `Math.floor(Math.random() * n)` is always a valid index below n |
| JsNumbers.RandomIndexReaches | src/App.jsx:58-61 | every index below n is produced by some random draw, so no entry is unreachable |
| JsNumbers.Pick | src/App.jsx:56-62 | the element picked by a random draw is a member of the list, never undefined |
| JsNumbers.PickReaches | src/App.jsx:56-62 | every element of a non-empty list can be the one picked |
| ImagePool.FallbackWellFormed | src/App.jsx:5-9 | the fallback list has exactly three distinct URLs |
| ImagePool.ShouldGrow | src/App.jsx:32-38 | fewer than 3 images: always grow. Exactly 3: grow iff the counted load is a multiple of 100. 4 or more: grow iff it is a multiple of 5. Whenever a pool of 3 or more grows, the load is a multiple of 5 |
| ImagePool.AppendFetched | src/App.jsx:46-50 | a truthy URL is added as the one new last entry; a missing or empty URL leaves the list unchanged; existing entries keep their positions |
| BackgroundCycle.Loaded | src/App.jsx:21-26 | a missing record becomes the empty record `{[], 0, 0}`, a stored record is used as is, an unreadable one yields no record |
| BackgroundCycle.CountLoad | src/App.jsx:29 | the counter goes up by exactly one; images and usageCount are untouched |
| BackgroundCycle.Grow | src/App.jsx:40-51 | the generator is called iff the growth predicate holds on the counted record; only a truthy result is appended; counter and usageCount are untouched |
| BackgroundCycle.SelectImage | src/App.jsx:53-62 | the image comes from the pool when it has images, otherwise from the fallback list |
| BackgroundCycle.LoadCycle | src/App.jsx:19-73 | the generator is called iff the record is readable and the growth predicate holds on its size and counted load. A record is written iff reading and writing both succeed. The written counter is the old counter plus one, usageCount is kept, and images are the old list, or the old list plus the one truthy URL when the generator was called. The shown image is in the written pool when that pool is non-empty, and otherwise in the fallback list |
| BackgroundCycle.FirstLoad | src/App.jsx:21-29 | a first-ever start calls the generator and writes counter 1 and usageCount 0, with the generated image or no image; with no image it shows a fallback |
| BackgroundCycle.ThreeImagesGrowEveryHundredthLoad | src/App.jsx:35-36 | with three images, load 5 does not call the generator and load 100 does |
| BackgroundCycle.SteadyStateWithFiveImages | src/App.jsx:29-51 | with five images, stored counter 12 gives no call and writes 13; stored counter 14 calls the generator, and a truthy URL gives six images with counter 15 |
| BackgroundCycle.GeneratorFailureIsHarmless | src/App.jsx:44-62 | a failed or empty generator result leaves the images unchanged, and the shown image comes from the old pool or the fallback list |
| LoadTrace.Progress | src/App.jsx:22-68 | over n starts whose writes succeed, a readable record stays readable: the counter grows by exactly n, usageCount is unchanged, and the old images remain the leading entries in order |
| LoadTrace.CounterCountsLoads | src/App.jsx:21-29 | when every write succeeds, the k-th start writes the starting counter plus k+1, which is k+1 after a first-ever start |
| LoadTrace.CounterStrictlyIncreases | src/App.jsx:29 | of two starts that both write the record, the later one writes a strictly larger counter, whatever happened to the writes in between |
| LoadTrace.GeneratorCallsAtFourOrMore | src/App.jsx:37-38 | when every write succeeds and the pool has 4 or more images, the k-th start calls the generator iff the starting counter plus k+1 is a multiple of 5 |
| LoadTrace.GeneratorCallsFiveApart | src/App.jsx:37-38 | when every write succeeds and the pool has 4 or more images, two generator calls are at least five starts apart |
| LoadTrace.OneGeneratorCallPerFiveLoads | src/App.jsx:37-38 | when every write succeeds and the pool has 4 or more images, any five consecutive starts call the generator exactly once |
| LoadTrace.CounterNeverDecreases | src/App.jsx:29-73 | whatever the writes do, a readable record stays readable and its counter never goes down, because a start either writes the counter plus one or writes nothing |
| LoadTrace.FailedWriteRepeatsGeneration | src/App.jsx:36-73 | with four images and stored counter 4, a start whose write throws and the start after it both call the generator, and the second writes counter 5 with only its own image appended |
| LoadTrace.MalformedStaysMalformed | src/App.jsx:70-73 | an unreadable record is never overwritten, however many starts follow |
| LoadTrace.MalformedNeverRecovers | src/App.jsx:19-73 | after the record becomes unreadable, every start shows a fallback image, never calls the generator and writes nothing |

## Left out

- The image generator (`src/services/openai.js`) and the stock-photo client (`src/services/unsplash.js`) are network clients. Only their result enters the model, as an `Option<string>`. The generator catches its own errors and returns `null`, so it never throws into the cycle.
- React state, `useEffect`, the 800 ms loading delay, the styles and the markup are rendering concerns. The model returns the finally shown URL instead of calling `setBackgroundImage`. It ignores the first `setBackgroundImage` call that a failed write later overrides.
- JSON text and `localStorage` are abstracted as `Absent | Malformed | Present(pool)` in and `Option<Pool>` out. A record whose `totalLoads` is not a number is left out, because JavaScript's `+= 1` coerces it. A missing counter becomes `NaN`, which is written back as `null`, and the next load then counts from 1 (`null + 1` is 1). A string counter is concatenated (`"5" + 1` is `"51"`). A boolean is converted (`true + 1` is 2). Records whose `images` is not an array are left out too.
- JavaScript numbers are doubles, and the model's counters are unbounded integers. Loss of precision above 2^53 is not modelled.
- Console logging and the prompt text are side channels and constant data.
- The clear-cache control, the batch three-image bootstrap and the no-cache `BackgroundImage` component are not part of `src/App.jsx`. `src/components/BackgroundImage.jsx` is not part of this model.
- Two browser tabs racing on the same storage key are not modelled. Each cycle reads and writes the record once, with no interleaving.
- LoadTrace.GeneratorCallsAtFourOrMore, LoadTrace.GeneratorCallsFiveApart and LoadTrace.OneGeneratorCallPerFiveLoads assume every write succeeds. When a write fails, the counter is not saved, so the next start sees the same counter again and can call the generator again (LoadTrace.FailedWriteRepeatsGeneration).
- LoadTrace.CounterCountsLoads assumes every write succeeds. With failed writes, only the weaker LoadTrace.CounterStrictlyIncreases and LoadTrace.CounterNeverDecreases hold: the counter goes up by one per successful write, not per start.

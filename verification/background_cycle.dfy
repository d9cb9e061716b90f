/** One run of `generateAndManageBackgrounds` (src/App.jsx:16-80) as a pure step:
    read the stored record, count the load, maybe grow the pool by one generated
    image, pick the image to show, and write the record back. The outside world
    enters only through `Effects`. */
module BackgroundCycle {
  import opened Wrappers
  import opened JsNumbers
  import opened ImagePool

  /** Everything the cycle learns from outside itself:
      `generated` is what the image generator returns when it is called,
      `writeSucceeds` whether `localStorage.setItem` returns normally,
      `draw` the `Math.random()` value of the try block and `catchDraw` the one
      of the catch block. */
  datatype Effects = Effects(generated: Option<string>, writeSucceeds: bool, draw: real, catchDraw: real)

  predicate ValidEffects(e: Effects) {
    IsRandomDraw(e.draw) && IsRandomDraw(e.catchDraw)
  }

  /** What one cycle produces: the image finally shown, whether the generator
      was called, and the record written to storage, if any. */
  datatype Outcome = Outcome(shown: string, calledGenerator: bool, persisted: Option<Pool>)

  /** The record the cycle starts from: the stored one, the empty record when
      nothing is stored, and none when reading it throws. */
  function Loaded(stored: Stored): (p: Option<Pool>)
    ensures stored.Malformed? <==> p.None?
    ensures stored.Absent? ==> p == Some(EmptyPool)
    ensures stored.Present? ==> p == Some(stored.pool)
  {
    match stored
    case Absent => Some(EmptyPool)
    case Malformed => None
    case Present(pool) => Some(pool)
  }

  /** `imageData.totalLoads += 1`. */
  function CountLoad(p: Pool): (q: Pool)
    ensures q.totalLoads == p.totalLoads + 1
    ensures q.images == p.images && q.usageCount == p.usageCount
  {
    p.(totalLoads := p.totalLoads + 1)
  }

  /** The growth step on a counted record: when the predicate holds the
      generator is called and a truthy URL is appended; nothing else changes. */
  function Grow(p: Pool, generated: Option<string>): (r: (Pool, bool))
    ensures r.1 <==> ShouldGrow(|p.images|, p.totalLoads)
    ensures r.0.totalLoads == p.totalLoads && r.0.usageCount == p.usageCount
    ensures r.1 && IsTruthyUrl(generated) ==> r.0.images == p.images + [generated.value]
    ensures !(r.1 && IsTruthyUrl(generated)) ==> r.0.images == p.images
  {
    if ShouldGrow(|p.images|, p.totalLoads) then
      (p.(images := AppendFetched(p.images, generated)), true)
    else
      (p, false)
  }

  /** The image picked after growth: from the pool when it has images,
      otherwise from the fallback list. */
  function SelectImage(images: seq<string>, draw: real): (url: string)
    requires IsRandomDraw(draw)
    ensures |images| > 0 ==> url in images
    ensures |images| == 0 ==> url in FallbackBackgrounds
  {
    if |images| > 0 then Pick(images, draw) else Pick(FallbackBackgrounds, draw)
  }

  /** One whole load cycle. A throw while reading the record (Malformed) or
      while writing it back jumps to the catch block, which shows a fallback
      image drawn with `catchDraw` and writes nothing. */
  function LoadCycle(stored: Stored, e: Effects): (o: Outcome)
    requires ValidEffects(e)
    // the generator is called exactly when the growth predicate holds
    ensures o.calledGenerator <==>
      (Loaded(stored).Some? && ShouldGrow(|Loaded(stored).value.images|, Loaded(stored).value.totalLoads + 1))
    // a record is written exactly when reading and writing both succeed
    ensures o.persisted.Some? <==> (!stored.Malformed? && e.writeSucceeds)
    // the written record: counter up by one, usageCount kept, images append-only
    ensures o.persisted.Some? ==>
      var before := Loaded(stored).value;
      var after := o.persisted.value;
      && after.totalLoads == before.totalLoads + 1
      && after.usageCount == before.usageCount
      && (if o.calledGenerator && IsTruthyUrl(e.generated)
          then after.images == before.images + [e.generated.value]
          else after.images == before.images)
    // the shown image comes from the written pool when it has images, otherwise from the fallback list
    ensures o.persisted.Some? && |o.persisted.value.images| > 0 ==> o.shown in o.persisted.value.images
    ensures o.persisted.Some? && |o.persisted.value.images| == 0 ==> o.shown in FallbackBackgrounds
    ensures o.persisted.None? ==> o.shown in FallbackBackgrounds
  {
    match Loaded(stored)
    case None => Outcome(Pick(FallbackBackgrounds, e.catchDraw), false, None)
    case Some(p) =>
      var (grown, called) := Grow(CountLoad(p), e.generated);
      if e.writeSucceeds then
        Outcome(SelectImage(grown.images, e.draw), called, Some(grown))
      else
        Outcome(Pick(FallbackBackgrounds, e.catchDraw), called, None)
  }

  /** A first-ever start counts load 1, always calls the generator, and writes
      a record holding at most the one generated image. */
  lemma FirstLoad(e: Effects)
    requires ValidEffects(e) && e.writeSucceeds
    ensures LoadCycle(Absent, e).calledGenerator
    ensures LoadCycle(Absent, e).persisted.Some?
    ensures LoadCycle(Absent, e).persisted.value.totalLoads == 1
    ensures LoadCycle(Absent, e).persisted.value.usageCount == 0
    ensures IsTruthyUrl(e.generated) ==> LoadCycle(Absent, e).persisted.value.images == [e.generated.value]
    ensures !IsTruthyUrl(e.generated) ==> LoadCycle(Absent, e).persisted.value.images == []
    ensures !IsTruthyUrl(e.generated) ==> LoadCycle(Absent, e).shown in FallbackBackgrounds
  {
  }

  /** With exactly three images the pool grows only on a counted load that is
      a multiple of one hundred: the fifth load does not call the generator,
      the hundredth does. */
  lemma ThreeImagesGrowEveryHundredthLoad(images: seq<string>, usage: int, e: Effects)
    requires ValidEffects(e) && |images| == 3
    ensures !LoadCycle(Present(Pool(images, usage, 4)), e).calledGenerator
    ensures LoadCycle(Present(Pool(images, usage, 99)), e).calledGenerator
  {
  }

  /** Steady state with five images: from a stored counter of 12 no generator
      call happens and 13 is written; from 14 the generator is called and a
      truthy URL makes the pool six long. */
  lemma SteadyStateWithFiveImages(images: seq<string>, usage: int, e: Effects)
    requires ValidEffects(e) && e.writeSucceeds && |images| == 5
    ensures !LoadCycle(Present(Pool(images, usage, 12)), e).calledGenerator
    ensures LoadCycle(Present(Pool(images, usage, 12)), e).persisted == Some(Pool(images, usage, 13))
    ensures LoadCycle(Present(Pool(images, usage, 14)), e).calledGenerator
    ensures IsTruthyUrl(e.generated) ==>
      LoadCycle(Present(Pool(images, usage, 14)), e).persisted == Some(Pool(images + [e.generated.value], usage, 15))
  {
  }

  /** A failing or falsy generator result never changes the images, and the
      shown image is still drawn from the old pool or the fallback list. */
  lemma GeneratorFailureIsHarmless(stored: Stored, e: Effects)
    requires ValidEffects(e) && !IsTruthyUrl(e.generated) && stored.Present?
    ensures LoadCycle(stored, e).persisted.Some? ==> LoadCycle(stored, e).persisted.value.images == stored.pool.images
    ensures LoadCycle(stored, e).shown in stored.pool.images || LoadCycle(stored, e).shown in FallbackBackgrounds
  {
  }
}

/** Consecutive application starts: each load cycle reads what the previous
    one wrote, or the unchanged old record when nothing was written. */
module LoadTrace {
  import opened Wrappers
  import opened JsNumbers
  import opened ImagePool
  import opened BackgroundCycle

  predicate AllValid(effs: seq<Effects>) {
    forall k :: 0 <= k < |effs| ==> ValidEffects(effs[k])
  }

  predicate AllWritesSucceed(effs: seq<Effects>) {
    forall k :: 0 <= k < |effs| ==> effs[k].writeSucceeds
  }

  /** Storage after a cycle: the written record, or the old content when the
      cycle wrote nothing. */
  function NextStored(stored: Stored, o: Outcome): (s: Stored)
    ensures o.persisted.Some? ==> s == Present(o.persisted.value)
    ensures o.persisted.None? ==> s == stored
  {
    match o.persisted
    case Some(p) => Present(p)
    case None => stored
  }

  /** Storage after running the cycles of `effs` in order. */
  function StoredAfter(stored: Stored, effs: seq<Effects>): Stored
    requires AllValid(effs)
    decreases |effs|
  {
    if |effs| == 0 then stored
    else StoredAfter(NextStored(stored, LoadCycle(stored, effs[0])), effs[1..])
  }

  /** The outcomes of running the cycles of `effs` in order: the k-th cycle
      runs on the storage the first k cycles left. */
  function Run(stored: Stored, effs: seq<Effects>): (outs: seq<Outcome>)
    requires AllValid(effs)
    ensures |outs| == |effs|
  {
    seq(|effs|, k requires 0 <= k < |effs| => LoadCycle(StoredAfter(stored, effs[..k]), effs[k]))
  }

  /** With every write succeeding, a readable record stays readable: after n
      cycles its counter has grown by exactly n, usageCount is unchanged, and
      the old images are still the leading entries in the same order. */
  lemma {:induction false} Progress(stored: Stored, effs: seq<Effects>)
    requires AllValid(effs) && AllWritesSucceed(effs) && !stored.Malformed?
    ensures StoredAfter(stored, effs).Present? || |effs| == 0
    ensures !StoredAfter(stored, effs).Malformed?
    ensures
      var before := Loaded(stored).value;
      var after := Loaded(StoredAfter(stored, effs)).value;
      && after.totalLoads == before.totalLoads + |effs|
      && after.usageCount == before.usageCount
      && |after.images| >= |before.images|
      && after.images[..|before.images|] == before.images
    decreases |effs|
  {
    if |effs| > 0 {
      var o := LoadCycle(stored, effs[0]);
      var s1 := NextStored(stored, o);
      assert AllWritesSucceed(effs[1..]) by {
        forall k | 0 <= k < |effs[1..]| ensures effs[1..][k].writeSucceeds {
          assert effs[1..][k] == effs[k + 1];
        }
      }
      Progress(s1, effs[1..]);
      var before := Loaded(stored).value;
      var mid := Loaded(s1).value;
      var after := Loaded(StoredAfter(stored, effs)).value;
      assert mid.images[..|before.images|] == before.images;
      assert after.images[..|mid.images|] == mid.images;
      assert after.images[..|before.images|] == mid.images[..|before.images|];
    }
  }

  /** The counter written by the k-th cycle is the starting counter plus k + 1,
      so successive written counters strictly increase; a first-ever start
      writes 1 first. */
  lemma CounterCountsLoads(stored: Stored, effs: seq<Effects>, k: nat)
    requires AllValid(effs) && AllWritesSucceed(effs) && !stored.Malformed?
    requires k < |effs|
    ensures Run(stored, effs)[k].persisted.Some?
    ensures Run(stored, effs)[k].persisted.value.totalLoads == Loaded(stored).value.totalLoads + k + 1
    ensures stored.Absent? ==> Run(stored, effs)[k].persisted.value.totalLoads == k + 1
  {
    assert AllWritesSucceed(effs[..k]);
    Progress(stored, effs[..k]);
  }

  /** Running `a` and then `b` leaves the storage that running `a + b` leaves. */
  lemma {:induction false} StoredAfterAppend(stored: Stored, a: seq<Effects>, b: seq<Effects>)
    requires AllValid(a) && AllValid(b)
    ensures AllValid(a + b)
    ensures StoredAfter(stored, a + b) == StoredAfter(StoredAfter(stored, a), b)
    decreases |a|
  {
    assert AllValid(a + b) by {
      forall k | 0 <= k < |a + b| ensures ValidEffects((a + b)[k]) {
        if k < |a| {
          assert (a + b)[k] == a[k];
        } else {
          assert (a + b)[k] == b[k - |a|];
        }
      }
    }
    if |a| == 0 {
      assert a + b == b;
    } else {
      assert (a + b)[0] == a[0];
      assert (a + b)[1..] == a[1..] + b;
      StoredAfterAppend(NextStored(stored, LoadCycle(stored, a[0])), a[1..], b);
    }
  }

  /** Whatever the writes do, a readable record stays readable and its counter
      never goes down: a cycle either writes the counter plus one or leaves
      the storage alone. */
  lemma {:induction false} CounterNeverDecreases(stored: Stored, effs: seq<Effects>)
    requires AllValid(effs) && !stored.Malformed?
    ensures !StoredAfter(stored, effs).Malformed?
    ensures Loaded(StoredAfter(stored, effs)).value.totalLoads >= Loaded(stored).value.totalLoads
    decreases |effs|
  {
    if |effs| > 0 {
      CounterNeverDecreases(NextStored(stored, LoadCycle(stored, effs[0])), effs[1..]);
    }
  }

  /** Of two starts that both write the record, the later one writes a strictly
      larger counter, whether or not the starts between them could write. */
  lemma CounterStrictlyIncreases(stored: Stored, effs: seq<Effects>, i: nat, j: nat)
    requires AllValid(effs) && i < j < |effs|
    requires Run(stored, effs)[i].persisted.Some? && Run(stored, effs)[j].persisted.Some?
    ensures Run(stored, effs)[i].persisted.value.totalLoads < Run(stored, effs)[j].persisted.value.totalLoads
  {
    var before := effs[..i];
    var middle := effs[i + 1..j];
    var si := StoredAfter(stored, before);
    var oi := LoadCycle(si, effs[i]);
    assert Run(stored, effs)[i] == oi;
    var written := NextStored(si, oi);
    assert written == Present(oi.persisted.value);
    assert StoredAfter(si, [effs[i]]) == written by {
      assert [effs[i]][1..] == [];
    }
    assert AllValid(middle) by {
      forall k | 0 <= k < |middle| ensures ValidEffects(middle[k]) {
        assert middle[k] == effs[i + 1 + k];
      }
    }
    StoredAfterAppend(si, [effs[i]], middle);
    StoredAfterAppend(stored, before, [effs[i]] + middle);
    assert effs[..j] == before + ([effs[i]] + middle);
    CounterNeverDecreases(written, middle);
    assert StoredAfter(stored, effs[..j]) == StoredAfter(written, middle);
  }

  /** A failed write makes the next start repeat the generator call: with four
      images and a stored counter of 4, a start whose write throws and the start
      after it both call the generator, and the image generated by the first is
      lost. */
  lemma FailedWriteRepeatsGeneration(images: seq<string>, usage: int, e0: Effects, e1: Effects)
    requires |images| == 4 && ValidEffects(e0) && ValidEffects(e1)
    requires !e0.writeSucceeds && e1.writeSucceeds && IsTruthyUrl(e1.generated)
    ensures AllValid([e0, e1])
    ensures Run(Present(Pool(images, usage, 4)), [e0, e1])[0].calledGenerator
    ensures Run(Present(Pool(images, usage, 4)), [e0, e1])[1].calledGenerator
    ensures Run(Present(Pool(images, usage, 4)), [e0, e1])[1].persisted
         == Some(Pool(images + [e1.generated.value], usage, 5))
  {
    var stored := Present(Pool(images, usage, 4));
    var effs := [e0, e1];
    assert effs[..0] == [];
    assert effs[..1] == [e0];
    assert StoredAfter(stored, [e0]) == stored by {
      assert [e0][1..] == [];
    }
  }

  /** Once the pool holds four or more images and writes succeed, the k-th
      cycle calls the generator exactly when its counted load is a multiple of five. */
  lemma GeneratorCallsAtFourOrMore(stored: Stored, effs: seq<Effects>, k: nat)
    requires AllValid(effs) && AllWritesSucceed(effs) && stored.Present?
    requires |stored.pool.images| >= 4
    requires k < |effs|
    ensures Run(stored, effs)[k].calledGenerator <==> (stored.pool.totalLoads + k + 1) % 5 == 0
  {
    assert AllWritesSucceed(effs[..k]);
    Progress(stored, effs[..k]);
  }

  /** Once the pool holds four or more images and writes succeed, two
      generator calls are at least five cycles apart. */
  lemma GeneratorCallsFiveApart(stored: Stored, effs: seq<Effects>, k: nat, l: nat)
    requires AllValid(effs) && AllWritesSucceed(effs) && stored.Present?
    requires |stored.pool.images| >= 4
    requires k < l < |effs| && l - k < 5
    ensures Run(stored, effs)[k].calledGenerator ==> !Run(stored, effs)[l].calledGenerator
  {
    GeneratorCallsAtFourOrMore(stored, effs, k);
    GeneratorCallsAtFourOrMore(stored, effs, l);
    if (stored.pool.totalLoads + k + 1) % 5 == 0 {
      NoTwoMultiplesOfFiveClose(stored.pool.totalLoads + k + 1, l - k);
    }
  }

  /** Two multiples of five are never fewer than five apart. */
  lemma NoTwoMultiplesOfFiveClose(x: int, gap: int)
    requires x % 5 == 0 && 0 < gap < 5
    ensures (x + gap) % 5 != 0
  {
  }

  /** Once the pool holds four or more images and writes succeed, any five
      consecutive cycles call the generator exactly once. */
  lemma OneGeneratorCallPerFiveLoads(stored: Stored, effs: seq<Effects>, i: nat)
    requires AllValid(effs) && AllWritesSucceed(effs) && stored.Present?
    requires |stored.pool.images| >= 4
    requires i + 5 <= |effs|
    ensures exists k :: i <= k < i + 5 && Run(stored, effs)[k].calledGenerator
    ensures forall k, l :: i <= k < l < i + 5 && Run(stored, effs)[k].calledGenerator
              ==> !Run(stored, effs)[l].calledGenerator
  {
    var n := stored.pool.totalLoads + i + 1;
    var d := (5 - n % 5) % 5;
    assert (n + d) % 5 == 0;
    GeneratorCallsAtFourOrMore(stored, effs, i + d);
    forall k, l | i <= k < l < i + 5 && Run(stored, effs)[k].calledGenerator
      ensures !Run(stored, effs)[l].calledGenerator
    {
      GeneratorCallsFiveApart(stored, effs, k, l);
    }
  }

  /** A record that cannot be read is never overwritten. */
  lemma {:induction false} MalformedStaysMalformed(effs: seq<Effects>)
    requires AllValid(effs)
    ensures StoredAfter(Malformed, effs) == Malformed
    decreases |effs|
  {
    if |effs| > 0 {
      MalformedStaysMalformed(effs[1..]);
    }
  }

  /** Once the record cannot be read, every later start shows a fallback
      image, never calls the generator and writes nothing. */
  lemma MalformedNeverRecovers(effs: seq<Effects>, k: nat)
    requires AllValid(effs) && k < |effs|
    ensures Run(Malformed, effs)[k].shown in FallbackBackgrounds
    ensures !Run(Malformed, effs)[k].calledGenerator
    ensures Run(Malformed, effs)[k].persisted.None?
  {
    MalformedStaysMalformed(effs[..k]);
  }
}

/** The two process-wide id sequences of the environment: `mapIdSequence`, seeded from the
    largest authored object id and handed out by pre-increment, and `localIdSequence`,
    starting at 0 and handed out by pre-decrement.  The counters are unbounded here; the
    32-bit wrap-around of the Java `int` counters is modelled separately below. */
module IdSequences {
  import opened JavaText

  /** The shared counters.  The ghost fields record what has been handed out over the whole
      run, across every seeding: `mapIds` every map id, `localIds` every local id. */
  class Counters {
    var mapIdSequence: int
    var localIdSequence: int
    ghost var mapIds: seq<int>
    ghost var localIds: seq<int>

    /** The map ids handed out so far increase and none exceeds the counter, so the next
        one is new. */
    ghost predicate MapIdsFresh()
      reads this
    {
      && (forall k :: 0 <= k < |mapIds| ==> mapIds[k] <= mapIdSequence)
      && (forall i, j :: 0 <= i < j < |mapIds| ==> mapIds[i] < mapIds[j])
    }

    /** Local ids run `-1, -2, ...` and the counter holds the last one. */
    ghost predicate LocalIdsCounted()
      reads this
    {
      && localIdSequence == -|localIds|
      && (forall k :: 0 <= k < |localIds| ==> localIds[k] == -(k + 1))
    }

    ghost predicate Valid()
      reads this
    {
      MapIdsFresh() && LocalIdsCounted()
    }

    /** The static fields before any environment exists: both 0. */
    constructor ()
      ensures Valid()
      ensures mapIdSequence == 0 && localIdSequence == 0
      ensures mapIds == [] && localIds == []
    {
      mapIdSequence, localIdSequence := 0, 0;
      mapIds, localIds := [], [];
    }

    /** `mapIdSequence = maxId`, as every environment's constructor does.  This keeps the
        map ids fresh only when it does not lower the counter: see `ReseedingRepeatsMapIds`. */
    method Seed(maxId: int)
      modifies this
      ensures mapIdSequence == maxId && mapIds == old(mapIds)
      ensures localIdSequence == old(localIdSequence) && localIds == old(localIds)
      ensures old(Valid()) && old(mapIdSequence) <= maxId ==> Valid()
    {
      mapIdSequence := maxId;
    }

    /** The intended seeding: the counter is advanced past `maxId` and never lowered, so
        every map id handed out later is new, whichever maps were loaded before. */
    method SeedAtLeast(maxId: int)
      requires Valid()
      modifies this
      ensures Valid()
      ensures mapIdSequence == if old(mapIdSequence) < maxId then maxId else old(mapIdSequence)
      ensures mapIdSequence >= maxId && mapIdSequence >= old(mapIdSequence)
      ensures mapIds == old(mapIds)
      ensures localIdSequence == old(localIdSequence) && localIds == old(localIds)
    {
      if mapIdSequence < maxId {
        mapIdSequence := maxId;
      }
    }

    /** `getMapId`: `++mapIdSequence`.  The id is one more than the last; while the
        counters are valid it is larger than every map id handed out before, so it is new. */
    method NextMapId() returns (id: int)
      modifies this
      ensures id == old(mapIdSequence) + 1 && mapIdSequence == id
      ensures mapIds == old(mapIds) + [id]
      ensures localIdSequence == old(localIdSequence) && localIds == old(localIds)
      ensures old(Valid()) ==> Valid() && forall earlier :: earlier in old(mapIds) ==> earlier < id
    {
      mapIdSequence := mapIdSequence + 1;
      id := mapIdSequence;
      mapIds := mapIds + [id];
    }

    /** `getLocalMapId`: `--localIdSequence`.  The `n`-th local id is `-n`: negative, below
        every local id handed out before. */
    method NextLocalId() returns (id: int)
      requires Valid()
      modifies this
      ensures Valid()
      ensures id == old(localIdSequence) - 1 && localIdSequence == id
      ensures id == -(|old(localIds)| + 1) && id < 0
      ensures forall earlier :: earlier in old(localIds) ==> id < earlier
      ensures localIds == old(localIds) + [id]
      ensures mapIdSequence == old(mapIdSequence) && mapIds == old(mapIds)
    {
      localIdSequence := localIdSequence - 1;
      id := localIdSequence;
      localIds := localIds + [id];
    }
  }

  /** As written, a second environment whose map has the same largest id assigns the
      counter back, and the next map id repeats one handed out before. */
  method ReseedingRepeatsMapIds(c: Counters, maxId: int) returns (first: int, second: int)
    modifies c
    ensures first == maxId + 1 && second == first
    ensures |c.mapIds| >= 2 && c.mapIds[|c.mapIds| - 2] == c.mapIds[|c.mapIds| - 1]
    ensures !c.Valid()
  {
    c.Seed(maxId);
    first := c.NextMapId();
    c.Seed(maxId);
    second := c.NextMapId();
  }

  /** With the intended seeding, two environments loaded one after the other never hand
      out the same map id, even when the second map's largest id is smaller. */
  method ReseedingAtLeastKeepsMapIdsDistinct(c: Counters, maxId1: int, maxId2: int) returns (first: int, second: int)
    requires c.Valid()
    modifies c
    ensures c.Valid()
    ensures first > maxId1 && second > maxId2 && first < second
  {
    c.SeedAtLeast(maxId1);
    first := c.NextMapId();
    c.SeedAtLeast(maxId2);
    second := c.NextMapId();
  }

  /** The ids `n` successive `getMapId` calls hand out after the counter holds `last`. */
  function MapIdsFrom(last: int, n: nat): (ids: seq<int>)
    ensures |ids| == n
    ensures forall k :: 0 <= k < n ==> ids[k] == last + k + 1
  {
    if n == 0 then [] else MapIdsFrom(last, n - 1) + [last + n]
  }

  /** Successive map ids are strictly increasing, hence pairwise distinct, and all exceed
      the value the counter started from (the largest authored id after seeding). */
  lemma MapIdsIncreasing(last: int, n: nat)
    ensures forall i, j :: 0 <= i < j < n ==> MapIdsFrom(last, n)[i] < MapIdsFrom(last, n)[j]
    ensures forall i :: 0 <= i < n ==> MapIdsFrom(last, n)[i] > last
  {
  }

  // ---------------------------------------------------------------------------------
  // The counters as written: 32-bit Java `int`s

  predicate IsInt32(x: int)
  {
    Int32Min <= x <= Int32Max
  }

  /** Two's-complement wrap of a mathematical integer into the `int` range. */
  function Wrap32(x: int): (r: int)
    ensures IsInt32(r)
    ensures IsInt32(x) ==> r == x
    ensures (x - r) % 0x1_0000_0000 == 0
  {
    (x - Int32Min) % 0x1_0000_0000 + Int32Min
  }

  /** `++mapIdSequence` on a Java `int`. */
  function JavaPreIncrement(x: int): (r: int)
    requires IsInt32(x)
    ensures x < Int32Max ==> r == x + 1
    ensures x == Int32Max ==> r == Int32Min
  {
    Wrap32(x + 1)
  }

  /** `--localIdSequence` on a Java `int`. */
  function JavaPreDecrement(x: int): (r: int)
    requires IsInt32(x)
    ensures x > Int32Min ==> r == x - 1
    ensures x == Int32Min ==> r == Int32Max
  {
    Wrap32(x - 1)
  }

  /** The ids `n` successive `getMapId` calls hand out, as written, after the `int` counter
      holds `last`. */
  function JavaMapIdsFrom(last: int, n: nat): (ids: seq<int>)
    requires IsInt32(last)
    ensures |ids| == n
    ensures forall k :: 0 <= k < n ==> IsInt32(ids[k])
  {
    if n == 0 then []
    else
      var before := JavaMapIdsFrom(last, n - 1);
      before + [JavaPreIncrement(if n == 1 then last else before[n - 2])]
  }

  /** As long as the counter stays below `Integer.MAX_VALUE`, the Java map ids are the
      unbounded ones. */
  lemma {:induction false} JavaMapIdsAgreeBelowMax(last: int, n: nat)
    requires IsInt32(last) && last + n <= Int32Max
    ensures JavaMapIdsFrom(last, n) == MapIdsFrom(last, n)
  {
    if n > 0 {
      JavaMapIdsAgreeBelowMax(last, n - 1);
    }
  }

  /** The call that takes the counter past `Integer.MAX_VALUE` answers `Integer.MIN_VALUE`:
      an id that is negative, lies in the local id space, and is below the seed and every
      earlier map id. */
  lemma {:induction false} JavaMapIdWraps(last: int, n: nat)
    requires IsInt32(last) && n >= 1 && last + n == Int32Max + 1
    ensures JavaMapIdsFrom(last, n)[n - 1] == Int32Min
    ensures JavaMapIdsFrom(last, n)[n - 1] <= last
    ensures forall k :: 0 <= k < n - 1 ==> JavaMapIdsFrom(last, n)[n - 1] < JavaMapIdsFrom(last, n)[k]
  {
    if n > 1 {
      JavaMapIdsAgreeBelowMax(last, n - 1);
      assert JavaMapIdsFrom(last, n - 1)[n - 2] == Int32Max;
    }
  }

  /** The ids the first `n` `getLocalMapId` calls hand out, as written, from the initial 0. */
  function JavaLocalIds(n: nat): (ids: seq<int>)
    ensures |ids| == n
    ensures forall k :: 0 <= k < n ==> IsInt32(ids[k])
  {
    if n == 0 then []
    else
      var before := JavaLocalIds(n - 1);
      before + [JavaPreDecrement(if n == 1 then 0 else before[n - 2])]
  }

  /** For the first 2^31 calls the Java local ids are `-1, -2, ...`, as the unbounded
      counter gives them. */
  lemma {:induction false} JavaLocalIdsAgreeAboveMin(n: nat)
    requires n <= -Int32Min
    ensures forall k :: 0 <= k < n ==> JavaLocalIds(n)[k] == -(k + 1)
  {
    if n > 0 {
      JavaLocalIdsAgreeAboveMin(n - 1);
    }
  }

  /** Call 2^31 + 1 answers `Integer.MAX_VALUE`: a positive local id, above every earlier one. */
  lemma {:induction false} JavaLocalIdWraps(n: nat)
    requires n == -Int32Min + 1
    ensures JavaLocalIds(n)[n - 1] == Int32Max
    ensures forall k :: 0 <= k < n - 1 ==> JavaLocalIds(n)[k] < JavaLocalIds(n)[n - 1]
  {
    JavaLocalIdsAgreeAboveMin(n - 1);
    assert JavaLocalIds(n - 1)[n - 2] == Int32Min;
  }
}

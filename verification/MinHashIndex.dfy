/** The banded index over antigen signatures (leukocyte_protocol.py, lines 136-192).

    A lookup inspects only the stored signatures that share a whole band with the query. The main
    results say when that is the same as inspecting every stored signature. */
module MinHashIndex {
  import opened Prelude
  import opened Fingerprint

  const BANDS: nat := 32

  datatype AntigenSignature = AntigenSignature(
    targetWeight: string,
    distortionType: string,
    signatureHash: string,
    minhashSignature: Signature)

  // ---------------------------------------------------------------------------
  // Bands
  // ---------------------------------------------------------------------------

  function BandKey(sig: Signature, rows: nat, band: nat): Signature
    requires |sig| == BANDS * rows && band < BANDS
  {
    BandFits(rows, band);
    sig[band * rows..(band + 1) * rows]
  }

  lemma BandFits(rows: nat, band: nat)
    requires band < BANDS
    ensures band * rows <= (band + 1) * rows <= BANDS * rows
  {
    assert (band + 1) * rows == band * rows + rows;
    assert BANDS * rows == (band + 1) * rows + (BANDS - 1 - band) * rows;
  }

  ghost predicate SharesBand(a: Signature, b: Signature, rows: nat)
    requires |a| == |b| == BANDS * rows
  {
    exists band | 0 <= band < BANDS :: BandKey(a, rows, band) == BandKey(b, rows, band)
  }

  /** How many of the first `n` bands two signatures have in common. */
  ghost function IntactBands(a: Signature, b: Signature, rows: nat, n: nat): (m: nat)
    requires |a| == |b| == BANDS * rows && n <= BANDS
    ensures m <= n
  {
    if n == 0 then 0
    else IntactBands(a, b, rows, n - 1) + if BandKey(a, rows, n - 1) == BandKey(b, rows, n - 1) then 1 else 0
  }

  lemma StretchAgrees(a: Signature, b: Signature, lo: nat, hi: nat)
    requires lo <= hi <= |a| == |b|
    ensures Agree(a[..hi], b[..hi]) <= Agree(a[..lo], b[..lo]) + hi - lo - if a[lo..hi] == b[lo..hi] then 0 else 1
  {
    assert a[..hi] == a[..lo] + a[lo..hi] && b[..hi] == b[..lo] + b[lo..hi];
    AgreeConcat(a[..lo], b[..lo], a[lo..hi], b[lo..hi]);
    FullAgreement(a[lo..hi], b[lo..hi]);
  }

  /** Every band without a common key uses up at least one differing slot. */
  lemma {:induction false} BrokenBandsNeedDifferences(a: Signature, b: Signature, rows: nat, n: nat)
    requires |a| == |b| == BANDS * rows && n <= BANDS
    ensures n * rows <= BANDS * rows
    ensures n - IntactBands(a, b, rows, n) <= n * rows - Agree(a[..n * rows], b[..n * rows])
  {
    if n > 0 {
      BandFits(rows, n - 1);
      BrokenBandsNeedDifferences(a, b, rows, n - 1);
      var lo, hi := (n - 1) * rows, n * rows;
      assert hi == lo + rows;
      assert BandKey(a, rows, n - 1) == a[lo..hi] && BandKey(b, rows, n - 1) == b[lo..hi];
      StretchAgrees(a, b, lo, hi);
    } else {
      assert a[..0 * rows] == [] && b[..0 * rows] == [];
    }
  }

  /** Pigeonhole: with `d` differing slots, at least `BANDS - d` bands survive intact. */
  lemma IntactBandsBound(a: Signature, b: Signature, rows: nat)
    requires |a| == |b| == BANDS * rows
    ensures IntactBands(a, b, rows, BANDS) >= BANDS - (|a| - Agree(a, b))
  {
    BrokenBandsNeedDifferences(a, b, rows, BANDS);
    assert a[..BANDS * rows] == a && b[..BANDS * rows] == b;
  }

  lemma {:induction false} IntactBandIsShared(a: Signature, b: Signature, rows: nat, n: nat)
    requires |a| == |b| == BANDS * rows && n <= BANDS
    ensures IntactBands(a, b, rows, n) > 0 ==> SharesBand(a, b, rows)
  {
    if n > 0 {
      IntactBandIsShared(a, b, rows, n - 1);
    }
  }

  // ---------------------------------------------------------------------------
  // When a banded lookup misses nothing
  // ---------------------------------------------------------------------------

  /** Every pair of signatures as similar as the threshold asks meets in some band. */
  ghost predicate RecallIsExact(threshold: real, rows: nat) {
    forall a: Signature, b: Signature ::
      |a| == |b| == BANDS * rows && a != [] && Jaccard(a, b) >= threshold ==> SharesBand(a, b, rows)
  }

  /** The similarity of two signatures that differ in one slot of every band. */
  function CriticalSimilarity(rows: nat): real
    requires rows > 0
  {
    1.0 - 1.0 / rows as real
  }

  lemma ScaledCritical(g: real, n: real, r: real)
    requires r > 0.0 && n == 32.0 * r
    ensures g / n > 1.0 - 1.0 / r <==> g > n - 32.0
  {
    QuotientAtMost(g, n, 1.0 - 1.0 / r);
    assert (1.0 / r) * r == 1.0;
    assert (1.0 - 1.0 / r) * n == n - 32.0 * ((1.0 / r) * r);
  }

  lemma SimilarEnoughSharesBand(a: Signature, b: Signature, rows: nat)
    requires rows > 0 && |a| == |b| == BANDS * rows
    requires Jaccard(a, b) > CriticalSimilarity(rows)
    ensures |a| - Agree(a, b) < BANDS
    ensures SharesBand(a, b, rows)
  {
    ScaledCritical(Agree(a, b) as real, |a| as real, rows as real);
    IntactBandsBound(a, b, rows);
    IntactBandIsShared(a, b, rows, BANDS);
  }

  function Zeros(n: nat): Signature {
    seq(n, _ => 0)
  }

  /** `n` bands of zeros, each with its first slot spoiled. */
  function Spoiled(rows: nat, n: nat): Signature
    requires rows > 0
  {
    if n == 0 then [] else Spoiled(rows, n - 1) + ([1] + Zeros(rows - 1))
  }

  lemma {:induction false} SpoiledShape(rows: nat, n: nat)
    requires rows > 0
    ensures |Spoiled(rows, n)| == n * rows
    ensures forall band | 0 <= band < n :: band * rows < n * rows && Spoiled(rows, n)[band * rows] == 1
  {
    if n > 0 {
      SpoiledShape(rows, n - 1);
      assert n * rows == (n - 1) * rows + rows;
    }
  }

  lemma {:induction false} SpoiledAgreement(rows: nat, n: nat)
    requires rows > 0
    ensures |Spoiled(rows, n)| == n * rows
    ensures Agree(Zeros(n * rows), Spoiled(rows, n)) == n * rows - n
  {
    if n > 0 {
      SpoiledAgreement(rows, n - 1);
      var head, block := Spoiled(rows, n - 1), [1] + Zeros(rows - 1);
      assert n * rows == (n - 1) * rows + rows;
      assert Zeros(n * rows) == Zeros((n - 1) * rows) + Zeros(rows);
      AgreeConcat(Zeros((n - 1) * rows), head, Zeros(rows), block);
      BlockAgreement(rows);
    }
  }

  lemma BlockAgreement(rows: nat)
    requires rows > 0
    ensures Agree(Zeros(rows), [1] + Zeros(rows - 1)) == rows - 1
  {
    assert Zeros(rows) == [0] + Zeros(rows - 1);
    AgreeConcat([0], [1], Zeros(rows - 1), Zeros(rows - 1));
    FullAgreement(Zeros(rows - 1), Zeros(rows - 1));
    assert Agree([0], [1]) == 0;
  }

  lemma CriticalQuotient(n: real, r: real)
    requires r > 0.0 && n == 32.0 * r
    ensures (n - 32.0) / n == 1.0 - 1.0 / r
  {
    QuotientAtMost(n - 32.0, n, 1.0 - 1.0 / r);
    QuotientAtLeast(n - 32.0, n, 1.0 - 1.0 / r);
    assert (1.0 / r) * r == 1.0;
    assert (1.0 - 1.0 / r) * n == n - 32.0 * ((1.0 / r) * r);
  }

  lemma SpoiledBandsDiffer(rows: nat, band: nat)
    requires rows > 0 && band < BANDS && |Spoiled(rows, BANDS)| == BANDS * rows
    requires band * rows < BANDS * rows && Spoiled(rows, BANDS)[band * rows] == 1
    ensures BandKey(Zeros(BANDS * rows), rows, band) != BandKey(Spoiled(rows, BANDS), rows, band)
  {
    BandFits(rows, band);
    assert (band + 1) * rows == band * rows + rows;
    assert BandKey(Zeros(BANDS * rows), rows, band)[0] == 0;
    assert BandKey(Spoiled(rows, BANDS), rows, band)[0] == 1;
  }

  /** At the critical similarity a pair can exist that no band reveals. */
  lemma SpoiledPairIsMissed(rows: nat)
    requires rows > 0
    ensures var a, b := Zeros(BANDS * rows), Spoiled(rows, BANDS);
            && |a| == |b| == BANDS * rows
            && Jaccard(a, b) == CriticalSimilarity(rows)
            && !SharesBand(a, b, rows)
  {
    SpoiledShape(rows, BANDS);
    SpoiledSimilarity(rows);
    forall band | 0 <= band < BANDS
      ensures BandKey(Zeros(BANDS * rows), rows, band) != BandKey(Spoiled(rows, BANDS), rows, band)
    {
      SpoiledBandsDiffer(rows, band);
    }
  }

  lemma SpoiledSimilarity(rows: nat)
    requires rows > 0
    ensures Jaccard(Zeros(BANDS * rows), Spoiled(rows, BANDS)) == CriticalSimilarity(rows)
  {
    var a, b := Zeros(BANDS * rows), Spoiled(rows, BANDS);
    SpoiledAgreement(rows, BANDS);
    CriticalQuotient(|a| as real, rows as real);
    assert a != [] && b != [];
  }

  /** The banded lookup loses no match, whatever is stored and asked, exactly above the critical similarity. */
  lemma RecallExactIff(threshold: real, rows: nat)
    requires rows > 0
    ensures RecallIsExact(threshold, rows) <==> threshold > CriticalSimilarity(rows)
  {
    if threshold > CriticalSimilarity(rows) {
      forall a: Signature, b: Signature |
        |a| == |b| == BANDS * rows && a != [] && Jaccard(a, b) >= threshold
        ensures SharesBand(a, b, rows)
      {
        SimilarEnoughSharesBand(a, b, rows);
      }
    } else {
      SpoiledPairIsMissed(rows);
    }
  }

  // ---------------------------------------------------------------------------
  // The index
  // ---------------------------------------------------------------------------

  predicate Indexable(sig: Signature, numPerm: nat) {
    sig != [] && |sig| == numPerm
  }

  /** What a search over `pool` must return: nothing when no member reaches the threshold, otherwise the
      antigen of some most similar member. */
  ghost predicate IsBest(entries: map<Signature, AntigenSignature>, pool: set<Signature>, query: Signature,
                         threshold: real, found: Option<AntigenSignature>)
    requires pool <= entries.Keys
  {
    match found
    case None => forall s :: s in pool ==> Jaccard(query, s) < threshold
    case Some(antigen) =>
      exists s ::
        && s in pool
        && entries[s] == antigen
        && Jaccard(query, s) >= threshold
        && forall s' :: s' in pool ==> Jaccard(query, s') <= Jaccard(query, s)
  }

  /** Searching a part of the store that holds every match is searching the whole store. */
  lemma BestInPartIsBest(entries: map<Signature, AntigenSignature>, pool: set<Signature>, query: Signature,
                         threshold: real, found: Option<AntigenSignature>)
    requires pool <= entries.Keys
    requires forall s :: s in entries && Jaccard(query, s) >= threshold ==> s in pool
    requires IsBest(entries, pool, query, threshold, found)
    ensures IsBest(entries, entries.Keys, query, threshold, found)
  {
    if found.Some? {
      var s :| && s in pool && entries[s] == found.value && Jaccard(query, s) >= threshold
               && forall s' :: s' in pool ==> Jaccard(query, s') <= Jaccard(query, s);
      assert forall s' :: s' in entries.Keys ==> Jaccard(query, s') <= Jaccard(query, s);
    }
  }

  /** The stored signatures that share a band with the query. */
  ghost function Sharing(entries: map<Signature, AntigenSignature>, query: Signature, rows: nat): set<Signature>
    requires |query| == BANDS * rows && forall s :: s in entries ==> |s| == BANDS * rows
  {
    set s | s in entries && SharesBand(query, s, rows)
  }

  /** Whatever is stored and asked, the best among the candidates is the best of all. */
  ghost predicate LookupIsExact(threshold: real, rows: nat) {
    forall entries: map<Signature, AntigenSignature>, query: Signature, found ::
      && query != [] && |query| == BANDS * rows
      && (forall s :: s in entries ==> |s| == BANDS * rows)
      && IsBest(entries, Sharing(entries, query, rows), query, threshold, found)
      ==> IsBest(entries, entries.Keys, query, threshold, found)
  }

  /** At the critical similarity and below, one stored signature can be missed by its lookup. */
  lemma LookupMisses(threshold: real, rows: nat) returns (entries: map<Signature, AntigenSignature>, query: Signature)
    requires rows > 0 && threshold <= CriticalSimilarity(rows)
    ensures query != [] && |query| == BANDS * rows && forall s :: s in entries ==> |s| == BANDS * rows
    ensures IsBest(entries, Sharing(entries, query, rows), query, threshold, None)
    ensures !IsBest(entries, entries.Keys, query, threshold, None)
  {
    var stored := Spoiled(rows, BANDS);
    query := Zeros(BANDS * rows);
    SpoiledPairIsMissed(rows);
    entries := map[stored := AntigenSignature("", "", "", stored)];
    assert stored in entries.Keys;
  }

  lemma LookupFinds(threshold: real, rows: nat, entries: map<Signature, AntigenSignature>, query: Signature,
                    found: Option<AntigenSignature>)
    requires rows > 0 && threshold > CriticalSimilarity(rows)
    requires query != [] && |query| == BANDS * rows && forall s :: s in entries ==> |s| == BANDS * rows
    requires IsBest(entries, Sharing(entries, query, rows), query, threshold, found)
    ensures IsBest(entries, entries.Keys, query, threshold, found)
  {
    RecallExactIff(threshold, rows);
    BestInPartIsBest(entries, Sharing(entries, query, rows), query, threshold, found);
  }

  /** The lookup answers as a scan of everything stored, for every store and query, exactly above the critical
      similarity. */
  lemma LookupExactIff(threshold: real, rows: nat)
    requires rows > 0
    ensures LookupIsExact(threshold, rows) <==> threshold > CriticalSimilarity(rows)
  {
    if threshold > CriticalSimilarity(rows) {
      forall entries: map<Signature, AntigenSignature>, query: Signature, found |
        && query != [] && |query| == BANDS * rows
        && (forall s :: s in entries ==> |s| == BANDS * rows)
        && IsBest(entries, Sharing(entries, query, rows), query, threshold, found)
        ensures IsBest(entries, entries.Keys, query, threshold, found)
      {
        LookupFinds(threshold, rows, entries, query, found);
      }
    } else {
      var entries, query := LookupMisses(threshold, rows);
    }
  }

  /** The deployed parameters: 0.80 leaves at least seven bands intact and answers exactly, 0.75 does not. */
  lemma DeployedRecall(a: Signature, b: Signature)
    requires |a| == |b| == NUM_PERM
    ensures Jaccard(a, b) >= FUZZY_THRESHOLD ==> IntactBands(a, b, NUM_PERM / BANDS, BANDS) >= 7
    ensures LookupIsExact(FUZZY_THRESHOLD, NUM_PERM / BANDS)
    ensures !LookupIsExact(0.75, NUM_PERM / BANDS)
  {
    IntactBandsBound(a, b, 4);
    LookupExactIff(0.80, 4);
    LookupExactIff(0.75, 4);
  }

  function Put(entries: map<Signature, AntigenSignature>, numPerm: nat, sig: Signature, antigen: AntigenSignature)
    : map<Signature, AntigenSignature>
  {
    if Indexable(sig, numPerm) then entries[sig := antigen] else entries
  }

  type Buckets = map<Signature, set<Signature>>

  /** Each bucket of a band is exactly the set of stored signatures with that band key. */
  ghost predicate IsBucketed(buckets: Buckets, stored: set<Signature>, rows: nat, band: nat)
    requires band < BANDS && forall s :: s in stored ==> |s| == BANDS * rows
  {
    && (forall s :: s in stored ==> s in Bucket(buckets, BandKey(s, rows, band)))
    && (forall key, s :: s in Bucket(buckets, key) ==> s in stored && BandKey(s, rows, band) == key)
  }

  function Bucket(buckets: Buckets, key: Signature): set<Signature> {
    if key in buckets then buckets[key] else {}
  }

  function AddToBucket(buckets: Buckets, key: Signature, sig: Signature): Buckets {
    buckets[key := Bucket(buckets, key) + {sig}]
  }

  lemma AddKeepsBuckets(buckets: Buckets, stored: set<Signature>, sig: Signature, rows: nat, band: nat)
    requires band < BANDS && |sig| == BANDS * rows && forall s :: s in stored ==> |s| == BANDS * rows
    requires IsBucketed(buckets, stored, rows, band)
    ensures IsBucketed(AddToBucket(buckets, BandKey(sig, rows, band), sig), stored + {sig}, rows, band)
  {
    var key := BandKey(sig, rows, band);
    var after := AddToBucket(buckets, key, sig);
    assert forall k :: Bucket(after, k) == if k == key then Bucket(buckets, k) + {sig} else Bucket(buckets, k);
  }

  lemma BucketIsMatches(buckets: Buckets, stored: set<Signature>, query: Signature, rows: nat, band: nat)
    requires band < BANDS && |query| == BANDS * rows && forall s :: s in stored ==> |s| == BANDS * rows
    requires IsBucketed(buckets, stored, rows, band)
    ensures Bucket(buckets, BandKey(query, rows, band))
         == set s | s in stored && BandKey(s, rows, band) == BandKey(query, rows, band)
  {
  }

  class MinHashLSH {
    const threshold: real
    const numPerm: nat
    const rows: nat
    var entries: map<Signature, AntigenSignature>
    var bands: seq<map<Signature, set<Signature>>>

    ghost predicate Valid()
      reads this
    {
      && numPerm == BANDS * rows
      && |bands| == BANDS
      && (forall s :: s in entries ==> Indexable(s, numPerm))
      && (forall b :: 0 <= b < BANDS ==> IsBucketed(bands[b], entries.Keys, rows, b))
    }

    constructor (threshold: real, numPerm: nat)
      requires numPerm % BANDS == 0
      ensures Valid() && entries == map[]
      ensures this.threshold == threshold && this.numPerm == numPerm
    {
      this.threshold := threshold;
      this.numPerm := numPerm;
      this.rows := numPerm / BANDS;
      this.entries := map[];
      this.bands := seq(BANDS, _ => map[]);
    }

    /** The public way to build an index; a slot count that does not divide into bands is refused. */
    static method Make(threshold: real, numPerm: nat) returns (r: Result<MinHashLSH, string>)
      ensures r.Err? <==> numPerm % BANDS != 0
      ensures r.Ok? ==> fresh(r.value) && r.value.Valid() && r.value.entries == map[]
      ensures r.Ok? ==> r.value.threshold == threshold && r.value.numPerm == numPerm
    {
      if numPerm % BANDS != 0 {
        return Err("num_perm must be divisible by BANDS");
      }
      var index := new MinHashLSH(threshold, numPerm);
      return Ok(index);
    }

    method Add(sig: Signature, antigen: AntigenSignature)
      requires Valid()
      modifies this
      ensures Valid()
      ensures entries == Put(old(entries), numPerm, sig, antigen)
    {
      if !Indexable(sig, numPerm) {
        return;
      }
      entries := entries[sig := antigen];
      for i := 0 to BANDS
        invariant |bands| == BANDS
        invariant entries == old(entries)[sig := antigen]
        invariant forall b :: i <= b < BANDS ==> bands[b] == old(bands)[b]
        invariant forall b :: 0 <= b < i ==> IsBucketed(bands[b], entries.Keys, rows, b)
      {
        AddKeepsBuckets(bands[i], old(entries).Keys, sig, rows, i);
        assert entries.Keys == old(entries).Keys + {sig};
        bands := bands[i := AddToBucket(bands[i], BandKey(sig, rows, i), sig)];
      }
    }

    /** The stored signatures that share a band with the query. */
    ghost function Candidates(query: Signature): set<Signature>
      requires Valid() && Indexable(query, numPerm)
      reads this
    {
      Sharing(entries, query, rows)
    }

    method CollectCandidates(query: Signature) returns (candidates: set<Signature>)
      requires Valid() && Indexable(query, numPerm)
      ensures candidates == Candidates(query)
    {
      candidates := {};
      for i := 0 to BANDS
        invariant forall s :: s in candidates ==> s in entries && SharesBand(query, s, rows)
        invariant forall b, s :: 0 <= b < i && s in entries && BandKey(s, rows, b) == BandKey(query, rows, b) ==>
                    s in candidates
      {
        var bucket := Bucket(bands[i], BandKey(query, rows, i));
        BucketIsMatches(bands[i], entries.Keys, query, rows, i);
        candidates := candidates + bucket;
      }
    }

    /** The search agrees with a search of its candidates, and, above the critical similarity, with a
        scan of everything stored. */
    method FindSimilar(query: Signature) returns (found: Option<AntigenSignature>)
      requires Valid()
      ensures !Indexable(query, numPerm) ==> found == None
      ensures Indexable(query, numPerm) ==> IsBest(entries, Candidates(query), query, threshold, found)
      ensures Indexable(query, numPerm) && threshold > CriticalSimilarity(rows) ==>
                IsBest(entries, entries.Keys, query, threshold, found)
    {
      if !Indexable(query, numPerm) {
        return None;
      }
      var candidates := CollectCandidates(query);
      var best: Option<Signature> := None;
      var bestSim := threshold;
      var rest := candidates;
      while rest != {}
        invariant rest <= candidates
        invariant best.None? ==> bestSim == threshold
        invariant best.None? ==> forall s :: s in candidates - rest ==> Jaccard(query, s) < threshold
        invariant best.Some? ==> best.value in candidates && bestSim == Jaccard(query, best.value) >= threshold
        invariant best.Some? ==> forall s :: s in candidates - rest ==> Jaccard(query, s) <= bestSim
        decreases rest
      {
        var candidate :| candidate in rest;
        var sim := Jaccard(query, candidate);
        if sim >= threshold && sim >= bestSim {
          best, bestSim := Some(candidate), sim;
        }
        rest := rest - {candidate};
      }
      found := if best.Some? then Some(entries[best.value]) else None;
      if threshold > CriticalSimilarity(rows) {
        LookupFinds(threshold, rows, entries, query, found);
      }
    }
  }
}

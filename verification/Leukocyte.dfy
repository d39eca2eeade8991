/** The guard layer of a node (leukocyte_protocol.py, lines 195-273): exact and fuzzy lookup of
    registered antigens in front of the weights.

    Python leaves the iteration order of a set open, so when two stored signatures are equally close
    the code may answer with either. Decisions are therefore a relation (`MayDecide`), and the
    theorems speak of the decisions forced whatever the order (`MustBlock`, `MustPass`). */
module Leukocyte {
  import opened Prelude
  import opened Fingerprint
  import opened MinHashIndex

  /** What an agent knows: antigens by payload hash, and antigens by signature. */
  datatype Immunity = Immunity(blacklist: map<string, AntigenSignature>,
                               entries: map<Signature, AntigenSignature>)

  const NAIVE := Immunity(map[], map[])

  function Register(im: Immunity, antigen: AntigenSignature): Immunity {
    Immunity(im.blacklist[antigen.signatureHash := antigen],
             Put(im.entries, NUM_PERM, antigen.minhashSignature, antigen))
  }

  function RegisterAll(im: Immunity, antigens: seq<AntigenSignature>): Immunity {
    if antigens == [] then im
    else Register(RegisterAll(im, antigens[..|antigens| - 1]), antigens[|antigens| - 1])
  }

  /** An antigen as `register_antigen` callers build it: fingerprinted for weight `weight`. */
  ghost function Vaccine(env: Hashing, weight: string, distortion: string, payload: string): AntigenSignature {
    AntigenSignature(weight, distortion, env.sha256(payload), Print(env, payload))
  }

  ghost function Print(env: Hashing, payload: string): Signature {
    MinhashOf(env, payload, SHINGLE_K, NUM_PERM)
  }

  ghost predicate ExactHit(env: Hashing, im: Immunity, weight: string, payload: string) {
    var h := env.sha256(payload);
    h in im.blacklist && im.blacklist[h].targetWeight == weight
  }

  /** `found` is a possible answer of the fuzzy index: a scan of everything stored. */
  ghost predicate MayFind(im: Immunity, query: Signature, found: Option<AntigenSignature>) {
    if Indexable(query, NUM_PERM) then IsBest(im.entries, im.entries.Keys, query, FUZZY_THRESHOLD, found)
    else found == None
  }

  ghost predicate MayDecide(env: Hashing, im: Immunity, weight: string, payload: string, blocked: bool) {
    if ExactHit(env, im, weight, payload) then blocked
    else exists found ::
      MayFind(im, Print(env, payload), found) && blocked == (found.Some? && found.value.targetWeight == weight)
  }

  ghost predicate MustBlock(env: Hashing, im: Immunity, weight: string, payload: string) {
    !MayDecide(env, im, weight, payload, false)
  }

  ghost predicate MustPass(env: Hashing, im: Immunity, weight: string, payload: string) {
    !MayDecide(env, im, weight, payload, true)
  }

  // ---------------------------------------------------------------------------
  // The deployed fingerprint in plain terms
  // ---------------------------------------------------------------------------

  /** A payload's fingerprint sees every four characters in a row of its canonical text, in 128 slots. */
  lemma PrintSeesFours(env: Hashing, payload: string)
    ensures Summarizes(env, Canonicalize(env, payload), 4, 128, Print(env, payload))
  {
    SignatureIsSummary(env, payload, 4, 128, Print(env, payload));
  }

  /** Two fingerprints are near enough if and only if they agree in at least 103 of the 128 slots. */
  lemma NearInSlots(a: Signature, b: Signature)
    requires Indexable(a, NUM_PERM) && Indexable(b, NUM_PERM)
    ensures Jaccard(a, b) >= FUZZY_THRESHOLD <==> |set i: nat | i < 128 && a[i] == b[i]| >= 103
  {
    AgreeInSlots(a, b);
    QuotientAtLeast(Agree(a, b) as real, 128.0, 0.8);
    assert (set i: nat | i < 128 && a[i] == b[i]) == AgreeingSlots(a, b);
  }

  function AgreeingSlots(a: Signature, b: Signature): set<nat>
    requires |a| == |b|
  {
    set i: nat | i < |a| && a[i] == b[i]
  }

  lemma {:induction false} AgreeInSlots(a: Signature, b: Signature)
    requires |a| == |b|
    ensures Agree(a, b) == |AgreeingSlots(a, b)|
  {
    if a != [] {
      var n := |a| - 1;
      AgreeInSlots(a[..n], b[..n]);
      var rest := AgreeingSlots(a[..n], b[..n]);
      assert AgreeingSlots(a, b) == rest + if a[n] == b[n] then {n} else {};
    }
  }

  // ---------------------------------------------------------------------------
  // The search always has an answer
  // ---------------------------------------------------------------------------

  lemma {:induction false} MostSimilar(pool: set<Signature>, query: Signature) returns (best: Signature)
    requires pool != {}
    ensures best in pool && forall s :: s in pool ==> Jaccard(query, s) <= Jaccard(query, best)
    decreases |pool|
  {
    var s :| s in pool;
    if pool == {s} {
      best := s;
    } else {
      var rest := pool - {s};
      assert rest != {} && |rest| < |pool|;
      best := MostSimilar(rest, query);
      best := if Jaccard(query, best) < Jaccard(query, s) then s else best;
    }
  }

  lemma SearchAnswers(im: Immunity, query: Signature) returns (found: Option<AntigenSignature>)
    ensures MayFind(im, query, found)
  {
    if !Indexable(query, NUM_PERM) || im.entries.Keys == {} {
      found := None;
    } else {
      var best := MostSimilar(im.entries.Keys, query);
      found := if Jaccard(query, best) >= FUZZY_THRESHOLD then Some(im.entries[best]) else None;
    }
  }

  /** Some decision is always possible, so being forced to block excludes being forced to pass. */
  lemma DecisionExists(env: Hashing, im: Immunity, weight: string, payload: string)
    ensures MustBlock(env, im, weight, payload) ==> MayDecide(env, im, weight, payload, true)
    ensures MustPass(env, im, weight, payload) ==> MayDecide(env, im, weight, payload, false)
  {
    if !ExactHit(env, im, weight, payload) {
      var found := SearchAnswers(im, Print(env, payload));
      assert MayDecide(env, im, weight, payload, found.Some? && found.value.targetWeight == weight);
    }
  }

  // ---------------------------------------------------------------------------
  // Vaccination covers every mechanical variant
  // ---------------------------------------------------------------------------

  /** Any payload with a stored antigen's very signature can only find that antigen. */
  lemma StoredSignatureIsFound(im: Immunity, query: Signature, found: Option<AntigenSignature>)
    requires Indexable(query, NUM_PERM) && query in im.entries
    requires MayFind(im, query, found)
    ensures found == Some(im.entries[query])
  {
    JaccardBounds(query, query);
    if found.Some? {
      var s :| s in im.entries && im.entries[s] == found.value
               && forall s' :: s' in im.entries ==> Jaccard(query, s') <= Jaccard(query, s);
      JaccardBounds(query, s);
    }
  }

  /** Once the fingerprint of `p` is the newest antigen with its signature and hash, every `q` with the
      same non-empty canonical text is blocked for its weight and, unless `q` itself is blacklisted for
      it, passes for any other; registrations for other weights stored under other signatures are no obstacle. */
  lemma VariantsAreBlocked(env: Hashing, im: Immunity, weight: string, p: string, q: string)
    requires Canonicalize(env, p) == Canonicalize(env, q) != ""
    requires Print(env, p) in im.entries && im.entries[Print(env, p)].targetWeight == weight
    ensures MustBlock(env, im, weight, q)
    ensures forall other :: other != weight && !ExactHit(env, im, other, q) ==> MustPass(env, im, other, q)
  {
    ShinglesEmptyIffNoText(Canonicalize(env, q), SHINGLE_K);
    var query := Print(env, q);
    assert query == Print(env, p) && Indexable(query, NUM_PERM);
    forall found | MayFind(im, query, found)
      ensures found == Some(im.entries[query])
    {
      StoredSignatureIsFound(im, query, found);
    }
  }

  /** Vaccination against `p` protects at once against everything that folds to the same text. */
  lemma VaccinationBlocksVariants(env: Hashing, im: Immunity, weight: string, distortion: string, p: string, q: string)
    requires Canonicalize(env, p) == Canonicalize(env, q) != ""
    ensures MustBlock(env, Register(im, Vaccine(env, weight, distortion, p)), weight, q)
  {
    ShinglesEmptyIffNoText(Canonicalize(env, p), SHINGLE_K);
    VariantsAreBlocked(env, Register(im, Vaccine(env, weight, distortion, p)), weight, p, q);
  }

  // ---------------------------------------------------------------------------
  // Registering for a weight never weakens the protection of that weight
  // ---------------------------------------------------------------------------

  /** If every best match before the registration targets the weight, so does every best match after it. */
  lemma RegisterKeepsMatches(im: Immunity, antigen: AntigenSignature, query: Signature, found: Option<AntigenSignature>)
    requires forall f :: MayFind(im, query, f) ==> f.Some? && f.value.targetWeight == antigen.targetWeight
    requires MayFind(Register(im, antigen), query, found)
    ensures found.Some? && found.value.targetWeight == antigen.targetWeight
  {
    var before := SearchAnswers(im, query);
    assert Indexable(query, NUM_PERM);
    var after := Register(im, antigen).entries;
    var b :| b in im.entries && Jaccard(query, b) >= FUZZY_THRESHOLD
             && forall s' :: s' in im.entries ==> Jaccard(query, s') <= Jaccard(query, b);
    assert b in after;
    var s :| s in after && after[s] == found.value && Jaccard(query, s) >= FUZZY_THRESHOLD
             && forall s' :: s' in after ==> Jaccard(query, s') <= Jaccard(query, s);
    if after[s] != antigen {
      assert s in im.entries && im.entries[s] == after[s];
      assert forall s' :: s' in im.entries ==> s' in after;
      assert IsBest(im.entries, im.entries.Keys, query, FUZZY_THRESHOLD, Some(im.entries[s]));
      assert MayFind(im, query, Some(im.entries[s]));
    }
  }

  lemma RegisterNeverUnblocks(env: Hashing, im: Immunity, antigen: AntigenSignature, payload: string)
    requires MustBlock(env, im, antigen.targetWeight, payload)
    ensures MustBlock(env, Register(im, antigen), antigen.targetWeight, payload)
  {
    var weight := antigen.targetWeight;
    if ExactHit(env, im, weight, payload) {
      assert ExactHit(env, Register(im, antigen), weight, payload);
    } else {
      var query := Print(env, payload);
      forall f | MayFind(im, query, f)
        ensures f.Some? && f.value.targetWeight == weight
      {
        assert MayDecide(env, im, weight, payload, f.Some? && f.value.targetWeight == weight);
      }
      forall found | MayFind(Register(im, antigen), query, found)
        ensures found.Some? && found.value.targetWeight == weight
      {
        RegisterKeepsMatches(im, antigen, query, found);
      }
    }
  }

  // ---------------------------------------------------------------------------
  // Exactly when a registration for another weight leaves the protection standing
  // ---------------------------------------------------------------------------

  /** Every possible answer of the fuzzy index is an antigen for the weight. */
  ghost predicate FindsOnly(im: Immunity, query: Signature, weight: string) {
    forall found :: MayFind(im, query, found) ==> found.Some? && found.value.targetWeight == weight
  }

  /** The new antigen cannot win the search: it is not indexed, or something stored is strictly closer. */
  ghost predicate Outdone(im: Immunity, query: Signature, antigen: AntigenSignature) {
    || !Indexable(antigen.minhashSignature, NUM_PERM)
    || exists s :: s in im.entries && Jaccard(query, s) > Jaccard(query, antigen.minhashSignature)
  }

  /** An antigen that is not outdone is a possible answer, or there is none. */
  lemma NewcomerMayWin(im: Immunity, query: Signature, antigen: AntigenSignature)
    requires !Outdone(im, query, antigen)
    ensures MayFind(Register(im, antigen), query, Some(antigen)) || MayFind(Register(im, antigen), query, None)
  {
    var after := Register(im, antigen).entries;
    assert antigen.minhashSignature in after && after[antigen.minhashSignature] == antigen;
  }

  /** If the newcomer is outdone, the search answers as before. */
  lemma OutdoneChangesNothing(im: Immunity, query: Signature, antigen: AntigenSignature, found: Option<AntigenSignature>)
    requires Outdone(im, query, antigen)
    ensures MayFind(Register(im, antigen), query, found) <==> MayFind(im, query, found)
  {
    var after := Register(im, antigen).entries;
    if Indexable(antigen.minhashSignature, NUM_PERM) && Indexable(query, NUM_PERM) {
      var closer :| closer in im.entries && Jaccard(query, closer) > Jaccard(query, antigen.minhashSignature);
      assert closer in after;
      assert forall s :: s in im.entries ==> s in after;
      assert forall s :: s in after && s != antigen.minhashSignature ==> s in im.entries && after[s] == im.entries[s];
      OutdoneBothWays(im.entries, after, antigen.minhashSignature, closer, query, found);
    }
  }

  /** Stores that differ only in an entry that something else outdoes have the same best answers. */
  lemma OutdoneBothWays(entries: map<Signature, AntigenSignature>, after: map<Signature, AntigenSignature>,
                        sig: Signature, closer: Signature, query: Signature, found: Option<AntigenSignature>)
    requires closer in entries && closer in after && Jaccard(query, closer) > Jaccard(query, sig)
    requires forall s :: s in entries ==> s in after
    requires forall s :: s in after && s != sig ==> s in entries && after[s] == entries[s]
    ensures IsBest(after, after.Keys, query, FUZZY_THRESHOLD, found)
       <==> IsBest(entries, entries.Keys, query, FUZZY_THRESHOLD, found)
  {
    if IsBest(entries, entries.Keys, query, FUZZY_THRESHOLD, found) {
      if found.Some? {
        var s :| s in entries && entries[s] == found.value && Jaccard(query, s) >= FUZZY_THRESHOLD
                 && forall t :: t in entries ==> Jaccard(query, t) <= Jaccard(query, s);
        assert s != sig && s in after && after[s] == found.value;
      } else {
        assert forall t :: t in after ==> Jaccard(query, t) < FUZZY_THRESHOLD;
      }
    }
    if IsBest(after, after.Keys, query, FUZZY_THRESHOLD, found) && found.Some? {
      var s :| s in after && after[s] == found.value && Jaccard(query, s) >= FUZZY_THRESHOLD
               && forall t :: t in after ==> Jaccard(query, t) <= Jaccard(query, s);
      assert s != sig && s in entries && entries[s] == found.value;
    }
  }

  lemma FuzzySurvivesIff(im: Immunity, antigen: AntigenSignature, query: Signature, weight: string)
    requires antigen.targetWeight != weight
    ensures FindsOnly(Register(im, antigen), query, weight) <==>
            FindsOnly(im, query, weight) && Outdone(im, query, antigen)
  {
    if Outdone(im, query, antigen) {
      forall found
        ensures MayFind(Register(im, antigen), query, found) <==> MayFind(im, query, found)
      {
        OutdoneChangesNothing(im, query, antigen, found);
      }
    } else {
      NewcomerMayWin(im, query, antigen);
    }
  }

  lemma MustBlockMeans(env: Hashing, im: Immunity, weight: string, payload: string)
    ensures MustBlock(env, im, weight, payload) <==>
            ExactHit(env, im, weight, payload) || FindsOnly(im, Print(env, payload), weight)
  {
    if !ExactHit(env, im, weight, payload) && !FindsOnly(im, Print(env, payload), weight) {
      var found :| MayFind(im, Print(env, payload), found) && !(found.Some? && found.value.targetWeight == weight);
      assert MayDecide(env, im, weight, payload, false);
    }
  }

  /** A payload blocked for a weight stays blocked through a registration for another weight if and only if its own
      hash was blacklisted and is not the one registered, or the fuzzy index alone blocked it and the new antigen
      cannot win that search. */
  lemma OtherWeightSparesIff(env: Hashing, im: Immunity, antigen: AntigenSignature, weight: string, payload: string)
    requires MustBlock(env, im, weight, payload) && antigen.targetWeight != weight
    ensures MustBlock(env, Register(im, antigen), weight, payload) <==>
            || (ExactHit(env, im, weight, payload) && antigen.signatureHash != env.sha256(payload))
            || (FindsOnly(im, Print(env, payload), weight) && Outdone(im, Print(env, payload), antigen))
  {
    MustBlockMeans(env, Register(im, antigen), weight, payload);
    FuzzySurvivesIff(im, antigen, Print(env, payload), weight);
  }

  /** Across weights the protection can be lost: an antigen with the same fingerprints but another
      target shadows the earlier one, exactly and fuzzily. */
  lemma OtherWeightShadows(env: Hashing, weight: string, other: string, distortion: string, p: string)
    requires weight != other && Canonicalize(env, p) != ""
    ensures var vaccinated := Register(NAIVE, Vaccine(env, weight, distortion, p));
            && MustBlock(env, vaccinated, weight, p)
            && MustPass(env, Register(vaccinated, Vaccine(env, other, distortion, p)), weight, p)
  {
    VaccinationBlocksVariants(env, NAIVE, weight, distortion, p, p);
    var shadowed := Register(Register(NAIVE, Vaccine(env, weight, distortion, p)), Vaccine(env, other, distortion, p));
    ShinglesEmptyIffNoText(Canonicalize(env, p), SHINGLE_K);
    VariantsAreBlocked(env, shadowed, other, p, p);
    assert !ExactHit(env, shadowed, weight, p);
  }

  // ---------------------------------------------------------------------------
  // Convergence: with one target weight, decisions depend on the set of antigens only
  // ---------------------------------------------------------------------------

  ghost predicate AllTarget(antigens: set<AntigenSignature>, weight: string) {
    forall a :: a in antigens ==> a.targetWeight == weight
  }

  /** The two kinds of fingerprint an antigen set offers, which is all a one-weight decision reads. */
  ghost function Hashes(antigens: set<AntigenSignature>): set<string> {
    set a | a in antigens :: a.signatureHash
  }

  ghost function Prints(antigens: set<AntigenSignature>): set<Signature> {
    set a | a in antigens && Indexable(a.minhashSignature, NUM_PERM) :: a.minhashSignature
  }

  ghost function Received(antigens: seq<AntigenSignature>): set<AntigenSignature> {
    set a | a in antigens
  }

  /** After any deliveries: which fingerprints are stored, and that each holds a received antigen with it. */
  lemma {:induction false} DeliveredState(antigens: seq<AntigenSignature>)
    ensures var im, got := RegisterAll(NAIVE, antigens), Received(antigens);
            && im.blacklist.Keys == Hashes(got) && im.entries.Keys == Prints(got)
            && (forall h :: h in im.blacklist ==> im.blacklist[h] in got && im.blacklist[h].signatureHash == h)
            && (forall s :: s in im.entries ==> im.entries[s] in got && im.entries[s].minhashSignature == s)
  {
    if antigens != [] {
      var init, last := antigens[..|antigens| - 1], antigens[|antigens| - 1];
      DeliveredState(init);
      assert antigens == init + [last];
      assert Received(antigens) == Received(init) + {last};
      assert Hashes(Received(antigens)) == Hashes(Received(init)) + {last.signatureHash};
      if Indexable(last.minhashSignature, NUM_PERM) {
        assert Prints(Received(antigens)) == Prints(Received(init)) + {last.minhashSignature};
      } else {
        assert Prints(Received(antigens)) == Prints(Received(init));
      }
    } else {
      assert Received([]) == {};
    }
  }

  /** The decision a set of one-weight antigens dictates, without any notion of order. */
  ghost predicate Dictates(env: Hashing, antigens: set<AntigenSignature>, target: string, weight: string, payload: string) {
    && weight == target
    && (env.sha256(payload) in Hashes(antigens)
        || exists s :: s in Prints(antigens) && Jaccard(Print(env, payload), s) >= FUZZY_THRESHOLD)
  }

  /** Every decision after any deliveries, in any order and with any repetitions, is the dictated one. */
  lemma DecisionsFollowTheSet(env: Hashing, antigens: seq<AntigenSignature>, target: string,
                              weight: string, payload: string, blocked: bool)
    requires AllTarget(Received(antigens), target)
    ensures MayDecide(env, RegisterAll(NAIVE, antigens), weight, payload, blocked)
       <==> blocked == Dictates(env, Received(antigens), target, weight, payload)
  {
    var im, got := RegisterAll(NAIVE, antigens), Received(antigens);
    DeliveredState(antigens);
    assert ExactHit(env, im, weight, payload) <==> weight == target && env.sha256(payload) in Hashes(got);
    if !ExactHit(env, im, weight, payload) {
      var query := Print(env, payload);
      forall found | MayFind(im, query, found)
        ensures (found.Some? && found.value.targetWeight == weight) == Dictates(env, got, target, weight, payload)
      {
        if !Indexable(query, NUM_PERM) {
          assert forall s :: s in Prints(got) ==> Jaccard(query, s) == 0.0;
        }
      }
      var found := SearchAnswers(im, query);
    }
  }

  /** Two nodes that received the same antigens, however ordered and duplicated, decide alike. */
  lemma VaccinationConverges(env: Hashing, xs: seq<AntigenSignature>, ys: seq<AntigenSignature>, target: string,
                             weight: string, payload: string, blocked: bool)
    requires Received(xs) == Received(ys) && AllTarget(Received(xs), target)
    ensures MayDecide(env, RegisterAll(NAIVE, xs), weight, payload, blocked)
       <==> MayDecide(env, RegisterAll(NAIVE, ys), weight, payload, blocked)
    ensures MayDecide(env, RegisterAll(NAIVE, xs), weight, payload, blocked)
       ==> !MayDecide(env, RegisterAll(NAIVE, ys), weight, payload, !blocked)
  {
    DecisionsFollowTheSet(env, xs, target, weight, payload, blocked);
    DecisionsFollowTheSet(env, ys, target, weight, payload, blocked);
    DecisionsFollowTheSet(env, ys, target, weight, payload, !blocked);
  }

  // ---------------------------------------------------------------------------
  // The agent
  // ---------------------------------------------------------------------------

  class LeukocyteAgent {
    const nodeId: string
    const env: Hashing
    const fuzzyIndex: MinHashLSH
    var antigenBlacklist: map<string, AntigenSignature>
    var blockedAttacksCount: nat

    ghost predicate Valid()
      reads this, fuzzyIndex
    {
      fuzzyIndex.Valid() && fuzzyIndex.threshold == FUZZY_THRESHOLD && fuzzyIndex.numPerm == NUM_PERM
    }

    ghost function View(): Immunity
      reads this, fuzzyIndex
    {
      Immunity(antigenBlacklist, fuzzyIndex.entries)
    }

    constructor (nodeId: string, env: Hashing)
      ensures Valid() && fresh(fuzzyIndex)
      ensures View() == NAIVE && blockedAttacksCount == 0 && this.env == env
    {
      this.nodeId := nodeId;
      this.env := env;
      this.fuzzyIndex := new MinHashLSH(FUZZY_THRESHOLD, NUM_PERM);
      this.antigenBlacklist := map[];
      this.blockedAttacksCount := 0;
    }

    method ShouldBlock(weight: string, payload: string) returns (blocked: bool)
      requires Valid()
      modifies this`blockedAttacksCount
      ensures Valid() && View() == old(View())
      ensures MayDecide(env, View(), weight, payload, blocked)
      ensures blockedAttacksCount == old(blockedAttacksCount) + if blocked then 1 else 0
    {
      var payloadHash := env.sha256(payload);
      if payloadHash in antigenBlacklist {
        var antigen := antigenBlacklist[payloadHash];
        if antigen.targetWeight == weight {
          blockedAttacksCount := blockedAttacksCount + 1;
          return true;
        }
      }
      var fingerprint := ComputeMinhash(env, payload);
      var similar := fuzzyIndex.FindSimilar(fingerprint);
      assert MayFind(View(), Print(env, payload), similar);
      blocked := similar.Some? && similar.value.targetWeight == weight;
      if blocked {
        blockedAttacksCount := blockedAttacksCount + 1;
      }
    }

    method RegisterAntigen(antigen: AntigenSignature)
      requires Valid()
      modifies this`antigenBlacklist, fuzzyIndex
      ensures Valid() && View() == Register(old(View()), antigen)
    {
      antigenBlacklist := antigenBlacklist[antigen.signatureHash := antigen];
      fuzzyIndex.Add(antigen.minhashSignature, antigen);
    }
  }
}

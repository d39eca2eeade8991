/** The relay's bounded memory of antigens (bootstrap_relay.py, lines 212-226): a dictionary in
    insertion order, re-inserted at the end on every mention and evicted from the front. */
module RelayStore {
  import opened Prelude

  /** The bound the relay runs with; everything below holds for any positive bound. */
  const MAX_KNOWN_ANTIGENS: nat := 10_000

  /** The antigen message body; `signatureHash` is absent when it is missing or not a string. */
  datatype Payload = Payload(signatureHash: Option<string>, targetWeight: string, distortionType: string,
                             minhashSignature: seq<nat>)
  {
    predicate Proper() {
      signatureHash.Some? && signatureHash.value != ""
    }
  }

  /** The stable identity of a payload; `digest` is the hash of its canonical JSON text. */
  function Key(digest: Payload -> string, payload: Payload): string {
    if payload.Proper() then payload.signatureHash.value else "raw:" + digest(payload)
  }

  /** Two payloads are one antigen to the relay if and only if they carry the same hash, or carry none and have the same
      text; a hash is taken for the identity of a payload without one only if it spells that identity out. */
  lemma SameKeyIff(digest: Payload -> string, p: Payload, q: Payload)
    ensures var byHash := p.signatureHash.Some? && p.signatureHash.value != "";
            var other := q.signatureHash.Some? && q.signatureHash.value != "";
            Key(digest, p) == Key(digest, q) <==>
            if byHash && other then p.signatureHash.value == q.signatureHash.value
            else if byHash then p.signatureHash.value == "raw:" + digest(q)
            else if other then q.signatureHash.value == "raw:" + digest(p)
            else digest(p) == digest(q)
  {
    assert ("raw:" + digest(p))[4..] == digest(p) && ("raw:" + digest(q))[4..] == digest(q);
  }

  datatype Entry = Entry(key: string, payload: Payload)

  /** A dictionary in insertion order. */
  type Store = seq<Entry>

  ghost function Keys(store: Store): (keys: set<string>)
    ensures forall e :: e in store ==> e.key in keys
  {
    if store == [] then {} else {store[0].key} + Keys(store[1..])
  }

  lemma {:induction false} KeyAt(store: Store, key: string) returns (i: nat)
    requires key in Keys(store)
    ensures i < |store| && store[i].key == key
  {
    if store[0].key == key {
      i := 0;
    } else {
      i := KeyAt(store[1..], key);
      i := i + 1;
    }
  }

  ghost predicate DistinctKeys(store: Store) {
    store != [] ==> store[0].key !in Keys(store[1..]) && DistinctKeys(store[1..])
  }

  lemma {:induction false} KeysConcat(a: Store, b: Store)
    ensures Keys(a + b) == Keys(a) + Keys(b)
  {
    if a == [] {
      assert a + b == b;
    } else {
      assert (a + b)[1..] == a[1..] + b;
      KeysConcat(a[1..], b);
    }
  }

  lemma {:induction false} DistinctKeysDiffer(store: Store, i: nat, j: nat)
    requires DistinctKeys(store) && i < j < |store|
    ensures store[i].key != store[j].key
  {
    if i == 0 {
      assert store[j] == store[1..][j - 1];
    } else {
      DistinctKeysDiffer(store[1..], i - 1, j - 1);
    }
  }

  /** `dict.pop(key, None)`. */
  function Without(store: Store, key: string): Store {
    if store == [] then []
    else if store[0].key == key then Without(store[1..], key)
    else [store[0]] + Without(store[1..], key)
  }

  function TakeLast<T>(n: nat, xs: seq<T>): seq<T> {
    if |xs| <= n then xs else xs[|xs| - n..]
  }

  function Remember(max: nat, store: Store, entry: Entry): Store {
    TakeLast(max, Without(store, entry.key) + [entry])
  }

  function RememberAll(max: nat, history: seq<Entry>): Store {
    if history == [] then [] else Remember(max, RememberAll(max, history[..|history| - 1]), history[|history| - 1])
  }

  /** What is remembered after some more entries. */
  function RememberMore(max: nat, store: Store, entries: seq<Entry>): Store
    decreases |entries|
  {
    if entries == [] then store else RememberMore(max, Remember(max, store, entries[0]), entries[1..])
  }

  lemma {:induction false} RememberMoreOne(max: nat, store: Store, entries: seq<Entry>, entry: Entry)
    ensures RememberMore(max, store, entries + [entry]) == Remember(max, RememberMore(max, store, entries), entry)
    decreases |entries|
  {
    if entries == [] {
      assert [] + [entry] == [entry];
    } else {
      assert (entries + [entry])[1..] == entries[1..] + [entry];
      RememberMoreOne(max, Remember(max, store, entries[0]), entries[1..], entry);
    }
  }

  lemma {:induction false} RememberedInTurn(max: nat, entries: seq<Entry>)
    ensures RememberMore(max, [], entries) == RememberAll(max, entries)
  {
    if entries != [] {
      var init, last := entries[..|entries| - 1], entries[|entries| - 1];
      RememberedInTurn(max, init);
      RememberMoreOne(max, [], init, last);
      assert entries == init + [last];
    }
  }

  // ---------------------------------------------------------------------------
  // The reference reading of a whole history
  // ---------------------------------------------------------------------------

  /** The entries of a history that no later entry repeats, in order. */
  ghost function Latest(history: seq<Entry>): Store {
    if history == [] then []
    else if history[0].key in Keys(history[1..]) then Latest(history[1..])
    else [history[0]] + Latest(history[1..])
  }

  /** Position `i` holds the last mention of its key. */
  ghost predicate IsLastMention(history: seq<Entry>, i: nat)
    requires i < |history|
  {
    forall j :: i < j < |history| ==> history[j].key != history[i].key
  }

  lemma {:induction false} LatestKeys(history: seq<Entry>)
    ensures Keys(Latest(history)) == Keys(history)
    ensures DistinctKeys(Latest(history))
    ensures |Latest(history)| == |Keys(history)|
  {
    if history != [] {
      LatestKeys(history[1..]);
      assert ([history[0]] + Latest(history[1..]))[1..] == Latest(history[1..]);
    }
  }

  /** The reference reading of a suffix ends the reference reading of the whole. */
  lemma {:induction false} LatestOfSuffix(history: seq<Entry>, i: nat) returns (front: Store)
    requires i <= |history|
    ensures Latest(history) == front + Latest(history[i..])
  {
    if i == 0 {
      front := [];
      assert history[0..] == history;
    } else {
      front := LatestOfSuffix(history[1..], i - 1);
      assert history[1..][i - 1..] == history[i..];
      if history[0].key !in Keys(history[1..]) {
        var tail := Latest(history[i..]);
        assert [history[0]] + (front + tail) == ([history[0]] + front) + tail;
        front := [history[0]] + front;
      }
    }
  }

  /** Mentioning a key again moves it to the end with its new payload. */
  lemma {:induction false} LatestAppend(history: seq<Entry>, entry: Entry)
    ensures Latest(history + [entry]) == Without(Latest(history), entry.key) + [entry]
  {
    if history == [] {
      assert [] + [entry] == [entry];
    } else {
      var head, rest := history[0], history[1..];
      LatestAppend(rest, entry);
      assert (history + [entry])[1..] == rest + [entry];
      KeysConcat(rest, [entry]);
      WithoutHead(head, Latest(rest), entry.key);
    }
  }

  lemma WithoutHead(head: Entry, store: Store, key: string)
    ensures Without([head] + store, key) == (if head.key == key then [] else [head]) + Without(store, key)
  {
    assert ([head] + store)[1..] == store;
  }

  // ---------------------------------------------------------------------------
  // The bounded store refines the reference reading
  // ---------------------------------------------------------------------------

  lemma {:induction false} WithoutConcat(a: Store, b: Store, key: string)
    ensures Without(a + b, key) == Without(a, key) + Without(b, key)
  {
    if a == [] {
      assert a + b == b;
    } else {
      assert (a + b)[1..] == a[1..] + b;
      WithoutConcat(a[1..], b, key);
    }
  }

  lemma {:induction false} WithoutSize(store: Store, key: string)
    requires DistinctKeys(store)
    ensures |Without(store, key)| == |store| - if key in Keys(store) then 1 else 0
  {
    if store != [] {
      WithoutSize(store[1..], key);
    }
  }

  lemma {:induction false} DistinctSuffix(store: Store, cut: nat)
    requires DistinctKeys(store) && cut <= |store|
    ensures DistinctKeys(store[cut..])
  {
    if cut > 0 {
      DistinctSuffix(store[1..], cut - 1);
      assert store[1..][cut - 1..] == store[cut..];
    } else {
      assert store[0..] == store;
    }
  }

  /** Forgetting from the front first makes no difference to what is remembered next. */
  lemma {:induction false} RememberTruncated(max: nat, store: Store, entry: Entry)
    requires max > 0 && DistinctKeys(store)
    ensures Remember(max, TakeLast(max, store), entry) == Remember(max, store, entry)
  {
    if |store| > max {
      var cut := |store| - max;
      var front, kept := store[..cut], store[cut..];
      DistinctSuffix(store, cut);
      RememberInFull(max, front, kept, entry);
      assert store == front + kept && TakeLast(max, store) == kept;
    }
  }

  /** A full store alone decides what is remembered next. */
  lemma RememberInFull(max: nat, front: Store, kept: Store, entry: Entry)
    requires |kept| == max > 0 && DistinctKeys(kept)
    ensures Remember(max, front + kept, entry) == Remember(max, kept, entry)
  {
    WithoutConcat(front, kept, entry.key);
    WithoutSize(kept, entry.key);
    Regroup(max, Without(front, entry.key), Without(kept, entry.key), entry);
  }

  lemma Regroup(max: nat, front: Store, kept: Store, entry: Entry)
    requires |kept| + 1 >= max
    ensures TakeLast(max, front + kept + [entry]) == TakeLast(max, kept + [entry])
  {
    assert front + kept + [entry] == front + (kept + [entry]);
    TakeLastOf(max, front, kept + [entry]);
  }

  lemma TakeLastOf<T>(n: nat, front: seq<T>, tail: seq<T>)
    requires |tail| >= n
    ensures TakeLast(n, front + tail) == TakeLast(n, tail)
  {
    var cut := |tail| - n;
    assert (front + tail)[|front| + cut..] == tail[cut..];
    assert tail[0..] == tail;
  }

  /** After any history, the store is the last `max` keys in the order of their last mention, each with
      its latest payload. */
  lemma {:induction false} StoreIsLatest(max: nat, history: seq<Entry>)
    requires max > 0
    ensures RememberAll(max, history) == TakeLast(max, Latest(history))
  {
    if history != [] {
      var init, last := history[..|history| - 1], history[|history| - 1];
      StoreIsLatest(max, init);
      assert history == init + [last];
      LatestKeys(init);
      RememberTruncated(max, Latest(init), last);
      LatestAppend(init, last);
    }
  }

  lemma {:induction false} LatestHasOnlyLastMentions(history: seq<Entry>, e: Entry)
    ensures e in Latest(history) <==> exists i :: 0 <= i < |history| && history[i] == e && IsLastMention(history, i)
  {
    if history != [] {
      var head, rest := history[0], history[1..];
      LatestHasOnlyLastMentions(rest, e);
      forall i | 0 < i < |history|
        ensures IsLastMention(history, i) <==> IsLastMention(rest, i - 1)
      {
        assert forall j :: 0 < j < |history| ==> history[j] == rest[j - 1];
        assert forall j :: 0 <= j < |rest| ==> rest[j] == history[j + 1];
      }
      assert IsLastMention(history, 0) <==> head.key !in Keys(rest) by {
        assert forall j :: 0 <= j < |rest| ==> rest[j] == history[j + 1];
        if head.key in Keys(rest) {
          var j := KeyAt(rest, head.key);
          assert history[j + 1].key == head.key;
        } else {
          assert forall j :: 0 < j < |history| ==> history[j] == rest[j - 1] && rest[j - 1] in rest;
        }
      }
      if e in Latest(rest) {
        var i :| 0 <= i < |rest| && rest[i] == e && IsLastMention(rest, i);
        assert history[i + 1] == e && IsLastMention(history, i + 1);
      }
      if exists i :: 0 < i < |history| && history[i] == e && IsLastMention(history, i) {
        var i :| 0 < i < |history| && history[i] == e && IsLastMention(history, i);
        assert rest[i - 1] == e && IsLastMention(rest, i - 1);
      }
    }
  }

  /** A payload is in the store exactly when it came with the last mention of its key and fewer than
      `max` distinct keys have been mentioned since. */
  lemma StoredIff(max: nat, history: seq<Entry>, e: Entry)
    requires max > 0
    ensures e in RememberAll(max, history) <==>
            exists i :: && 0 <= i < |history| && history[i] == e && IsLastMention(history, i)
                        && |Keys(history[i + 1..])| < max
  {
    StoreIsLatest(max, history);
    LatestHasOnlyLastMentions(history, e);
    forall i | 0 <= i < |history| && history[i] == e && IsLastMention(history, i)
      ensures e in TakeLast(max, Latest(history)) <==> |Keys(history[i + 1..])| < max
    {
      LastMentionStays(max, history, i);
    }
    if e in TakeLast(max, Latest(history)) {
      assert e in Latest(history);
    }
  }

  /** How long a payload that came with the last mention of its key is kept. */
  lemma LastMentionStays(max: nat, history: seq<Entry>, i: nat)
    requires i < |history| && IsLastMention(history, i)
    ensures history[i] in TakeLast(max, Latest(history)) <==> |Keys(history[i + 1..])| < max
  {
    var latest := Latest(history);
    var front := LatestOfSuffix(history, i);
    LatestKeys(history);
    LatestKeys(history[i + 1..]);
    assert history[i..][1..] == history[i + 1..];
    NoLaterMention(history, i);
    assert latest[|front|] == history[i];
    forall i, j | 0 <= i < j < |latest|
      ensures latest[i] != latest[j]
    {
      DistinctKeysDiffer(latest, i, j);
    }
    InTakeLast(max, latest, |front|);
  }

  lemma NoLaterMention(history: seq<Entry>, i: nat)
    requires i < |history| && IsLastMention(history, i)
    ensures history[i].key !in Keys(history[i + 1..])
  {
    if history[i].key in Keys(history[i + 1..]) {
      var j := KeyAt(history[i + 1..], history[i].key);
      assert false;
    }
  }

  lemma InTakeLast<T>(max: nat, xs: seq<T>, at: nat)
    requires at < |xs| && forall i, j :: 0 <= i < j < |xs| ==> xs[i] != xs[j]
    ensures xs[at] in TakeLast(max, xs) <==> |xs| - at <= max
  {
    var kept := TakeLast(max, xs);
    var cut := |xs| - |kept|;
    assert forall i :: 0 <= i < |kept| ==> kept[i] == xs[cut + i];
    if at >= cut {
      assert kept[at - cut] == xs[at];
    }
  }
}

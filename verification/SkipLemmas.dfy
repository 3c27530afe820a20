/** What skip_message_keys does to a cache that holds none of the keys it is about to store. */
module SkipLemmas {
  import opened Bytes
  import opened Primitives
  import opened RatchetState

  /** The cache after storing the keys numbered `from` up to `until` of the chain at `chain`. */
  function Filled(
    skipped: map<SkippedId, Key>, remote: PublicKey, chain: Key, from: nat, until: nat
  ): map<SkippedId, Key>
    decreases until - from
  {
    if from >= until then skipped
    else Filled(skipped[SkippedId(remote, from) := MessageKey(chain)], remote, NextChainKey(chain), from + 1, until)
  }

  predicate Vacant(skipped: map<SkippedId, Key>, remote: PublicKey, from: nat, until: nat) {
    forall id :: id in skipped && id.key == remote ==> id.number < from || until <= id.number
  }

  /** Storing the first key leaves room for the rest. */
  lemma StoreOne(skipped: map<SkippedId, Key>, remote: PublicKey, from: nat, until: nat, key: Key)
    requires from < until && Vacant(skipped, remote, from, until)
    ensures var more := skipped[SkippedId(remote, from) := key];
            Vacant(more, remote, from + 1, until) && |more| == |skipped| + 1
  {
    InsertGrows(skipped, SkippedId(remote, from), key);
  }

  lemma {:induction false} FilledSize(
    skipped: map<SkippedId, Key>, remote: PublicKey, chain: Key, from: nat, until: nat)
    requires from <= until && Vacant(skipped, remote, from, until)
    ensures |Filled(skipped, remote, chain, from, until)| == |skipped| + (until - from)
    decreases until - from
  {
    if from < until {
      StoreOne(skipped, remote, from, until, MessageKey(chain));
      FilledSize(skipped[SkippedId(remote, from) := MessageKey(chain)], remote, NextChainKey(chain), from + 1, until);
    }
  }

  lemma {:induction false} FilledKeys(
    skipped: map<SkippedId, Key>, remote: PublicKey, chain: Key, from: nat, until: nat)
    requires from <= until
    ensures var f := Filled(skipped, remote, chain, from, until);
            forall id :: id in f <==> id in skipped || (id.key == remote && from <= id.number < until)
    decreases until - from
  {
    if from < until {
      FilledKeys(skipped[SkippedId(remote, from) := MessageKey(chain)], remote, NextChainKey(chain), from + 1, until);
    }
  }

  /** The keys already cached stay. */
  lemma {:induction false} FilledKeeps(
    skipped: map<SkippedId, Key>, remote: PublicKey, chain: Key, from: nat, until: nat, id: SkippedId)
    requires Vacant(skipped, remote, from, until) && id in skipped
    ensures id in Filled(skipped, remote, chain, from, until)
    ensures Filled(skipped, remote, chain, from, until)[id] == skipped[id]
    decreases until - from
  {
    if from < until {
      FilledKeeps(skipped[SkippedId(remote, from) := MessageKey(chain)], remote, NextChainKey(chain), from + 1, until, id);
    }
  }

  /** The keys stored are the chain's message keys, by number. */
  lemma {:induction false} FilledStores(
    skipped: map<SkippedId, Key>, remote: PublicKey, chain: Key, from: nat, until: nat, n: nat)
    requires from <= n < until && Vacant(skipped, remote, from, until)
    ensures SkippedId(remote, n) in Filled(skipped, remote, chain, from, until)
    ensures Filled(skipped, remote, chain, from, until)[SkippedId(remote, n)] == MessageKeyAt(chain, n - from)
    decreases until - from
  {
    var more := skipped[SkippedId(remote, from) := MessageKey(chain)];
    if n == from {
      FilledKeeps(more, remote, NextChainKey(chain), from + 1, until, SkippedId(remote, n));
    } else {
      FilledStores(more, remote, NextChainKey(chain), from + 1, until, n);
      ChainAtStep(chain, n - from - 1);
    }
  }

  /** The state when the loop ends with every key stored. */
  function SkippedTo(s: State, remote: PublicKey, chain: Key, until: nat): State
    requires s.received <= until
  {
    s.(receiving := Some(ChainAt(chain, until - s.received)),
       received := until,
       skipped := Filled(s.skipped, remote, chain, s.received, until))
  }

  /** One turn of the loop. */
  function SkippedOne(s: State, remote: PublicKey, chain: Key): State {
    s.(skipped := s.skipped[SkippedId(remote, s.received) := MessageKey(chain)], received := s.received + 1)
  }

  lemma SkippedToStep(s: State, remote: PublicKey, chain: Key, until: nat)
    requires s.received < until
    ensures SkippedTo(SkippedOne(s, remote, chain), remote, NextChainKey(chain), until) == SkippedTo(s, remote, chain, until)
  {
    ChainAtStep(chain, until - s.received - 1);
  }

  lemma {:induction false} SkipLoopExact(s: State, remote: PublicKey, chain: Key, until: nat)
    requires s.received <= until && Vacant(s.skipped, remote, s.received, until)
    requires |s.skipped| <= MAX_SKIPPED_MESSAGE_KEYS
    ensures var t := SkipLoop(s, remote, chain, until);
            && (t.outcome.Pass? <==> |s.skipped| + (until - s.received) <= MAX_SKIPPED_MESSAGE_KEYS)
            && (t.outcome.Pass? ==> t.state == SkippedTo(s, remote, chain, until))
    decreases until - s.received
  {
    if s.received < until && |s.skipped| < MAX_SKIPPED_MESSAGE_KEYS {
      StoreOne(s.skipped, remote, s.received, until, MessageKey(chain));
      SkippedToStep(s, remote, chain, until);
      SkipLoopExact(SkippedOne(s, remote, chain), remote, NextChainKey(chain), until);
    }
  }

  /** How many keys a call has to store before it reaches a message number. */
  function Gap(received: nat, until: nat): nat {
    if until <= received then 0 else until - received
  }

  /** Skipping succeeds exactly when the keys to store fit beside the cached ones. */
  lemma SkipExact(s: State, until: nat)
    requires s.remote.Some? && s.receiving.Some? && |s.skipped| <= MAX_SKIPPED_MESSAGE_KEYS
    requires Vacant(s.skipped, s.remote.value, s.received, until)
    ensures var t := SkipMessageKeys(s, until);
            && (t.outcome.Pass? <==> |s.skipped| + Gap(s.received, until) <= MAX_SKIPPED_MESSAGE_KEYS)
            && (until <= s.received ==> t.state == s)
            && (t.outcome.Pass? && s.received < until ==>
                  t.state == SkippedTo(s, s.remote.value, s.receiving.value, until))
  {
    if s.received < until <= s.received + MAX_SKIPPED_MESSAGE_KEYS {
      SkipLoopExact(s.(receiving := None), s.remote.value, s.receiving.value, until);
    }
  }

  /** Whatever the cache holds, skipping moves along the chain it started on. */
  lemma {:induction false} SkipLoopChain(s: State, remote: PublicKey, chain: Key, until: nat)
    requires s.received <= until
    ensures var t := SkipLoop(s, remote, chain, until);
            t.outcome.Pass? ==>
              t.state.receiving == Some(ChainAt(chain, until - s.received)) && t.state.received == until
    decreases until - s.received
  {
    if s.received < until && |s.skipped| < MAX_SKIPPED_MESSAGE_KEYS {
      SkipLoopChain(SkippedOne(s, remote, chain), remote, NextChainKey(chain), until);
      ChainAtStep(chain, until - s.received - 1);
    }
  }

  lemma {:induction false} SkipLoopKeepsRest(s: State, remote: PublicKey, chain: Key, until: nat)
    ensures var t := SkipLoop(s, remote, chain, until).state;
            t == s.(receiving := t.receiving, received := t.received, skipped := t.skipped)
    decreases until - s.received
  {
    if s.received < until && |s.skipped| < MAX_SKIPPED_MESSAGE_KEYS {
      SkipLoopKeepsRest(SkippedOne(s, remote, chain), remote, NextChainKey(chain), until);
    }
  }

  lemma SkipChain(s: State, start: Key, n: nat)
    requires s.receiving == Some(ChainAt(start, s.received))
    ensures var t := SkipMessageKeys(s, n);
            t.outcome.Pass? ==>
              && t.state.received == (if s.received < n then n else s.received)
              && t.state.receiving == Some(ChainAt(start, t.state.received))
  {
    if s.received < n {
      if s.remote.Some? && n - s.received <= MAX_SKIPPED_MESSAGE_KEYS {
        SkipLoopChain(s.(receiving := None), s.remote.value, s.receiving.value, n);
        ChainAtAdd(start, s.received, n - s.received);
      }
    }
  }

  lemma SkipKeepsRest(s: State, n: nat)
    ensures var t := SkipMessageKeys(s, n).state;
            t == s.(receiving := t.receiving, received := t.received, skipped := t.skipped)
  {
    if s.received < n && s.remote.Some? && s.receiving.Some? {
      SkipLoopKeepsRest(s.(receiving := None), s.remote.value, s.receiving.value, n);
    }
  }

  /** The entry was there before the call. */
  predicate Stays(s: State, t: State, id: SkippedId) {
    id in t.skipped && id in s.skipped && t.skipped[id] == s.skipped[id]
  }

  /** What skipping adds to a cache belongs to the chain it skips along. */
  ghost predicate AddsOnly(s: State, start: Key, t: State) {
    && (t.receiving.Some? ==> ChainStart(t.receiving.value) == start)
    && forall id :: id in t.skipped ==>
         Stays(s, t, id) || (Some(id.key) == s.remote && t.skipped[id].MessageKey? && KeyStart(t.skipped[id]) == start)
  }

  lemma {:induction false} SkipLoopAddsOnly(s: State, remote: PublicKey, chain: Key, until: nat)
    requires s.remote == Some(remote) && s.receiving.None?
    ensures AddsOnly(s, ChainStart(chain), SkipLoop(s, remote, chain, until).state)
    decreases until - s.received
  {
    if s.received < until && |s.skipped| < MAX_SKIPPED_MESSAGE_KEYS {
      SkipLoopAddsOnly(SkippedOne(s, remote, chain), remote, NextChainKey(chain), until);
    }
  }

  lemma SkipAddsOnly(s: State, until: nat)
    requires s.receiving.Some?
    ensures AddsOnly(s, ChainStart(s.receiving.value), SkipMessageKeys(s, until).state)
  {
    if s.received < until && until - s.received <= MAX_SKIPPED_MESSAGE_KEYS && s.remote.Some? {
      SkipLoopAddsOnly(s.(receiving := None), s.remote.value, s.receiving.value, until);
    }
    hide SkipLoop;
  }
}

/** How the cache invariant of one side moves with each change of its session. */
module ConversationCache {
  import opened Bytes
  import opened Primitives
  import opened RatchetState
  import opened SkipLemmas
  import opened Conversation

  lemma EntrySlot(h: History, side: Side, r: nat, received: nat, delivered: set<Envelope>, id: SkippedId, key: Key)
    returns (k: int)
    requires RootsOk(h) && r < |h.roots| && EntryOk(h, side, r, received, delivered, id, key)
    ensures 1 <= k <= r && Owner(k) != side && id.key == PublicKey(h.secrets[k])
    ensures Slot(h, k, id.number) && key == MessageKeyAt(Start(h, k), id.number)
    ensures h.log[k][id.number].envelope !in delivered && (k == r ==> id.number < received)
  {
    k :| 1 <= k <= r && Owner(k) != side && id.key == PublicKey(h.secrets[k])
         && id.number < |h.log[k]| && key == MessageKeyAt(Start(h, k), id.number)
         && h.log[k][id.number].envelope !in delivered
         && (k == r ==> id.number < received);
  }

  /** Nothing is cached at or past the receiving position. */
  lemma NothingAhead(
    rule: ResetRule, h: History, side: Side, r: nat, received: nat, skipped: map<SkippedId, Key>,
    delivered: set<Envelope>, until: nat)
    requires RootsOk(h) && r < |h.roots| && CacheOk(rule, h, side, r, received, skipped, delivered)
    ensures Vacant(skipped, PublicKey(h.secrets[r]), received, until)
    ensures forall k, n :: r < k < |h.secrets| ==> SkippedId(PublicKey(h.secrets[k]), n) !in skipped
  {
    forall id | id in skipped && id.key == PublicKey(h.secrets[r]) ensures id.number < received {
      var k := EntrySlot(h, side, r, received, delivered, id, skipped[id]);
    }
    forall k, n | r < k < |h.secrets| ensures SkippedId(PublicKey(h.secrets[k]), n) !in skipped {
      var id := SkippedId(PublicKey(h.secrets[k]), n);
      if id in skipped {
        var j := EntrySlot(h, side, r, received, delivered, id, skipped[id]);
      }
    }
  }

  /** An entry survives the delivery of a message of another slot. */
  lemma EntryStays(
    rule: ResetRule, h: History, side: Side, r: nat, received: nat, delivered: set<Envelope>,
    id: SkippedId, key: Key, k: int, n: int)
    requires RootsOk(h) && LogOk(rule, h) && r < |h.roots| && Slot(h, k, n)
    requires EntryOk(h, side, r, received, delivered, id, key)
    requires id != SkippedId(PublicKey(h.secrets[k]), n)
    ensures EntryOk(h, side, r, received, delivered + {h.log[k][n].envelope}, id, key)
  {
    var j := EntrySlot(h, side, r, received, delivered, id, key);
    if h.log[j][id.number].envelope == h.log[k][n].envelope {
      EnvelopeNamesSlot(rule, h, j, id.number, k, n);
    }
  }

  /** Delivering a cached message. */
  lemma RemoveOk(
    rule: ResetRule, h: History, side: Side, r: nat, received: nat, skipped: map<SkippedId, Key>,
    delivered: set<Envelope>, k: int, n: int)
    requires RootsOk(h) && LogOk(rule, h) && r < |h.roots| && CacheOk(rule, h, side, r, received, skipped, delivered)
    requires Slot(h, k, n) && IdIn(h, k, n, skipped)
    ensures CacheOk(rule, h, side, r, received, skipped - {SkippedId(PublicKey(h.secrets[k]), n)},
                    delivered + {h.log[k][n].envelope})
  {
    var id := SkippedId(PublicKey(h.secrets[k]), n);
    var rest, more := skipped - {id}, delivered + {h.log[k][n].envelope};
    RemoveShrinks(skipped, id);
    forall i | i in rest ensures EntryOk(h, side, r, received, more, i, rest[i]) {
      EntryStays(rule, h, side, r, received, delivered, i, skipped[i], k, n);
    }
    CoveredAfterRemoval(rule, h, side, r, received, skipped, delivered, k, n);
    var j := EntrySlot(h, side, r, received, delivered, id, skipped[id]);
    DeliverOne(rule, h, side, r, received, delivered, k, n);
  }

  lemma CoveredAfterRemoval(
    rule: ResetRule, h: History, side: Side, r: nat, received: nat, skipped: map<SkippedId, Key>,
    delivered: set<Envelope>, k: int, n: int)
    requires RootsOk(h) && r < |h.roots| && Slot(h, k, n) && Covered(rule, h, side, r, received, skipped, delivered)
    ensures Covered(rule, h, side, r, received, skipped - {SkippedId(PublicKey(h.secrets[k]), n)},
                    delivered + {h.log[k][n].envelope})
  {
    var id := SkippedId(PublicKey(h.secrets[k]), n);
    forall j, m | Slot(h, j, m) && j <= r && Owner(j) != side
                  && h.log[j][m].envelope !in delivered + {h.log[k][n].envelope}
                  && ((j == r && m < received) || (j < r && rule.Once?))
      ensures IdIn(h, j, m, skipped - {id})
    {
      assert IdIn(h, j, m, skipped);
      assert j != k || m != n;
      assert SkippedId(PublicKey(h.secrets[j]), m) != id;
    }
  }

  lemma DeliverOne(
    rule: ResetRule, h: History, side: Side, r: nat, received: nat, delivered: set<Envelope>, k: int, n: int)
    requires RootsOk(h) && LogOk(rule, h) && r < |h.roots| && Slot(h, k, n)
    requires DeliveredBehind(h, side, r, received, delivered)
    requires Owner(k) != side ==> k <= r && (k == r ==> n < received)
    ensures DeliveredBehind(h, side, r, received, delivered + {h.log[k][n].envelope})
  {
    var more := delivered + {h.log[k][n].envelope};
    forall j, m | Slot(h, j, m) && Owner(j) != side && h.log[j][m].envelope in more
      ensures j <= r && (j == r ==> m < received)
    {
      if h.log[j][m].envelope !in delivered {
        EnvelopeNamesSlot(rule, h, j, m, k, n);
      }
    }
  }

  /** Delivering to one side leaves the other side's cache as it was. */
  lemma DeliverElsewhere(
    rule: ResetRule, h: History, side: Side, r: nat, received: nat, skipped: map<SkippedId, Key>,
    delivered: set<Envelope>, k: int, n: int)
    requires RootsOk(h) && LogOk(rule, h) && r < |h.roots| && CacheOk(rule, h, side, r, received, skipped, delivered)
    requires Slot(h, k, n) && Owner(k) == side
    ensures CacheOk(rule, h, side, r, received, skipped, delivered + {h.log[k][n].envelope})
  {
    var more := delivered + {h.log[k][n].envelope};
    forall i | i in skipped ensures EntryOk(h, side, r, received, more, i, skipped[i]) {
      EntryElsewhere(rule, h, side, r, received, delivered, i, skipped[i], k, n);
    }
    DeliverOne(rule, h, side, r, received, delivered, k, n);
    hide EntryOk, DeliveredBehind, LogOk, RootsOk;
  }

  lemma EntryElsewhere(
    rule: ResetRule, h: History, side: Side, r: nat, received: nat, delivered: set<Envelope>,
    id: SkippedId, key: Key, k: int, n: int)
    requires RootsOk(h) && LogOk(rule, h) && r < |h.roots| && EntryOk(h, side, r, received, delivered, id, key)
    requires Slot(h, k, n) && Owner(k) == side
    ensures EntryOk(h, side, r, received, delivered + {h.log[k][n].envelope}, id, key)
  {
    var j := EntrySlot(h, side, r, received, delivered, id, key);
    if h.log[j][id.number].envelope == h.log[k][n].envelope {
      EnvelopeNamesSlot(rule, h, j, id.number, k, n);
    }
  }

  lemma CacheParts(
    rule: ResetRule, h: History, side: Side, r: nat, received: nat, skipped: map<SkippedId, Key>, delivered: set<Envelope>)
    requires RootsOk(h) && r < |h.roots|
    ensures CacheOk(rule, h, side, r, received, skipped, delivered) <==>
              && |skipped| <= MAX_SKIPPED_MESSAGE_KEYS
              && (forall id :: id in skipped ==> EntryOk(h, side, r, received, delivered, id, skipped[id]))
              && Covered(rule, h, side, r, received, skipped, delivered)
              && DeliveredBehind(h, side, r, received, delivered)
  {
    hide RootsOk, EntryOk, Covered, DeliveredBehind;
  }

  lemma BehindLater(h: History, side: Side, r: nat, received: nat, until: nat, delivered: set<Envelope>)
    requires RootsOk(h) && r < |h.roots| && DeliveredBehind(h, side, r, received, delivered) && received <= until
    ensures DeliveredBehind(h, side, r, until, delivered)
  {
    hide RootsOk;
  }

  lemma EntryLater(
    h: History, side: Side, r: nat, received: nat, until: nat, delivered: set<Envelope>, id: SkippedId, key: Key)
    requires RootsOk(h) && r < |h.roots| && EntryOk(h, side, r, received, delivered, id, key) && received <= until
    ensures EntryOk(h, side, r, until, delivered, id, key)
  {
    var k := EntrySlot(h, side, r, received, delivered, id, key);
    hide RootsOk, MessageKeyAt;
  }

  /** The cache after storing the keys from the receiving position to message `until`. */
  function FilledFrom(h: History, r: nat, received: nat, until: nat, skipped: map<SkippedId, Key>): map<SkippedId, Key>
    requires 1 <= r < |h.secrets| == |h.roots|
  {
    Filled(skipped, PublicKey(h.secrets[r]), ChainAt(Start(h, r), received), received, until)
  }

  lemma FillEntry(
    h: History, side: Side, r: nat, received: nat, until: nat, skipped: map<SkippedId, Key>, delivered: set<Envelope>,
    id: SkippedId)
    requires RootsOk(h) && 1 <= r < |h.roots| && Owner(r) != side && received <= until <= |h.log[r]|
    requires Vacant(skipped, PublicKey(h.secrets[r]), received, until) && DeliveredBehind(h, side, r, received, delivered)
    requires id in skipped ==> EntryOk(h, side, r, received, delivered, id, skipped[id])
    requires id in FilledFrom(h, r, received, until, skipped)
    ensures EntryOk(h, side, r, until, delivered, id, FilledFrom(h, r, received, until, skipped)[id])
  {
    var remote, chain := PublicKey(h.secrets[r]), ChainAt(Start(h, r), received);
    hide RootsOk, EntryOk, Filled, DeliveredBehind, ChainAt;
    if id in skipped {
      FilledKeeps(skipped, remote, chain, received, until, id);
      EntryLater(h, side, r, received, until, delivered, id, skipped[id]);
    } else {
      FilledKeys(skipped, remote, chain, received, until);
      FilledStores(skipped, remote, chain, received, until, id.number);
      FilledEntryOk(h, side, r, received, until, delivered, id);
    }
  }

  lemma FillCovers(
    rule: ResetRule, h: History, side: Side, r: nat, received: nat, until: nat, skipped: map<SkippedId, Key>,
    delivered: set<Envelope>)
    requires RootsOk(h) && 1 <= r < |h.roots| && received <= until
    requires Covered(rule, h, side, r, received, skipped, delivered)
    ensures Covered(rule, h, side, r, until, FilledFrom(h, r, received, until, skipped), delivered)
  {
    FilledKeys(skipped, PublicKey(h.secrets[r]), ChainAt(Start(h, r), received), received, until);
    hide RootsOk, Filled, ChainAt;
  }

  /** Storing the keys of messages passed over. */
  lemma FillOk(
    rule: ResetRule, h: History, side: Side, r: nat, received: nat, until: nat, skipped: map<SkippedId, Key>,
    delivered: set<Envelope>)
    requires RootsOk(h) && 1 <= r < |h.roots| && Owner(r) != side
    requires CacheOk(rule, h, side, r, received, skipped, delivered)
    requires received <= until <= |h.log[r]| && |skipped| + (until - received) <= MAX_SKIPPED_MESSAGE_KEYS
    ensures CacheOk(rule, h, side, r, until, FilledFrom(h, r, received, until, skipped), delivered)
  {
    var f := FilledFrom(h, r, received, until, skipped);
    NothingAhead(rule, h, side, r, received, skipped, delivered, until);
    FilledSize(skipped, PublicKey(h.secrets[r]), ChainAt(Start(h, r), received), received, until);
    CacheParts(rule, h, side, r, received, skipped, delivered);
    CacheParts(rule, h, side, r, until, f, delivered);
    hide RootsOk, CacheOk, EntryOk, Covered, DeliveredBehind, Filled, Vacant, ChainAt;
    FillCovers(rule, h, side, r, received, until, skipped, delivered);
    BehindLater(h, side, r, received, until, delivered);
    forall id | id in f ensures EntryOk(h, side, r, until, delivered, id, f[id]) {
      FillEntry(h, side, r, received, until, skipped, delivered, id);
    }
  }

  lemma FilledEntryOk(
    h: History, side: Side, r: nat, received: nat, until: nat, delivered: set<Envelope>, id: SkippedId)
    requires RootsOk(h) && 1 <= r < |h.roots| && Owner(r) != side
    requires DeliveredBehind(h, side, r, received, delivered)
    requires id.key == PublicKey(h.secrets[r]) && received <= id.number < until <= |h.log[r]|
    ensures EntryOk(h, side, r, until, delivered, id, MessageKeyAt(ChainAt(Start(h, r), received), id.number - received))
  {
    ChainAtAdd(Start(h, r), received, id.number - received);
    assert Slot(h, r, id.number);
  }

  /** Delivering the message at the receiving position. */
  lemma TakeOk(
    rule: ResetRule, h: History, side: Side, r: nat, received: nat, skipped: map<SkippedId, Key>, delivered: set<Envelope>)
    requires RootsOk(h) && LogOk(rule, h) && Slot(h, r, received) && Owner(r) != side
    requires CacheOk(rule, h, side, r, received, skipped, delivered)
    ensures CacheOk(rule, h, side, r, received + 1, skipped, delivered + {h.log[r][received].envelope})
  {
    var more := delivered + {h.log[r][received].envelope};
    forall i | i in skipped ensures EntryOk(h, side, r, received + 1, more, i, skipped[i]) {
      EntryPassed(rule, h, side, r, received, delivered, i, skipped[i]);
    }
    TakeCovers(rule, h, side, r, received, skipped, delivered);
    hide EntryOk, LogOk, RootsOk, Covered, DeliveredBehind;
    BehindMoves(h, side, r, received, delivered);
    DeliverOne(rule, h, side, r, received + 1, delivered, r, received);
  }

  lemma BehindMoves(h: History, side: Side, r: nat, received: nat, delivered: set<Envelope>)
    requires RootsOk(h) && r < |h.roots| && DeliveredBehind(h, side, r, received, delivered)
    ensures DeliveredBehind(h, side, r, received + 1, delivered)
  {
  }

  lemma TakeCovers(
    rule: ResetRule, h: History, side: Side, r: nat, received: nat, skipped: map<SkippedId, Key>, delivered: set<Envelope>)
    requires RootsOk(h) && Slot(h, r, received) && Covered(rule, h, side, r, received, skipped, delivered)
    ensures Covered(rule, h, side, r, received + 1, skipped, delivered + {h.log[r][received].envelope})
  {
    hide RootsOk;
  }

  lemma EntryPassed(
    rule: ResetRule, h: History, side: Side, r: nat, received: nat, delivered: set<Envelope>, id: SkippedId, key: Key)
    requires RootsOk(h) && LogOk(rule, h) && Slot(h, r, received)
    requires EntryOk(h, side, r, received, delivered, id, key)
    ensures EntryOk(h, side, r, received + 1, delivered + {h.log[r][received].envelope}, id, key)
  {
    var j := EntrySlot(h, side, r, received, delivered, id, key);
    if h.log[j][id.number].envelope == h.log[r][received].envelope {
      EnvelopeNamesSlot(rule, h, j, id.number, r, received);
    }
  }

  lemma EntryNextEpoch(
    h: History, side: Side, r: nat, received: nat, delivered: set<Envelope>, id: SkippedId, key: Key)
    requires RootsOk(h) && r + 2 < |h.roots| && EntryOk(h, side, r, received, delivered, id, key)
    ensures EntryOk(h, side, r + 2, 0, delivered, id, key)
  {
    var k := EntrySlot(h, side, r, received, delivered, id, key);
    hide RootsOk, MessageKeyAt;
  }

  lemma CoveredNextEpoch(
    rule: ResetRule, h: History, side: Side, r: nat, received: nat, skipped: map<SkippedId, Key>, delivered: set<Envelope>)
    requires RootsOk(h) && r + 2 < |h.roots| && Owner(r) != side
    requires Covered(rule, h, side, r, received, skipped, delivered) && (rule.Once? ==> received >= |h.log[r]|)
    requires DeliveredBehind(h, side, r, received, delivered)
    ensures Covered(rule, h, side, r + 2, 0, skipped, delivered) && DeliveredBehind(h, side, r + 2, 0, delivered)
  {
    assert Owner(r + 1) == side;
    hide RootsOk;
  }

  /** Moving to the next epoch, all of the last one being behind when lengths are reset once. */
  lemma NextEpochOk(
    rule: ResetRule, h: History, side: Side, r: nat, received: nat, skipped: map<SkippedId, Key>, delivered: set<Envelope>)
    requires RootsOk(h) && r + 2 < |h.roots| && Owner(r) != side
    requires CacheOk(rule, h, side, r, received, skipped, delivered)
    requires rule.Once? ==> received >= |h.log[r]|
    ensures CacheOk(rule, h, side, r + 2, 0, skipped, delivered)
  {
    CacheParts(rule, h, side, r, received, skipped, delivered);
    CacheParts(rule, h, side, r + 2, 0, skipped, delivered);
    hide CacheOk, EntryOk, Covered, DeliveredBehind;
    CoveredNextEpoch(rule, h, side, r, received, skipped, delivered);
    forall id | id in skipped ensures EntryOk(h, side, r + 2, 0, delivered, id, skipped[id]) {
      EntryNextEpoch(h, side, r, received, delivered, id, skipped[id]);
    }
  }

  /** The log grows by a message at the end of an epoch of one side's, or by a new epoch. */
  ghost predicate Grown(h: History, g: History) {
    && |h.log| <= |g.log| && |h.secrets| <= |g.secrets| && |h.roots| <= |g.roots|
    && g.secrets[..|h.secrets|] == h.secrets
    && g.roots[..|h.roots|] == h.roots
    && (forall k :: 0 <= k < |h.log| ==> |h.log[k]| <= |g.log[k]|)
    && (forall k, n :: Slot(h, k, n) ==> g.log[k][n] == h.log[k][n])
  }

  /** A side's cache does not notice the log growing, as long as new messages lie ahead of it. */
  lemma GrowKeepsCache(
    rule: ResetRule, h: History, g: History, side: Side, r: nat, received: nat, skipped: map<SkippedId, Key>,
    delivered: set<Envelope>)
    requires RootsOk(h) && RootsOk(g) && LogOk(rule, g) && Grown(h, g) && r < |h.roots|
    requires CacheOk(rule, h, side, r, received, skipped, delivered) && Recorded(h, delivered)
    requires received <= |h.log[r]|
    requires forall k :: 0 <= k < r && Owner(k) != side ==> |g.log[k]| == |h.log[k]|
    ensures CacheOk(rule, g, side, r, received, skipped, delivered)
  {
    forall i | i in skipped ensures EntryOk(g, side, r, received, delivered, i, skipped[i]) {
      var j := EntrySlot(h, side, r, received, delivered, i, skipped[i]);
      assert g.log[j][i.number] == h.log[j][i.number];
      assert g.secrets[j] == g.secrets[..|h.secrets|][j] && g.secrets[j - 1] == g.secrets[..|h.secrets|][j - 1];
      assert g.roots[j - 1] == g.roots[..|h.roots|][j - 1];
    }
    forall k, n | Slot(g, k, n) && k <= r && Owner(k) != side && g.log[k][n].envelope !in delivered
                  && ((k == r && n < received) || (k < r && rule.Once?))
      ensures IdIn(g, k, n, skipped)
    {
      assert Slot(h, k, n);
      assert g.secrets[k] == g.secrets[..|h.secrets|][k];
      assert IdIn(h, k, n, skipped);
    }
    forall k, n | Slot(g, k, n) && Owner(k) != side && g.log[k][n].envelope in delivered
      ensures k <= r && (k == r ==> n < received)
    {
      var j, m :| Slot(h, j, m) && h.log[j][m].envelope == g.log[k][n].envelope;
      assert Slot(g, j, m) && g.log[j][m] == h.log[j][m];
      EnvelopeNamesSlot(rule, g, j, m, k, n);
    }
  }
}

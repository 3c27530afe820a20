/** As written: what becomes of the messages of an epoch once its receiver has left it. */
module ConversationTail {
  import opened Bytes
  import opened Primitives
  import opened RatchetState
  import opened SkipLemmas
  import opened Conversation
  import opened ConversationCache
  import opened ConversationDelivery
  import opened ConversationAcceptance
  import opened ConversationRuns
  import opened ConversationSteps

  /** Storing keys of one ratchet key leaves those of the others alone. */
  lemma FilledElsewhere(skipped: map<SkippedId, Key>, remote: PublicKey, chain: Key, from: nat, until: nat, id: SkippedId)
    requires from <= until && id.key != remote
    ensures id in Filled(skipped, remote, chain, from, until) <==> id in skipped
  {
    FilledKeys(skipped, remote, chain, from, until);
  }

  lemma OtherKey(h: History, j: int, k: int)
    requires RootsOk(h) && 0 <= j < |h.secrets| && 0 <= k < |h.secrets| && j != k
    ensures PublicKey(h.secrets[j]) != PublicKey(h.secrets[k])
  {
  }

  lemma CachedKeepsOld(
    h: History, side: Side, d: nat, s: State, delivered: set<Envelope>, header: ParsedHeader, j: int, k: int, n: nat)
    requires RootsOk(h) && 1 <= d < |h.roots| && WellAt(Twice, h, side, d, s, delivered)
    requires 1 <= j < |h.secrets| && header.key == PublicKey(h.secrets[j]) && IdIn(h, j, header.number, s.skipped)
    requires 1 <= k < |h.secrets| && (k, n) != (j, header.number)
    ensures IdIn(h, k, n, TakeKey(s, header).state.skipped) <==> IdIn(h, k, n, s.skipped)
  {
    if j != k {
      OtherKey(h, j, k);
    }
    hide SessionOk, CacheOk, WellAt, TakeKey, RootsOk;
    DueAhead(Twice, h, side, d, s, delivered);
    TakeCached(Twice, h, side, ReceiveEpoch(side, d), s, delivered, j, header);
  }

  lemma CurrentKeepsOld(
    h: History, side: Side, d: nat, s: State, delivered: set<Envelope>, header: ParsedHeader, k: int, n: nat)
    requires RootsOk(h) && 1 <= d < |h.roots| && WellAt(Twice, h, side, d, s, delivered)
    requires 1 <= k < ReceiveEpoch(side, d) && header.key == PublicKey(h.secrets[ReceiveEpoch(side, d)])
    requires s.received <= header.number && TakeKey(s, header).key.Ok?
    ensures IdIn(h, k, n, TakeKey(s, header).state.skipped) <==> IdIn(h, k, n, s.skipped)
  {
    var r := ReceiveEpoch(side, d);
    DueAhead(Twice, h, side, d, s, delivered);
    OtherKey(h, r, k);
    hide SessionOk, CacheOk, WellAt, TakeKey;
    TakeCurrent(Twice, h, side, d, s, delivered, header);
    FilledElsewhere(s.skipped, PublicKey(h.secrets[r]), ChainAt(Start(h, r), s.received), s.received, header.number,
                    SkippedId(PublicKey(h.secrets[k]), n));
  }

  lemma NewKeepsOld(
    h: History, side: Side, d: nat, s: State, delivered: set<Envelope>, header: ParsedHeader, k: int, n: nat)
    requires RootsOk(h) && 1 <= d && d + 1 < |h.roots| && Owner(d) == side && WellAt(Twice, h, side, d, s, delivered)
    requires 1 <= k <= d && header.key == PublicKey(h.secrets[d + 1])
    requires header.previous == PreviousOf(Twice, h, d + 1)
    requires TakeKey(s, header).key.Ok?
    ensures IdIn(h, k, n, TakeKey(s, header).state.skipped) <==> IdIn(h, k, n, s.skipped)
  {
    DueAhead(Twice, h, side, d, s, delivered);
    OtherKey(h, d + 1, k);
    assert Crossed(s, header.key, 0) == Stepped(ApplyRemoteRatchet(s, header.key), Pass);
    hide SessionOk, CacheOk, WellAt, TakeKey, Crossed;
    TakeNew(Twice, h, side, d, s, delivered, header);
    FilledElsewhere(s.skipped, PublicKey(h.secrets[d + 1]), ChainAt(Start(h, d + 1), 0), 0, header.number,
                    SkippedId(PublicKey(h.secrets[k]), n));
  }

  /** Taking a due message touches no cached key of another message of the epochs then behind. */
  lemma TakingKeepsOld(
    h: History, side: Side, d: nat, s: State, delivered: set<Envelope>, j: int, m: nat, k: int, n: nat)
    requires RootsOk(h) && LogOk(Twice, h) && 1 <= d < |h.roots| <= d + 2 && WellAt(Twice, h, side, d, s, delivered)
    requires Due(Twice, h, side, d, s, delivered, j, m) && m < U32_LIMIT
    requires PreviousOf(Twice, h, j) < U32_LIMIT && 1 <= k && (k, n) != (j, m)
    requires k < ReceiveEpoch(side, DepthAfter(side, d, j))
    ensures IdIn(h, k, n, TakeKey(s, HeaderAt(Twice, h, j, m)).state.skipped) <==> IdIn(h, k, n, s.skipped)
  {
    hide *;
    DueCases(Twice, h, side, d, s, delivered, j, m);
    var header := HeaderAt(Twice, h, j, m);
    if IdIn(h, j, m, s.skipped) {
      CachedKeepsOld(h, side, d, s, delivered, header, j, k, n);
    } else if j == ReceiveEpoch(side, d) {
      CurrentKeepsOld(h, side, d, s, delivered, header, k, n);
    } else {
      NewKeepsOld(h, side, d, s, delivered, header, k, n);
    }
  }

  lemma DeliveryKeepsOld(t: Talk, to: Side, j: int, m: nat, side: Side, k: int, n: nat)
    requires Invariant(Twice, t) && DueAt(Twice, t, to, j, m) && Slot(t.history, k, n) && Owner(k) != side
    ensures var message := t.history.log[j][m];
            KeptAlike(t, Hand(t, to, message.envelope, message.associatedData), side, k, n)
  {
    hide *;
    DueIsSlot(Twice, t, to, j, m);
    DeliveredDepth(Twice, t, to, j, m);
    var message := t.history.log[j][m];
    OtherSideStays(t, to, message.envelope, message.associatedData);
    var u := Hand(t, to, message.envelope, message.associatedData);
    if to == side {
      ReceiverKeepsOld(t, side, j, m, k, n);
      ReceiverAlike(t, u, side, j, m, k, n);
    } else {
      OtherAlike(t, u, to, side, j, m, k, n);
    }
  }

  lemma ReceiverAlike(t: Talk, u: Talk, side: Side, j: int, m: nat, k: int, n: nat)
    requires |t.history.secrets| == |t.history.log| && Slot(t.history, k, n) && Slot(t.history, j, m)
    requires m < U32_LIMIT && PreviousOf(Twice, t.history, j) < U32_LIMIT
    requires u.history == t.history && u.delivered == t.delivered + {t.history.log[j][m].envelope}
    requires Depth(t, side) >= 0 && Depth(u, side) == DepthAfter(side, Depth(t, side), j)
    requires SessionOf(u, side) == TakeKey(SessionOf(t, side), HeaderAt(Twice, t.history, j, m)).state
    requires KeepsUnless(t, side, j, m, k, n)
    ensures KeptAlike(t, u, side, k, n)
  {
    hide TakeKey;
  }

  lemma OtherAlike(t: Talk, u: Talk, to: Side, side: Side, j: int, m: nat, k: int, n: nat)
    requires |t.history.secrets| == |t.history.log| && Slot(t.history, k, n) && Slot(t.history, j, m)
    requires u.history == t.history && u.delivered == t.delivered + {t.history.log[j][m].envelope}
    requires side != to && PartyOf(u, Other(to)) == PartyOf(t, Other(to))
    ensures KeptAlike(t, u, side, k, n)
  {
  }

  /** Taking message `m` of epoch `j` keeps the cached key of message `n` of epoch `k`, unless that is it. */
  ghost predicate KeepsUnless(t: Talk, side: Side, j: int, m: nat, k: int, n: nat)
    requires |t.history.secrets| == |t.history.log| && Slot(t.history, k, n) && Slot(t.history, j, m)
    requires m < U32_LIMIT && PreviousOf(Twice, t.history, j) < U32_LIMIT
    requires Depth(t, side) >= 0
  {
    var d, s := Depth(t, side), SessionOf(t, side);
    k < ReceiveEpoch(side, DepthAfter(side, d, j)) && t.history.log[k][n].envelope != t.history.log[j][m].envelope ==>
      (IdIn(t.history, k, n, TakeKey(s, HeaderAt(Twice, t.history, j, m)).state.skipped) <==> IdIn(t.history, k, n, s.skipped))
  }

  lemma ReceiverKeepsOld(t: Talk, side: Side, j: int, m: nat, k: int, n: nat)
    requires Invariant(Twice, t) && DueAt(Twice, t, side, j, m) && Slot(t.history, k, n) && m < U32_LIMIT
    requires PreviousOf(Twice, t.history, j) < U32_LIMIT
    ensures Depth(t, side) >= 0 && |t.history.secrets| == |t.history.log| && KeepsUnless(t, side, j, m, k, n)
  {
    Standing(Twice, t, side);
    var d := Depth(t, side);
    if k < ReceiveEpoch(side, DepthAfter(side, d, j)) && t.history.log[k][n].envelope != t.history.log[j][m].envelope {
      TakingKeepsOld(t.history, side, d, SessionOf(t, side), t.delivered, j, m, k, n);
    }
    hide WellAt, RootsOk, LogOk, TakeKey;
  }

  lemma NextKeepsOld(client: Client, t: Talk, e: Event, side: Side, k: int, n: nat)
    requires Invariant(Twice, t) && Allowed(Twice, client, t, e) && Slot(t.history, k, n) && Owner(k) != side
    ensures KeptAlike(t, Next(Twice, client, t, e), side, k, n)
  {
    HistoryShape(Twice, t);
    match e
    case Sends(sender, plaintext, data, nonce, draw) =>
      SendKeepsOld(Twice, t, sender, plaintext, data, nonce, draw, side, k, n);
    case Arrives(to, envelope, data) =>
      hide KeptAlike, Invariant, Hand, Unforged, Due;
      if client.InMemory? {
        var j, m: nat :| IsDue(Twice, t.history, to, Depth(t, to), SessionOf(t, to), t.delivered, envelope, data, j, m);
        DeliveryKeepsOld(t, to, j, m, side, k, n);
      } else if Decrypt(SessionOf(t, to), envelope, data).result.Ok? {
        var j, m := AcceptedMessage(Twice, t, to, envelope, data);
        DeliveryKeepsOld(t, to, j, m, side, k, n);
      } else {
        NothingChanges(t, side, k, n);
      }
  }

  lemma NothingChanges(t: Talk, side: Side, k: int, n: nat)
    requires |t.history.secrets| == |t.history.log| && Slot(t.history, k, n)
    ensures KeptAlike(t, t, side, k, n)
  {
  }

  lemma ReceiveEpochGrows(side: Side, d: nat, e: nat)
    requires d <= e
    ensures ReceiveEpoch(side, d) <= ReceiveEpoch(side, e)
  {
  }

  lemma KeptAlikeOn(t: Talk, u: Talk, v: Talk, side: Side, k: int, n: nat)
    requires KeptAlike(t, u, side, k, n) && KeptAlike(u, v, side, k, n) && k < ReceiveEpochOf(u, side)
    requires Depth(t, side) >= 0
    ensures KeptAlike(t, v, side, k, n) && k < ReceiveEpochOf(v, side)
  {
    ReceiveEpochGrows(side, Depth(u, side), Depth(v, side));
  }

  /** Once an epoch is left, no step changes what the cache holds of its undelivered messages. */
  lemma {:induction false} RunKeepsOld(client: Client, t: Talk, events: seq<Event>, side: Side, k: int, n: nat)
    requires Invariant(Twice, t) && IsRun(Twice, client, t, events)
    requires Slot(t.history, k, n) && Owner(k) != side && Depth(t, side) >= 0 && k < ReceiveEpochOf(t, side)
    ensures KeptAlike(t, Run(Twice, client, t, events), side, k, n)
    ensures k < ReceiveEpochOf(Run(Twice, client, t, events), side)
    decreases |events|
  {
    HistoryShape(Twice, t);
    hide Invariant, KeptAlike, Allowed, Next;
    NothingChanges(t, side, k, n);
    if events != [] {
      var u := Next(Twice, client, t, events[0]);
      NextKeepsInvariant(Twice, client, t, events[0]);
      NextKeepsOld(client, t, events[0], side, k, n);
      AlikeSlot(t, u, side, k, n);
      KeptAlikeOn(t, t, u, side, k, n);
      RunKeepsOld(client, u, events[1..], side, k, n);
      KeptAlikeOn(t, u, Run(Twice, client, u, events[1..]), side, k, n);
    }
  }

  lemma AlikeSlot(t: Talk, u: Talk, side: Side, k: int, n: nat)
    requires KeptAlike(t, u, side, k, n) && Depth(t, side) >= 0
    ensures Slot(u.history, k, n) && Depth(u, side) >= 0
  {
  }

  /** While an epoch is being received, the cache holds exactly its undelivered messages already passed. */
  lemma PassedIsCached(t: Talk, side: Side, k: int, n: nat)
    requires Invariant(Twice, t) && Slot(t.history, k, n) && Owner(k) != side
    requires Depth(t, side) >= 0 && k == ReceiveEpoch(side, Depth(t, side))
    requires t.history.log[k][n].envelope !in t.delivered
    ensures IdIn(t.history, k, n, SessionOf(t, side).skipped) <==> n < SessionOf(t, side).received
  {
    Standing(Twice, t, side);
    var d, s := Depth(t, side), SessionOf(t, side);
    DueAhead(Twice, t.history, side, d, s, t.delivered);
    hide Invariant, SessionOk, WellAt, LogOk;
    PassedIsCachedAt(t.history, side, k, s.received, s.skipped, t.delivered, n);
  }

  lemma PassedIsCachedAt(
    h: History, side: Side, r: nat, received: nat, skipped: map<SkippedId, Key>, delivered: set<Envelope>, n: nat)
    requires RootsOk(h) && r < |h.roots| && CacheOk(Twice, h, side, r, received, skipped, delivered)
    requires Slot(h, r, n) && Owner(r) != side && h.log[r][n].envelope !in delivered
    ensures IdIn(h, r, n, skipped) <==> n < received
  {
    if IdIn(h, r, n, skipped) {
      var id := SkippedId(PublicKey(h.secrets[r]), n);
      EntryPlace(h, side, r, received, delivered, id, skipped[id], r);
    }
  }

  /**
    As written, after the step with which a side leaves an epoch, and in every later state of
    every run, an undelivered message of that epoch decrypts if and only if its key was cached
    when the epoch was left, that is, if and only if it had been passed; otherwise it is refused.
   */
  lemma CrossingLosesTheTail(client: Client, t: Talk, e: Event, events: seq<Event>, side: Side, k: int, n: nat)
    requires Invariant(Twice, t) && Allowed(Twice, client, t, e)
    requires IsRun(Twice, client, Next(Twice, client, t, e), events)
    requires Slot(t.history, k, n) && Owner(k) != side && Depth(t, side) >= 0
    requires k == ReceiveEpochOf(t, side) < ReceiveEpochOf(Next(Twice, client, t, e), side)
    requires t.history.log[k][n].envelope !in Run(Twice, client, Next(Twice, client, t, e), events).delivered
    ensures var u := Run(Twice, client, Next(Twice, client, t, e), events);
            var m := t.history.log[k][n];
            var result := Decrypt(SessionOf(u, side), m.envelope, m.associatedData).result;
            && Slot(u.history, k, n) && u.history.log[k][n] == m
            && (result == Ok(m.plaintext) <==> n < SessionOf(t, side).received)
            && (result.Ok? <==> n < SessionOf(t, side).received)
  {
    var next := Next(Twice, client, t, e);
    var u := Run(Twice, client, next, events);
    HistoryShape(Twice, t);
    NextKeepsInvariant(Twice, client, t, e);
    NextKeepsOld(client, t, e, side, k, n);
    hide Invariant, KeptAlike, Allowed, Next, Run, IsRun, Decrypt, Due;
    AlikeSlot(t, next, side, k, n);
    RunKeepsOld(client, next, events, side, k, n);
    KeptAlikeOn(t, next, u, side, k, n);
    RunKeepsInvariant(Twice, client, next, events);
    LateDecryptsIfCached(t, u, side, k, n);
  }

  lemma LateDecryptsIfCached(t: Talk, u: Talk, side: Side, k: int, n: nat)
    requires Invariant(Twice, t) && Invariant(Twice, u) && KeptAlike(t, u, side, k, n) && Owner(k) != side
    requires Depth(t, side) >= 0 && k == ReceiveEpochOf(t, side) < ReceiveEpochOf(u, side)
    requires t.history.log[k][n].envelope !in u.delivered
    ensures var m := t.history.log[k][n];
            var result := Decrypt(SessionOf(u, side), m.envelope, m.associatedData).result;
            && Slot(u.history, k, n) && u.history.log[k][n] == m
            && (result == Ok(m.plaintext) <==> n < SessionOf(t, side).received)
            && (result.Ok? <==> n < SessionOf(t, side).received)
  {
    hide Invariant, Decrypt;
    PassedIsCached(t, side, k, n);
    DeliveryIsExact(Twice, u, side, k, n);
  }
}

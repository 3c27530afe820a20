/** Which genuine envelopes a session decrypts, and what doing so leaves behind. */
module ConversationDelivery {
  import opened Bytes
  import opened Primitives
  import opened RatchetState
  import opened SkipLemmas
  import opened Conversation
  import opened ConversationCache

  /** Keys a session would store in closing the chain it is receiving, at a new epoch's first message. */
  function CatchUp(s: State, previous: nat): nat {
    Gap(s.received, previous)
  }

  /**
    The delivery rule, in the receiver's terms: the key is cached; or the message is in the
    epoch being received, at or past the receiving position; or its epoch is newer; and the
    keys to store fit beside those cached.
   */
  ghost predicate Fits(rule: ResetRule, h: History, r: nat, s: State, k: int, n: nat)
    requires 0 <= k < |h.secrets|
  {
    || IdIn(h, k, n, s.skipped)
    || (k == r && s.received <= n && |s.skipped| + (n - s.received) <= MAX_SKIPPED_MESSAGE_KEYS)
    || (k > r && |s.skipped| + CatchUp(s, PreviousOf(rule, h, k)) + n <= MAX_SKIPPED_MESSAGE_KEYS)
  }

  /** A sent and not yet delivered message of the other side that meets the rule. */
  ghost predicate Due(rule: ResetRule, h: History, side: Side, d: nat, s: State, delivered: set<Envelope>, k: int, n: nat)
    requires |h.secrets| == |h.log|
  {
    && Slot(h, k, n)
    && Owner(k) != side
    && h.log[k][n].envelope !in delivered
    && Fits(rule, h, ReceiveEpoch(side, d), s, k, n)
  }

  function HeaderOf(h: History, previous: nat, k: int, n: nat): ParsedHeader
    requires 0 <= k < |h.secrets| && n < U32_LIMIT && previous < U32_LIMIT
  {
    ParsedHeader(PublicKey(h.secrets[k]), previous, n)
  }

  lemma GenuineOpens(h: History, k: int, n: nat, previous: nat, m: Message)
    requires 1 <= k < |h.secrets| && |h.roots| == |h.secrets| && Genuine(h, k, n, previous, m)
    ensures ParseHeader(m.envelope.header) == Ok(HeaderOf(h, previous, k, n))
    ensures OpenMessage(MessageKeyAt(Start(h, k), n), HeaderOf(h, previous, k, n), m.envelope, m.associatedData)
            == Ok(m.plaintext)
  {
  }

  /** Having skipped to message `n` of a chain, and taken its key. */
  function Took(s: State, start: Key, n: nat, skipped: map<SkippedId, Key>): State {
    s.(receiving := Some(ChainAt(start, n + 1)), received := n + 1, skipped := skipped)
  }

  /** The cache after skipping from the receiving position to message `n` of epoch `r`. */
  function FilledTo(h: History, r: nat, s: State, n: nat): map<SkippedId, Key>
    requires 1 <= r < |h.secrets| == |h.roots|
  {
    FilledFrom(h, r, s.received, n, s.skipped)
  }

  lemma SkipForward(s: State, start: Key, n: nat)
    requires s.remote.Some? && s.receiving == Some(ChainAt(start, s.received)) && s.received <= n
    requires Vacant(s.skipped, s.remote.value, s.received, n)
    requires |s.skipped| <= MAX_SKIPPED_MESSAGE_KEYS
    ensures var t := SkipMessageKeys(s, n);
            && (t.outcome.Pass? <==> |s.skipped| + (n - s.received) <= MAX_SKIPPED_MESSAGE_KEYS)
            && (t.outcome.Pass? ==>
                  TakeNext(t.state)
                  == Taken(Took(s, start, n, Filled(s.skipped, s.remote.value, s.receiving.value, s.received, n)),
                           Ok(MessageKeyAt(start, n))))
  {
    SkipExact(s, n);
    ChainAtAdd(start, s.received, n - s.received);
  }

  // The three ways the key of a genuine message is found

  lemma EntryPlace(
    h: History, side: Side, r: nat, received: nat, delivered: set<Envelope>, id: SkippedId, key: Key, k: int)
    requires RootsOk(h) && r < |h.roots| && EntryOk(h, side, r, received, delivered, id, key)
    requires 1 <= k < |h.secrets| && id.key == PublicKey(h.secrets[k])
    ensures key == MessageKeyAt(Start(h, k), id.number) && k <= r && Owner(k) != side
    ensures Slot(h, k, id.number) && h.log[k][id.number].envelope !in delivered
    ensures k == r ==> id.number < received
  {
    var j := EntrySlot(h, side, r, received, delivered, id, key);
    assert j == k;
  }

  lemma TakeCached(
    rule: ResetRule, h: History, side: Side, r: nat, s: State, delivered: set<Envelope>, k: int, header: ParsedHeader)
    requires RootsOk(h) && r < |h.roots| && CacheOk(rule, h, side, r, s.received, s.skipped, delivered)
    requires 1 <= k < |h.secrets| && header.key == PublicKey(h.secrets[k]) && IdIn(h, k, header.number, s.skipped)
    ensures TakeKey(s, header)
            == Taken(s.(skipped := s.skipped - {SkippedId(header.key, header.number)}),
                     Ok(MessageKeyAt(Start(h, k), header.number)))
    ensures k <= r && Owner(k) != side && Slot(h, k, header.number)
    ensures h.log[k][header.number].envelope !in delivered
  {
    var id := SkippedId(header.key, header.number);
    EntryPlace(h, side, r, s.received, delivered, id, s.skipped[id], k);
  }

  /** At or past the receiving position of the present epoch, taking a key works if the gap fits. */
  lemma TakeCurrent(
    rule: ResetRule, h: History, side: Side, d: nat, s: State, delivered: set<Envelope>, header: ParsedHeader)
    requires RootsOk(h) && 1 <= d < |h.roots| && SessionOk(rule, h, side, d, s) && 1 <= ReceiveEpoch(side, d)
    requires CacheOk(rule, h, side, ReceiveEpoch(side, d), s.received, s.skipped, delivered)
    requires header.key == PublicKey(h.secrets[ReceiveEpoch(side, d)]) && s.received <= header.number
    ensures var r := ReceiveEpoch(side, d);
            var t := TakeKey(s, header);
            && (t.key.Ok? <==> |s.skipped| + (header.number - s.received) <= MAX_SKIPPED_MESSAGE_KEYS)
            && (t.key.Ok? ==>
                  t == Taken(Took(s, Start(h, r), header.number, FilledTo(h, r, s, header.number)),
                             Ok(MessageKeyAt(Start(h, r), header.number))))
  {
    var r := ReceiveEpoch(side, d);
    NothingAhead(rule, h, side, r, s.received, s.skipped, delivered, header.number + 1);
    TakeForward(s, Start(h, r), header);
  }

  lemma TakeForward(s: State, start: Key, header: ParsedHeader)
    requires s.remote == Some(header.key) && s.receiving == Some(ChainAt(start, s.received)) && s.received <= header.number
    requires Vacant(s.skipped, header.key, s.received, header.number + 1)
    requires |s.skipped| <= MAX_SKIPPED_MESSAGE_KEYS
    ensures var n, t := header.number, TakeKey(s, header);
            && (t.key.Ok? <==> |s.skipped| + (n - s.received) <= MAX_SKIPPED_MESSAGE_KEYS)
            && (t.key.Ok? ==>
                  t == Taken(Took(s, start, n, Filled(s.skipped, header.key, s.receiving.value, s.received, n)),
                             Ok(MessageKeyAt(start, n))))
  {
    SkipForward(s, start, header.number);
  }

  /** The session after closing one chain and opening the next epoch. */
  function Crossed(s: State, key: PublicKey, previous: nat): Stepped {
    var closed := SkipMessageKeys(s, previous);
    if closed.outcome.Fail? then closed else Stepped(ApplyRemoteRatchet(closed.state, key), Pass)
  }

  /** The state after storing the keys up to message `n` of epoch `r`. */
  function StoredTo(h: History, r: nat, s: State, n: nat): State
    requires 1 <= r < |h.secrets| == |h.roots|
  {
    s.(receiving := Some(ChainAt(Start(h, r), n)), received := n, skipped := FilledTo(h, r, s, n))
  }

  lemma SkipWithin(h: History, r: nat, s: State, n: nat)
    requires 1 <= r < |h.secrets| == |h.roots|
    requires s.remote == Some(PublicKey(h.secrets[r])) && s.receiving == Some(ChainAt(Start(h, r), s.received))
    requires Vacant(s.skipped, s.remote.value, s.received, n) && |s.skipped| <= MAX_SKIPPED_MESSAGE_KEYS
    requires s.received <= n
    ensures var t := SkipMessageKeys(s, n);
            && (t.outcome.Pass? <==> |s.skipped| + (n - s.received) <= MAX_SKIPPED_MESSAGE_KEYS)
            && (t.outcome.Pass? ==> t.state == StoredTo(h, r, s, n))
  {
    SkipExact(s, n);
    ChainAtAdd(Start(h, r), s.received, n - s.received);
  }

  lemma StoredOk(
    rule: ResetRule, h: History, side: Side, r: nat, s: State, delivered: set<Envelope>, n: nat)
    requires RootsOk(h) && 1 <= r < |h.roots| && Owner(r) != side
    requires CacheOk(rule, h, side, r, s.received, s.skipped, delivered)
    requires s.received <= n <= |h.log[r]| && |s.skipped| + (n - s.received) <= MAX_SKIPPED_MESSAGE_KEYS
    ensures CacheOk(rule, h, side, r, n, FilledTo(h, r, s, n), delivered)
    ensures |FilledTo(h, r, s, n)| == |s.skipped| + (n - s.received)
  {
    FillOk(rule, h, side, r, s.received, n, s.skipped, delivered);
    NothingAhead(rule, h, side, r, s.received, s.skipped, delivered, n);
    FilledSize(s.skipped, PublicKey(h.secrets[r]), ChainAt(Start(h, r), s.received), s.received, n);
  }

  /** The session once the chain of epoch `r` is closed, storing `fill` keys. */
  ghost predicate ClosedOk(
    rule: ResetRule, h: History, side: Side, r: nat, s: State, c: State, fill: nat, delivered: set<Envelope>)
    requires RootsOk(h) && r < |h.roots|
  {
    && c == s.(receiving := c.receiving, received := c.received, skipped := c.skipped)
    && |c.skipped| == |s.skipped| + fill
    && CacheOk(rule, h, side, r, c.received, c.skipped, delivered)
    && (rule.Once? ==> c.received >= |h.log[r]|)
  }

  lemma CacheBounded(
    rule: ResetRule, h: History, side: Side, r: nat, received: nat, skipped: map<SkippedId, Key>, delivered: set<Envelope>)
    requires RootsOk(h) && r < |h.roots| && CacheOk(rule, h, side, r, received, skipped, delivered)
    ensures |skipped| <= MAX_SKIPPED_MESSAGE_KEYS
  {
  }

  /** A chain with nothing left to store is closed as it stands. */
  lemma CloseAsIs(rule: ResetRule, h: History, side: Side, r: nat, s: State, previous: nat, delivered: set<Envelope>)
    requires RootsOk(h) && r < |h.roots| && CacheOk(rule, h, side, r, s.received, s.skipped, delivered)
    requires previous <= s.received && (rule.Once? ==> previous == |h.log[r]|)
    ensures SkipMessageKeys(s, previous) == Stepped(s, Pass)
    ensures ClosedOk(rule, h, side, r, s, s, 0, delivered)
  {
    hide CacheOk;
  }

  /** A session that speaks in epoch `d` listens in the epoch before, if there is one. */
  lemma ListensBehind(rule: ResetRule, h: History, side: Side, d: nat, s: State)
    requires RootsOk(h) && 1 <= d && d + 1 < |h.roots| && Owner(d) == side && SessionOk(rule, h, side, d, s)
    ensures |h.secrets| == |h.roots| == |h.log| && (d == 1 ==> PreviousOf(rule, h, d + 1) == 0)
    ensures d > 1 ==>
              && Owner(d - 1) != side && s.remote == Some(PublicKey(h.secrets[d - 1]))
              && s.receiving == Some(ChainAt(Start(h, d - 1), s.received)) && s.received <= |h.log[d - 1]|
  {
    hide ChainAt, Start;
  }

  /** Closing the chain of the present epoch. */
  lemma CloseOk(rule: ResetRule, h: History, side: Side, d: nat, s: State, delivered: set<Envelope>)
    requires RootsOk(h) && 1 <= d && d + 1 < |h.roots| && Owner(d) == side && SessionOk(rule, h, side, d, s)
    requires CacheOk(rule, h, side, d - 1, s.received, s.skipped, delivered)
    ensures var closed := SkipMessageKeys(s, PreviousOf(rule, h, d + 1));
            var fill := CatchUp(s, PreviousOf(rule, h, d + 1));
            && (closed.outcome.Pass? <==> |s.skipped| + fill <= MAX_SKIPPED_MESSAGE_KEYS)
            && (closed.outcome.Pass? ==> ClosedOk(rule, h, side, d - 1, s, closed.state, fill, delivered))
  {
    CacheBounded(rule, h, side, d - 1, s.received, s.skipped, delivered);
    ListensBehind(rule, h, side, d, s);
    hide CacheOk, ClosedOk, SkipMessageKeys, ChainAt, Start, SessionOk, RootsOk;
    if s.received < PreviousOf(rule, h, d + 1) {
      CloseByStoring(rule, h, side, d - 1, s, delivered);
    } else {
      CloseAsIs(rule, h, side, d - 1, s, PreviousOf(rule, h, d + 1), delivered);
    }
  }

  lemma CloseByStoring(rule: ResetRule, h: History, side: Side, r: nat, s: State, delivered: set<Envelope>)
    requires RootsOk(h) && 1 <= r < |h.roots| && Owner(r) != side
    requires s.remote == Some(PublicKey(h.secrets[r])) && s.receiving == Some(ChainAt(Start(h, r), s.received))
    requires CacheOk(rule, h, side, r, s.received, s.skipped, delivered) && s.received <= |h.log[r]|
    ensures var closed := SkipMessageKeys(s, |h.log[r]|);
            var fill := |h.log[r]| - s.received;
            && (closed.outcome.Pass? <==> |s.skipped| + fill <= MAX_SKIPPED_MESSAGE_KEYS)
            && (closed.outcome.Pass? ==> ClosedOk(rule, h, side, r, s, closed.state, fill, delivered))
  {
    NothingAhead(rule, h, side, r, s.received, s.skipped, delivered, |h.log[r]|);
    SkipWithin(h, r, s, |h.log[r]|);
    if |s.skipped| + (|h.log[r]| - s.received) <= MAX_SKIPPED_MESSAGE_KEYS {
      StoredOk(rule, h, side, r, s, delivered, |h.log[r]|);
    }
  }

  lemma ApplyOk(rule: ResetRule, h: History, side: Side, d: nat, s: State, c: State)
    requires RootsOk(h) && 1 <= d && d + 1 < |h.roots| && Owner(d) == side && SessionOk(rule, h, side, d, s)
    requires c == s.(receiving := c.receiving, received := c.received, skipped := c.skipped)
    ensures SessionOk(rule, h, side, d + 1, ApplyRemoteRatchet(c, PublicKey(h.secrets[d + 1])))
  {
    DhCommutes(h.secrets[d], h.secrets[d + 1]);
    assert Start(h, d + 1) == ChainAt(Start(h, d + 1), 0);
  }

  /** The session that has crossed to depth `d`. */
  ghost predicate CrossedOk(
    rule: ResetRule, h: History, side: Side, d: nat, c: State, size: nat, delivered: set<Envelope>)
    requires RootsOk(h) && 1 <= d < |h.roots|
  {
    && SessionOk(rule, h, side, d, c)
    && c.received == 0
    && |c.skipped| == size
    && CacheOk(rule, h, side, d, 0, c.skipped, delivered)
  }

  lemma ClosedThenCrossed(
    rule: ResetRule, h: History, side: Side, d: nat, s: State, c: State, fill: nat, delivered: set<Envelope>)
    requires RootsOk(h) && 1 <= d && d + 1 < |h.roots| && Owner(d) == side && SessionOk(rule, h, side, d, s)
    requires ClosedOk(rule, h, side, d - 1, s, c, fill, delivered)
    ensures CrossedOk(rule, h, side, d + 1, ApplyRemoteRatchet(c, PublicKey(h.secrets[d + 1])),
                      |s.skipped| + fill, delivered)
  {
    hide CacheOk;
    ApplyOk(rule, h, side, d, s, c);
    ClosedCacheCrosses(rule, h, side, d - 1, s, c, fill, delivered);
  }

  lemma ClosedCacheCrosses(
    rule: ResetRule, h: History, side: Side, r: nat, s: State, c: State, fill: nat, delivered: set<Envelope>)
    requires RootsOk(h) && r + 2 < |h.roots| && Owner(r) != side
    requires ClosedOk(rule, h, side, r, s, c, fill, delivered)
    ensures CacheOk(rule, h, side, r + 2, 0, c.skipped, delivered)
  {
    NextEpochOk(rule, h, side, r, c.received, c.skipped, delivered);
  }

  /** Crossing into the epoch the other side has opened. */
  lemma CrossOk(rule: ResetRule, h: History, side: Side, d: nat, s: State, delivered: set<Envelope>)
    requires RootsOk(h) && 1 <= d && d + 1 < |h.roots| && Owner(d) == side && SessionOk(rule, h, side, d, s)
    requires CacheOk(rule, h, side, d - 1, s.received, s.skipped, delivered)
    ensures var c := Crossed(s, PublicKey(h.secrets[d + 1]), PreviousOf(rule, h, d + 1));
            var fill := CatchUp(s, PreviousOf(rule, h, d + 1));
            && (c.outcome.Pass? <==> |s.skipped| + fill <= MAX_SKIPPED_MESSAGE_KEYS)
            && (c.outcome.Pass? ==> CrossedOk(rule, h, side, d + 1, c.state, |s.skipped| + fill, delivered))
  {
    CloseOk(rule, h, side, d, s, delivered);
    var closed := SkipMessageKeys(s, PreviousOf(rule, h, d + 1));
    if closed.outcome.Pass? {
      ClosedThenCrossed(rule, h, side, d, s, closed.state, CatchUp(s, PreviousOf(rule, h, d + 1)), delivered);
    }
  }

  /** The key of a message in the epoch the other side has opened. */
  lemma TakeNew(
    rule: ResetRule, h: History, side: Side, d: nat, s: State, delivered: set<Envelope>, header: ParsedHeader)
    requires RootsOk(h) && 1 <= d && d + 1 < |h.roots| && Owner(d) == side
    requires SessionOk(rule, h, side, d, s) && CacheOk(rule, h, side, d - 1, s.received, s.skipped, delivered)
    requires header.key == PublicKey(h.secrets[d + 1]) && header.previous == PreviousOf(rule, h, d + 1)
    ensures var t := TakeKey(s, header);
            var c := Crossed(s, header.key, header.previous).state;
            && (t.key.Ok? <==>
                  |s.skipped| + CatchUp(s, PreviousOf(rule, h, d + 1)) + header.number <= MAX_SKIPPED_MESSAGE_KEYS)
            && (t.key.Ok? ==>
                  && CrossedOk(rule, h, side, d + 1, c,
                               |s.skipped| + CatchUp(s, PreviousOf(rule, h, d + 1)), delivered)
                  && t == Taken(Took(c, Start(h, d + 1), header.number, FilledTo(h, d + 1, c, header.number)),
                                Ok(MessageKeyAt(Start(h, d + 1), header.number))))
  {
    CrossOk(rule, h, side, d, s, delivered);
    NothingAhead(rule, h, side, d - 1, s.received, s.skipped, delivered, 0);
    TakeIsCrossThenSkip(s, header);
    var c := Crossed(s, header.key, header.previous);
    if c.outcome.Pass? {
      SkipAfterCrossing(rule, h, side, d + 1, c.state, |c.state.skipped|, delivered, header.number);
    }
  }

  lemma SkipAfterCrossing(
    rule: ResetRule, h: History, side: Side, d: nat, c: State, size: nat, delivered: set<Envelope>, n: nat)
    requires RootsOk(h) && 1 <= d < |h.roots| && ReceiveEpoch(side, d) == d
    requires CrossedOk(rule, h, side, d, c, size, delivered)
    ensures var a := SkipMessageKeys(c, n);
            && (a.outcome.Pass? <==> size + n <= MAX_SKIPPED_MESSAGE_KEYS)
            && (a.outcome.Pass? ==>
                  TakeNext(a.state) == Taken(Took(c, Start(h, d), n, FilledTo(h, d, c, n)), Ok(MessageKeyAt(Start(h, d), n))))
  {
    NothingAhead(rule, h, side, d, 0, c.skipped, delivered, n);
    SkipForward(c, Start(h, d), n);
  }

  lemma TakeIsCrossThenSkip(s: State, header: ParsedHeader)
    requires SkippedId(header.key, header.number) !in s.skipped && s.remote != Some(header.key)
    ensures var c := Crossed(s, header.key, header.previous);
            && (c.outcome.Fail? ==> TakeKey(s, header).key.Err?)
            && (c.outcome.Pass? ==>
                  var a := SkipMessageKeys(c.state, header.number);
                  && (a.outcome.Fail? ==> TakeKey(s, header).key.Err?)
                  && (a.outcome.Pass? ==> TakeKey(s, header) == TakeNext(a.state)))
  {
  }

  // The session and the system after a delivery

  lemma TookSession(
    rule: ResetRule, h: History, side: Side, d: nat, s: State, n: nat, skipped: map<SkippedId, Key>)
    requires RootsOk(h) && 1 <= d < |h.roots| && SessionOk(rule, h, side, d, s)
    requires Slot(h, ReceiveEpoch(side, d), n)
    ensures SessionOk(rule, h, side, d, Took(s, Start(h, ReceiveEpoch(side, d)), n, skipped))
  {
  }

  lemma TookCache(
    rule: ResetRule, h: History, side: Side, r: nat, s: State, delivered: set<Envelope>, n: nat)
    requires RootsOk(h) && LogOk(rule, h) && Slot(h, r, n) && Owner(r) != side
    requires CacheOk(rule, h, side, r, s.received, s.skipped, delivered)
    requires s.received <= n && |s.skipped| + (n - s.received) <= MAX_SKIPPED_MESSAGE_KEYS
    ensures CacheOk(rule, h, side, r, n + 1, FilledTo(h, r, s, n), delivered + {h.log[r][n].envelope})
  {
    FillOk(rule, h, side, r, s.received, n, s.skipped, delivered);
    TakeOk(rule, h, side, r, n, FilledTo(h, r, s, n), delivered);
  }

  lemma TookWell(
    rule: ResetRule, h: History, side: Side, d: nat, s: State, delivered: set<Envelope>, n: nat)
    requires RootsOk(h) && LogOk(rule, h) && 1 <= d < |h.roots| && WellAt(rule, h, side, d, s, delivered)
    requires Slot(h, ReceiveEpoch(side, d), n) && Owner(ReceiveEpoch(side, d)) != side
    requires s.received <= n && |s.skipped| + (n - s.received) <= MAX_SKIPPED_MESSAGE_KEYS
    ensures var r := ReceiveEpoch(side, d);
            WellAt(rule, h, side, d, Took(s, Start(h, r), n, FilledTo(h, r, s, n)),
                   delivered + {h.log[r][n].envelope})
  {
    var r := ReceiveEpoch(side, d);
    TookSession(rule, h, side, d, s, n, FilledTo(h, r, s, n));
    TookCache(rule, h, side, r, s, delivered, n);
  }

  lemma RemovedWell(
    rule: ResetRule, h: History, side: Side, d: nat, s: State, delivered: set<Envelope>, k: int, n: nat)
    requires RootsOk(h) && LogOk(rule, h) && 1 <= d < |h.roots| && WellAt(rule, h, side, d, s, delivered)
    requires Slot(h, k, n) && IdIn(h, k, n, s.skipped)
    ensures WellAt(rule, h, side, d, s.(skipped := s.skipped - {SkippedId(PublicKey(h.secrets[k]), n)}),
                   delivered + {h.log[k][n].envelope})
  {
    RemoveOk(rule, h, side, ReceiveEpoch(side, d), s.received, s.skipped, delivered, k, n);
  }

  /** Decryption succeeds when the key taken is the one the envelope was sealed under. */
  lemma OpensWithKey(h: History, k: int, n: nat, previous: nat, m: Message, s: State)
    requires 1 <= k < |h.secrets| && |h.roots| == |h.secrets| && Genuine(h, k, n, previous, m)
    requires TakeKey(s, HeaderOf(h, previous, k, n)).key == Ok(MessageKeyAt(Start(h, k), n))
    ensures Decrypt(s, m.envelope, m.associatedData).result == Ok(m.plaintext)
    ensures Decrypt(s, m.envelope, m.associatedData).state == TakeKey(s, HeaderOf(h, previous, k, n)).state
  {
    GenuineOpens(h, k, n, previous, m);
    DecryptIsParsed(s, m.envelope, m.associatedData, HeaderOf(h, previous, k, n));
  }

  lemma DecryptIsParsed(s: State, e: Envelope, associatedData: seq<byte>, header: ParsedHeader)
    requires e.version == RATCHET_VERSION && ParseHeader(e.header) == Ok(header)
    ensures Decrypt(s, e, associatedData) == DecryptParsed(s, header, e, associatedData)
  {
  }

  /** The depth of a session that has taken a message of epoch `k`. */
  function DepthAfter(side: Side, d: nat, k: int): nat {
    if k > ReceiveEpoch(side, d) then d + 1 else d
  }

  /** The key of message `n` of epoch `k` was taken, and left a session at depth `d`. */
  ghost predicate TakenWell(
    rule: ResetRule, h: History, side: Side, d: nat, t: Taken, delivered: set<Envelope>, k: int, n: nat)
    requires RootsOk(h) && Slot(h, k, n)
  {
    && 1 <= d < |h.roots|
    && t.key == Ok(MessageKeyAt(Start(h, k), n))
    && WellAt(rule, h, side, d, t.state, delivered + {h.log[k][n].envelope})
  }

  lemma DueFromCache(
    rule: ResetRule, h: History, side: Side, d: nat, s: State, delivered: set<Envelope>, k: int, header: ParsedHeader)
    requires RootsOk(h) && LogOk(rule, h) && 1 <= d < |h.roots| && WellAt(rule, h, side, d, s, delivered)
    requires Slot(h, k, header.number) && header.key == PublicKey(h.secrets[k]) && IdIn(h, k, header.number, s.skipped)
    ensures TakenWell(rule, h, side, d, TakeKey(s, header), delivered, k, header.number)
    ensures k <= ReceiveEpoch(side, d)
  {
    TakeCached(rule, h, side, ReceiveEpoch(side, d), s, delivered, k, header);
    RemovedWell(rule, h, side, d, s, delivered, k, header.number);
  }

  lemma DueFromChain(
    rule: ResetRule, h: History, side: Side, d: nat, s: State, delivered: set<Envelope>, header: ParsedHeader)
    requires RootsOk(h) && LogOk(rule, h) && 1 <= d < |h.roots| && WellAt(rule, h, side, d, s, delivered)
    requires var r := ReceiveEpoch(side, d);
             && Slot(h, r, header.number) && header.key == PublicKey(h.secrets[r])
             && s.received <= header.number
             && |s.skipped| + (header.number - s.received) <= MAX_SKIPPED_MESSAGE_KEYS
    ensures TakenWell(rule, h, side, d, TakeKey(s, header), delivered, ReceiveEpoch(side, d), header.number)
  {
    DueAhead(rule, h, side, d, s, delivered);
    TakeCurrent(rule, h, side, d, s, delivered, header);
    TookWell(rule, h, side, d, s, delivered, header.number);
    hide WellAt, TakeKey, Took, FilledTo;
  }

  /** The parts of a session at depth `d`. */
  lemma DueAhead(rule: ResetRule, h: History, side: Side, d: nat, s: State, delivered: set<Envelope>)
    requires RootsOk(h) && 1 <= d < |h.roots| && WellAt(rule, h, side, d, s, delivered)
    ensures SessionOk(rule, h, side, d, s)
    ensures CacheOk(rule, h, side, ReceiveEpoch(side, d), s.received, s.skipped, delivered)
    ensures Owner(d) == side ==> ReceiveEpoch(side, d) == d - 1
    ensures 1 <= ReceiveEpoch(side, d) ==> Owner(ReceiveEpoch(side, d)) != side
  {
    hide SessionOk, CacheOk;
  }

  lemma DueFromNewEpoch(
    rule: ResetRule, h: History, side: Side, d: nat, s: State, delivered: set<Envelope>, header: ParsedHeader)
    requires RootsOk(h) && LogOk(rule, h) && 1 <= d && d + 1 < |h.roots| && Owner(d) == side
    requires WellAt(rule, h, side, d, s, delivered)
    requires Slot(h, d + 1, header.number) && header.key == PublicKey(h.secrets[d + 1])
    requires header.previous == PreviousOf(rule, h, d + 1)
    requires |s.skipped| + CatchUp(s, header.previous) + header.number <= MAX_SKIPPED_MESSAGE_KEYS
    ensures TakenWell(rule, h, side, d + 1, TakeKey(s, header), delivered, d + 1, header.number)
  {
    DueAhead(rule, h, side, d, s, delivered);
    hide SessionOk, CacheOk, WellAt, TakeKey, Took, FilledTo, Crossed, RootsOk, LogOk;
    TakeNew(rule, h, side, d, s, delivered, header);
    var c := Crossed(s, header.key, header.previous).state;
    CrossedIsWell(rule, h, side, d + 1, c, |s.skipped| + CatchUp(s, header.previous), delivered);
    TookWell(rule, h, side, d + 1, c, delivered, header.number);
  }

  lemma CrossedIsWell(
    rule: ResetRule, h: History, side: Side, d: nat, c: State, size: nat, delivered: set<Envelope>)
    requires RootsOk(h) && 1 <= d < |h.roots| && Owner(d) != side && CrossedOk(rule, h, side, d, c, size, delivered)
    ensures WellAt(rule, h, side, d, c, delivered) && ReceiveEpoch(side, d) == d
    ensures c.received == 0 && |c.skipped| == size
  {
    hide SessionOk, CacheOk;
  }

  /** A message that is due is taken, and the session stays well. */
  lemma DueIsTaken(
    rule: ResetRule, h: History, side: Side, d: nat, s: State, delivered: set<Envelope>, k: int, n: nat)
    requires RootsOk(h) && LogOk(rule, h) && 1 <= d < |h.roots| <= d + 2 && WellAt(rule, h, side, d, s, delivered)
    requires Due(rule, h, side, d, s, delivered, k, n) && n < U32_LIMIT && PreviousOf(rule, h, k) < U32_LIMIT
    ensures TakenWell(rule, h, side, DepthAfter(side, d, k),
                      TakeKey(s, HeaderOf(h, PreviousOf(rule, h, k), k, n)), delivered, k, n)
  {
    hide WellAt, TakenWell, LogOk, TakeKey;
    var header := HeaderOf(h, PreviousOf(rule, h, k), k, n);
    if IdIn(h, k, n, s.skipped) {
      DueFromCache(rule, h, side, d, s, delivered, k, header);
    } else if k == ReceiveEpoch(side, d) {
      DueFromChain(rule, h, side, d, s, delivered, header);
    } else {
      assert k == d + 1 && Owner(d) == side;
      DueFromNewEpoch(rule, h, side, d, s, delivered, header);
    }
  }
}

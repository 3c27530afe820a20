/** What the invariant of a conversation says to a caller. */
module ConversationTheorems {
  import opened Bytes
  import opened Primitives
  import opened RatchetState
  import opened SkipLemmas
  import opened Conversation
  import opened ConversationCache
  import opened ConversationDelivery
  import opened ConversationAcceptance
  import opened ConversationRuns

  /**
    Lockstep: the root keys the two sides have held are prefixes of one history and differ by
    at most one step; each holds the last of its own; and when one is ahead, the other still
    holds the ratchet secret and the root key that the step was derived against.
   */
  lemma Lockstep(rule: ResetRule, t: Talk)
    requires Invariant(rule, t)
    ensures InLockstep(t.initiator, t.responder)
    ensures Depth(t, Initiator) < Depth(t, Responder) ==> Behind(t.initiator.session, t.responder.session)
    ensures Depth(t, Responder) < Depth(t, Initiator) ==> Behind(t.responder.session, t.initiator.session)
  {
    Steps(rule, t);
    BehindBy(rule, t, Initiator);
    BehindBy(rule, t, Responder);
    StandsAt(rule, t, Initiator);
    StandsAt(rule, t, Responder);
    hide Invariant, Behind;
    Prefixes(t.initiator, t.responder, t.history.roots);
  }

  ghost predicate InLockstep(a: Party, b: Party) {
    && (a.trail <= b.trail || b.trail <= a.trail)
    && -1 <= |a.trail| - |b.trail| <= 1
    && |a.trail| > 0 && a.session.root == a.trail[|a.trail| - 1]
    && |b.trail| > 0 && b.session.root == b.trail[|b.trail| - 1]
  }

  lemma Prefixes(a: Party, b: Party, roots: seq<Key>)
    requires HoldsPrefix(a, roots) && HoldsPrefix(b, roots) && -1 <= |a.trail| - |b.trail| <= 1
    ensures InLockstep(a, b)
  {
  }

  /** The party has held the first root keys of a history, and holds the last of those. */
  ghost predicate HoldsPrefix(p: Party, roots: seq<Key>) {
    && 0 < |p.trail| <= |roots|
    && p.trail == roots[..|p.trail|]
    && p.session.root == p.trail[|p.trail| - 1]
  }

  /** `leader` is one root step ahead, taken against the key pair and root that `s` still holds. */
  ghost predicate Behind(s: State, leader: State) {
    && leader.remote == Some(s.local.public)
    && s.local == PairOf(s.local.secret)
    && leader.root == RootKey(s.root, Dh(s.local.secret, leader.local.public))
  }

  lemma Steps(rule: ResetRule, t: Talk)
    requires Invariant(rule, t)
    ensures -1 <= Depth(t, Initiator) - Depth(t, Responder) <= 1
  {
    hide WellAt, LogOk, Recorded;
    Standing(rule, t, Initiator);
    Standing(rule, t, Responder);
  }

  lemma StandsAt(rule: ResetRule, t: Talk, side: Side)
    requires Invariant(rule, t)
    ensures HoldsPrefix(PartyOf(t, side), t.history.roots)
  {
    hide RootsOk, LogOk, CacheOk, Recorded;
  }

  lemma BehindBy(rule: ResetRule, t: Talk, side: Side)
    requires Invariant(rule, t)
    ensures Depth(t, side) < Depth(t, Other(side)) ==> Behind(SessionOf(t, side), SessionOf(t, Other(side)))
  {
    hide LogOk, CacheOk, Recorded;
    Standing(rule, t, side);
    Standing(rule, t, Other(side));
    var d := Depth(t, side);
    if d < Depth(t, Other(side)) {
      DhCommutes(t.history.secrets[d + 1], t.history.secrets[d]);
    }
  }

  /** A message already delivered is not accepted again, nor anything of it changed. */
  lemma NoSecondAcceptance(rule: ResetRule, t: Talk, side: Side, e: Envelope, data: seq<byte>)
    requires Invariant(rule, t) && Unforged(t.history, e) && e in t.delivered
    ensures Decrypt(SessionOf(t, side), e, data).result.Err?
  {
    if Decrypt(SessionOf(t, side), e, data).result.Ok? {
      var k, n := AcceptedMessage(rule, t, side, e, data);
    }
  }

  // The previous chain length

  /** Under `Once` a header carries the length of its sender's previous chain; as written, zero. */
  lemma PreviousLengths(rule: ResetRule, t: Talk, k: int, n: nat)
    requires Invariant(rule, t) && Slot(t.history, k, n)
    ensures t.history.log[k][n].envelope.header.previous
            == if rule.Once? && k >= 2 then |t.history.log[k - 2]| else 0
  {
    assert Genuine(t.history, k, n, PreviousOf(rule, t.history, k), t.history.log[k][n]);
  }

  /** Under `Once`, every undelivered message of an epoch left behind is due. */
  lemma LateMessagesAreDue(t: Talk, side: Side, k: int, n: nat)
    requires Invariant(Once, t) && Slot(t.history, k, n) && Owner(k) != side
    requires t.history.log[k][n].envelope !in t.delivered
    requires Depth(t, side) >= 0 && k < ReceiveEpoch(side, Depth(t, side))
    ensures DueAt(Once, t, side, k, n)
    ensures var m := t.history.log[k][n];
            Decrypt(SessionOf(t, side), m.envelope, m.associatedData).result == Ok(m.plaintext)
  {
    Standing(Once, t, side);
    var d := Depth(t, side);
    LateIsCached(t.history, side, ReceiveEpoch(side, d), SessionOf(t, side), t.delivered, k, n);
    DueDecrypts(Once, t, side, k, n);
  }

  lemma LateIsCached(h: History, side: Side, r: nat, s: State, delivered: set<Envelope>, k: int, n: nat)
    requires RootsOk(h) && r < |h.roots| && CacheOk(Once, h, side, r, s.received, s.skipped, delivered)
    requires Slot(h, k, n) && k < r && Owner(k) != side && h.log[k][n].envelope !in delivered
    ensures IdIn(h, k, n, s.skipped)
  {
  }

  /** The session will not decrypt the message. */
  predicate Refuses(s: State, m: Message) {
    Decrypt(s, m.envelope, m.associatedData).result.Err?
  }

  // Over whole runs

  /** Message `n` of epoch `k` is decrypted by `side`, to its plaintext, exactly if it is due there. */
  ghost predicate DeliversExactly(rule: ResetRule, t: Talk, side: Side, k: int, n: nat) {
    && Invariant(rule, t)
    && (Slot(t.history, k, n) && Owner(k) != side ==>
          var m := t.history.log[k][n];
          var result := Decrypt(SessionOf(t, side), m.envelope, m.associatedData).result;
          if DueAt(rule, t, side, k, n) then result == Ok(m.plaintext) else result.Err?)
  }

  /** Every run from every bootstrap, with loss and reordering, ends where delivery is exact. */
  lemma RunsDeliverExactly(
    rule: ResetRule, client: Client, shared: Key, ephemeral: Secret, signedPreKey: Secret, events: seq<Event>,
    side: Side, k: int, n: nat)
    requires ephemeral != signedPreKey && IsRun(rule, client, Begin(shared, ephemeral, signedPreKey), events)
    ensures DeliversExactly(rule, Run(rule, client, Begin(shared, ephemeral, signedPreKey), events), side, k, n)
  {
    ConversationsStayWell(rule, client, shared, ephemeral, signedPreKey, events);
    var t := Run(rule, client, Begin(shared, ephemeral, signedPreKey), events);
    hide Invariant, Run, IsRun, Begin, Decrypt, Due;
    if Slot(t.history, k, n) && Owner(k) != side {
      DeliveryIsExact(rule, t, side, k, n);
    }
  }

  /** What an envelope in the hands of the network can do to `side`. */
  ghost predicate AcceptsOnlySent(rule: ResetRule, t: Talk, side: Side, e: Envelope, data: seq<byte>) {
    && Invariant(rule, t)
    && (Unforged(t.history, e) && Decrypt(SessionOf(t, side), e, data).result.Ok? ==>
          && e !in t.delivered
          && exists k: int, n: nat ::
               && Slot(t.history, k, n) && Owner(k) != side
               && t.history.log[k][n].envelope == e && t.history.log[k][n].associatedData == data
               && Decrypt(SessionOf(t, side), e, data).result.value == t.history.log[k][n].plaintext)
  }

  /** After every run, what is accepted was sent by the other side, is unchanged, and was not accepted before. */
  lemma RunsAcceptOnlySent(
    rule: ResetRule, client: Client, shared: Key, ephemeral: Secret, signedPreKey: Secret, events: seq<Event>,
    side: Side, e: Envelope, data: seq<byte>)
    requires ephemeral != signedPreKey && IsRun(rule, client, Begin(shared, ephemeral, signedPreKey), events)
    ensures AcceptsOnlySent(rule, Run(rule, client, Begin(shared, ephemeral, signedPreKey), events), side, e, data)
  {
    ConversationsStayWell(rule, client, shared, ephemeral, signedPreKey, events);
    var t := Run(rule, client, Begin(shared, ephemeral, signedPreKey), events);
    hide Run, IsRun, Begin, Decrypt;
    AcceptsOnlyDue(rule, t, side, e, data);
  }

  lemma AcceptsOnlyDue(rule: ResetRule, t: Talk, side: Side, e: Envelope, data: seq<byte>)
    requires Invariant(rule, t)
    ensures AcceptsOnlySent(rule, t, side, e, data)
  {
    RootsNotEmpty(rule, t);
    hide Invariant, Decrypt, Unforged;
    if Unforged(t.history, e) && Decrypt(SessionOf(t, side), e, data).result.Ok? {
      var k, n := AcceptedMessage(rule, t, side, e, data);
    }
  }

  lemma RootsNotEmpty(rule: ResetRule, t: Talk)
    requires Invariant(rule, t)
    ensures |t.history.roots| > 0
  {
  }

  /** After every run the two sides are in lockstep. */
  lemma RunsStayInLockstep(
    rule: ResetRule, client: Client, shared: Key, ephemeral: Secret, signedPreKey: Secret, events: seq<Event>)
    requires ephemeral != signedPreKey && IsRun(rule, client, Begin(shared, ephemeral, signedPreKey), events)
    ensures var t := Run(rule, client, Begin(shared, ephemeral, signedPreKey), events);
            && InLockstep(t.initiator, t.responder)
            && (Depth(t, Initiator) < Depth(t, Responder) ==> Behind(t.initiator.session, t.responder.session))
            && (Depth(t, Responder) < Depth(t, Initiator) ==> Behind(t.responder.session, t.initiator.session))
  {
    ConversationsStayWell(rule, client, shared, ephemeral, signedPreKey, events);
    hide Run, IsRun, Begin, Invariant;
    Lockstep(rule, Run(rule, client, Begin(shared, ephemeral, signedPreKey), events));
  }
}

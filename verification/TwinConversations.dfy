/**
  One conversation held twice: by sessions that overwrite the previous chain length twice, as
  the code does, and by sessions that overwrite it once, as they were meant to. Each side hears
  its own peer's envelopes, which differ in that field and in what is bound to it.
 */
module TwinConversations {
  import opened Bytes
  import opened Primitives
  import opened RatchetState
  import opened SkipLemmas
  import opened Conversation
  import opened ConversationCache
  import opened ConversationDelivery
  import opened ConversationAcceptance
  import opened ConversationRuns
  import opened ConversationSteps
  import EagerConversation

  // The relation

  ghost predicate SameContent(a: Message, b: Message) {
    a.plaintext == b.plaintext && a.associatedData == b.associatedData && a.nonce == b.nonce
  }

  ghost predicate SameHistory(g: History, h: History) {
    && g.secrets == h.secrets && g.roots == h.roots && |g.log| == |h.log|
    && (forall k :: 0 <= k < |g.log| ==> |g.log[k]| == |h.log[k]|)
    && (forall k, n :: Slot(g, k, n) && Slot(h, k, n) ==> SameContent(g.log[k][n], h.log[k][n]))
  }

  ghost predicate SameDelivered(g: History, h: History, inG: set<Envelope>, inH: set<Envelope>) {
    forall k, n :: Slot(g, k, n) && Slot(h, k, n) ==>
      (g.log[k][n].envelope in inG <==> h.log[k][n].envelope in inH)
  }

  ghost predicate SamePlace(p: Party, q: Party) {
    |p.trail| == |q.trail| && p.session.received == q.session.received
  }

  ghost predicate Twin(t: Talk, u: Talk) {
    && Invariant(Twice, t) && Invariant(Once, u)
    && SameHistory(t.history, u.history)
    && SameDelivered(t.history, u.history, t.delivered, u.delivered)
    && SamePlace(t.initiator, u.initiator) && SamePlace(t.responder, u.responder)
  }

  lemma TwinFrom(t: Talk, u: Talk)
    requires Invariant(Twice, t) && Invariant(Once, u) && SameHistory(t.history, u.history)
    requires SameDelivered(t.history, u.history, t.delivered, u.delivered)
    requires forall side :: SamePlace(PartyOf(t, side), PartyOf(u, side))
    ensures Twin(t, u)
  {
    assert PartyOf(t, Initiator) == t.initiator && PartyOf(u, Initiator) == u.initiator;
    assert PartyOf(t, Responder) == t.responder && PartyOf(u, Responder) == u.responder;
    hide Invariant, SameHistory, SameDelivered, SamePlace;
  }

  lemma TwinParts(t: Talk, u: Talk, side: Side)
    requires Twin(t, u)
    ensures Invariant(Twice, t) && Invariant(Once, u) && SameHistory(t.history, u.history)
    ensures SameDelivered(t.history, u.history, t.delivered, u.delivered)
    ensures SamePlace(PartyOf(t, side), PartyOf(u, side))
  {
    hide Invariant, SameHistory, SameDelivered, SamePlace;
  }

  lemma BeginTwin(shared: Key, ephemeral: Secret, signedPreKey: Secret)
    requires ephemeral != signedPreKey
    ensures Twin(Begin(shared, ephemeral, signedPreKey), Begin(shared, ephemeral, signedPreKey))
  {
    BeginOk(Twice, shared, ephemeral, signedPreKey);
    BeginOk(Once, shared, ephemeral, signedPreKey);
    hide Invariant;
  }

  /** Everything but the previous chain length and the cache. */
  ghost predicate SameSession(a: State, b: State) {
    && a.root == b.root && a.local == b.local && a.remote == b.remote && a.remote.Some?
    && a.sending == b.sending && a.receiving == b.receiving
    && a.sent == b.sent && a.received == b.received
  }

  lemma SessionsAlike(g: History, h: History, side: Side, d: nat, a: State, b: State)
    requires RootsOk(g) && RootsOk(h) && SameHistory(g, h) && 1 <= d < |g.roots|
    requires SessionOk(Twice, g, side, d, a) && SessionOk(Once, h, side, d, b) && a.received == b.received
    ensures SameSession(a, b) && b.previous < U32_LIMIT && a.previous < U32_LIMIT
  {
    var r := ReceiveEpoch(side, d);
    assert r >= 1 ==> Start(g, r) == Start(h, r);
    assert Start(g, d) == Start(h, d);
  }

  lemma TwinSessions(t: Talk, u: Talk, side: Side)
    requires Twin(t, u)
    ensures SameSession(SessionOf(t, side), SessionOf(u, side))
    ensures SessionOf(u, side).previous < U32_LIMIT && SessionOf(t, side).previous < U32_LIMIT
    ensures Depth(t, side) == Depth(u, side) >= 1
  {
    TwinParts(t, u, side);
    Standing(Twice, t, side);
    Standing(Once, u, side);
    hide Twin, CacheOk, LogOk, PartyOk, Recorded, SessionOk, RootsOk, SameHistory;
    SessionsAlike(t.history, u.history, side, Depth(t, side), SessionOf(t, side), SessionOf(u, side));
  }

  // Speaking

  /** Envelopes that differ at most in the previous chain length and what is bound to it. */
  ghost predicate Alike(e: Envelope, f: Envelope) {
    && e.version == f.version
    && e.header.key == f.header.key && e.header.number == f.header.number
    && e.nonce == f.nonce
    && e.ciphertext.Encoded? && e.ciphertext.value.Sealed? && f.ciphertext.Encoded? && f.ciphertext.value.Sealed?
    && e.ciphertext.value.key == f.ciphertext.value.key && e.ciphertext.value.nonce == f.ciphertext.value.nonce
    && e.ciphertext.value.plaintext == f.ciphertext.value.plaintext
  }

  ghost predicate ResultsAlike(a: Result<Envelope>, b: Result<Envelope>) {
    if a.Ok? && b.Ok? then Alike(a.value, b.value) else a == b
  }

  lemma EncryptAlike(a: State, b: State, plaintext: seq<byte>, data: seq<byte>, nonce: Nonce, draw: Secret)
    requires SameSession(a, b) && a.sent < U32_LIMIT && a.previous < U32_LIMIT && b.previous < U32_LIMIT
    ensures var x, y := Encrypt(Twice, a, plaintext, data, nonce, draw), Encrypt(Once, b, plaintext, data, nonce, draw);
            && ResultsAlike(x.result, y.result) && (x.result.Ok? <==> y.result.Ok?)
            && x.state.root == y.state.root
            && x.state.received == a.received && y.state.received == b.received
  {
    hide RatchetAad;
  }

  lemma AppendedSame(g: History, h: History, d: int, a: Message, b: Message)
    requires SameHistory(g, h) && 0 <= d < |g.log| && SameContent(a, b)
    ensures SameHistory(g.(log := g.log[d := g.log[d] + [a]]), h.(log := h.log[d := h.log[d] + [b]]))
  {
    var x, y := g.(log := g.log[d := g.log[d] + [a]]), h.(log := h.log[d := h.log[d] + [b]]);
    forall k, n | Slot(x, k, n) && Slot(y, k, n) ensures SameContent(x.log[k][n], y.log[k][n]) {
      assert Slot(g, k, n) ==> Slot(h, k, n);
    }
  }

  lemma ExtendedSame(g: History, h: History, draw: Secret, root: Key, a: Message, b: Message)
    requires SameHistory(g, h) && SameContent(a, b)
    ensures SameHistory(History(g.secrets + [draw], g.roots + [root], g.log + [[a]]),
                        History(h.secrets + [draw], h.roots + [root], h.log + [[b]]))
  {
    var x := History(g.secrets + [draw], g.roots + [root], g.log + [[a]]);
    var y := History(h.secrets + [draw], h.roots + [root], h.log + [[b]]);
    forall k, n | Slot(x, k, n) && Slot(y, k, n) ensures SameContent(x.log[k][n], y.log[k][n]) {
      assert k < |g.log| ==> Slot(g, k, n) && Slot(h, k, n);
    }
  }

  /** A new message has not been delivered. */
  lemma NewNotDelivered(rule: ResetRule, h: History, g: History, delivered: set<Envelope>, k: int, n: int)
    requires Recorded(h, delivered) && RootsOk(g) && LogOk(rule, g) && KeepsSlots(h, g)
    requires Slot(g, k, n) && !Slot(h, k, n)
    ensures g.log[k][n].envelope !in delivered
  {
    hide RootsOk, LogOk;
    if g.log[k][n].envelope in delivered {
      var i, j :| Slot(h, i, j) && h.log[i][j].envelope == g.log[k][n].envelope;
      EnvelopeNamesSlot(rule, g, i, j, k, n);
    }
  }

  ghost predicate KeepsSlots(h: History, g: History) {
    forall k, n :: Slot(h, k, n) ==> Slot(g, k, n) && g.log[k][n] == h.log[k][n]
  }

  lemma DeliveredStaysSame(
    g: History, h: History, g2: History, h2: History, inG: set<Envelope>, inH: set<Envelope>)
    requires SameHistory(g, h) && SameDelivered(g, h, inG, inH)
    requires Recorded(g, inG) && RootsOk(g2) && LogOk(Twice, g2) && KeepsSlots(g, g2)
    requires Recorded(h, inH) && RootsOk(h2) && LogOk(Once, h2) && KeepsSlots(h, h2)
    ensures SameDelivered(g2, h2, inG, inH)
  {
    forall k, n | Slot(g2, k, n) && Slot(h2, k, n)
      ensures g2.log[k][n].envelope in inG <==> h2.log[k][n].envelope in inH {
      assert Slot(g, k, n) <==> Slot(h, k, n);
      if !Slot(g, k, n) {
        NewNotDelivered(Twice, g, g2, inG, k, n);
        NewNotDelivered(Once, h, h2, inH, k, n);
      }
    }
  }

  lemma TwinCanSend(t: Talk, u: Talk, side: Side, draw: Secret)
    requires Twin(t, u) && CanSend(t, side, draw)
    ensures CanSend(u, side, draw)
  {
    TwinSessions(t, u, side);
    TwinParts(t, u, side);
    hide Twin, Invariant, SameDelivered;
  }

  lemma SendKeepsSlots(
    rule: ResetRule, t: Talk, side: Side, plaintext: seq<byte>, data: seq<byte>, nonce: Nonce, draw: Secret)
    requires Invariant(rule, t) && CanSend(t, side, draw)
    ensures KeepsSlots(t.history, Send(rule, t, side, plaintext, data, nonce, draw).history)
  {
    HistoryShape(rule, t);
    hide Invariant, Send, KeptAlike;
    var u := Send(rule, t, side, plaintext, data, nonce, draw);
    forall k, n | Slot(t.history, k, n) ensures Slot(u.history, k, n) && u.history.log[k][n] == t.history.log[k][n] {
      SendKeepsOld(rule, t, side, plaintext, data, nonce, draw, side, k, n);
      AlikeEntry(t, u, side, k, n);
    }
  }

  lemma AlikeEntry(t: Talk, u: Talk, side: Side, k: int, n: nat)
    requires KeptAlike(t, u, side, k, n)
    ensures Slot(u.history, k, n) && u.history.log[k][n] == t.history.log[k][n]
  {
  }

  lemma SpokenHistories(
    t: Talk, u: Talk, side: Side, plaintext: seq<byte>, data: seq<byte>, nonce: Nonce, draw: Secret)
    requires SameHistory(t.history, u.history) && CanSend(t, side, draw) && CanSend(u, side, draw)
    requires Depth(t, side) == Depth(u, side) && 0 <= Depth(t, side) < |t.history.log|
    requires SameSession(SessionOf(t, side), SessionOf(u, side))
    ensures SameHistory(Send(Twice, t, side, plaintext, data, nonce, draw).history,
                        Send(Once, u, side, plaintext, data, nonce, draw).history)
  {
    var a, b := SessionOf(t, side), SessionOf(u, side);
    EncryptAlike(a, b, plaintext, data, nonce, draw);
    SendHistory(Twice, t, side, plaintext, data, nonce, draw);
    SendHistory(Once, u, side, plaintext, data, nonce, draw);
    var x, y := Encrypt(Twice, a, plaintext, data, nonce, draw), Encrypt(Once, b, plaintext, data, nonce, draw);
    assert a.root == b.root;
    hide Encrypt, Send, SameHistory, SameSession;
    if x.result.Ok? {
      var m, n := Message(plaintext, data, nonce, x.result.value), Message(plaintext, data, nonce, y.result.value);
      if x.state.root == a.root {
        AppendedSame(t.history, u.history, Depth(t, side), m, n);
      } else {
        ExtendedSame(t.history, u.history, draw, x.state.root, m, n);
      }
    }
  }

  lemma SpokenPlaces(
    t: Talk, u: Talk, speaker: Side, plaintext: seq<byte>, data: seq<byte>, nonce: Nonce, draw: Secret, side: Side)
    requires CanSend(t, speaker, draw) && CanSend(u, speaker, draw)
    requires SamePlace(PartyOf(t, side), PartyOf(u, side)) && SameSession(SessionOf(t, speaker), SessionOf(u, speaker))
    ensures SamePlace(PartyOf(Send(Twice, t, speaker, plaintext, data, nonce, draw), side),
                      PartyOf(Send(Once, u, speaker, plaintext, data, nonce, draw), side))
  {
    EncryptAlike(SessionOf(t, speaker), SessionOf(u, speaker), plaintext, data, nonce, draw);
    EagerConversation.SendParties(Twice, t, speaker, plaintext, data, nonce, draw);
    EagerConversation.SendParties(Once, u, speaker, plaintext, data, nonce, draw);
    hide Encrypt, Send;
  }

  lemma WellFormedTalk(rule: ResetRule, t: Talk)
    requires Invariant(rule, t)
    ensures RootsOk(t.history) && LogOk(rule, t.history) && Recorded(t.history, t.delivered)
  {
  }

  /** Speaking keeps the twins alike, and shows envelopes that are. */
  lemma TwinSpeaks(t: Talk, u: Talk, side: Side, plaintext: seq<byte>, data: seq<byte>, nonce: Nonce, draw: Secret)
    requires Twin(t, u) && CanSend(t, side, draw)
    ensures CanSend(u, side, draw)
    ensures Twin(Send(Twice, t, side, plaintext, data, nonce, draw), Send(Once, u, side, plaintext, data, nonce, draw))
    ensures ResultsAlike(Encrypt(Twice, SessionOf(t, side), plaintext, data, nonce, draw).result,
                         Encrypt(Once, SessionOf(u, side), plaintext, data, nonce, draw).result)
  {
    hide *;
    TwinCanSend(t, u, side, draw);
    TwinSessions(t, u, side);
    TwinParts(t, u, Initiator);
    TwinParts(t, u, Responder);
    var t2, u2 := Send(Twice, t, side, plaintext, data, nonce, draw), Send(Once, u, side, plaintext, data, nonce, draw);
    SendKeepsInvariant(Twice, t, side, plaintext, data, nonce, draw);
    SendKeepsInvariant(Once, u, side, plaintext, data, nonce, draw);
    SpeaksWithin(t, u, side, draw);
    EncryptAlike(SessionOf(t, side), SessionOf(u, side), plaintext, data, nonce, draw);
    SpokenHistories(t, u, side, plaintext, data, nonce, draw);
    SpokenDelivered(t, u, side, plaintext, data, nonce, draw);
    SpokenPlaces(t, u, side, plaintext, data, nonce, draw, Initiator);
    SpokenPlaces(t, u, side, plaintext, data, nonce, draw, Responder);
    forall s ensures SamePlace(PartyOf(t2, s), PartyOf(u2, s)) {
      assert s == Initiator || s == Responder;
    }
    TwinFrom(t2, u2);
  }

  lemma SpeaksWithin(t: Talk, u: Talk, side: Side, draw: Secret)
    requires Twin(t, u) && CanSend(t, side, draw) && CanSend(u, side, draw)
    ensures 0 <= Depth(t, side) < |t.history.log|
    ensures var a, b := SessionOf(t, side), SessionOf(u, side);
            a.sent < U32_LIMIT && a.previous < U32_LIMIT && b.sent < U32_LIMIT && b.previous < U32_LIMIT
  {
    Standing(Twice, t, side);
    HistoryShape(Twice, t);
    hide Invariant, SameHistory, SameDelivered;
  }

  lemma SpokenDelivered(
    t: Talk, u: Talk, side: Side, plaintext: seq<byte>, data: seq<byte>, nonce: Nonce, draw: Secret)
    requires Invariant(Twice, t) && Invariant(Once, u) && CanSend(t, side, draw) && CanSend(u, side, draw)
    requires SameHistory(t.history, u.history) && SameDelivered(t.history, u.history, t.delivered, u.delivered)
    ensures var t2 := Send(Twice, t, side, plaintext, data, nonce, draw);
            var u2 := Send(Once, u, side, plaintext, data, nonce, draw);
            SameDelivered(t2.history, u2.history, t2.delivered, u2.delivered)
  {
    hide *;
    var t2, u2 := Send(Twice, t, side, plaintext, data, nonce, draw), Send(Once, u, side, plaintext, data, nonce, draw);
    SendKeepsInvariant(Twice, t, side, plaintext, data, nonce, draw);
    SendKeepsInvariant(Once, u, side, plaintext, data, nonce, draw);
    SendKeepsSlots(Twice, t, side, plaintext, data, nonce, draw);
    SendKeepsSlots(Once, u, side, plaintext, data, nonce, draw);
    SendDelivers(Twice, t, side, plaintext, data, nonce, draw);
    SendDelivers(Once, u, side, plaintext, data, nonce, draw);
    WellFormedTalk(Twice, t);
    WellFormedTalk(Once, u);
    WellFormedTalk(Twice, t2);
    WellFormedTalk(Once, u2);
    DeliveredStaysSame(t.history, u.history, t2.history, u2.history, t.delivered, u.delivered);
  }

  lemma SendDelivers(
    rule: ResetRule, t: Talk, side: Side, plaintext: seq<byte>, data: seq<byte>, nonce: Nonce, draw: Secret)
    requires CanSend(t, side, draw)
    ensures Send(rule, t, side, plaintext, data, nonce, draw).delivered == t.delivered
  {
    hide Encrypt;
  }

  // Hearing

  /** What is cached on one side of the twins is cached on the other; in the present epoch, exactly. */
  lemma CachedAlike(t: Talk, u: Talk, side: Side, k: int, n: nat)
    requires Twin(t, u) && Slot(t.history, k, n) && Owner(k) != side && Depth(t, side) >= 0
    ensures Slot(u.history, k, n) && |t.history.secrets| == |t.history.log| && |u.history.secrets| == |u.history.log|
    ensures IdIn(t.history, k, n, SessionOf(t, side).skipped) ==> IdIn(u.history, k, n, SessionOf(u, side).skipped)
    ensures k >= ReceiveEpoch(side, Depth(t, side)) ==>
              (IdIn(t.history, k, n, SessionOf(t, side).skipped) <==> IdIn(u.history, k, n, SessionOf(u, side).skipped))
  {
    TwinParts(t, u, side);
    TwinSessions(t, u, side);
    Standing(Twice, t, side);
    Standing(Once, u, side);
    HistoryShape(Twice, t);
    HistoryShape(Once, u);
    var d := Depth(t, side);
    assert Slot(u.history, k, n);
    hide Twin, Invariant, SessionOk, CacheOk, WellAt, LogOk;
    DueAhead(Twice, t.history, side, d, SessionOf(t, side), t.delivered);
    DueAhead(Once, u.history, side, d, SessionOf(u, side), u.delivered);
    CachedIff(Twice, t.history, side, ReceiveEpoch(side, d), SessionOf(t, side), t.delivered, k, n);
    CachedIff(Once, u.history, side, ReceiveEpoch(side, d), SessionOf(u, side), u.delivered, k, n);
  }

  /** Which messages of the other side are cached. */
  lemma CachedIff(rule: ResetRule, h: History, side: Side, r: nat, s: State, delivered: set<Envelope>, k: int, n: nat)
    requires RootsOk(h) && r < |h.roots| && CacheOk(rule, h, side, r, s.received, s.skipped, delivered)
    requires Slot(h, k, n) && Owner(k) != side
    ensures IdIn(h, k, n, s.skipped) ==>
              h.log[k][n].envelope !in delivered && k <= r && (k == r ==> n < s.received)
    ensures h.log[k][n].envelope !in delivered && ((k == r && n < s.received) || (k < r && rule.Once?)) ==>
              IdIn(h, k, n, s.skipped)
  {
    if IdIn(h, k, n, s.skipped) {
      var id := SkippedId(PublicKey(h.secrets[k]), n);
      EntryPlace(h, side, r, s.received, delivered, id, s.skipped[id], k);
    }
  }

  lemma HeardDelivered(g: History, h: History, inG: set<Envelope>, inH: set<Envelope>, k: int, n: nat)
    requires RootsOk(g) && LogOk(Twice, g) && Slot(g, k, n) && RootsOk(h) && LogOk(Once, h) && Slot(h, k, n)
    requires SameDelivered(g, h, inG, inH)
    ensures SameDelivered(g, h, inG + {g.log[k][n].envelope}, inH + {h.log[k][n].envelope})
  {
    hide RootsOk, LogOk;
    forall i, j | Slot(g, i, j) && Slot(h, i, j)
      ensures g.log[i][j].envelope in inG + {g.log[k][n].envelope}
              <==> h.log[i][j].envelope in inH + {h.log[k][n].envelope} {
      if g.log[i][j].envelope == g.log[k][n].envelope {
        EnvelopeNamesSlot(Twice, g, i, j, k, n);
      }
      if h.log[i][j].envelope == h.log[k][n].envelope {
        EnvelopeNamesSlot(Once, h, i, j, k, n);
      }
    }
  }

  /** The parts of a message that is due. */
  lemma DueParts(rule: ResetRule, t: Talk, side: Side, k: int, n: nat)
    requires Invariant(rule, t) && DueAt(rule, t, side, k, n)
    ensures Slot(t.history, k, n) && Owner(k) != side && t.history.log[k][n].envelope !in t.delivered
    ensures Depth(t, side) >= 1 && |t.history.secrets| == |t.history.log| == |t.history.roots| <= Depth(t, side) + 2
    ensures Fits(rule, t.history, ReceiveEpoch(side, Depth(t, side)), SessionOf(t, side), k, n)
  {
    Standing(rule, t, side);
    hide Fits, LogOk, WellAt, PartyOk, Recorded, InStep;
  }

  /** A message due at the code's side of the twins is cached on both sides or on neither. */
  lemma DueCachedAlike(t: Talk, u: Talk, side: Side, k: int, n: nat)
    requires Twin(t, u) && DueAt(Twice, t, side, k, n)
    ensures Slot(t.history, k, n) && Slot(u.history, k, n) && Owner(k) != side
    ensures |t.history.secrets| == |t.history.log| && |u.history.secrets| == |u.history.log|
    ensures Depth(t, side) == Depth(u, side) >= 1
    ensures SessionOf(t, side).received == SessionOf(u, side).received
    ensures IdIn(t.history, k, n, SessionOf(t, side).skipped) <==> IdIn(u.history, k, n, SessionOf(u, side).skipped)
    ensures var d, s := Depth(u, side), SessionOf(u, side);
            !IdIn(u.history, k, n, s.skipped) ==>
              || (k == ReceiveEpoch(side, d) && s.received <= n)
              || (k == d + 1 && k > ReceiveEpoch(side, d) && Owner(d) == side)
  {
    DueParts(Twice, t, side, k, n);
    CachedAlike(t, u, side, k, n);
    TwinSessions(t, u, side);
    NewEpochIs(side, Depth(t, side), k);
    hide Twin, Invariant, Due, IdIn, Owner, ReceiveEpoch;
  }

  /** Where the twins' receivers stand after each has taken its own copy of a message. */
  lemma HeardPlace(t: Talk, u: Talk, to: Side, k: int, n: nat)
    requires Twin(t, u) && DueAt(Twice, t, to, k, n) && DueAt(Once, u, to, k, n)
    requires n < |t.history.log[k]| && n < |u.history.log[k]|
    ensures var a, b := t.history.log[k][n], u.history.log[k][n];
            SamePlace(PartyOf(Hand(t, to, a.envelope, a.associatedData), to),
                      PartyOf(Hand(u, to, b.envelope, b.associatedData), to))
  {
    DueCachedAlike(t, u, to, k, n);
    DueIsSlot(Twice, t, to, k, n);
    DueIsSlot(Once, u, to, k, n);
    HeardReceived(Twice, t, to, k, n);
    HeardReceived(Once, u, to, k, n);
    hide Twin, Invariant, Hand, IdIn, Due, HeaderAt;
  }

  lemma HeardReceived(rule: ResetRule, t: Talk, to: Side, k: int, n: nat)
    requires Invariant(rule, t) && DueAt(rule, t, to, k, n) && n < |t.history.log[k]|
    ensures var a, s := t.history.log[k][n], SessionOf(t, to);
            var next := Hand(t, to, a.envelope, a.associatedData);
            && Depth(t, to) >= 1 && Depth(next, to) == DepthAfter(to, Depth(t, to), k)
            && SessionOf(next, to).received == if IdIn(t.history, k, n, s.skipped) then s.received else n + 1
  {
    DueIsSlot(rule, t, to, k, n);
    DeliveredDepth(rule, t, to, k, n);
    Standing(rule, t, to);
    TakenReceived(rule, t.history, to, Depth(t, to), SessionOf(t, to), t.delivered, k, n);
    hide Hand, IdIn, Due, HeaderAt, WellAt, TakeKey, PartyOk, RootsOk, LogOk, Recorded, InStep;
  }

  lemma HeardElsewhere(t: Talk, u: Talk, to: Side, e: Envelope, a: seq<byte>, f: Envelope, b: seq<byte>)
    requires SamePlace(PartyOf(t, Other(to)), PartyOf(u, Other(to)))
    ensures SamePlace(PartyOf(Hand(t, to, e, a), Other(to)), PartyOf(Hand(u, to, f, b), Other(to)))
  {
    OtherSideStays(t, to, e, a);
    OtherSideStays(u, to, f, b);
    hide Hand, SamePlace;
  }

  lemma SameAt(g: History, h: History, k: int, n: nat)
    requires SameHistory(g, h) && Slot(g, k, n)
    ensures Slot(h, k, n) && SameContent(g.log[k][n], h.log[k][n])
  {
  }

  /** Each side hears its own copy of a message that is due on both: the same plaintext, and the twins stay alike. */
  lemma TwinHears(t: Talk, u: Talk, to: Side, k: int, n: nat)
    requires Twin(t, u) && DueAt(Twice, t, to, k, n) && DueAt(Once, u, to, k, n)
    ensures Slot(t.history, k, n) && Slot(u.history, k, n)
    ensures var a, b := t.history.log[k][n], u.history.log[k][n];
            && Decrypt(SessionOf(t, to), a.envelope, a.associatedData).result == Ok(a.plaintext)
            && Decrypt(SessionOf(u, to), b.envelope, b.associatedData).result == Ok(a.plaintext)
            && Twin(Hand(t, to, a.envelope, a.associatedData), Hand(u, to, b.envelope, b.associatedData))
  {
    hide *;
    TwinParts(t, u, to);
    TwinParts(t, u, Other(to));
    DueParts(Twice, t, to, k, n);
    DueIsSlot(Twice, t, to, k, n);
    DueIsSlot(Once, u, to, k, n);
    SameAt(t.history, u.history, k, n);
    var a, b := t.history.log[k][n], u.history.log[k][n];
    ContentPlaintext(a, b);
    DueDecrypts(Twice, t, to, k, n);
    DueDecrypts(Once, u, to, k, n);
    DeliveredDepth(Twice, t, to, k, n);
    DeliveredDepth(Once, u, to, k, n);
    WellFormedTalk(Twice, t);
    WellFormedTalk(Once, u);
    HeardDelivered(t.history, u.history, t.delivered, u.delivered, k, n);
    HeardPlace(t, u, to, k, n);
    HeardElsewhere(t, u, to, a.envelope, a.associatedData, b.envelope, b.associatedData);
    var t2, u2 := Hand(t, to, a.envelope, a.associatedData), Hand(u, to, b.envelope, b.associatedData);
    forall s ensures SamePlace(PartyOf(t2, s), PartyOf(u2, s)) {
      OneOrOther(s, to);
    }
    TwinFrom(t2, u2);
  }

  lemma OneOrOther(s: Side, to: Side)
    ensures s == to || s == Other(to)
  {
  }

  lemma ContentPlaintext(a: Message, b: Message)
    requires SameContent(a, b)
    ensures a.plaintext == b.plaintext
  {
  }
}

/**
  Whole runs of a conversation. Under the delivery rule every message due is decrypted; and
  for a client that saves a session only after a successful call, the same holds whatever
  the network hands over.
 */
module ConversationRuns {
  import opened Bytes
  import opened Primitives
  import opened RatchetState
  import opened SkipLemmas
  import opened Conversation
  import opened ConversationCache
  import opened ConversationDelivery
  import opened ConversationAcceptance
  import opened ConversationSending

  /** A message of the other side that is due at `side`. */
  ghost predicate DueAt(rule: ResetRule, t: Talk, side: Side, k: int, n: nat)
    requires Invariant(rule, t)
  {
    Due(rule, t.history, side, Depth(t, side), SessionOf(t, side), t.delivered, k, n)
  }

  /** The client's order of calls: load the session, decrypt, save it if that succeeded. */
  function HandSaving(t: Talk, side: Side, e: Envelope, associatedData: seq<byte>): Talk {
    if Decrypt(SessionOf(t, side), e, associatedData).result.Ok? then Hand(t, side, e, associatedData) else t
  }

  /** Where the two sides stand. */
  lemma Standing(rule: ResetRule, t: Talk, side: Side)
    requires Invariant(rule, t)
    ensures var d := Depth(t, side);
            && 1 <= d < |t.history.roots| <= d + 2
            && (|t.history.roots| == d + 2 ==> Owner(d) == side)
            && WellAt(rule, t.history, side, d, SessionOf(t, side), t.delivered)
  {
    var last := |t.history.roots| - 1;
    hide WellAt, RootsOk, LogOk, Recorded;
    if side != Owner(last) && Depth(t, side) == last - 1 {
      assert Owner(last - 1) == side;
    }
  }

  // Delivery

  /** Root keys of different epochs differ. */
  lemma RootsDiffer(h: History, i: int, j: int)
    requires RootsOk(h) && 0 <= i < |h.roots| && 0 <= j < |h.roots| && i != j
    ensures h.roots[i] != h.roots[j]
  {
    assert RootDepth(h.roots[i]) == RootDepth(h.roots[0]) + i;
    assert RootDepth(h.roots[j]) == RootDepth(h.roots[0]) + j;
  }

  /** The trail of root keys after a step to depth `d`, at most one root step on. */
  lemma MovedTrail(roots: seq<Key>, p: Party, d: nat, s: State)
    requires 1 <= |p.trail| <= |roots| && p.trail == roots[..|p.trail|] && p.session.root == roots[|p.trail| - 1]
    requires |p.trail| - 1 <= d <= |p.trail| && d < |roots| && s.root == roots[d]
    requires d == |p.trail| ==> roots[d] != roots[d - 1]
    ensures Moved(p, s).trail == roots[..d + 1]
  {
  }

  lemma ElsewhereOk(rule: ResetRule, h: History, side: Side, p: Party, delivered: set<Envelope>, k: int, n: int)
    requires RootsOk(h) && LogOk(rule, h) && PartyOk(rule, h, side, p, delivered)
    requires Slot(h, k, n) && Owner(k) == side
    ensures PartyOk(rule, h, side, p, delivered + {h.log[k][n].envelope})
  {
    hide RootsOk, LogOk, CacheOk, SessionOk;
    DeliverElsewhere(rule, h, side, ReceiveEpoch(side, |p.trail| - 1), p.session.received, p.session.skipped,
                     delivered, k, n);
  }

  /** One party's step to depth `d`. */
  lemma StepOk(
    rule: ResetRule, h: History, side: Side, p: Party, delivered: set<Envelope>, d: nat, s: State, more: set<Envelope>)
    requires RootsOk(h) && PartyOk(rule, h, side, p, delivered)
    requires |p.trail| - 1 <= d <= |p.trail| && 1 <= d < |h.roots| && WellAt(rule, h, side, d, s, more)
    ensures PartyOk(rule, h, side, Moved(p, s), more) && |Moved(p, s).trail| == d + 1
  {
    hide RootsOk, WellAt;
    WellRoot(rule, h, side, d, s, more);
    WellRoot(rule, h, side, |p.trail| - 1, p.session, delivered);
    if d == |p.trail| {
      RootsDiffer(h, d, d - 1);
    }
    MovedTrail(h.roots, p, d, s);
  }

  lemma WellRoot(rule: ResetRule, h: History, side: Side, d: nat, s: State, delivered: set<Envelope>)
    requires RootsOk(h) && 1 <= d < |h.roots| && WellAt(rule, h, side, d, s, delivered)
    ensures s.root == h.roots[d]
  {
  }

  lemma RecordedMore(h: History, delivered: set<Envelope>, k: int, n: int)
    requires Recorded(h, delivered) && Slot(h, k, n)
    ensures Recorded(h, delivered + {h.log[k][n].envelope})
  {
  }

  lemma DeliveryKeepsInvariant(rule: ResetRule, t: Talk, side: Side, s: State, d: nat, k: int, n: int)
    requires Invariant(rule, t) && Slot(t.history, k, n) && Owner(k) != side
    requires Depth(t, side) <= d <= Depth(t, side) + 1 && d < |t.history.roots|
    requires 1 <= d && WellAt(rule, t.history, side, d, s, t.delivered + {t.history.log[k][n].envelope})
    ensures Invariant(rule, WithParty(t, side, Moved(PartyOf(t, side), s))
                              .(delivered := t.delivered + {t.history.log[k][n].envelope}))
  {
    hide RootsOk, LogOk, WellAt, PartyOk, Recorded;
    var h, more := t.history, t.delivered + {t.history.log[k][n].envelope};
    StepOk(rule, h, side, PartyOf(t, side), t.delivered, d, s, more);
    ElsewhereOk(rule, h, Other(side), PartyOf(t, Other(side)), t.delivered, k, n);
    RecordedMore(h, t.delivered, k, n);
  }

  /** A message that is due is decrypted, to the plaintext it was sealed with. */
  lemma DueDecrypts(rule: ResetRule, t: Talk, side: Side, k: int, n: nat)
    requires Invariant(rule, t) && DueAt(rule, t, side, k, n)
    ensures var m := t.history.log[k][n];
            && Decrypt(SessionOf(t, side), m.envelope, m.associatedData).result == Ok(m.plaintext)
            && Invariant(rule, Hand(t, side, m.envelope, m.associatedData))
            && m.envelope in Hand(t, side, m.envelope, m.associatedData).delivered
  {
    var h, d, s, m := t.history, Depth(t, side), SessionOf(t, side), t.history.log[k][n];
    Standing(rule, t, side);
    assert Genuine(h, k, n, PreviousOf(rule, h, k), m);
    DueIsTaken(rule, h, side, d, s, t.delivered, k, n);
    TakenOpens(rule, h, side, DepthAfter(side, d, k), s, t.delivered, k, n);
    DeliveryKeepsInvariant(rule, t, side, Decrypt(s, m.envelope, m.associatedData).state, DepthAfter(side, d, k), k, n);
  }

  lemma TakenOpens(rule: ResetRule, h: History, side: Side, d: nat, s: State, delivered: set<Envelope>, k: int, n: nat)
    requires RootsOk(h) && Slot(h, k, n) && Genuine(h, k, n, PreviousOf(rule, h, k), h.log[k][n])
    requires TakenWell(rule, h, side, d, TakeKey(s, HeaderOf(h, PreviousOf(rule, h, k), k, n)), delivered, k, n)
    ensures var m := h.log[k][n];
            var out := Decrypt(s, m.envelope, m.associatedData);
            && out.result == Ok(m.plaintext)
            && 1 <= d < |h.roots|
            && WellAt(rule, h, side, d, out.state, delivered + {m.envelope})
  {
    hide WellAt;
    OpensWithKey(h, k, n, PreviousOf(rule, h, k), h.log[k][n], s);
  }

  /**
    Delivery, exactly: in every state of a conversation, a message of the other side decrypts
    to its plaintext if and only if it is due, and otherwise the call returns an error.
   */
  lemma DeliveryIsExact(rule: ResetRule, t: Talk, side: Side, k: int, n: nat)
    requires Invariant(rule, t) && Slot(t.history, k, n) && Owner(k) != side
    ensures var m := t.history.log[k][n];
            var result := Decrypt(SessionOf(t, side), m.envelope, m.associatedData).result;
            && (DueAt(rule, t, side, k, n) ==> result == Ok(m.plaintext))
            && (!DueAt(rule, t, side, k, n) ==> result.Err?)
  {
    var m := t.history.log[k][n];
    if DueAt(rule, t, side, k, n) {
      DueDecrypts(rule, t, side, k, n);
    } else if Decrypt(SessionOf(t, side), m.envelope, m.associatedData).result.Ok? {
      assert Genuine(t.history, k, n, PreviousOf(rule, t.history, k), m);
      var i, j := AcceptedMessage(rule, t, side, m.envelope, m.associatedData);
      EnvelopeNamesSlot(rule, t.history, i, j, k, n);
    }
  }

  /** Whatever the network hands over, only messages that are due are accepted, and unchanged. */
  lemma AcceptedMessage(rule: ResetRule, t: Talk, side: Side, e: Envelope, associatedData: seq<byte>)
    returns (k: int, n: nat)
    requires Invariant(rule, t) && Unforged(t.history, e)
    requires Decrypt(SessionOf(t, side), e, associatedData).result.Ok?
    ensures DueAt(rule, t, side, k, n)
    ensures t.history.log[k][n].envelope == e && t.history.log[k][n].associatedData == associatedData
    ensures Decrypt(SessionOf(t, side), e, associatedData).result.value == t.history.log[k][n].plaintext
  {
    Standing(rule, t, side);
    var i, j := AcceptedIsDue(rule, t.history, side, Depth(t, side), SessionOf(t, side), t.delivered, e, associatedData);
    k, n := i, j;
  }

  lemma HandSavingKeepsInvariant(rule: ResetRule, t: Talk, side: Side, e: Envelope, associatedData: seq<byte>)
    requires Invariant(rule, t) && Unforged(t.history, e)
    ensures Invariant(rule, HandSaving(t, side, e, associatedData))
  {
    if Decrypt(SessionOf(t, side), e, associatedData).result.Ok? {
      var k, n := AcceptedMessage(rule, t, side, e, associatedData);
      DueDecrypts(rule, t, side, k, n);
    }
  }

  // Encryption

  lemma SendKeepsInvariant(
    rule: ResetRule, t: Talk, side: Side, plaintext: seq<byte>, data: seq<byte>, nonce: Nonce, draw: Secret)
    requires Invariant(rule, t) && CanSend(t, side, draw)
    ensures Invariant(rule, Send(rule, t, side, plaintext, data, nonce, draw))
  {
    Standing(rule, t, side);
    var d, s := Depth(t, side), SessionOf(t, side);
    if plaintext == [] {
      assert Send(rule, t, side, plaintext, data, nonce, draw) == t;
    } else if Owner(d) == side {
      SendWithinEpoch(rule, t, side, plaintext, data, nonce, draw);
    } else {
      SendInNewEpoch(rule, t, side, plaintext, data, nonce, draw);
    }
  }

  /** The new system, from the new history and the sender's new session. */
  function Sent(t: Talk, side: Side, g: History, s: State): Talk {
    WithParty(t, side, Moved(PartyOf(t, side), s)).(history := g)
  }

  lemma SendWithinEpoch(
    rule: ResetRule, t: Talk, side: Side, plaintext: seq<byte>, data: seq<byte>, nonce: Nonce, draw: Secret)
    requires Invariant(rule, t) && CanSend(t, side, draw) && plaintext != []
    requires var d := Depth(t, side); d >= 1 && Owner(d) == side && d < |t.history.roots| <= d + 2
    ensures Invariant(rule, Send(rule, t, side, plaintext, data, nonce, draw))
  {
    hide LogOk, PartyOk, Recorded, CacheOk;
    var h, d, s := t.history, Depth(t, side), SessionOf(t, side);
    Standing(rule, t, side);
    var sealed := SealMessage(s, plaintext, data, nonce);
    var m := Message(plaintext, data, nonce, sealed.result.value);
    SealIsGenuine(rule, h, side, d, s, plaintext, data, nonce);
    SenderAppends(rule, h, side, d, s, sealed.state, m, t.delivered);
    assert Send(rule, t, side, plaintext, data, nonce, draw) == Sent(t, side, Appended(h, d, m), sealed.state);
    AppendKeepsInvariant(rule, t, side, m, sealed.state);
  }

  /** The party that is not sending, after growth that touches only what the other sends now. */
  lemma BystanderParty(
    rule: ResetRule, h: History, g: History, side: Side, p: Party, delivered: set<Envelope>)
    requires RootsOk(h) && RootsOk(g) && LogOk(rule, g) && Grown(h, g) && Recorded(h, delivered)
    requires PartyOk(rule, h, side, p, delivered)
    requires forall k :: 0 <= k < |h.log| && (Owner(k) == side || k < ReceiveEpoch(side, |p.trail| - 1))
               ==> g.log[k] == h.log[k]
    ensures PartyOk(rule, g, side, p, delivered)
  {
    hide RootsOk, LogOk, WellAt, Recorded;
    var d := |p.trail| - 1;
    BystanderOk(rule, h, g, side, d, p.session, delivered);
    assert g.roots[..d + 1] == g.roots[..|h.roots|][..d + 1];
  }

  lemma GrownTrail(h: History, g: History, p: Party, d: nat, s: State)
    requires Grown(h, g) && |h.roots| > 0
    requires 1 <= |p.trail| <= |h.roots| && p.trail == h.roots[..|p.trail|] && p.session.root == h.roots[|p.trail| - 1]
    requires |p.trail| - 1 <= d <= |p.trail| && d < |g.roots| && s.root == g.roots[d]
    requires d == |p.trail| ==> g.roots[d] != g.roots[d - 1]
    ensures Moved(p, s).trail == g.roots[..d + 1]
  {
    assert h.roots[..|p.trail|] == g.roots[..|h.roots|][..|p.trail|];
    assert p.session.root == g.roots[..|h.roots|][|p.trail| - 1];
    MovedTrail(g.roots, p, d, s);
  }

  /** The party that sends, after its step to depth `d` of the grown history. */
  lemma SenderParty(
    rule: ResetRule, h: History, g: History, side: Side, p: Party, delivered: set<Envelope>, d: nat, s: State)
    requires RootsOk(h) && RootsOk(g) && Grown(h, g) && PartyOk(rule, h, side, p, delivered)
    requires |p.trail| - 1 <= d <= |p.trail| && 1 <= d < |g.roots| && WellAt(rule, g, side, d, s, delivered)
    ensures PartyOk(rule, g, side, Moved(p, s), delivered) && |Moved(p, s).trail| == d + 1
  {
    hide RootsOk, WellAt, Grown;
    WellRoot(rule, g, side, d, s, delivered);
    WellRoot(rule, h, side, |p.trail| - 1, p.session, delivered);
    if d == |p.trail| {
      RootsDiffer(g, d, d - 1);
    }
    GrownTrail(h, g, p, d, s);
  }

  lemma AppendKeepsInvariant(rule: ResetRule, t: Talk, side: Side, m: Message, s: State)
    requires Invariant(rule, t)
    requires var d := Depth(t, side);
             && d >= 1 && Owner(d) == side && d < |t.history.roots| <= d + 2
             && |t.history.log[d]| + 1 < U32_LIMIT
             && Genuine(t.history, d, |t.history.log[d]|, PreviousOf(rule, t.history, d), m)
             && RootsOk(Appended(t.history, d, m))
             && WellAt(rule, Appended(t.history, d, m), side, d, s, t.delivered)
    ensures Invariant(rule, Sent(t, side, Appended(t.history, Depth(t, side), m), s))
  {
    hide LogOk, WellAt, Recorded, Genuine, Grown, PartyOk;
    var h, d, other := t.history, Depth(t, side), Other(side);
    var g := Appended(h, d, m);
    AppendedRoots(h, d, m);
    AppendedLog(rule, h, d, m);
    RecordedGrows(h, g, t.delivered);
    assert |g.roots| == |h.roots|;
    hide RootsOk;
    var e := Depth(t, other);
    assert ReceiveEpoch(other, e) <= d by {
      Standing(rule, t, other);
    }
    BystanderParty(rule, h, g, other, PartyOf(t, other), t.delivered);
    SenderParty(rule, h, g, side, PartyOf(t, side), t.delivered, d, s);
  }

  lemma SendInNewEpoch(
    rule: ResetRule, t: Talk, side: Side, plaintext: seq<byte>, data: seq<byte>, nonce: Nonce, draw: Secret)
    requires Invariant(rule, t) && CanSend(t, side, draw) && plaintext != []
    requires var d := Depth(t, side); d >= 1 && Owner(d) != side && d == |t.history.roots| - 1
    ensures Invariant(rule, Send(rule, t, side, plaintext, data, nonce, draw))
  {
    hide LogOk, PartyOk, Recorded, CacheOk;
    var h, s := t.history, SessionOf(t, side);
    Standing(rule, t, side);
    var o := EnsureSendingChain(rule, s, draw).state;
    var sealed := SealMessage(o, plaintext, data, nonce);
    var m := Message(plaintext, data, nonce, sealed.result.value);
    var ready := OpenedSession(rule, h, side, s, draw, m);
    OpenedIsGenuine(rule, Extended(h, draw, m), |h.roots|, o, plaintext, data, nonce);
    SendExtends(rule, t, side, plaintext, data, nonce, draw, o);
    ExtendKeepsInvariant(rule, t, side, draw, m, sealed.state);
  }

  /** What a send that draws a new ratchet key does to the system. */
  lemma SendExtends(
    rule: ResetRule, t: Talk, side: Side, plaintext: seq<byte>, data: seq<byte>, nonce: Nonce, draw: Secret, o: State)
    requires CanSend(t, side, draw) && plaintext != []
    requires var h, s := t.history, SessionOf(t, side);
             && |h.secrets| == |h.roots| >= 1 && s.remote == Some(PublicKey(h.secrets[|h.secrets| - 1]))
             && s.root == h.roots[|h.roots| - 1] && EnsureSendingChain(rule, s, draw) == Stepped(o, Pass)
             && o.root == RootKey(s.root, Dh(draw, s.remote.value)) && o.sent < U32_LIMIT && o.previous < U32_LIMIT
    ensures var sealed := SealMessage(o, plaintext, data, nonce);
            Send(rule, t, side, plaintext, data, nonce, draw)
            == Sent(t, side, Extended(t.history, draw, Message(plaintext, data, nonce, sealed.result.value)), sealed.state)
  {
    hide *;
    var s := SessionOf(t, side);
    CountersWithin(t, side, draw);
    RootGrows(s.root, Dh(draw, s.remote.value));
    EncryptsAfterDraw(rule, s, plaintext, data, nonce, draw, o);
    SendGrows(rule, t, side, plaintext, data, nonce, draw);
    ExtendedIs(t.history, draw, Message(plaintext, data, nonce, SealMessage(o, plaintext, data, nonce).result.value));
  }

  lemma CountersWithin(t: Talk, side: Side, draw: Secret)
    requires CanSend(t, side, draw)
    ensures SessionOf(t, side).sent < U32_LIMIT && SessionOf(t, side).previous < U32_LIMIT
  {
  }

  lemma ExtendedIs(h: History, draw: Secret, m: Message)
    requires |h.secrets| == |h.roots| >= 1
    ensures Extended(h, draw, m)
            == History(h.secrets + [draw],
                       h.roots + [RootKey(h.roots[|h.roots| - 1], Dh(draw, PublicKey(h.secrets[|h.secrets| - 1])))],
                       h.log + [[m]])
  {
  }

  /** A send that moves the root key opens an epoch. */
  lemma SendGrows(
    rule: ResetRule, t: Talk, side: Side, plaintext: seq<byte>, data: seq<byte>, nonce: Nonce, draw: Secret)
    requires CanSend(t, side, draw)
    requires var e := Encrypt(rule, SessionOf(t, side), plaintext, data, nonce, draw);
             e.result.Ok? && e.state.root != SessionOf(t, side).root
    ensures var e := Encrypt(rule, SessionOf(t, side), plaintext, data, nonce, draw);
            var h, m := t.history, Message(plaintext, data, nonce, e.result.value);
            Send(rule, t, side, plaintext, data, nonce, draw)
            == Sent(t, side, History(h.secrets + [draw], h.roots + [e.state.root], h.log + [[m]]), e.state)
  {
    hide Encrypt;
  }

  lemma EncryptsAfterDraw(
    rule: ResetRule, s: State, plaintext: seq<byte>, data: seq<byte>, nonce: Nonce, draw: Secret, o: State)
    requires plaintext != [] && s.sent < U32_LIMIT && s.previous < U32_LIMIT
    requires EnsureSendingChain(rule, s, draw) == Stepped(o, Pass) && o.sent < U32_LIMIT && o.previous < U32_LIMIT
    ensures Encrypt(rule, s, plaintext, data, nonce, draw) == SealMessage(o, plaintext, data, nonce)
    ensures SealMessage(o, plaintext, data, nonce).result.Ok?
    ensures SealMessage(o, plaintext, data, nonce).state.root == o.root
  {
    hide RatchetAad;
  }

  lemma ExtendKeepsInvariant(rule: ResetRule, t: Talk, side: Side, draw: Secret, m: Message, s: State)
    requires Invariant(rule, t) && draw !in t.history.secrets
    requires var d := Depth(t, side); d >= 1 && Owner(d) != side && d == |t.history.roots| - 1
    requires var g := Extended(t.history, draw, m);
             && Genuine(g, |t.history.log|, 0, PreviousOf(rule, g, |t.history.log|), m)
             && RootsOk(g) && SessionOk(rule, g, side, |t.history.roots|, s)
    requires s.received == SessionOf(t, side).received && s.skipped == SessionOf(t, side).skipped
    ensures Invariant(rule, Sent(t, side, Extended(t.history, draw, m), s))
  {
    hide LogOk, WellAt, Recorded, Genuine, Grown, SessionOk;
    var h, d, other := t.history, Depth(t, side), Other(side);
    var g := Extended(h, draw, m);
    Standing(rule, t, side);
    ExtendedRoots(h, draw, m);
    ExtendedLog(rule, h, draw, m);
    RecordedGrows(h, g, t.delivered);
    hide RootsOk, PartyOk;
    SenderExtends(rule, h, side, SessionOf(t, side), draw, m, t.delivered, s);
    BystanderParty(rule, h, g, other, PartyOf(t, other), t.delivered);
    SenderParty(rule, h, g, side, PartyOf(t, side), t.delivered, |h.roots|, s);
  }

  // Runs

  datatype Event =
    | Sends(side: Side, plaintext: seq<byte>, data: seq<byte>, nonce: Nonce, draw: Secret)
    | Arrives(to: Side, envelope: Envelope, arrivingData: seq<byte>)

  /** An `InMemory` session keeps the changes of a failed call; a `Saving` client drops them. */
  datatype Client = InMemory | Saving

  /** A message that is due, in the hands of the network. */
  ghost predicate DueMessage(rule: ResetRule, t: Talk, side: Side, e: Envelope, data: seq<byte>)
    requires |t.history.secrets| == |t.history.log| && Depth(t, side) >= 0
  {
    exists k, n: nat :: IsDue(rule, t.history, side, Depth(t, side), SessionOf(t, side), t.delivered, e, data, k, n)
  }

  /**
    What may happen next. To sessions in memory the network hands messages that are due, in
    any order, losing any; to a client that saves on success it hands any envelope at all
    that nobody else sealed under the conversation's keys.
   */
  ghost predicate Allowed(rule: ResetRule, client: Client, t: Talk, e: Event) {
    match e
    case Sends(side, _, _, _, draw) => CanSend(t, side, draw)
    case Arrives(to, envelope, data) =>
      && |t.history.secrets| == |t.history.log| && |t.history.roots| > 0 && Depth(t, to) >= 0
      && (if client.Saving? then Unforged(t.history, envelope) else DueMessage(rule, t, to, envelope, data))
  }

  ghost function Next(rule: ResetRule, client: Client, t: Talk, e: Event): Talk
    requires Allowed(rule, client, t, e)
  {
    match e
    case Sends(side, plaintext, data, nonce, draw) => Send(rule, t, side, plaintext, data, nonce, draw)
    case Arrives(to, envelope, data) =>
      if client.Saving? then HandSaving(t, to, envelope, data) else Hand(t, to, envelope, data)
  }

  ghost predicate IsRun(rule: ResetRule, client: Client, t: Talk, events: seq<Event>)
    decreases |events|
  {
    events == []
    || (Allowed(rule, client, t, events[0]) && IsRun(rule, client, Next(rule, client, t, events[0]), events[1..]))
  }

  ghost function Run(rule: ResetRule, client: Client, t: Talk, events: seq<Event>): Talk
    requires IsRun(rule, client, t, events)
    decreases |events|
  {
    if events == [] then t else Run(rule, client, Next(rule, client, t, events[0]), events[1..])
  }

  lemma NextKeepsInvariant(rule: ResetRule, client: Client, t: Talk, e: Event)
    requires Invariant(rule, t) && Allowed(rule, client, t, e)
    ensures Invariant(rule, Next(rule, client, t, e))
  {
    hide Invariant, Due, Hand, Send, Unforged;
    match e
    case Sends(side, plaintext, data, nonce, draw) =>
      SendKeepsInvariant(rule, t, side, plaintext, data, nonce, draw);
    case Arrives(to, envelope, data) =>
      if client.Saving? {
        HandSavingKeepsInvariant(rule, t, to, envelope, data);
      } else {
        var k, n: nat :| IsDue(rule, t.history, to, Depth(t, to), SessionOf(t, to), t.delivered, envelope, data, k, n);
        DueDecrypts(rule, t, to, k, n);
      }
  }

  lemma {:induction false} RunKeepsInvariant(rule: ResetRule, client: Client, t: Talk, events: seq<Event>)
    requires Invariant(rule, t) && IsRun(rule, client, t, events)
    ensures Invariant(rule, Run(rule, client, t, events))
    decreases |events|
  {
    hide Invariant;
    if events != [] {
      NextKeepsInvariant(rule, client, t, events[0]);
      RunKeepsInvariant(rule, client, Next(rule, client, t, events[0]), events[1..]);
    }
  }

  /** Every conversation, from its bootstrap, keeps the invariant, with either kind of client. */
  lemma ConversationsStayWell(
    rule: ResetRule, client: Client, shared: Key, ephemeral: Secret, signedPreKey: Secret, events: seq<Event>)
    requires ephemeral != signedPreKey && IsRun(rule, client, Begin(shared, ephemeral, signedPreKey), events)
    ensures Invariant(rule, Run(rule, client, Begin(shared, ephemeral, signedPreKey), events))
  {
    BeginOk(rule, shared, ephemeral, signedPreKey);
    RunKeepsInvariant(rule, client, Begin(shared, ephemeral, signedPreKey), events);
  }
}

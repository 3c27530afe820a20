/** What one step of a conversation does, in the terms later steps are compared in. */
module ConversationSteps {
  import opened Bytes
  import opened Primitives
  import opened RatchetState
  import opened SkipLemmas
  import opened Conversation
  import opened ConversationCache
  import opened ConversationDelivery
  import opened ConversationAcceptance
  import opened ConversationRuns

  /** The header of message `n` of epoch `k`. */
  function HeaderAt(rule: ResetRule, h: History, k: int, n: nat): ParsedHeader
    requires 0 <= k < |h.secrets| && n < U32_LIMIT && PreviousOf(rule, h, k) < U32_LIMIT
  {
    HeaderOf(h, PreviousOf(rule, h, k), k, n)
  }

  /** Where the key of a due message is found. */
  lemma DueCases(rule: ResetRule, h: History, side: Side, d: nat, s: State, delivered: set<Envelope>, j: int, m: nat)
    requires RootsOk(h) && LogOk(rule, h) && 1 <= d < |h.roots| <= d + 2 && WellAt(rule, h, side, d, s, delivered)
    requires Due(rule, h, side, d, s, delivered, j, m) && m < U32_LIMIT && PreviousOf(rule, h, j) < U32_LIMIT
    ensures 1 <= j < |h.secrets| && |h.secrets| == |h.roots| == |h.log|
    ensures var header, r := HeaderAt(rule, h, j, m), ReceiveEpoch(side, d);
            && header.key == PublicKey(h.secrets[j]) && header.number == m && header.previous == PreviousOf(rule, h, j)
            && TakeKey(s, header).key.Ok?
            && r <= d && DepthAfter(side, d, j) == (if j > r then d + 1 else d)
            && (IdIn(h, j, m, s.skipped) ==> j <= r)
            && (!IdIn(h, j, m, s.skipped) && j == r ==> s.received <= m)
            && (!IdIn(h, j, m, s.skipped) && j != r ==>
                  j == d + 1 && Owner(d) == side && ReceiveEpoch(side, d + 1) == d + 1)
  {
    assert |h.secrets| == |h.roots| == |h.log|;
    hide WellAt, LogOk, TakeKey, RootsOk, CacheOk, Owner, ReceiveEpoch, IdIn;
    DueTakes(rule, h, side, d, s, delivered, j, m);
    NewEpochIs(side, d, j);
    if IdIn(h, j, m, s.skipped) {
      CachedIsBehind(rule, h, side, d, s, delivered, j, m);
    }
  }

  /** An epoch of the other side past the one being received is the next one. */
  lemma NewEpochIs(side: Side, d: nat, j: int)
    requires d >= 1 && 1 <= j
    ensures ReceiveEpoch(side, d) <= d
    ensures j <= d + 1 && Owner(j) != side && j > ReceiveEpoch(side, d) ==>
              j == d + 1 && Owner(d) == side && ReceiveEpoch(side, d + 1) == d + 1
  {
  }

  lemma DueTakes(rule: ResetRule, h: History, side: Side, d: nat, s: State, delivered: set<Envelope>, j: int, m: nat)
    requires RootsOk(h) && LogOk(rule, h) && 1 <= d < |h.roots| <= d + 2 && WellAt(rule, h, side, d, s, delivered)
    requires Due(rule, h, side, d, s, delivered, j, m) && m < U32_LIMIT && PreviousOf(rule, h, j) < U32_LIMIT
    ensures TakeKey(s, HeaderAt(rule, h, j, m)).key.Ok?
  {
    hide WellAt, LogOk, TakeKey, Due, CacheOk;
    DueIsTaken(rule, h, side, d, s, delivered, j, m);
  }

  lemma CachedIsBehind(rule: ResetRule, h: History, side: Side, d: nat, s: State, delivered: set<Envelope>, j: int, m: nat)
    requires RootsOk(h) && 1 <= d < |h.roots| && WellAt(rule, h, side, d, s, delivered)
    requires 1 <= j < |h.secrets| && m < U32_LIMIT && IdIn(h, j, m, s.skipped)
    ensures j <= ReceiveEpoch(side, d)
  {
    DueAhead(rule, h, side, d, s, delivered);
    hide WellAt, SessionOk, TakeKey;
    TakeCached(rule, h, side, ReceiveEpoch(side, d), s, delivered, j, HeaderOf(h, 0, j, m));
  }

  lemma DueIsSlot(rule: ResetRule, t: Talk, side: Side, j: int, m: nat)
    requires Invariant(rule, t) && DueAt(rule, t, side, j, m)
    ensures Slot(t.history, j, m) && m < U32_LIMIT && |t.history.secrets| == |t.history.log| && j < |t.history.log|
    ensures m < |t.history.log[j]| && PreviousOf(rule, t.history, j) < U32_LIMIT
  {
    assert Genuine(t.history, j, m, PreviousOf(rule, t.history, j), t.history.log[j][m]);
  }

  lemma HistoryShape(rule: ResetRule, t: Talk)
    requires Invariant(rule, t)
    ensures |t.history.secrets| == |t.history.log| == |t.history.roots|
  {
  }

  /** A message of the conversation, at `side`, before and after. */
  ghost predicate KeptAlike(t: Talk, u: Talk, side: Side, k: int, n: nat) {
    && |t.history.secrets| == |t.history.log| && |u.history.secrets| == |u.history.log|
    && Slot(t.history, k, n) && Slot(u.history, k, n)
    && u.history.log[k][n] == t.history.log[k][n]
    && t.delivered <= u.delivered
    && Depth(t, side) <= Depth(u, side)
    && (k < ReceiveEpochOf(u, side) && t.history.log[k][n].envelope !in u.delivered ==>
          (IdIn(u.history, k, n, SessionOf(u, side).skipped) <==> IdIn(t.history, k, n, SessionOf(t, side).skipped)))
  }

  function ReceiveEpochOf(t: Talk, side: Side): nat {
    if Depth(t, side) >= 0 then ReceiveEpoch(side, Depth(t, side)) else 0
  }

  lemma EncryptKeepsCache(rule: ResetRule, s: State, plaintext: seq<byte>, data: seq<byte>, nonce: Nonce, draw: Secret)
    requires s.sent < U32_LIMIT && s.previous < U32_LIMIT
    ensures Encrypt(rule, s, plaintext, data, nonce, draw).state.skipped == s.skipped
  {
  }

  lemma SendKeepsOld(
    rule: ResetRule, t: Talk, sender: Side, plaintext: seq<byte>, data: seq<byte>, nonce: Nonce, draw: Secret,
    side: Side, k: int, n: nat)
    requires CanSend(t, sender, draw) && |t.history.secrets| == |t.history.log| == |t.history.roots| && Slot(t.history, k, n)
    ensures KeptAlike(t, Send(rule, t, sender, plaintext, data, nonce, draw), side, k, n)
  {
    EncryptKeepsCache(rule, SessionOf(t, sender), plaintext, data, nonce, draw);
    hide Encrypt;
  }

  /** The receiver's depth after it takes a due message. */
  lemma DeliveredDepth(rule: ResetRule, t: Talk, side: Side, j: int, m: nat)
    requires Invariant(rule, t) && DueAt(rule, t, side, j, m) && m < U32_LIMIT && PreviousOf(rule, t.history, j) < U32_LIMIT
    ensures var message := t.history.log[j][m];
            var u := Hand(t, side, message.envelope, message.associatedData);
            && Depth(u, side) == DepthAfter(side, Depth(t, side), j)
            && SessionOf(u, side) == TakeKey(SessionOf(t, side), HeaderAt(rule, t.history, j, m)).state
            && u.delivered == t.delivered + {message.envelope} && u.history == t.history
  {
    var h, d, s, message := t.history, Depth(t, side), SessionOf(t, side), t.history.log[j][m];
    Standing(rule, t, side);
    assert Genuine(h, j, m, PreviousOf(rule, h, j), message);
    DueIsTaken(rule, h, side, d, s, t.delivered, j, m);
    OpensWithKey(h, j, m, PreviousOf(rule, h, j), message, s);
    var after := DepthAfter(side, d, j);
    var more := t.delivered + {message.envelope};
    hide WellAt, LogOk, CacheOk, TakeKey, Decrypt, Due, RatchetAad;
    StepOk(rule, h, side, PartyOf(t, side), t.delivered, after, TakeKey(s, HeaderAt(rule, h, j, m)).state, more);
  }

  lemma OtherSideStays(t: Talk, to: Side, e: Envelope, data: seq<byte>)
    ensures PartyOf(Hand(t, to, e, data), Other(to)) == PartyOf(t, Other(to))
  {
    hide Decrypt;
  }

  /** The receiving position after a due message is taken. */
  lemma TakenReceived(rule: ResetRule, h: History, side: Side, d: nat, s: State, delivered: set<Envelope>, j: int, m: nat)
    requires RootsOk(h) && LogOk(rule, h) && 1 <= d < |h.roots| <= d + 2 && WellAt(rule, h, side, d, s, delivered)
    requires Due(rule, h, side, d, s, delivered, j, m) && m < U32_LIMIT && PreviousOf(rule, h, j) < U32_LIMIT
    ensures TakeKey(s, HeaderAt(rule, h, j, m)).state.received == if IdIn(h, j, m, s.skipped) then s.received else m + 1
  {
    hide SessionOk, CacheOk, WellAt, TakeKey, RootsOk, LogOk, Due, PreviousOf, Crossed;
    DueCases(rule, h, side, d, s, delivered, j, m);
    DueAhead(rule, h, side, d, s, delivered);
    var header := HeaderAt(rule, h, j, m);
    if IdIn(h, j, m, s.skipped) {
      TakeCached(rule, h, side, ReceiveEpoch(side, d), s, delivered, j, header);
    } else if j == ReceiveEpoch(side, d) {
      TakeCurrent(rule, h, side, d, s, delivered, header);
    } else {
      TakeNew(rule, h, side, d, s, delivered, header);
    }
  }

  /** What encryption does to the system, but for the sender's session. */
  lemma SendHistory(
    rule: ResetRule, t: Talk, side: Side, plaintext: seq<byte>, data: seq<byte>, nonce: Nonce, draw: Secret)
    requires CanSend(t, side, draw)
    ensures var e := Encrypt(rule, SessionOf(t, side), plaintext, data, nonce, draw);
            var next, h, d := Send(rule, t, side, plaintext, data, nonce, draw), t.history, Depth(t, side);
            && next.delivered == t.delivered
            && (e.result.Err? ==> next.history == h)
            && (e.result.Ok? ==>
                  var m := Message(plaintext, data, nonce, e.result.value);
                  if e.state.root == SessionOf(t, side).root then
                    0 <= d < |h.log| ==> next.history == h.(log := h.log[d := h.log[d] + [m]])
                  else next.history == History(h.secrets + [draw], h.roots + [e.state.root], h.log + [[m]]))
  {
    hide Encrypt;
  }
}

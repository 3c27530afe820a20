/** Encryption keeps the conversation's invariant. */
module ConversationSending {
  import opened Bytes
  import opened Primitives
  import opened RatchetState
  import opened SkipLemmas
  import opened Conversation
  import opened ConversationCache

  /** One more message in epoch `d`. */
  function Appended(h: History, d: int, m: Message): History
    requires 0 <= d < |h.log|
  {
    h.(log := h.log[d := h.log[d] + [m]])
  }

  /** A new epoch with one message. */
  function Extended(h: History, draw: Secret, m: Message): History
    requires |h.secrets| == |h.roots| >= 1
  {
    var root, dh := h.roots[|h.roots| - 1], Dh(draw, PublicKey(h.secrets[|h.secrets| - 1]));
    History(h.secrets + [draw], h.roots + [RootKey(root, dh)], h.log + [[m]])
  }

  // The history

  lemma AppendedRoots(h: History, d: int, m: Message)
    requires RootsOk(h) && 1 <= d < |h.log| && |h.log[d]| + 1 < U32_LIMIT
    ensures RootsOk(Appended(h, d, m)) && Grown(h, Appended(h, d, m))
  {
    var g := Appended(h, d, m);
    assert g.secrets[..|h.secrets|] == h.secrets && g.roots[..|h.roots|] == h.roots;
    forall k | 1 <= k < |g.roots| ensures g.roots[k] == RootKey(g.roots[k - 1], Link(g, k)) {
      assert Link(g, k) == Link(h, k);
    }
  }

  lemma AppendedLog(rule: ResetRule, h: History, d: int, m: Message)
    requires RootsOk(h) && LogOk(rule, h) && 1 <= d && |h.log| - 2 <= d < |h.log| && |h.log[d]| + 1 < U32_LIMIT
    requires Genuine(h, d, |h.log[d]|, PreviousOf(rule, h, d), m)
    ensures RootsOk(Appended(h, d, m)) && LogOk(rule, Appended(h, d, m))
  {
    AppendedRoots(h, d, m);
    var g := Appended(h, d, m);
    forall k, n | Slot(g, k, n) ensures Genuine(g, k, n, PreviousOf(rule, g, k), g.log[k][n]) {
      assert Start(g, k) == Start(h, k);
      if Slot(h, k, n) {
        assert Genuine(h, k, n, PreviousOf(rule, h, k), h.log[k][n]);
      }
    }
  }

  lemma ExtendedRoots(h: History, draw: Secret, m: Message)
    requires RootsOk(h) && draw !in h.secrets
    ensures RootsOk(Extended(h, draw, m)) && Grown(h, Extended(h, draw, m))
  {
    var g := Extended(h, draw, m);
    ExtendedGrown(h, draw, m);
    ExtendedLinks(h, draw, m);
  }

  lemma ExtendedGrown(h: History, draw: Secret, m: Message)
    requires |h.secrets| == |h.roots| == |h.log| >= 1
    ensures Grown(h, Extended(h, draw, m))
  {
    var g := Extended(h, draw, m);
    assert g.secrets[..|h.secrets|] == h.secrets && g.roots[..|h.roots|] == h.roots;
  }

  lemma ExtendedLinks(h: History, draw: Secret, m: Message)
    requires |h.secrets| == |h.roots| >= 2
    requires forall k :: 1 <= k < |h.roots| ==> h.roots[k] == RootKey(h.roots[k - 1], Link(h, k))
    ensures var g := Extended(h, draw, m);
            forall k :: 1 <= k < |g.roots| ==> g.roots[k] == RootKey(g.roots[k - 1], Link(g, k))
  {
    var g := Extended(h, draw, m);
    forall k | 1 <= k < |g.roots| ensures g.roots[k] == RootKey(g.roots[k - 1], Link(g, k)) {
      if k < |h.roots| {
        assert Link(g, k) == Link(h, k);
      }
    }
  }

  lemma ExtendedLog(rule: ResetRule, h: History, draw: Secret, m: Message)
    requires RootsOk(h) && LogOk(rule, h) && draw !in h.secrets
    requires var g := Extended(h, draw, m);
             Genuine(g, |h.log|, 0, PreviousOf(rule, g, |h.log|), m)
    ensures RootsOk(Extended(h, draw, m)) && LogOk(rule, Extended(h, draw, m))
  {
    ExtendedRoots(h, draw, m);
    var g := Extended(h, draw, m);
    forall k, n | Slot(g, k, n) ensures Genuine(g, k, n, PreviousOf(rule, g, k), g.log[k][n]) {
      if Slot(h, k, n) {
        assert Start(g, k) == Start(h, k);
        assert Genuine(h, k, n, PreviousOf(rule, h, k), h.log[k][n]);
      }
    }
  }

  lemma RecordedGrows(h: History, g: History, delivered: set<Envelope>)
    requires Recorded(h, delivered) && Grown(h, g)
    ensures Recorded(g, delivered)
  {
    forall e | e in delivered ensures exists k, n :: Slot(g, k, n) && g.log[k][n].envelope == e {
      var k, n :| Slot(h, k, n) && h.log[k][n].envelope == e;
      assert Slot(g, k, n) && g.log[k][n] == h.log[k][n];
    }
  }

  // The side that is not sending

  /** Growth that touches only what the other side sends now. */
  lemma BystanderOk(
    rule: ResetRule, h: History, g: History, side: Side, d: nat, s: State, delivered: set<Envelope>)
    requires RootsOk(h) && RootsOk(g) && LogOk(rule, g) && Grown(h, g) && Recorded(h, delivered)
    requires 1 <= d < |h.roots| && WellAt(rule, h, side, d, s, delivered)
    requires forall k :: 0 <= k < |h.log| && (Owner(k) == side || k < ReceiveEpoch(side, d)) ==> g.log[k] == h.log[k]
    ensures WellAt(rule, g, side, d, s, delivered)
  {
    GrowKeepsCache(rule, h, g, side, ReceiveEpoch(side, d), s.received, s.skipped, delivered);
    BystanderSession(rule, h, g, side, d, s);
  }

  lemma BystanderSession(rule: ResetRule, h: History, g: History, side: Side, d: nat, s: State)
    requires RootsOk(h) && RootsOk(g) && Grown(h, g)
    requires 1 <= d < |h.roots| && SessionOk(rule, h, side, d, s)
    requires forall k :: 0 <= k < |h.log| && Owner(k) == side ==> g.log[k] == h.log[k]
    ensures SessionOk(rule, g, side, d, s)
  {
    Shape(h);
    Shape(g);
    hide RootsOk;
    SameBelow(h, g, d);
    SameBelow(h, g, d - 1);
    if d >= 2 {
      SameBelow(h, g, d - 2);
      assert Owner(d) == side ==> g.log[d - 2] == h.log[d - 2];
    }
  }

  lemma Shape(h: History)
    requires RootsOk(h)
    ensures |h.secrets| == |h.roots| == |h.log| >= 2
  {
  }

  lemma SameBelow(h: History, g: History, k: int)
    requires Grown(h, g) && 0 <= k < |h.secrets| && |h.secrets| == |h.roots|
    ensures g.secrets[k] == h.secrets[k] && g.roots[k] == h.roots[k]
  {
    assert g.secrets[..|h.secrets|][k] == h.secrets[k] && g.roots[..|h.roots|][k] == h.roots[k];
  }

  // The side that is sending

  /** What sealing a message at depth `d` yields. */
  lemma SealIsGenuine(
    rule: ResetRule, h: History, side: Side, d: nat, s: State, plaintext: seq<byte>, data: seq<byte>, nonce: Nonce)
    requires RootsOk(h) && 1 <= d < |h.roots| && Owner(d) == side && SessionOk(rule, h, side, d, s)
    requires plaintext != [] && s.sent < U32_LIMIT && s.previous < U32_LIMIT
    ensures var e := SealMessage(s, plaintext, data, nonce);
            Genuine(h, d, s.sent, PreviousOf(rule, h, d), Message(plaintext, data, nonce, e.result.value))
  {
  }

  lemma SenderAppends(
    rule: ResetRule, h: History, side: Side, d: nat, s: State, t: State, m: Message, delivered: set<Envelope>)
    requires RootsOk(h) && LogOk(rule, h) && 1 <= d && |h.log| - 2 <= d < |h.log| && Owner(d) == side
    requires WellAt(rule, h, side, d, s, delivered) && Recorded(h, delivered)
    requires s.sending.Some? && s.sent + 1 < U32_LIMIT
    requires t == s.(sending := Some(NextChainKey(s.sending.value)), sent := s.sent + 1)
    requires Genuine(h, d, |h.log[d]|, PreviousOf(rule, h, d), m)
    ensures RootsOk(Appended(h, d, m)) && WellAt(rule, Appended(h, d, m), side, d, t, delivered)
  {
    var g, r := Appended(h, d, m), ReceiveEpoch(side, d);
    AppendedRoots(h, d, m);
    AppendedLog(rule, h, d, m);
    GrowKeepsCache(rule, h, g, side, r, s.received, s.skipped, delivered);
    SenderSession(rule, h, side, d, s, t, m);
  }

  lemma SenderSession(rule: ResetRule, h: History, side: Side, d: nat, s: State, t: State, m: Message)
    requires RootsOk(h) && 1 <= d < |h.log| && Owner(d) == side && RootsOk(Appended(h, d, m))
    requires SessionOk(rule, h, side, d, s) && s.sending.Some?
    requires t == s.(sending := Some(NextChainKey(s.sending.value)), sent := s.sent + 1)
    ensures SessionOk(rule, Appended(h, d, m), side, d, t)
  {
  }

  /** A pending side's session after it has drawn its next ratchet key. */
  lemma OpenedSession(rule: ResetRule, h: History, side: Side, s: State, draw: Secret, m: Message)
    returns (o: State)
    requires RootsOk(h) && draw !in h.secrets
    requires var d := |h.roots| - 1; Owner(d) != side && SessionOk(rule, h, side, d, s)
    ensures RootsOk(Extended(h, draw, m))
    ensures EnsureSendingChain(rule, s, draw) == Stepped(o, Pass)
    ensures o.received == s.received && o.skipped == s.skipped && o.sent == 0
    ensures o.root == RootKey(s.root, Dh(draw, s.remote.value)) && o.remote == s.remote
    ensures o.previous == PreviousOf(rule, Extended(h, draw, m), |h.roots|)
    ensures o.sending == Some(ChainAt(Start(Extended(h, draw, m), |h.roots|), 0))
    ensures o.local == PairOf(draw)
    ensures SessionOk(rule, Extended(h, draw, m), side, |h.roots|,
                      o.(sending := Some(NextChainKey(o.sending.value)), sent := 1))
  {
    ExtendedRoots(h, draw, m);
    var g := Extended(h, draw, m);
    o := EnsureSendingChain(rule, s, draw).state;
    assert Start(g, |h.roots|) == ChainAt(Start(g, |h.roots|), 0);
    assert NextChainKey(ChainAt(Start(g, |h.roots|), 0)) == ChainAt(Start(g, |h.roots|), 1);
  }

  /** The first message sealed after the draw is the genuine first message of the new epoch. */
  lemma OpenedIsGenuine(
    rule: ResetRule, g: History, k: int, o: State, plaintext: seq<byte>, data: seq<byte>, nonce: Nonce)
    requires 1 <= k < |g.secrets| && |g.roots| == |g.secrets|
    requires plaintext != [] && o.sent == 0 && o.previous < U32_LIMIT && o.previous == PreviousOf(rule, g, k)
    requires o.sending == Some(ChainAt(Start(g, k), 0)) && o.local == PairOf(g.secrets[k])
    ensures Genuine(g, k, 0, PreviousOf(rule, g, k),
                    Message(plaintext, data, nonce, SealMessage(o, plaintext, data, nonce).result.value))
  {
  }

  lemma ReceivedWithin(rule: ResetRule, h: History, side: Side, d: nat, s: State)
    requires RootsOk(h) && 1 <= d < |h.roots| && SessionOk(rule, h, side, d, s)
    ensures s.received <= |h.log[ReceiveEpoch(side, d)]|
  {
  }

  /** The sender's session and cache in the history extended by its new epoch. */
  lemma SenderExtends(
    rule: ResetRule, h: History, side: Side, s: State, draw: Secret, m: Message, delivered: set<Envelope>, t: State)
    requires RootsOk(h) && LogOk(rule, h) && draw !in h.secrets && Recorded(h, delivered)
    requires var d := |h.roots| - 1; d >= 1 && Owner(d) != side && WellAt(rule, h, side, d, s, delivered)
    requires var g := Extended(h, draw, m);
             RootsOk(g) && LogOk(rule, g) && Grown(h, g) && SessionOk(rule, g, side, |h.roots|, t)
    requires t.received == s.received && t.skipped == s.skipped
    ensures WellAt(rule, Extended(h, draw, m), side, |h.roots|, t, delivered)
  {
    hide LogOk, SessionOk, CacheOk, Grown, Recorded;
    var g, d := Extended(h, draw, m), |h.roots| - 1;
    ReceivedWithin(rule, h, side, d, s);
    GrowKeepsCache(rule, h, g, side, d, s.received, s.skipped, delivered);
  }
}

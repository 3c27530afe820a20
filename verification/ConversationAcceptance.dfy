/**
  What a session can be made to accept: over a network that may hand it anything at all, an
  envelope is decrypted only if it is, unchanged, a message that is due.
 */
module ConversationAcceptance {
  import opened Bytes
  import opened Primitives
  import opened RatchetState
  import opened SkipLemmas
  import opened Conversation
  import opened ConversationCache
  import opened ConversationDelivery

  /** `key` was derived, through any number of steps, from `secret`. */
  predicate DescendsFrom(key: Key, secret: Key) {
    key == secret
    || match key
       case RootKey(root, _) => DescendsFrom(root, secret)
       case ChainKey(parent, _) => DescendsFrom(parent, secret)
       case NextChainKey(chain) => DescendsFrom(chain, secret)
       case MessageKey(of) => DescendsFrom(of, secret)
       case _ => false
  }

  ghost predicate Logged(h: History, c: Ciphertext) {
    exists k, n :: Slot(h, k, n) && h.log[k][n].envelope.ciphertext == Encoded(c)
  }

  /** Nobody but the two sessions seals under keys derived from their shared secret. */
  ghost predicate Unforged(h: History, e: Envelope)
    requires |h.roots| > 0
  {
    (e.ciphertext.Encoded? && e.ciphertext.value.Sealed? && DescendsFrom(e.ciphertext.value.key, h.roots[0]))
    ==> Logged(h, e.ciphertext.value)
  }

  lemma {:induction false} RootDescends(h: History, k: int)
    requires RootsOk(h) && 0 <= k < |h.roots|
    ensures DescendsFrom(h.roots[k], h.roots[0])
    decreases k
  {
    if k > 0 {
      RootDescends(h, k - 1);
    }
  }

  lemma {:induction false} ChainDescends(start: Key, n: nat, secret: Key)
    requires DescendsFrom(start, secret)
    ensures DescendsFrom(ChainAt(start, n), secret)
  {
    if n > 0 {
      ChainDescends(start, n - 1, secret);
    }
  }

  /** Every chain of the conversation, and any chain a session hangs off its root, has keys that descend. */
  lemma KeyDescends(h: History, k: int, dh: DhOutput, n: nat)
    requires RootsOk(h) && 0 <= k < |h.roots|
    ensures DescendsFrom(MessageKeyAt(ChainKey(h.roots[k], dh), n), h.roots[0])
  {
    RootDescends(h, k);
    ChainDescends(ChainKey(h.roots[k], dh), n, h.roots[0]);
  }

  /** Within an epoch, the key tried is the one at the header's number, or at the receiving position. */
  lemma KeyWithinEpoch(rule: ResetRule, h: History, side: Side, d: nat, s: State, header: ParsedHeader)
    requires RootsOk(h) && 1 <= d < |h.roots| && SessionOk(rule, h, side, d, s)
    requires SkippedId(header.key, header.number) !in s.skipped && s.remote == Some(header.key)
    requires TakeKey(s, header).key.Ok?
    ensures var r := ReceiveEpoch(side, d);
            && 1 <= r && header.key == PublicKey(h.secrets[r])
            && TakeKey(s, header).key.value
               == MessageKeyAt(Start(h, r), if s.received < header.number then header.number else s.received)
  {
    var r := ReceiveEpoch(side, d);
    if r >= 1 {
      SkipChain(s, Start(h, r), header.number);
    }
  }

  /** Under another ratchet key, the key tried hangs off the session's present root. */
  lemma KeyAcrossEpochs(s: State, header: ParsedHeader)
    requires SkippedId(header.key, header.number) !in s.skipped && s.remote != Some(header.key)
    requires TakeKey(s, header).key.Ok?
    ensures TakeKey(s, header).key.value
            == MessageKeyAt(ChainKey(s.root, Dh(s.local.secret, header.key)), header.number)
  {
    SkipKeepsRest(s, header.previous);
    TakeIsCrossThenSkip(s, header);
    var c := Crossed(s, header.key, header.previous);
    SkipChain(c.state, ChainKey(s.root, Dh(s.local.secret, header.key)), header.number);
  }

  /** The slot a logged ciphertext comes from, when it opens under a header and data. */
  lemma OpenedIsLogged(rule: ResetRule, h: History, header: ParsedHeader, e: Envelope, associatedData: seq<byte>, key: Key)
    returns (k: int, n: int)
    requires RootsOk(h) && LogOk(rule, h)
    requires e.version == RATCHET_VERSION && ParseHeader(e.header) == Ok(header)
    requires OpenMessage(key, header, e, associatedData).Ok?
    requires Logged(h, e.ciphertext.value)
    ensures Slot(h, k, n) && key == MessageKeyAt(Start(h, k), n)
    ensures h.log[k][n].envelope == e && h.log[k][n].associatedData == associatedData
    ensures header.key == PublicKey(h.secrets[k]) && header.number == n && header.previous == PreviousOf(rule, h, k)
  {
    k, n :| Slot(h, k, n) && h.log[k][n].envelope.ciphertext == Encoded(e.ciphertext.value);
    var m, previous := h.log[k][n], PreviousOf(rule, h, k);
    assert Genuine(h, k, n, previous, m);
    RatchetAadInjective(header, associatedData, HeaderOf(h, previous, k, n), m.associatedData);
  }

  /** `e` with `associatedData` is, unchanged, a message that is due. */
  ghost predicate IsDue(
    rule: ResetRule, h: History, side: Side, d: nat, s: State, delivered: set<Envelope>,
    e: Envelope, associatedData: seq<byte>, k: int, n: nat)
    requires |h.secrets| == |h.log|
  {
    && Due(rule, h, side, d, s, delivered, k, n)
    && h.log[k][n].envelope == e && h.log[k][n].associatedData == associatedData
  }

  /** The three cases of a key that opens a logged message, by where the key was found. */
  lemma CachedIsDue(
    rule: ResetRule, h: History, side: Side, d: nat, s: State, delivered: set<Envelope>, header: ParsedHeader, k: int)
    requires RootsOk(h) && 1 <= d < |h.roots| && WellAt(rule, h, side, d, s, delivered)
    requires Slot(h, k, header.number) && header.key == PublicKey(h.secrets[k])
    requires SkippedId(header.key, header.number) in s.skipped
    ensures Due(rule, h, side, d, s, delivered, k, header.number)
  {
    TakeCached(rule, h, side, ReceiveEpoch(side, d), s, delivered, k, header);
  }

  lemma CurrentIsDue(
    rule: ResetRule, h: History, side: Side, d: nat, s: State, delivered: set<Envelope>, header: ParsedHeader, k: int)
    requires RootsOk(h) && 1 <= d < |h.roots| && WellAt(rule, h, side, d, s, delivered)
    requires Slot(h, k, header.number) && SkippedId(header.key, header.number) !in s.skipped
    requires s.remote == Some(header.key)
    requires TakeKey(s, header).key == Ok(MessageKeyAt(Start(h, k), header.number))
    ensures Due(rule, h, side, d, s, delivered, k, header.number)
  {
    KeyWithinEpoch(rule, h, side, d, s, header);
    var r := ReceiveEpoch(side, d);
    KeyNamesSlot(h, k, header.number, r, if s.received < header.number then header.number else s.received);
    TakeCurrent(rule, h, side, d, s, delivered, header);
  }

  lemma NewIsDue(
    rule: ResetRule, h: History, side: Side, d: nat, s: State, delivered: set<Envelope>, header: ParsedHeader, k: int)
    requires RootsOk(h) && 1 <= d < |h.roots| <= d + 2 && WellAt(rule, h, side, d, s, delivered)
    requires |h.roots| == d + 2 ==> Owner(d) == side
    requires Slot(h, k, header.number) && SkippedId(header.key, header.number) !in s.skipped
    requires header.key == PublicKey(h.secrets[k]) && header.previous == PreviousOf(rule, h, k)
    requires s.remote != Some(header.key)
    requires TakeKey(s, header).key == Ok(MessageKeyAt(Start(h, k), header.number))
    ensures Due(rule, h, side, d, s, delivered, k, header.number)
  {
    KeyAcrossEpochs(s, header);
    MessageKeyAtInjective(Start(h, k), header.number, ChainKey(s.root, Dh(s.local.secret, header.key)), header.number);
    assert RootDepth(h.roots[k - 1]) == RootDepth(h.roots[d]);
    assert k == d + 1;
    TakeNew(rule, h, side, d, s, delivered, header);
  }

  /** An envelope that decrypts is a message that is due, and its plaintext is the one sent. */
  lemma AcceptedIsDue(
    rule: ResetRule, h: History, side: Side, d: nat, s: State, delivered: set<Envelope>, e: Envelope, associatedData: seq<byte>)
    returns (k: int, n: nat)
    requires RootsOk(h) && LogOk(rule, h) && 1 <= d < |h.roots| <= d + 2 && WellAt(rule, h, side, d, s, delivered)
    requires |h.roots| == d + 2 ==> Owner(d) == side
    requires Unforged(h, e) && Decrypt(s, e, associatedData).result.Ok?
    ensures IsDue(rule, h, side, d, s, delivered, e, associatedData, k, n)
    ensures Decrypt(s, e, associatedData).result.value == h.log[k][n].plaintext
  {
    var header := ParseHeader(e.header).value;
    DecryptIsParsed(s, e, associatedData, header);
    var key := TakeKey(s, header).key.value;
    TakenKeyDescends(rule, h, side, d, s, delivered, header);
    hide WellAt, TakeKey, LogOk, RootsOk, Decrypt, DescendsFrom;
    var i, j := OpenedIsLogged(rule, h, header, e, associatedData, key);
    k, n := i, j;
    if SkippedId(header.key, header.number) in s.skipped {
      CachedIsDue(rule, h, side, d, s, delivered, header, k);
    } else if s.remote == Some(header.key) {
      CurrentIsDue(rule, h, side, d, s, delivered, header, k);
    } else {
      NewIsDue(rule, h, side, d, s, delivered, header, k);
    }
  }

  /** Every key a session tries descends from the shared secret. */
  lemma TakenKeyDescends(
    rule: ResetRule, h: History, side: Side, d: nat, s: State, delivered: set<Envelope>, header: ParsedHeader)
    requires RootsOk(h) && 1 <= d < |h.roots| && WellAt(rule, h, side, d, s, delivered)
    requires TakeKey(s, header).key.Ok?
    ensures DescendsFrom(TakeKey(s, header).key.value, h.roots[0])
  {
    var id := SkippedId(header.key, header.number);
    if id in s.skipped {
      var k := EntrySlot(h, side, ReceiveEpoch(side, d), s.received, delivered, id, s.skipped[id]);
      KeyDescends(h, k - 1, Link(h, k), header.number);
    } else if s.remote == Some(header.key) {
      KeyWithinEpoch(rule, h, side, d, s, header);
      var r := ReceiveEpoch(side, d);
      KeyDescends(h, r - 1, Link(h, r), if s.received < header.number then header.number else s.received);
    } else {
      KeyAcrossEpochs(s, header);
      KeyDescends(h, d, Dh(s.local.secret, header.key), header.number);
    }
  }
}

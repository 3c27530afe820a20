/**
  Two sessions that talk over a network: either side encrypts, and the network hands over
  envelopes in any order, losing any of them. Epoch `k` is the `k`-th root-key step of the
  conversation; its chain is sent by its owner.
 */
module Conversation {
  import opened Bytes
  import opened Primitives
  import opened RatchetState
  import opened SkipLemmas

  datatype Side = Initiator | Responder

  function Owner(epoch: nat): Side {
    if epoch % 2 == 1 then Initiator else Responder
  }

  function Other(side: Side): Side {
    if side.Initiator? then Responder else Initiator
  }

  datatype Message = Message(plaintext: seq<byte>, associatedData: seq<byte>, nonce: Nonce, envelope: Envelope)

  /** By epoch: the ratchet secret, the root key reached, the messages sent. Epoch 0 is the bootstrap. */
  datatype History = History(secrets: seq<Secret>, roots: seq<Key>, log: seq<seq<Message>>)

  /** A session, and the root keys it has held, the shared secret first. */
  datatype Party = Party(session: State, trail: seq<Key>)

  datatype Talk = Talk(history: History, initiator: Party, responder: Party, delivered: set<Envelope>)

  function PartyOf(t: Talk, side: Side): Party {
    if side.Initiator? then t.initiator else t.responder
  }

  function SessionOf(t: Talk, side: Side): State {
    PartyOf(t, side).session
  }

  function WithParty(t: Talk, side: Side, p: Party): Talk {
    if side.Initiator? then t.(initiator := p) else t.(responder := p)
  }

  function Moved(p: Party, s: State): Party {
    Party(s, if s.root != p.session.root then p.trail + [s.root] else p.trail)
  }

  /** How many root steps a side has taken. */
  function Depth(t: Talk, side: Side): int {
    |PartyOf(t, side).trail| - 1
  }

  /** The epoch whose chain a side at depth `d` is receiving; 0 when it has received none. */
  function ReceiveEpoch(side: Side, d: nat): nat {
    if d > 0 && Owner(d) == side then d - 1 else d
  }

  // The steps

  function Begin(shared: Key, ephemeral: Secret, signedPreKey: Secret): Talk {
    var root := RootKey(shared, Dh(ephemeral, PublicKey(signedPreKey)));
    Talk(
      History([signedPreKey, ephemeral], [shared, root], [[], []]),
      Party(BootstrapInitiator(shared, ephemeral, PublicKey(signedPreKey)), [shared, root]),
      Party(BootstrapResponder(shared, signedPreKey, PublicKey(ephemeral)), [shared, root]),
      {})
  }

  predicate CanSend(t: Talk, side: Side, draw: Secret) {
    var s := SessionOf(t, side);
    s.sent + 1 < U32_LIMIT && s.previous < U32_LIMIT && draw !in t.history.secrets
  }

  /** `side` encrypts a message: in the epoch it is sending in, or else in a new one. */
  function Send(
    rule: ResetRule, t: Talk, side: Side, plaintext: seq<byte>, associatedData: seq<byte>, nonce: Nonce, draw: Secret
  ): Talk
    requires CanSend(t, side, draw)
  {
    var p := PartyOf(t, side);
    var e := Encrypt(rule, p.session, plaintext, associatedData, nonce, draw);
    var next := WithParty(t, side, Moved(p, e.state));
    if e.result.Err? then next
    else
      var m := Message(plaintext, associatedData, nonce, e.result.value);
      var h := t.history;
      var d := Depth(t, side);
      if e.state.root == p.session.root then
        if 0 <= d < |h.log| then next.(history := h.(log := h.log[d := h.log[d] + [m]])) else next
      else
        next.(history := History(h.secrets + [draw], h.roots + [e.state.root], h.log + [[m]]))
  }

  /** The network hands `side` an envelope, which it decrypts; the session keeps every change. */
  function Hand(t: Talk, side: Side, e: Envelope, associatedData: seq<byte>): Talk {
    var p := PartyOf(t, side);
    var d := Decrypt(p.session, e, associatedData);
    var next := WithParty(t, side, Moved(p, d.state));
    if d.result.Ok? then next.(delivered := t.delivered + {e}) else next
  }

  // The invariant

  ghost predicate Slot(h: History, k: int, n: int) {
    1 <= k < |h.log| && 0 <= n < |h.log[k]|
  }

  function Link(h: History, k: int): DhOutput
    requires 1 <= k < |h.secrets|
  {
    Dh(h.secrets[k], PublicKey(h.secrets[k - 1]))
  }

  /** The first chain key of an epoch. */
  function Start(h: History, k: int): Key
    requires 1 <= k < |h.secrets| && |h.roots| == |h.secrets|
  {
    ChainKey(h.roots[k - 1], Link(h, k))
  }

  /** The previous chain length the headers of an epoch carry. */
  function PreviousOf(rule: ResetRule, h: History, k: int): nat {
    if rule.Once? && 2 <= k <= |h.log| + 1 then |h.log[k - 2]| else 0
  }

  ghost predicate RootsOk(h: History) {
    && |h.secrets| == |h.roots| == |h.log| >= 2
    && h.log[0] == []
    && (forall i, j :: 0 <= i < j < |h.secrets| ==> h.secrets[i] != h.secrets[j])
    && (forall k :: 1 <= k < |h.roots| ==> h.roots[k] == RootKey(h.roots[k - 1], Link(h, k)))
    && (forall k :: 0 <= k < |h.roots| ==> RootDepth(h.roots[k]) == RootDepth(h.roots[0]) + k)
    && (forall k :: 0 <= k < |h.log| ==> |h.log[k]| < U32_LIMIT)
  }

  ghost predicate Genuine(h: History, k: int, n: nat, previous: nat, m: Message)
    requires 1 <= k < |h.secrets| && |h.roots| == |h.secrets|
  {
    && previous < U32_LIMIT && n < U32_LIMIT
    && m.plaintext != []
    && m.envelope.version == RATCHET_VERSION
    && m.envelope.header == RatchetHeader(Encoded(PublicKey(h.secrets[k])), previous, n)
    && m.envelope.nonce == Encoded(m.nonce)
    && m.envelope.ciphertext == Encoded(Sealed(
         MessageKeyAt(Start(h, k), n),
         m.nonce,
         RatchetAad(ParsedHeader(PublicKey(h.secrets[k]), previous, n), m.associatedData),
         m.plaintext))
  }

  ghost predicate LogOk(rule: ResetRule, h: History)
    requires RootsOk(h)
  {
    forall k, n :: Slot(h, k, n) ==> Genuine(h, k, n, PreviousOf(rule, h, k), h.log[k][n])
  }

  ghost predicate SessionOk(rule: ResetRule, h: History, side: Side, d: nat, s: State)
    requires RootsOk(h) && 1 <= d < |h.roots|
  {
    var r := ReceiveEpoch(side, d);
    && s.root == h.roots[d]
    && s.local == PairOf(h.secrets[if Owner(d) == side then d else d - 1])
    && s.remote == Some(PublicKey(h.secrets[r]))
    && s.received <= |h.log[r]|
    && (if r == 0 then s.receiving.None?
        else s.receiving == Some(ChainAt(Start(h, r), s.received)))
    && (if Owner(d) == side
        then s.sending == Some(ChainAt(Start(h, d), |h.log[d]|))
             && s.sent == |h.log[d]| && s.previous == PreviousOf(rule, h, d)
        else s.sending.None? && s.sent == 0 && s.previous == |h.log[d - 1]|)
  }

  ghost predicate EntryOk(h: History, side: Side, r: nat, received: nat, delivered: set<Envelope>, id: SkippedId, key: Key)
    requires RootsOk(h) && r < |h.roots|
  {
    exists k :: 1 <= k <= r && Owner(k) != side && id.key == PublicKey(h.secrets[k])
                && id.number < |h.log[k]| && key == MessageKeyAt(Start(h, k), id.number)
                && h.log[k][id.number].envelope !in delivered
                && (k == r ==> id.number < received)
  }

  ghost predicate IdIn(h: History, k: int, n: nat, skipped: map<SkippedId, Key>)
    requires 0 <= k < |h.secrets|
  {
    SkippedId(PublicKey(h.secrets[k]), n) in skipped
  }

  /** Messages skipped but not delivered are cached: in the present epoch, and under `Once` in all. */
  ghost predicate Covered(
    rule: ResetRule, h: History, side: Side, r: nat, received: nat, skipped: map<SkippedId, Key>, delivered: set<Envelope>)
    requires RootsOk(h) && r < |h.roots|
  {
    forall k, n :: Slot(h, k, n) && k <= r && Owner(k) != side && h.log[k][n].envelope !in delivered
                   && ((k == r && n < received) || (k < r && rule.Once?))
      ==> IdIn(h, k, n, skipped)
  }

  /** Delivered messages lie behind the receiving position. */
  ghost predicate DeliveredBehind(h: History, side: Side, r: nat, received: nat, delivered: set<Envelope>)
    requires RootsOk(h) && r < |h.roots|
  {
    forall k, n :: Slot(h, k, n) && Owner(k) != side && h.log[k][n].envelope in delivered
      ==> k <= r && (k == r ==> n < received)
  }

  ghost predicate CacheOk(
    rule: ResetRule, h: History, side: Side, r: nat, received: nat, skipped: map<SkippedId, Key>, delivered: set<Envelope>)
    requires RootsOk(h) && r < |h.roots|
  {
    && |skipped| <= MAX_SKIPPED_MESSAGE_KEYS
    && (forall id :: id in skipped ==> EntryOk(h, side, r, received, delivered, id, skipped[id]))
    && Covered(rule, h, side, r, received, skipped, delivered)
    && DeliveredBehind(h, side, r, received, delivered)
  }

  /** A session at depth `d` of the conversation, its cache included. */
  ghost predicate WellAt(rule: ResetRule, h: History, side: Side, d: nat, s: State, delivered: set<Envelope>)
    requires RootsOk(h) && 1 <= d < |h.roots|
  {
    && SessionOk(rule, h, side, d, s)
    && CacheOk(rule, h, side, ReceiveEpoch(side, d), s.received, s.skipped, delivered)
  }

  ghost predicate PartyOk(rule: ResetRule, h: History, side: Side, p: Party, delivered: set<Envelope>)
    requires RootsOk(h)
  {
    var d := |p.trail| - 1;
    1 <= d < |h.roots| && p.trail == h.roots[..d + 1] && WellAt(rule, h, side, d, p.session, delivered)
  }

  /** The owner of the newest epoch has reached it; the other side is at most one step behind. */
  ghost predicate InStep(t: Talk) {
    var last := |t.history.roots| - 1;
    last >= 1 && Depth(t, Owner(last)) == last && Depth(t, Other(Owner(last))) >= last - 1
  }

  ghost predicate Recorded(h: History, delivered: set<Envelope>) {
    forall e :: e in delivered ==> exists k, n :: Slot(h, k, n) && h.log[k][n].envelope == e
  }

  ghost predicate Invariant(rule: ResetRule, t: Talk) {
    && RootsOk(t.history)
    && LogOk(rule, t.history)
    && Recorded(t.history, t.delivered)
    && InStep(t)
    && PartyOk(rule, t.history, Initiator, t.initiator, t.delivered)
    && PartyOk(rule, t.history, Responder, t.responder, t.delivered)
  }

  lemma BeginOk(rule: ResetRule, shared: Key, ephemeral: Secret, signedPreKey: Secret)
    requires ephemeral != signedPreKey
    ensures Invariant(rule, Begin(shared, ephemeral, signedPreKey))
  {
    var t := Begin(shared, ephemeral, signedPreKey);
    var h := t.history;
    DhCommutes(ephemeral, signedPreKey);
    assert h.roots[..2] == h.roots;
    assert Start(h, 1) == ChainAt(Start(h, 1), 0);
  }

  // What distinguishes envelopes

  /** A message key of the conversation names its epoch and number. */
  lemma KeyNamesSlot(h: History, j: int, m: nat, k: int, n: nat)
    requires RootsOk(h) && 1 <= j < |h.roots| && 1 <= k < |h.roots|
    requires MessageKeyAt(Start(h, j), m) == MessageKeyAt(Start(h, k), n)
    ensures j == k && m == n
  {
    MessageKeyAtInjective(Start(h, j), m, Start(h, k), n);
    assert RootDepth(h.roots[j - 1]) == RootDepth(h.roots[k - 1]);
  }

  lemma EnvelopeNamesSlot(rule: ResetRule, h: History, j: int, m: int, k: int, n: int)
    requires RootsOk(h) && LogOk(rule, h) && Slot(h, j, m) && Slot(h, k, n)
    requires h.log[j][m].envelope == h.log[k][n].envelope
    ensures j == k && m == n
  {
    assert Genuine(h, j, m, PreviousOf(rule, h, j), h.log[j][m]);
    assert Genuine(h, k, n, PreviousOf(rule, h, k), h.log[k][n]);
  }
}

/** Whole conversations between eager sessions, run beside conversations of the code's sessions. */
module EagerConversation {
  import opened Bytes
  import opened Primitives
  import opened RatchetState
  import opened SkipLemmas
  import opened Conversation
  import opened ConversationDelivery
  import opened ConversationAcceptance
  import opened ConversationRuns
  import opened EagerRatchet

  /** The ratchet key of each epoch, the same for both kinds of session. */
  type Supply = nat -> Secret

  /** An eager session, and the epoch it sends in. */
  datatype EagerParty = EagerParty(session: State, epoch: nat)

  datatype EagerTalk = EagerTalk(initiator: EagerParty, responder: EagerParty)

  function EagerSide(t: EagerTalk, side: Side): EagerParty {
    if side.Initiator? then t.initiator else t.responder
  }

  function WithEager(t: EagerTalk, side: Side, p: EagerParty): EagerTalk {
    if side.Initiator? then t.(initiator := p) else t.(responder := p)
  }

  function BeginEager(rule: ResetRule, shared: Key, supply: Supply): EagerTalk {
    EagerTalk(
      EagerParty(BootstrapInitiator(shared, supply(1), PublicKey(supply(0))), 1),
      EagerParty(EnsureSendingChain(rule, BootstrapResponder(shared, supply(0), PublicKey(supply(1))), supply(2)).state, 2))
  }

  /** What a step shows outside the sessions. */
  datatype Shown = Emitted(envelope: Result<Envelope>) | Opened(plaintext: Result<seq<byte>>)

  datatype EagerStep = EagerStep(talk: EagerTalk, shown: Shown)

  predicate CanPlay(t: EagerTalk, e: Event) {
    e.Sends? ==> EagerSide(t, e.side).session.sent < U32_LIMIT && EagerSide(t, e.side).session.previous < U32_LIMIT
  }

  /** One event, played by eager sessions. An eager session draws its next key when it ratchets. */
  function Play(rule: ResetRule, supply: Supply, t: EagerTalk, e: Event): EagerStep
    requires CanPlay(t, e)
  {
    match e
    case Sends(side, plaintext, data, nonce, _) =>
      var p := EagerSide(t, side);
      var sealed := EagerEncrypt(p.session, plaintext, data, nonce);
      EagerStep(WithEager(t, side, p.(session := sealed.state)), Emitted(sealed.result))
    case Arrives(to, envelope, data) =>
      var p := EagerSide(t, to);
      var out := EagerDecrypt(rule, p.session, envelope, data, supply(p.epoch + 2));
      var epoch := if out.state.root != p.session.root then p.epoch + 2 else p.epoch;
      EagerStep(WithEager(t, to, EagerParty(out.state, epoch)), Opened(out.result))
  }

  /** The same event, played by the code's sessions. */
  function ShownBy(rule: ResetRule, t: Talk, e: Event): Shown
    requires e.Sends? ==> CanSend(t, e.side, e.draw)
  {
    match e
    case Sends(side, plaintext, data, nonce, draw) =>
      Emitted(Encrypt(rule, SessionOf(t, side), plaintext, data, nonce, draw).result)
    case Arrives(to, envelope, data) => Opened(Decrypt(SessionOf(t, to), envelope, data).result)
  }

  /** One key is drawn for each epoch, from the supply. */
  predicate DrawsFrom(supply: Supply, t: Talk, e: Event) {
    e.Sends? && SessionOf(t, e.side).sending.None? ==> e.draw == supply(|t.history.roots|)
  }

  /** The epoch a side at depth `d` sends in, or will. */
  function SendEpoch(side: Side, d: nat): nat {
    if Owner(d) == side then d else d + 1
  }

  ghost predicate SideAgrees(rule: ResetRule, supply: Supply, side: Side, d: nat, s: State, p: EagerParty) {
    p == EagerParty(EagerOf(rule, s, supply(d + 1)), SendEpoch(side, d))
  }

  ghost predicate Agrees(rule: ResetRule, supply: Supply, t: Talk, et: EagerTalk) {
    && Depth(t, Initiator) >= 0 && Depth(t, Responder) >= 0
    && SideAgrees(rule, supply, Initiator, Depth(t, Initiator), t.initiator.session, et.initiator)
    && SideAgrees(rule, supply, Responder, Depth(t, Responder), t.responder.session, et.responder)
  }

  lemma BeginAgrees(rule: ResetRule, supply: Supply, shared: Key)
    ensures Agrees(rule, supply, Begin(shared, supply(1), supply(0)), BeginEager(rule, shared, supply))
  {
  }

  /** What a session at depth `d` looks like from the sending side. */
  lemma SendingShape(rule: ResetRule, t: Talk, side: Side)
    requires Invariant(rule, t)
    ensures var d, s := Depth(t, side), SessionOf(t, side);
            && d >= 1 && s.remote.Some?
            && (s.sending.Some? <==> Owner(d) == side)
            && (s.sending.None? ==> d == |t.history.roots| - 1 && s.sent == 0)
  {
    Standing(rule, t, side);
    hide Invariant, CacheOk, LogOk;
  }

  // One event

  /** An open sending chain makes the draw irrelevant. */
  lemma DrawUnused(rule: ResetRule, s: State, plaintext: seq<byte>, data: seq<byte>, nonce: Nonce, a: Secret, b: Secret)
    requires s.sending.Some? || a == b
    requires s.sent < U32_LIMIT && s.previous < U32_LIMIT
    ensures Encrypt(rule, s, plaintext, data, nonce, a) == Encrypt(rule, s, plaintext, data, nonce, b)
  {
  }

  /** An open sending chain makes a session its own eager counterpart. */
  lemma EagerOfSending(rule: ResetRule, s: State, draw: Secret)
    requires s.sending.Some?
    ensures EagerOf(rule, s, draw) == s
  {
  }

  /** What encryption does to the root key and the sending chain. */
  lemma EncryptRoot(rule: ResetRule, s: State, plaintext: seq<byte>, data: seq<byte>, nonce: Nonce, draw: Secret)
    requires s.remote.Some? && s.sent < U32_LIMIT && s.previous < U32_LIMIT
    ensures var t := Encrypt(rule, s, plaintext, data, nonce, draw).state;
            && (plaintext == [] ==> t == s)
            && (plaintext != [] ==> t.sending.Some?)
            && (t.root == s.root <==> plaintext == [] || s.sending.Some?)
  {
    RootGrows(s.root, Dh(draw, s.remote.value));
  }

  lemma SideSends(
    rule: ResetRule, supply: Supply, side: Side, d: nat, p: Party, ep: EagerParty,
    plaintext: seq<byte>, data: seq<byte>, nonce: Nonce, draw: Secret)
    requires |p.trail| == d + 1 && SideAgrees(rule, supply, side, d, p.session, ep)
    requires p.session.remote.Some? && p.session.sent < U32_LIMIT && p.session.previous < U32_LIMIT
    requires p.session.sending.Some? <==> Owner(d) == side
    requires p.session.sending.Some? || draw == supply(d + 1)
    ensures ep.session.sent < U32_LIMIT && ep.session.previous < U32_LIMIT
    ensures var lazy := Encrypt(rule, p.session, plaintext, data, nonce, draw);
            var eager := EagerEncrypt(ep.session, plaintext, data, nonce);
            var next := Moved(p, lazy.state);
            && eager.result == lazy.result && |next.trail| >= 1
            && SideAgrees(rule, supply, side, |next.trail| - 1, next.session, ep.(session := eager.state))
  {
    DrawUnused(rule, p.session, plaintext, data, nonce, draw, supply(d + 1));
    SendingAgrees(rule, p.session, supply(d + 1), plaintext, data, nonce);
    EncryptRoot(rule, p.session, plaintext, data, nonce, draw);
    var t := Encrypt(rule, p.session, plaintext, data, nonce, draw).state;
    hide Encrypt, EagerEncrypt;
    if t.sending.Some? {
      EagerOfSending(rule, t, supply(d + 1));
      EagerOfSending(rule, t, supply(d + 2));
    }
  }

  /** Taking a key within an epoch keeps the root key and the sending chain. */
  lemma WithinEpochRoot(s: State, header: ParsedHeader)
    requires SkippedId(header.key, header.number) in s.skipped || s.remote == Some(header.key)
    ensures var t := TakeKey(s, header).state;
            t.root == s.root && t.sending == s.sending && t.remote == s.remote
  {
    SkipKeepsRest(s, header.number);
  }

  /** Crossing into a new epoch steps the root key once and closes the sending chain. */
  lemma AcrossRoot(s: State, header: ParsedHeader)
    requires SkippedId(header.key, header.number) !in s.skipped && s.remote != Some(header.key)
    requires TakeKey(s, header).key.Ok?
    ensures var t := TakeKey(s, header).state;
            t.root == RootKey(s.root, Dh(s.local.secret, header.key)) && t.sending.None? && t.remote == Some(header.key)
  {
    SkipKeepsRest(s, header.previous);
    var closed := SkipMessageKeys(s, header.previous).state;
    SkipKeepsRest(ApplyRemoteRatchet(closed, header.key), header.number);
  }

  /** Equal keys taken from a well-formed envelope open it alike. */
  lemma OpensAlike(rule: ResetRule, s: State, es: State, e: Envelope, data: seq<byte>, header: ParsedHeader, draw: Secret)
    requires e.version == RATCHET_VERSION && ParseHeader(e.header) == Ok(header)
    requires EagerTakeKey(rule, es, header, draw).key == TakeKey(s, header).key
    ensures EagerDecrypt(rule, es, e, data, draw).result == Decrypt(s, e, data).result
    ensures EagerDecrypt(rule, es, e, data, draw).state == EagerTakeKey(rule, es, header, draw).state
    ensures Decrypt(s, e, data).state == TakeKey(s, header).state
  {
  }

  /** The receiving side after an event, eager and not. */
  ghost predicate ReceivedAlike(
    rule: ResetRule, supply: Supply, side: Side, p: Party, ep: EagerParty, e: Envelope, data: seq<byte>)
  {
    var lazy := Decrypt(p.session, e, data);
    var eager := EagerDecrypt(rule, ep.session, e, data, supply(ep.epoch + 2));
    var next := Moved(p, lazy.state);
    && eager.result == lazy.result
    && |next.trail| >= 1
    && SideAgrees(rule, supply, side, |next.trail| - 1, next.session,
         EagerParty(eager.state, if eager.state.root != ep.session.root then ep.epoch + 2 else ep.epoch))
  }

  lemma EagerOfRoot(rule: ResetRule, s: State, t: State, draw: Secret)
    requires t.root == s.root && t.sending == s.sending && t.remote == s.remote
    ensures EagerOf(rule, t, draw).root == EagerOf(rule, s, draw).root
  {
  }

  lemma ReceivesWithinEpoch(
    rule: ResetRule, supply: Supply, side: Side, d: nat, p: Party, ep: EagerParty,
    e: Envelope, data: seq<byte>, header: ParsedHeader)
    requires |p.trail| == d + 1 && SideAgrees(rule, supply, side, d, p.session, ep)
    requires e.version == RATCHET_VERSION && ParseHeader(e.header) == Ok(header)
    requires SkippedId(header.key, header.number) in p.session.skipped || p.session.remote == Some(header.key)
    ensures ReceivedAlike(rule, supply, side, p, ep, e, data)
  {
    TakeWithinEpochAgrees(rule, p.session, supply(d + 1), header, supply(ep.epoch + 2));
    OpensAlike(rule, p.session, ep.session, e, data, header, supply(ep.epoch + 2));
    WithinEpochRoot(p.session, header);
    EagerOfRoot(rule, p.session, TakeKey(p.session, header).state, supply(d + 1));
    hide Decrypt, EagerDecrypt, TakeKey, EagerTakeKey, EagerOf;
  }

  lemma EagerRootMoves(rule: ResetRule, s: State, t: State, dh: DhOutput, draw: Secret)
    requires t.root == RootKey(s.root, dh)
    ensures EagerOf(rule, t, draw).root != s.root
  {
    assert RootDepth(t.root) == RootDepth(s.root) + 1;
    assert RootDepth(EagerOf(rule, t, draw).root) >= RootDepth(t.root);
  }

  lemma ReceivesAcross(
    rule: ResetRule, supply: Supply, side: Side, d: nat, p: Party, ep: EagerParty,
    e: Envelope, data: seq<byte>, header: ParsedHeader)
    requires |p.trail| == d + 1 && SideAgrees(rule, supply, side, d, p.session, ep)
    requires Owner(d) == side && p.session.sending.Some?
    requires e.version == RATCHET_VERSION && ParseHeader(e.header) == Ok(header)
    requires SkippedId(header.key, header.number) !in p.session.skipped && p.session.remote != Some(header.key)
    requires TakeKey(p.session, header).key.Ok?
    ensures ReceivedAlike(rule, supply, side, p, ep, e, data)
  {
    EagerOfSending(rule, p.session, supply(d + 1));
    TakeAcrossAgrees(rule, p.session, header, supply(d + 2));
    OpensAlike(rule, p.session, ep.session, e, data, header, supply(ep.epoch + 2));
    AcrossRoot(p.session, header);
    RootGrows(p.session.root, Dh(p.session.local.secret, header.key));
    EagerRootMoves(rule, p.session, TakeKey(p.session, header).state, Dh(p.session.local.secret, header.key), supply(d + 2));
    hide Decrypt, EagerDecrypt, TakeKey, EagerTakeKey, EagerOf;
  }

  lemma AgreesAt(rule: ResetRule, supply: Supply, t: Talk, et: EagerTalk, side: Side)
    requires Agrees(rule, supply, t, et)
    ensures Depth(t, side) >= 0
    ensures SideAgrees(rule, supply, side, Depth(t, side), SessionOf(t, side), EagerSide(et, side))
  {
  }

  /** Replacing one side by sessions that agree keeps the whole in agreement. */
  lemma OneSideMoves(rule: ResetRule, supply: Supply, t: Talk, et: EagerTalk, side: Side, p: Party, ep: EagerParty, next: Talk)
    requires Agrees(rule, supply, t, et)
    requires |p.trail| >= 1 && SideAgrees(rule, supply, side, |p.trail| - 1, p.session, ep)
    requires PartyOf(next, side) == p && PartyOf(next, Other(side)) == PartyOf(t, Other(side))
    ensures Agrees(rule, supply, next, WithEager(et, side, ep))
  {
    hide SideAgrees;
  }

  lemma SendParties(
    rule: ResetRule, t: Talk, side: Side, plaintext: seq<byte>, data: seq<byte>, nonce: Nonce, draw: Secret)
    requires CanSend(t, side, draw)
    ensures var next := Send(rule, t, side, plaintext, data, nonce, draw);
            && PartyOf(next, side)
               == Moved(PartyOf(t, side), Encrypt(rule, SessionOf(t, side), plaintext, data, nonce, draw).state)
            && PartyOf(next, Other(side)) == PartyOf(t, Other(side))
  {
    hide Encrypt, Moved;
  }

  lemma HandParties(t: Talk, side: Side, e: Envelope, data: seq<byte>)
    ensures var next := Hand(t, side, e, data);
            && PartyOf(next, side) == Moved(PartyOf(t, side), Decrypt(SessionOf(t, side), e, data).state)
            && PartyOf(next, Other(side)) == PartyOf(t, Other(side))
  {
    hide Decrypt, Moved;
  }

  /** What a message that is due looks like to its receiver: within an epoch, or across into the next. */
  lemma DueShape(rule: ResetRule, t: Talk, side: Side, k: int, n: nat) returns (header: ParsedHeader)
    requires Invariant(rule, t) && DueAt(rule, t, side, k, n)
    ensures var m, s, d := t.history.log[k][n], SessionOf(t, side), Depth(t, side);
            && m.envelope.version == RATCHET_VERSION && ParseHeader(m.envelope.header) == Ok(header)
            && (SkippedId(header.key, header.number) in s.skipped || s.remote == Some(header.key)
                || (Owner(d) == side && s.sending.Some? && TakeKey(s, header).key.Ok?))
  {
    var h, d, s := t.history, Depth(t, side), SessionOf(t, side);
    Standing(rule, t, side);
    assert Genuine(h, k, n, PreviousOf(rule, h, k), h.log[k][n]);
    header := HeaderOf(h, PreviousOf(rule, h, k), k, n);
    DueIsTaken(rule, h, side, d, s, t.delivered, k, n);
    hide TakeKey, CacheOk, LogOk, RatchetAad;
  }

  /** One event of an honest conversation shows the same from eager sessions, and agreement goes on. */
  lemma EventAgrees(rule: ResetRule, supply: Supply, t: Talk, et: EagerTalk, e: Event)
    requires Invariant(rule, t) && Allowed(rule, InMemory, t, e) && DrawsFrom(supply, t, e)
    requires Agrees(rule, supply, t, et)
    ensures CanPlay(et, e)
    ensures Play(rule, supply, et, e).shown == ShownBy(rule, t, e)
    ensures Agrees(rule, supply, Next(rule, InMemory, t, e), Play(rule, supply, et, e).talk)
  {
    match e
    case Sends(side, plaintext, data, nonce, draw) =>
      SendAgrees(rule, supply, t, et, side, plaintext, data, nonce, draw);
    case Arrives(to, envelope, data) =>
      var k, n: nat :| IsDue(rule, t.history, to, Depth(t, to), SessionOf(t, to), t.delivered, envelope, data, k, n);
      ArrivalAgrees(rule, supply, t, et, to, k, n);
  }

  lemma SendAgrees(
    rule: ResetRule, supply: Supply, t: Talk, et: EagerTalk, side: Side,
    plaintext: seq<byte>, data: seq<byte>, nonce: Nonce, draw: Secret)
    requires Invariant(rule, t) && CanSend(t, side, draw) && Agrees(rule, supply, t, et)
    requires SessionOf(t, side).sending.None? ==> draw == supply(|t.history.roots|)
    ensures var e := Sends(side, plaintext, data, nonce, draw);
            && CanPlay(et, e)
            && Play(rule, supply, et, e).shown == ShownBy(rule, t, e)
            && Agrees(rule, supply, Send(rule, t, side, plaintext, data, nonce, draw), Play(rule, supply, et, e).talk)
  {
    hide *;
    SendingShape(rule, t, side);
    SentAlikeAt(rule, supply, t, et, side, plaintext, data, nonce, draw);
    SentAgrees(rule, supply, t, et, side, plaintext, data, nonce, draw);
  }

  /** The sending side after an event, eager and not. */
  ghost predicate SentAlike(
    rule: ResetRule, supply: Supply, side: Side, p: Party, ep: EagerParty,
    plaintext: seq<byte>, data: seq<byte>, nonce: Nonce, draw: Secret)
    requires p.session.sent < U32_LIMIT && p.session.previous < U32_LIMIT
  {
    && ep.session.sent < U32_LIMIT && ep.session.previous < U32_LIMIT
    && var lazy := Encrypt(rule, p.session, plaintext, data, nonce, draw);
       var eager := EagerEncrypt(ep.session, plaintext, data, nonce);
       var next := Moved(p, lazy.state);
       && eager.result == lazy.result && |next.trail| >= 1
       && SideAgrees(rule, supply, side, |next.trail| - 1, next.session, ep.(session := eager.state))
  }

  lemma SentAlikeAt(
    rule: ResetRule, supply: Supply, t: Talk, et: EagerTalk, side: Side,
    plaintext: seq<byte>, data: seq<byte>, nonce: Nonce, draw: Secret)
    requires CanSend(t, side, draw) && Agrees(rule, supply, t, et)
    requires var d, s := Depth(t, side), SessionOf(t, side);
             && d >= 1 && s.remote.Some? && (s.sending.Some? <==> Owner(d) == side)
             && (s.sending.None? ==> draw == supply(d + 1))
    ensures SentAlike(rule, supply, side, PartyOf(t, side), EagerSide(et, side), plaintext, data, nonce, draw)
  {
    AgreesAt(rule, supply, t, et, side);
    hide SideAgrees, Agrees, Encrypt, EagerEncrypt, Moved;
    SideSends(rule, supply, side, Depth(t, side), PartyOf(t, side), EagerSide(et, side), plaintext, data, nonce, draw);
  }

  lemma SentAgrees(
    rule: ResetRule, supply: Supply, t: Talk, et: EagerTalk, side: Side,
    plaintext: seq<byte>, data: seq<byte>, nonce: Nonce, draw: Secret)
    requires CanSend(t, side, draw) && Agrees(rule, supply, t, et)
    requires SentAlike(rule, supply, side, PartyOf(t, side), EagerSide(et, side), plaintext, data, nonce, draw)
    ensures var e := Sends(side, plaintext, data, nonce, draw);
            && CanPlay(et, e)
            && Play(rule, supply, et, e).shown == ShownBy(rule, t, e)
            && Agrees(rule, supply, Send(rule, t, side, plaintext, data, nonce, draw), Play(rule, supply, et, e).talk)
  {
    SendParties(rule, t, side, plaintext, data, nonce, draw);
    hide Encrypt, EagerEncrypt, Moved, SideAgrees, Agrees, Send;
    var eager := EagerEncrypt(EagerSide(et, side).session, plaintext, data, nonce);
    OneSideMoves(rule, supply, t, et, side,
                 Moved(PartyOf(t, side), Encrypt(rule, SessionOf(t, side), plaintext, data, nonce, draw).state),
                 EagerSide(et, side).(session := eager.state), Send(rule, t, side, plaintext, data, nonce, draw));
  }

  lemma ArrivalAgrees(rule: ResetRule, supply: Supply, t: Talk, et: EagerTalk, to: Side, k: int, n: nat)
    requires Invariant(rule, t) && DueAt(rule, t, to, k, n) && Agrees(rule, supply, t, et)
    ensures var m := t.history.log[k][n];
            var e := Arrives(to, m.envelope, m.associatedData);
            && Play(rule, supply, et, e).shown == ShownBy(rule, t, e)
            && Agrees(rule, supply, Hand(t, to, m.envelope, m.associatedData), Play(rule, supply, et, e).talk)
  {
    var m := t.history.log[k][n];
    var header := DueShape(rule, t, to, k, n);
    AgreesAt(rule, supply, t, et, to);
    hide Invariant, DueAt, SideAgrees, Agrees, TakeKey;
    var p, ep := PartyOf(t, to), EagerSide(et, to);
    if SkippedId(header.key, header.number) in p.session.skipped || p.session.remote == Some(header.key) {
      ReceivesWithinEpoch(rule, supply, to, Depth(t, to), p, ep, m.envelope, m.associatedData, header);
    } else {
      ReceivesAcross(rule, supply, to, Depth(t, to), p, ep, m.envelope, m.associatedData, header);
    }
    HandParties(t, to, m.envelope, m.associatedData);
    HandedAgrees(rule, supply, t, et, to, m.envelope, m.associatedData);
  }

  lemma HandedAgrees(rule: ResetRule, supply: Supply, t: Talk, et: EagerTalk, to: Side, e: Envelope, data: seq<byte>)
    requires Agrees(rule, supply, t, et)
    requires ReceivedAlike(rule, supply, to, PartyOf(t, to), EagerSide(et, to), e, data)
    ensures Play(rule, supply, et, Arrives(to, e, data)).shown == ShownBy(rule, t, Arrives(to, e, data))
    ensures Agrees(rule, supply, Hand(t, to, e, data), Play(rule, supply, et, Arrives(to, e, data)).talk)
  {
    HandParties(t, to, e, data);
    hide Decrypt, EagerDecrypt, Moved, SideAgrees, Agrees, Hand;
    var p, ep := PartyOf(t, to), EagerSide(et, to);
    var eager := EagerDecrypt(rule, ep.session, e, data, supply(ep.epoch + 2));
    OneSideMoves(rule, supply, t, et, to, Moved(p, Decrypt(p.session, e, data).state),
                 EagerParty(eager.state, if eager.state.root != ep.session.root then ep.epoch + 2 else ep.epoch),
                 Hand(t, to, e, data));
  }

  // Runs

  /** Every epoch of the run draws its key from the supply. */
  ghost predicate DrawsAll(rule: ResetRule, supply: Supply, t: Talk, events: seq<Event>)
    requires IsRun(rule, InMemory, t, events)
    decreases |events|
  {
    events != [] ==>
      DrawsFrom(supply, t, events[0]) && DrawsAll(rule, supply, Next(rule, InMemory, t, events[0]), events[1..])
  }

  /** What the code's sessions show over a run. */
  ghost function ShownOver(rule: ResetRule, t: Talk, events: seq<Event>): seq<Shown>
    requires IsRun(rule, InMemory, t, events)
    decreases |events|
  {
    if events == [] then []
    else [ShownBy(rule, t, events[0])] + ShownOver(rule, Next(rule, InMemory, t, events[0]), events[1..])
  }

  /** The eager sessions' counters stay within range. */
  predicate CanPlayAll(rule: ResetRule, supply: Supply, t: EagerTalk, events: seq<Event>)
    decreases |events|
  {
    events != [] ==>
      CanPlay(t, events[0]) && CanPlayAll(rule, supply, Play(rule, supply, t, events[0]).talk, events[1..])
  }

  /** What eager sessions show over the same events. */
  function EagerShownOver(rule: ResetRule, supply: Supply, t: EagerTalk, events: seq<Event>): seq<Shown>
    requires CanPlayAll(rule, supply, t, events)
    decreases |events|
  {
    if events == [] then []
    else
      var step := Play(rule, supply, t, events[0]);
      [step.shown] + EagerShownOver(rule, supply, step.talk, events[1..])
  }

  lemma {:induction false} RunAgrees(rule: ResetRule, supply: Supply, t: Talk, et: EagerTalk, events: seq<Event>)
    requires Invariant(rule, t) && Agrees(rule, supply, t, et)
    requires IsRun(rule, InMemory, t, events) && DrawsAll(rule, supply, t, events)
    ensures CanPlayAll(rule, supply, et, events)
    ensures EagerShownOver(rule, supply, et, events) == ShownOver(rule, t, events)
    decreases |events|
  {
    hide Invariant, Agrees, Allowed, Next, Play, ShownBy, DrawsFrom;
    if events != [] {
      EventAgrees(rule, supply, t, et, events[0]);
      NextKeepsInvariant(rule, InMemory, t, events[0]);
      RunAgrees(rule, supply, Next(rule, InMemory, t, events[0]), Play(rule, supply, et, events[0]).talk, events[1..]);
    }
  }

  /**
    Deferring the draw refines the eager ratchet: from one bootstrap, every honest run in
    which each epoch draws its key from one supply shows the same envelopes and plaintexts.
   */
  lemma LazyRefinesEager(rule: ResetRule, supply: Supply, shared: Key, events: seq<Event>)
    requires supply(0) != supply(1)
    requires IsRun(rule, InMemory, Begin(shared, supply(1), supply(0)), events)
    requires DrawsAll(rule, supply, Begin(shared, supply(1), supply(0)), events)
    ensures CanPlayAll(rule, supply, BeginEager(rule, shared, supply), events)
    ensures EagerShownOver(rule, supply, BeginEager(rule, shared, supply), events)
            == ShownOver(rule, Begin(shared, supply(1), supply(0)), events)
  {
    BeginOk(rule, shared, supply(1), supply(0));
    BeginAgrees(rule, supply, shared);
    RunAgrees(rule, supply, Begin(shared, supply(1), supply(0)), BeginEager(rule, shared, supply), events);
  }
}

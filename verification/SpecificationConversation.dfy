/**
  The code's conversation beside the one of "The Double Ratchet Algorithm", section 3.5: eager
  sessions with a single overwrite of the previous chain length, each hearing its own peer.
 */
module SpecificationConversation {
  import opened Bytes
  import opened Primitives
  import opened RatchetState
  import opened SkipLemmas
  import opened Conversation
  import opened ConversationCache
  import opened ConversationDelivery
  import opened ConversationAcceptance
  import opened ConversationRuns
  import opened ConversationSteps
  import opened EagerRatchet
  import opened EagerConversation
  import opened TwinConversations

  // The condition

  /** The keys a session has to store for a header fit beside those it has cached. */
  predicate Room(s: State, header: ParsedHeader) {
    || SkippedId(header.key, header.number) in s.skipped
    || |s.skipped| + ToStore(s, header) <= MAX_SKIPPED_MESSAGE_KEYS
  }

  /** At a new ratchet key, the rest of the old chain as well. */
  function ToStore(s: State, header: ParsedHeader): nat {
    if s.remote == Some(header.key) then Gap(s.received, header.number)
    else Gap(s.received, header.previous) + header.number
  }

  lemma NamesEpoch(rule: ResetRule, u: Talk, to: Side, k: int, n: nat)
    requires Invariant(rule, u) && Slot(u.history, k, n) && n < U32_LIMIT && PreviousOf(rule, u.history, k) < U32_LIMIT
    requires Depth(u, to) >= 1
    ensures |u.history.secrets| == |u.history.log|
    ensures var header, r, s := HeaderAt(rule, u.history, k, n), ReceiveEpoch(to, Depth(u, to)), SessionOf(u, to);
            && header.key == PublicKey(u.history.secrets[k]) && header.number == n
            && header.previous == PreviousOf(rule, u.history, k)
            && (s.remote == Some(header.key) <==> k == r)
  {
    Standing(rule, u, to);
    hide CacheOk, LogOk, PartyOk, Recorded, InStep;
  }

  /** Room, of a message that is cached, or lies ahead in the present epoch or in the next. */
  lemma RoomFits(h: History, r: nat, s: State, header: ParsedHeader, k: int)
    requires 0 <= k < |h.secrets| && header.key == PublicKey(h.secrets[k]) && header.previous == PreviousOf(Once, h, k)
    requires s.remote == Some(header.key) <==> k == r
    requires !IdIn(h, k, header.number, s.skipped) ==> (k == r && s.received <= header.number) || k > r
    ensures Fits(Once, h, r, s, k, header.number) <==> Room(s, header)
  {
    hide PreviousOf;
  }

  lemma DueIsFits(u: Talk, to: Side, k: int, n: nat)
    requires Invariant(Once, u) && Slot(u.history, k, n) && Owner(k) != to
    requires u.history.log[k][n].envelope !in u.delivered && Depth(u, to) >= 1 && |u.history.secrets| == |u.history.log|
    ensures DueAt(Once, u, to, k, n)
            <==> Fits(Once, u.history, ReceiveEpoch(to, Depth(u, to)), SessionOf(u, to), k, n)
  {
    hide Fits, Invariant;
  }

  lemma NotDelivered(t: Talk, u: Talk, to: Side, k: int, n: nat)
    requires Twin(t, u) && Slot(t.history, k, n) && Slot(u.history, k, n)
    requires t.history.log[k][n].envelope !in t.delivered
    ensures u.history.log[k][n].envelope !in u.delivered
  {
    hide Invariant, SameHistory, SamePlace;
  }

  lemma SlotWithin(h: History, k: int, n: int)
    requires Slot(h, k, n)
    ensures 1 <= k < |h.log| && 0 <= n < |h.log[k]|
  {
  }

  /** Of a message the code decrypts: the specification's copy is due exactly if there is room. */
  lemma RoomIsDue(t: Talk, u: Talk, to: Side, k: int, n: nat)
    requires Twin(t, u) && DueAt(Twice, t, to, k, n)
    requires Slot(u.history, k, n) && n < U32_LIMIT && PreviousOf(Once, u.history, k) < U32_LIMIT
    ensures |u.history.secrets| == |u.history.log|
    ensures DueAt(Once, u, to, k, n) <==> Room(SessionOf(u, to), HeaderAt(Once, u.history, k, n))
  {
    hide *;
    SlotWithin(u.history, k, n);
    TwinParts(t, u, to);
    DueParts(Twice, t, to, k, n);
    DueCachedAlike(t, u, to, k, n);
    NotDelivered(t, u, to, k, n);
    NamesEpoch(Once, u, to, k, n);
    RoomFits(u.history, ReceiveEpoch(to, Depth(u, to)), SessionOf(u, to), HeaderAt(Once, u.history, k, n), k);
    DueIsFits(u, to, k, n);
  }

  lemma TwinSlot(t: Talk, u: Talk, to: Side, k: int, n: nat)
    requires Twin(t, u) && DueAt(Twice, t, to, k, n)
    ensures Slot(t.history, k, n) && Slot(u.history, k, n) && Owner(k) != to
    ensures n < U32_LIMIT && PreviousOf(Once, u.history, k) < U32_LIMIT
    ensures |u.history.secrets| == |u.history.log| == |u.history.roots|
    ensures Genuine(u.history, k, n, PreviousOf(Once, u.history, k), u.history.log[k][n])
  {
    DueCachedAlike(t, u, to, k, n);
    hide Due, PartyOk, Recorded, InStep, SameHistory, SameDelivered, SamePlace;
  }

  // What the specification's session makes of it

  /** Without the peer's key at hand, an eager session gets the key the deferred one gets, or the same error. */
  lemma TakesAcrossAlike(rule: ResetRule, s: State, header: ParsedHeader, draw: Secret)
    requires SkippedId(header.key, header.number) !in s.skipped && s.remote != Some(header.key)
    ensures EagerTakeKey(rule, s, header, draw).key == TakeKey(s, header).key
  {
    var closed := SkipMessageKeys(s, header.previous);
    if closed.outcome.Pass? {
      var crossed := ApplyRemoteRatchet(closed.state, header.key);
      SkipAgrees(rule, crossed, draw, header.number);
      TakeNextAgrees(rule, SkipMessageKeys(crossed, header.number).state, draw);
    }
  }

  /** An eager session in step with a deferred one, sending if the header opens an epoch, decrypts alike or fails alike. */
  lemma HearsAlike(rule: ResetRule, s: State, next: Secret, e: Envelope, data: seq<byte>, header: ParsedHeader, draw: Secret)
    requires e.version == RATCHET_VERSION && ParseHeader(e.header) == Ok(header)
    requires s.sending.Some? || SkippedId(header.key, header.number) in s.skipped || s.remote == Some(header.key)
    ensures EagerDecrypt(rule, EagerOf(rule, s, next), e, data, draw).result == Decrypt(s, e, data).result
  {
    var es := EagerOf(rule, s, next);
    if SkippedId(header.key, header.number) in s.skipped || s.remote == Some(header.key) {
      TakeWithinEpochAgrees(rule, s, next, header, draw);
    } else {
      EagerOfSending(rule, s, next);
      TakesAcrossAlike(rule, s, header, draw);
    }
    hide EagerOf, EagerTakeKey, TakeKey, EagerDecrypt, Decrypt;
    OpensAlike(rule, s, es, e, data, header, draw);
  }

  /** A session has the room its eager counterpart has. */
  lemma RoomAlike(rule: ResetRule, s: State, draw: Secret, header: ParsedHeader)
    ensures Room(EagerOf(rule, s, draw), header) <==> Room(s, header)
  {
  }

  /** Where the copy of a message the code decrypts finds the specification's deferred session. */
  lemma CopyShape(t: Talk, u: Talk, to: Side, k: int, n: nat)
    requires Twin(t, u) && DueAt(Twice, t, to, k, n)
    requires Slot(u.history, k, n) && n < U32_LIMIT && PreviousOf(Once, u.history, k) < U32_LIMIT
    ensures |u.history.secrets| == |u.history.log|
    ensures var header, s := HeaderAt(Once, u.history, k, n), SessionOf(u, to);
            s.sending.Some? || SkippedId(header.key, header.number) in s.skipped || s.remote == Some(header.key)
  {
    hide *;
    SlotWithin(u.history, k, n);
    TwinParts(t, u, to);
    DueCachedAlike(t, u, to, k, n);
    NamesEpoch(Once, u, to, k, n);
    SendingShape(Once, u, to);
    IdAt(u.history, k, n, SessionOf(u, to).skipped);
  }

  lemma IdAt(h: History, k: int, n: nat, skipped: map<SkippedId, Key>)
    requires 0 <= k < |h.secrets|
    ensures IdIn(h, k, n, skipped) <==> SkippedId(PublicKey(h.secrets[k]), n) in skipped
  {
  }

  /** The header of a copy. */
  lemma CopyHeader(u: Talk, k: int, n: nat)
    requires |u.history.secrets| == |u.history.log| == |u.history.roots| && Slot(u.history, k, n)
    requires n < U32_LIMIT && PreviousOf(Once, u.history, k) < U32_LIMIT
    requires Genuine(u.history, k, n, PreviousOf(Once, u.history, k), u.history.log[k][n])
    ensures var e := u.history.log[k][n].envelope;
            e.version == RATCHET_VERSION && ParseHeader(e.header) == Ok(HeaderAt(Once, u.history, k, n))
  {
    hide PreviousOf, RatchetAad;
  }

  /** The specification's session decrypts its copy of a message the code decrypts, exactly if it has room. */
  lemma CopyNeedsRoom(t: Talk, u: Talk, to: Side, k: int, n: nat, next: Secret, draw: Secret)
    requires Twin(t, u) && DueAt(Twice, t, to, k, n) && Slot(u.history, k, n)
    ensures var m, s := u.history.log[k][n], EagerOf(Once, SessionOf(u, to), next);
            && m.envelope.version == RATCHET_VERSION && ParseHeader(m.envelope.header).Ok?
            && (Room(s, ParseHeader(m.envelope.header).value) <==>
                  EagerDecrypt(Once, s, m.envelope, m.associatedData, draw).result.Ok?)
            && (Room(s, ParseHeader(m.envelope.header).value) <==> DueAt(Once, u, to, k, n))
  {
    hide *;
    TwinParts(t, u, to);
    TwinSlot(t, u, to, k, n);
    SlotWithin(u.history, k, n);
    CopyHeader(u, k, n);
    var m, s, header := u.history.log[k][n], SessionOf(u, to), HeaderAt(Once, u.history, k, n);
    CopyShape(t, u, to, k, n);
    HearsAlike(Once, s, next, m.envelope, m.associatedData, header, draw);
    RoomAlike(Once, s, next, header);
    RoomIsDue(t, u, to, k, n);
    DeliveryIsExact(Once, u, to, k, n);
  }

  // The two conversations, side by side

  /** A side speaks, or hears message `n` of epoch `k` as its own peer sent it. */
  datatype Move =
    | Speaks(side: Side, plaintext: seq<byte>, data: seq<byte>, nonce: Nonce)
    | Hears(to: Side, k: nat, n: nat)

  /** In the code's conversation a side may hear what is due there; each epoch draws its key from the supply. */
  ghost predicate Honest(supply: Supply, t: Talk, move: Move) {
    match move
    case Speaks(side, _, _, _) => CanSend(t, side, supply(|t.history.roots|))
    case Hears(to, k, n) =>
      && |t.history.secrets| == |t.history.log| && Depth(t, to) >= 0
      && Due(Twice, t.history, to, Depth(t, to), SessionOf(t, to), t.delivered, k, n)
  }

  ghost function EventOf(supply: Supply, t: Talk, move: Move): Event
    requires Honest(supply, t, move)
  {
    match move
    case Speaks(side, plaintext, data, nonce) => Sends(side, plaintext, data, nonce, supply(|t.history.roots|))
    case Hears(to, k, n) => Arrives(to, t.history.log[k][n].envelope, t.history.log[k][n].associatedData)
  }

  ghost function CodePlay(supply: Supply, t: Talk, move: Move): Talk
    requires Honest(supply, t, move)
  {
    match EventOf(supply, t, move)
    case Sends(side, plaintext, data, nonce, draw) => Send(Twice, t, side, plaintext, data, nonce, draw)
    case Arrives(to, envelope, data) => Hand(t, to, envelope, data)
  }

  lemma HearingIsStep(t: Talk, to: Side, k: nat, n: nat)
    requires |t.history.secrets| == |t.history.log| && |t.history.roots| > 0 && Depth(t, to) >= 0
    requires Due(Twice, t.history, to, Depth(t, to), SessionOf(t, to), t.delivered, k, n)
    ensures var m := t.history.log[k][n];
            Allowed(Twice, InMemory, t, Arrives(to, m.envelope, m.associatedData))
  {
    var m := t.history.log[k][n];
    hide Fits, Unforged;
    assert IsDue(Twice, t.history, to, Depth(t, to), SessionOf(t, to), t.delivered, m.envelope, m.associatedData, k, n);
  }

  /** The moves of the code's conversation are steps of its sessions in memory. */
  lemma MovesAreSteps(supply: Supply, t: Talk, move: Move)
    requires Invariant(Twice, t) && Honest(supply, t, move)
    ensures Allowed(Twice, InMemory, t, EventOf(supply, t, move))
    ensures CodePlay(supply, t, move) == Next(Twice, InMemory, t, EventOf(supply, t, move))
  {
    RootsExist(t);
    hide Invariant, Due, Send, Hand, DueMessage, CanSend;
    if move.Hears? {
      HearingIsStep(t, move.to, move.k, move.n);
    }
  }

  lemma RootsExist(t: Talk)
    requires Invariant(Twice, t)
    ensures |t.history.roots| > 0
  {
  }

  /** Eager sessions, and the messages they have sent, by epoch. */
  datatype Spec = Spec(talk: EagerTalk, log: seq<seq<Message>>)

  datatype SpecStep = SpecStep(spec: Spec, shown: Shown)

  function BeginSpec(shared: Key, supply: Supply): Spec {
    Spec(BeginEager(Once, shared, supply), [[], []])
  }

  function Noted(log: seq<seq<Message>>, epoch: nat, m: Message): seq<seq<Message>> {
    if epoch < |log| then log[epoch := log[epoch] + [m]] else log + [[m]]
  }

  /** The move as the specification's sessions play it; a message that was not sent is not heard. */
  function SpecPlay(supply: Supply, s: Spec, move: Move): SpecStep {
    match move
    case Speaks(side, plaintext, data, nonce) =>
      var e := Sends(side, plaintext, data, nonce, supply(EagerSide(s.talk, side).epoch));
      if !CanPlay(s.talk, e) then SpecStep(s, Emitted(Err(InvalidRatchetMessage)))
      else
        var step := Play(Once, supply, s.talk, e);
        if step.shown.Emitted? && step.shown.envelope.Ok? then
          var m := Message(plaintext, data, nonce, step.shown.envelope.value);
          SpecStep(Spec(step.talk, Noted(s.log, EagerSide(s.talk, side).epoch, m)), step.shown)
        else SpecStep(s.(talk := step.talk), step.shown)
    case Hears(to, k, n) =>
      if k < |s.log| && n < |s.log[k]| then
        var step := Play(Once, supply, s.talk, Arrives(to, s.log[k][n].envelope, s.log[k][n].associatedData));
        SpecStep(s.(talk := step.talk), step.shown)
      else SpecStep(s, Opened(Err(InvalidRatchetMessage)))
  }

  /** What is shown is alike: envelopes but for the previous chain length, plaintexts exactly. */
  ghost predicate ShownAlike(code: Shown, spec: Shown) {
    match code
    case Emitted(envelope) => spec.Emitted? && ResultsAlike(envelope, spec.envelope)
    case Opened(plaintext) => spec == Opened(plaintext)
  }

  /** The specification's session has room for what the move makes it store. */
  predicate RoomFor(s: Spec, move: Move) {
    move.Hears? ==>
      && move.k < |s.log| && move.n < |s.log[move.k]|
      && var header := ParseHeader(s.log[move.k][move.n].envelope.header);
         header.Ok? && Room(EagerSide(s.talk, move.to).session, header.value)
  }

  /** `u` lies between: deferred sessions with a single overwrite. */
  ghost predicate Matching(supply: Supply, t: Talk, u: Talk, s: Spec) {
    Twin(t, u) && Agrees(Once, supply, u, s.talk) && s.log == u.history.log
  }

  lemma NotedIsLog(
    supply: Supply, u: Talk, et: EagerTalk, side: Side, plaintext: seq<byte>, data: seq<byte>, nonce: Nonce, draw: Secret)
    requires Invariant(Once, u) && CanSend(u, side, draw) && Agrees(Once, supply, u, et)
    ensures var out := Encrypt(Once, SessionOf(u, side), plaintext, data, nonce, draw).result;
            Send(Once, u, side, plaintext, data, nonce, draw).history.log
            == if out.Ok? then Noted(u.history.log, EagerSide(et, side).epoch, Message(plaintext, data, nonce, out.value))
               else u.history.log
  {
    AgreesAt(Once, supply, u, et, side);
    HistoryShape(Once, u);
    SendingShape(Once, u, side);
    Standing(Once, u, side);
    EncryptRoot(Once, SessionOf(u, side), plaintext, data, nonce, draw);
    hide Encrypt, Send, Invariant, Agrees, WellAt, EagerOf;
    SendHistory(Once, u, side, plaintext, data, nonce, draw);
  }

  lemma PlayIgnoresDraw(
    supply: Supply, et: EagerTalk, side: Side, plaintext: seq<byte>, data: seq<byte>, nonce: Nonce, a: Secret, b: Secret)
    requires CanPlay(et, Sends(side, plaintext, data, nonce, a))
    ensures CanPlay(et, Sends(side, plaintext, data, nonce, b))
    ensures Play(Once, supply, et, Sends(side, plaintext, data, nonce, a))
            == Play(Once, supply, et, Sends(side, plaintext, data, nonce, b))
  {
  }

  lemma SpeakingMatches(
    supply: Supply, t: Talk, u: Talk, s: Spec, side: Side, plaintext: seq<byte>, data: seq<byte>, nonce: Nonce, draw: Secret)
    requires Matching(supply, t, u, s) && CanSend(t, side, draw) && draw == supply(|t.history.roots|)
    ensures CanSend(u, side, draw)
    ensures var step := SpecPlay(supply, s, Speaks(side, plaintext, data, nonce));
            && ShownAlike(Emitted(Encrypt(Twice, SessionOf(t, side), plaintext, data, nonce, draw).result), step.shown)
            && Matching(supply, Send(Twice, t, side, plaintext, data, nonce, draw),
                        Send(Once, u, side, plaintext, data, nonce, draw), step.spec)
  {
    TwinParts(t, u, side);
    assert |t.history.roots| == |u.history.roots|;
    TwinSpeaks(t, u, side, plaintext, data, nonce, draw);
    hide Twin, Invariant, Agrees, Encrypt, Send, Play, CanPlay, SameHistory, SameDelivered, SamePlace, CanSend, Noted, ResultsAlike;
    SendAgrees(Once, supply, u, s.talk, side, plaintext, data, nonce, draw);
    NotedIsLog(supply, u, s.talk, side, plaintext, data, nonce, draw);
    PlayIgnoresDraw(supply, s.talk, side, plaintext, data, nonce, draw, supply(EagerSide(s.talk, side).epoch));
  }

  lemma SpecHears(supply: Supply, s: Spec, to: Side, k: nat, n: nat)
    requires k < |s.log| && n < |s.log[k]| && ParseHeader(s.log[k][n].envelope.header).Ok?
    ensures var m, p := s.log[k][n], EagerSide(s.talk, to);
            var step := SpecPlay(supply, s, Hears(to, k, n));
            && step.spec == s.(talk := Play(Once, supply, s.talk, Arrives(to, m.envelope, m.associatedData)).talk)
            && step.shown == Play(Once, supply, s.talk, Arrives(to, m.envelope, m.associatedData)).shown
            && step.shown
               == Opened(EagerDecrypt(Once, p.session, m.envelope, m.associatedData, supply(p.epoch + 2)).result)
            && (RoomFor(s, Hears(to, k, n)) <==> Room(p.session, ParseHeader(m.envelope.header).value))
  {
    hide EagerDecrypt, Room, ParseHeader;
  }

  lemma MatchingParts(supply: Supply, t: Talk, u: Talk, s: Spec, side: Side)
    requires Matching(supply, t, u, s)
    ensures Twin(t, u) && Agrees(Once, supply, u, s.talk) && s.log == u.history.log && Depth(u, side) >= 0
    ensures EagerSide(s.talk, side).session == EagerOf(Once, SessionOf(u, side), supply(Depth(u, side) + 1))
  {
    hide Twin;
    AgreesAt(Once, supply, u, s.talk, side);
  }

  /** The specification's copy of a message the code decrypts is due, and is decrypted, exactly if there is room. */
  lemma HearsWithRoom(supply: Supply, t: Talk, u: Talk, s: Spec, to: Side, k: nat, n: nat)
    requires Matching(supply, t, u, s) && Twin(t, u) && DueAt(Twice, t, to, k, n)
    ensures Slot(t.history, k, n) && Slot(u.history, k, n) && s.log == u.history.log
    ensures RoomFor(s, Hears(to, k, n)) <==> DueAt(Once, u, to, k, n)
    ensures var m, step := u.history.log[k][n], SpecPlay(supply, s, Hears(to, k, n));
            && step.spec == s.(talk := Play(Once, supply, s.talk, Arrives(to, m.envelope, m.associatedData)).talk)
            && step.shown == Play(Once, supply, s.talk, Arrives(to, m.envelope, m.associatedData)).shown
            && step.shown.Opened? && (step.shown.plaintext.Ok? <==> RoomFor(s, Hears(to, k, n)))
  {
    hide *;
    MatchingParts(supply, t, u, s, to);
    TwinParts(t, u, to);
    TwinSlot(t, u, to, k, n);
    SlotWithin(u.history, k, n);
    CopyNeedsRoom(t, u, to, k, n, supply(Depth(u, to) + 1), supply(EagerSide(s.talk, to).epoch + 2));
    SpecHears(supply, s, to, k, n);
  }

  lemma HearingMatches(supply: Supply, t: Talk, u: Talk, s: Spec, to: Side, k: nat, n: nat)
    requires Matching(supply, t, u, s) && Twin(t, u) && DueAt(Twice, t, to, k, n)
    ensures Slot(t.history, k, n) && Slot(u.history, k, n)
    ensures var a, b := t.history.log[k][n], u.history.log[k][n];
            var step := SpecPlay(supply, s, Hears(to, k, n));
            && (RoomFor(s, Hears(to, k, n)) <==>
                  ShownAlike(Opened(Decrypt(SessionOf(t, to), a.envelope, a.associatedData).result), step.shown))
            && (RoomFor(s, Hears(to, k, n)) ==>
                  Matching(supply, Hand(t, to, a.envelope, a.associatedData), Hand(u, to, b.envelope, b.associatedData),
                           step.spec))
  {
    hide *;
    MatchingParts(supply, t, u, s, to);
    TwinParts(t, u, to);
    HearsWithRoom(supply, t, u, s, to, k, n);
    SlotWithin(t.history, k, n);
    SlotWithin(u.history, k, n);
    DueDecrypts(Twice, t, to, k, n);
    var a, b, step := t.history.log[k][n], u.history.log[k][n], SpecPlay(supply, s, Hears(to, k, n));
    OpenedAlike(a.plaintext, step.shown);
    if RoomFor(s, Hears(to, k, n)) {
      TwinHears(t, u, to, k, n);
      ArrivalAgrees(Once, supply, u, s.talk, to, k, n);
      ArrivalShown(u, to, b.envelope, b.associatedData);
      StaysMatching(supply, t, u, s, to, a, b, step.spec);
    }
  }

  lemma OpenedAlike(plaintext: seq<byte>, shown: Shown)
    ensures ShownAlike(Opened(Ok(plaintext)), shown) <==> shown == Opened(Ok(plaintext))
  {
  }

  lemma ArrivalShown(u: Talk, to: Side, e: Envelope, data: seq<byte>)
    ensures ShownBy(Once, u, Arrives(to, e, data)) == Opened(Decrypt(SessionOf(u, to), e, data).result)
  {
  }

  lemma StaysMatching(supply: Supply, t: Talk, u: Talk, s: Spec, to: Side, a: Message, b: Message, next: Spec)
    requires Twin(Hand(t, to, a.envelope, a.associatedData), Hand(u, to, b.envelope, b.associatedData))
    requires Agrees(Once, supply, Hand(u, to, b.envelope, b.associatedData), next.talk)
    requires next.log == s.log == u.history.log
    ensures Matching(supply, Hand(t, to, a.envelope, a.associatedData), Hand(u, to, b.envelope, b.associatedData), next)
  {
    hide Twin, Agrees, Decrypt;
  }

  ghost function CodeShown(supply: Supply, t: Talk, move: Move): Shown
    requires Honest(supply, t, move)
  {
    ShownBy(Twice, t, EventOf(supply, t, move))
  }

  lemma HonestHearing(supply: Supply, t: Talk, to: Side, k: nat, n: nat)
    requires Invariant(Twice, t) && Honest(supply, t, Hears(to, k, n))
    ensures DueAt(Twice, t, to, k, n) && n < |t.history.log[k]|
    ensures var a := t.history.log[k][n];
            && CodeShown(supply, t, Hears(to, k, n)) == Opened(Decrypt(SessionOf(t, to), a.envelope, a.associatedData).result)
            && CodePlay(supply, t, Hears(to, k, n)) == Hand(t, to, a.envelope, a.associatedData)
  {
    hide Invariant, Decrypt, Hand, Fits;
  }

  lemma HonestSpeaking(supply: Supply, t: Talk, side: Side, plaintext: seq<byte>, data: seq<byte>, nonce: Nonce)
    requires Honest(supply, t, Speaks(side, plaintext, data, nonce))
    ensures var move, draw := Speaks(side, plaintext, data, nonce), supply(|t.history.roots|);
            && CanSend(t, side, draw)
            && CodeShown(supply, t, move) == Emitted(Encrypt(Twice, SessionOf(t, side), plaintext, data, nonce, draw).result)
            && CodePlay(supply, t, move) == Send(Twice, t, side, plaintext, data, nonce, draw)
  {
    hide Encrypt, Send;
  }

  /** One move shows alike exactly if the specification has room for it, and then the two go on matching. */
  lemma MoveMatches(supply: Supply, t: Talk, u: Talk, s: Spec, move: Move) returns (v: Talk)
    requires Matching(supply, t, u, s) && Honest(supply, t, move)
    ensures ShownAlike(CodeShown(supply, t, move), SpecPlay(supply, s, move).shown) <==> RoomFor(s, move)
    ensures RoomFor(s, move) ==> Matching(supply, CodePlay(supply, t, move), v, SpecPlay(supply, s, move).spec)
  {
    hide *;
    match move
    case Speaks(side, plaintext, data, nonce) =>
      HonestSpeaking(supply, t, side, plaintext, data, nonce);
      var draw := supply(|t.history.roots|);
      SpeakingMatches(supply, t, u, s, side, plaintext, data, nonce, draw);
      SpeakingHasRoom(s, side, plaintext, data, nonce);
      v := Send(Once, u, side, plaintext, data, nonce, draw);
    case Hears(to, k, n) =>
      MatchingParts(supply, t, u, s, to);
      TwinParts(t, u, to);
      HonestHearing(supply, t, to, k, n);
      HearingMatches(supply, t, u, s, to, k, n);
      SlotWithin(u.history, k, n);
      var b := u.history.log[k][n];
      v := Hand(u, to, b.envelope, b.associatedData);
  }

  /** Speaking stores nothing. */
  lemma SpeakingHasRoom(s: Spec, side: Side, plaintext: seq<byte>, data: seq<byte>, nonce: Nonce)
    ensures RoomFor(s, Speaks(side, plaintext, data, nonce))
  {
  }

  // Runs

  ghost predicate IsHonest(supply: Supply, t: Talk, moves: seq<Move>)
    decreases |moves|
  {
    moves == [] || (Honest(supply, t, moves[0]) && IsHonest(supply, CodePlay(supply, t, moves[0]), moves[1..]))
  }

  /** The specification's sessions, playing the same moves, show the same throughout. */
  ghost predicate AlikeThroughout(supply: Supply, t: Talk, s: Spec, moves: seq<Move>)
    requires IsHonest(supply, t, moves)
    decreases |moves|
  {
    moves != [] ==>
      var step := SpecPlay(supply, s, moves[0]);
      && ShownAlike(CodeShown(supply, t, moves[0]), step.shown)
      && AlikeThroughout(supply, CodePlay(supply, t, moves[0]), step.spec, moves[1..])
  }

  /** They have room for every message they hear, when they hear it. */
  predicate RoomThroughout(supply: Supply, s: Spec, moves: seq<Move>)
    decreases |moves|
  {
    moves != [] ==> RoomFor(s, moves[0]) && RoomThroughout(supply, SpecPlay(supply, s, moves[0]).spec, moves[1..])
  }

  lemma {:induction false} RunMatches(supply: Supply, t: Talk, u: Talk, s: Spec, moves: seq<Move>)
    requires Matching(supply, t, u, s) && IsHonest(supply, t, moves)
    ensures AlikeThroughout(supply, t, s, moves) <==> RoomThroughout(supply, s, moves)
    decreases |moves|
  {
    hide Matching, Honest, CodePlay, CodeShown, SpecPlay, ShownAlike, RoomFor;
    if moves != [] {
      var v := MoveMatches(supply, t, u, s, moves[0]);
      if RoomFor(s, moves[0]) {
        RunMatches(supply, CodePlay(supply, t, moves[0]), v, SpecPlay(supply, s, moves[0]).spec, moves[1..]);
      }
    }
  }

  /**
    The code and the specification, from one bootstrap: in every run of the code's conversation
    in which each side hears messages that are due, in any order and losing any, sessions that
    follow the specification and hear each its own peer's copies show the same ratchet keys,
    numbers, message keys and plaintexts throughout, if and only if they have room, at every
    message, for the keys they then have to store: at a new ratchet key, the old chain's tail too.
   */
  lemma ShowsTheSameExactly(supply: Supply, shared: Key, moves: seq<Move>)
    requires supply(0) != supply(1) && IsHonest(supply, Begin(shared, supply(1), supply(0)), moves)
    ensures AlikeThroughout(supply, Begin(shared, supply(1), supply(0)), BeginSpec(shared, supply), moves)
            <==> RoomThroughout(supply, BeginSpec(shared, supply), moves)
  {
    var t := Begin(shared, supply(1), supply(0));
    BeginTwin(shared, supply(1), supply(0));
    BeginAgrees(Once, supply, shared);
    hide Twin, Agrees, IsHonest, AlikeThroughout, RoomThroughout, BeginEager;
    RunMatches(supply, t, t, BeginSpec(shared, supply), moves);
  }
}

/** A run in which the specification's sessions refuse a message that the code decrypts. */
module SpecificationRefusal {
  import opened Bytes
  import opened Primitives
  import opened RatchetState
  import opened Conversation
  import opened ConversationDelivery
  import opened ConversationRuns
  import opened ConversationSteps
  import opened EagerConversation
  import opened TwinConversations
  import opened SpecificationConversation

  // What the moves do

  /** A session's cache and receiving position are those it had. */
  ghost predicate SameReceiving(t: Talk, u: Talk, side: Side) {
    SessionOf(u, side).skipped == SessionOf(t, side).skipped && SessionOf(u, side).received == SessionOf(t, side).received
  }

  lemma EncryptKeepsReceiving(s: State, plaintext: seq<byte>, data: seq<byte>, nonce: Nonce, draw: Secret)
    requires s.sent < U32_LIMIT && s.previous < U32_LIMIT && s.remote.Some? && plaintext != []
    ensures var e := Encrypt(Twice, s, plaintext, data, nonce, draw);
            e.result.Ok? && e.state.skipped == s.skipped && e.state.received == s.received
  {
  }

  /** `side` has sent a message: within its epoch, or in one it opened with `draw`. */
  ghost predicate Spoken(t: Talk, v: Talk, side: Side, draw: Secret) {
    && v.delivered == t.delivered && Depth(t, side) >= 0
    && SameReceiving(t, v, Initiator) && SameReceiving(t, v, Responder)
    && Depth(v, Other(side)) == Depth(t, Other(side))
    && if Owner(Depth(t, side)) == side then Appended(t.history, v.history, Depth(t, side))
       else Opened(t.history, v.history, draw)
  }

  ghost predicate Appended(h: History, g: History, d: int) {
    && g.secrets == h.secrets && |g.log| == |h.log|
    && (forall k :: 0 <= k < |h.log| ==> |g.log[k]| == |h.log[k]| + if k == d then 1 else 0)
  }

  ghost predicate Opened(h: History, g: History, draw: Secret) {
    && g.secrets == h.secrets + [draw] && |g.log| == |h.log| + 1 && |g.log[|h.log|]| == 1
    && (forall k :: 0 <= k < |h.log| ==> g.log[k] == h.log[k])
  }

  lemma GrownHistory(h: History, g: History, d: int, m: Message, draw: Secret, root: Key)
    requires 1 <= d < |h.log|
    ensures g == h.(log := h.log[d := h.log[d] + [m]]) ==> Appended(h, g, d)
    ensures g == History(h.secrets + [draw], h.roots + [root], h.log + [[m]]) ==> Opened(h, g, draw)
  {
  }

  lemma SpeakingGrows(t: Talk, side: Side, plaintext: seq<byte>, data: seq<byte>, nonce: Nonce, draw: Secret)
    requires Invariant(Twice, t) && CanSend(t, side, draw) && plaintext != []
    ensures Depth(t, side) >= 1
    ensures var g, h, d := Send(Twice, t, side, plaintext, data, nonce, draw).history, t.history, Depth(t, side);
            if Owner(d) == side then Appended(h, g, d) else Opened(h, g, draw)
  {
    hide *;
    var s := SessionOf(t, side);
    CountersWithin(t, side, draw);
    SendingShape(Twice, t, side);
    Standing(Twice, t, side);
    HistoryShape(Twice, t);
    EncryptKeepsReceiving(s, plaintext, data, nonce, draw);
    EncryptRoot(Twice, s, plaintext, data, nonce, draw);
    SendHistory(Twice, t, side, plaintext, data, nonce, draw);
    var e := Encrypt(Twice, s, plaintext, data, nonce, draw);
    GrownHistory(t.history, Send(Twice, t, side, plaintext, data, nonce, draw).history, Depth(t, side),
                 Message(plaintext, data, nonce, e.result.value), draw, e.state.root);
  }

  lemma SpeakingReceives(t: Talk, side: Side, plaintext: seq<byte>, data: seq<byte>, nonce: Nonce, draw: Secret, s: Side)
    requires Invariant(Twice, t) && CanSend(t, side, draw) && plaintext != []
    ensures var v := Send(Twice, t, side, plaintext, data, nonce, draw);
            SameReceiving(t, v, s) && Depth(v, Other(side)) == Depth(t, Other(side))
  {
    SendingShape(Twice, t, side);
    EncryptKeepsReceiving(SessionOf(t, side), plaintext, data, nonce, draw);
    SendParties(Twice, t, side, plaintext, data, nonce, draw);
    OneOrOther(s, side);
    hide Invariant, Send, Encrypt, CanSend;
  }

  lemma SpeakingIsSpoken(supply: Supply, t: Talk, side: Side, plaintext: seq<byte>, data: seq<byte>, nonce: Nonce)
    requires Invariant(Twice, t) && CanSend(t, side, supply(|t.history.roots|)) && plaintext != []
    ensures var move := Speaks(side, plaintext, data, nonce);
            && Honest(supply, t, move)
            && Invariant(Twice, CodePlay(supply, t, move))
            && Spoken(t, CodePlay(supply, t, move), side, supply(|t.history.roots|))
  {
    hide *;
    var draw := supply(|t.history.roots|);
    SpeakingIsHonest(supply, t, side, plaintext, data, nonce);
    HonestSpeaking(supply, t, side, plaintext, data, nonce);
    SendKeepsInvariant(Twice, t, side, plaintext, data, nonce, draw);
    SendDelivers(Twice, t, side, plaintext, data, nonce, draw);
    SpeakingGrows(t, side, plaintext, data, nonce, draw);
    SpeakingReceives(t, side, plaintext, data, nonce, draw, Initiator);
    SpeakingReceives(t, side, plaintext, data, nonce, draw, Responder);
    SpokenParts(t, Send(Twice, t, side, plaintext, data, nonce, draw), side, draw);
  }

  lemma SpokenParts(t: Talk, v: Talk, side: Side, draw: Secret)
    requires v.delivered == t.delivered && Depth(t, side) >= 0
    requires SameReceiving(t, v, Initiator) && SameReceiving(t, v, Responder)
    requires Depth(v, Other(side)) == Depth(t, Other(side))
    requires if Owner(Depth(t, side)) == side then Appended(t.history, v.history, Depth(t, side))
             else Opened(t.history, v.history, draw)
    ensures Spoken(t, v, side, draw)
  {
  }

  lemma SpeakingIsHonest(supply: Supply, t: Talk, side: Side, plaintext: seq<byte>, data: seq<byte>, nonce: Nonce)
    requires CanSend(t, side, supply(|t.history.roots|))
    ensures Honest(supply, t, Speaks(side, plaintext, data, nonce))
  {
  }

  // The run

  /** The initiator has sent `n` messages and nothing else has happened. */
  ghost predicate Opening(supply: Supply, t: Talk, n: nat) {
    && t.history.secrets == [supply(0), supply(1)]
    && |t.history.log| == 2 && |t.history.log[1]| == n
    && t.delivered == {}
    && t.initiator.session.skipped == map[]
    && t.responder.session.skipped == map[] && t.responder.session.received == 0
  }

  /** The responder has answered, having heard nothing. */
  ghost predicate Answered(supply: Supply, t: Talk, n: nat) {
    && t.history.secrets == [supply(0), supply(1), supply(2)]
    && |t.history.log| == 3 && |t.history.log[1]| == n && |t.history.log[2]| == 1
    && t.delivered == {} && Depth(t, Initiator) == 1
    && t.initiator.session.skipped == map[]
    && t.responder.session.skipped == map[] && t.responder.session.received == 0
  }

  /** The initiator has heard the answer. */
  ghost predicate Heard(supply: Supply, t: Talk, n: nat) {
    && t.history.secrets == [supply(0), supply(1), supply(2)]
    && |t.history.log| == 3 && |t.history.log[1]| == n && |t.history.log[2]| == 1
    && t.delivered == {t.history.log[2][0].envelope}
    && Depth(t, Initiator) == 2 && Depth(t, Responder) == 2
    && t.responder.session.skipped == map[] && t.responder.session.received == 0
  }

  /** The initiator has opened its next epoch. */
  ghost predicate Reopened(t: Talk, n: nat) {
    && |t.history.log| == 4 && |t.history.log[1]| == n && |t.history.log[2]| == 1 && |t.history.log[3]| == 1
    && t.delivered == {t.history.log[2][0].envelope}
    && Depth(t, Responder) == 2
    && t.responder.session.skipped == map[] && t.responder.session.received == 0
  }

  ghost predicate Distinct4(supply: Supply) {
    forall i, j :: 0 <= i < j < 4 ==> supply(i) != supply(j)
  }

  /** What a side has sent. */
  lemma Counters(t: Talk, side: Side)
    requires Invariant(Twice, t)
    ensures var d, s := Depth(t, side), SessionOf(t, side);
            && 1 <= d < |t.history.log| == |t.history.roots| <= d + 2 && |t.history.secrets| == |t.history.log|
            && (Owner(d) == side ==> s.sent == |t.history.log[d]| && s.previous == 0)
            && (Owner(d) != side ==> s.sent == 0 && s.previous == |t.history.log[d - 1]|)
            && (|t.history.roots| == d + 2 ==> Owner(d) == side)
            && (Owner(|t.history.roots| - 1) == side ==> d == |t.history.roots| - 1)
  {
    hide *;
    Standing(Twice, t, side);
    HistoryShape(Twice, t);
    WellFormedTalk(Twice, t);
    Newest(t, side);
    DueAhead(Twice, t.history, side, Depth(t, side), SessionOf(t, side), t.delivered);
    CountersAt(t.history, side, Depth(t, side), SessionOf(t, side));
  }

  lemma Newest(t: Talk, side: Side)
    requires Invariant(Twice, t)
    ensures |t.history.roots| >= 1
    ensures Owner(|t.history.roots| - 1) == side ==> Depth(t, side) == |t.history.roots| - 1
  {
    hide RootsOk, LogOk, Recorded, PartyOk;
  }

  lemma CountersAt(h: History, side: Side, d: nat, s: State)
    requires RootsOk(h) && 1 <= d < |h.roots| && SessionOk(Twice, h, side, d, s)
    ensures d < |h.log|
    ensures Owner(d) == side ==> s.sent == |h.log[d]| && s.previous == 0
    ensures Owner(d) != side ==> s.sent == 0 && s.previous == |h.log[d - 1]|
  {
    hide Start;
  }

  lemma OpeningAppends(supply: Supply, t: Talk, v: Talk, n: nat)
    requires Opening(supply, t, n) && Depth(t, Initiator) == 1 && Spoken(t, v, Initiator, supply(2))
    ensures Opening(supply, v, n + 1)
  {
  }

  lemma OpeningOpens(supply: Supply, t: Talk, v: Talk, n: nat)
    requires Opening(supply, t, n) && Depth(t, Responder) == 1 && Depth(t, Initiator) == 1
    requires Spoken(t, v, Responder, supply(2))
    ensures Answered(supply, v, n)
  {
  }

  lemma HeardOpens(supply: Supply, t: Talk, v: Talk, n: nat)
    requires Heard(supply, t, n) && Spoken(t, v, Initiator, supply(3))
    ensures Reopened(v, n)
  {
  }

  /** In the opening either side may send. */
  lemma OpeningCanSend(supply: Supply, t: Talk, n: nat, side: Side)
    requires Invariant(Twice, t) && Opening(supply, t, n) && n <= 129 && Distinct4(supply)
    ensures Depth(t, side) == 1 && |t.history.roots| == 2 && CanSend(t, side, supply(2))
  {
    Counters(t, side);
    hide Invariant;
  }

  lemma OpeningGoesOn(
    supply: Supply, t: Talk, n: nat, plaintext: seq<byte>, data: seq<byte>, nonce: Nonce)
    requires Invariant(Twice, t) && Opening(supply, t, n) && n <= 129 && Distinct4(supply) && plaintext != []
    ensures var move := Speaks(Initiator, plaintext, data, nonce);
            && Honest(supply, t, move)
            && Invariant(Twice, CodePlay(supply, t, move)) && Opening(supply, CodePlay(supply, t, move), n + 1)
  {
    hide *;
    OpeningCanSend(supply, t, n, Initiator);
    SpeakingIsSpoken(supply, t, Initiator, plaintext, data, nonce);
    OpeningAppends(supply, t, CodePlay(supply, t, Speaks(Initiator, plaintext, data, nonce)), n);
  }

  lemma OpeningAnswered(
    supply: Supply, t: Talk, n: nat, plaintext: seq<byte>, data: seq<byte>, nonce: Nonce)
    requires Invariant(Twice, t) && Opening(supply, t, n) && n <= 129 && Distinct4(supply) && plaintext != []
    ensures var move := Speaks(Responder, plaintext, data, nonce);
            && Honest(supply, t, move)
            && Invariant(Twice, CodePlay(supply, t, move)) && Answered(supply, CodePlay(supply, t, move), n)
  {
    hide *;
    OpeningCanSend(supply, t, n, Initiator);
    OpeningCanSend(supply, t, n, Responder);
    SpeakingIsSpoken(supply, t, Responder, plaintext, data, nonce);
    OpeningOpens(supply, t, CodePlay(supply, t, Speaks(Responder, plaintext, data, nonce)), n);
  }

  /** The answer, the initiator's first message from the responder, is due. */
  lemma AnswerIsDue(supply: Supply, t: Talk, n: nat)
    requires Invariant(Twice, t) && Answered(supply, t, n)
    ensures DueAt(Twice, t, Initiator, 2, 0) && Honest(supply, t, Hears(Initiator, 2, 0))
  {
    HistoryShape(Twice, t);
    hide Invariant;
    assert CatchUp(t.initiator.session, 0) == 0;
  }

  lemma AnswerHeard(supply: Supply, t: Talk, n: nat)
    requires Invariant(Twice, t) && Answered(supply, t, n)
    ensures var move := Hears(Initiator, 2, 0);
            && Honest(supply, t, move)
            && Invariant(Twice, CodePlay(supply, t, move)) && Heard(supply, CodePlay(supply, t, move), n)
  {
    hide *;
    AnswerIsDue(supply, t, n);
    HonestHearing(supply, t, Initiator, 2, 0);
    DueParts(Twice, t, Initiator, 2, 0);
    DueIsSlot(Twice, t, Initiator, 2, 0);
    DueDecrypts(Twice, t, Initiator, 2, 0);
    DeliveredDepth(Twice, t, Initiator, 2, 0);
    Newest(t, Responder);
    HistoryShape(Twice, t);
    var m := t.history.log[2][0];
    OtherSideStays(t, Initiator, m.envelope, m.associatedData);
    AnsweredIsHeard(supply, t, Hand(t, Initiator, m.envelope, m.associatedData), n);
  }

  lemma AnsweredIsHeard(supply: Supply, t: Talk, v: Talk, n: nat)
    requires Answered(supply, t, n) && |t.history.roots| == |t.history.log|
    requires Owner(|t.history.roots| - 1) == Responder ==> Depth(t, Responder) == |t.history.roots| - 1
    requires v.history == t.history && v.delivered == t.delivered + {t.history.log[2][0].envelope}
    requires Depth(t, Initiator) >= 0 && Depth(v, Initiator) == DepthAfter(Initiator, Depth(t, Initiator), 2)
    requires PartyOf(v, Other(Initiator)) == PartyOf(t, Other(Initiator))
    ensures Heard(supply, v, n)
  {
  }

  lemma HeardCanSend(supply: Supply, t: Talk, n: nat)
    requires Invariant(Twice, t) && Heard(supply, t, n) && n <= 129 && Distinct4(supply)
    ensures |t.history.roots| == 3 && CanSend(t, Initiator, supply(3))
  {
    Counters(t, Initiator);
    hide Invariant;
  }

  lemma HeardReopened(
    supply: Supply, t: Talk, n: nat, plaintext: seq<byte>, data: seq<byte>, nonce: Nonce)
    requires Invariant(Twice, t) && Heard(supply, t, n) && n <= 129 && Distinct4(supply) && plaintext != []
    ensures var move := Speaks(Initiator, plaintext, data, nonce);
            && Honest(supply, t, move)
            && Invariant(Twice, CodePlay(supply, t, move)) && Reopened(CodePlay(supply, t, move), n)
  {
    hide *;
    HeardCanSend(supply, t, n);
    SpeakingIsSpoken(supply, t, Initiator, plaintext, data, nonce);
    HeardOpens(supply, t, CodePlay(supply, t, Speaks(Initiator, plaintext, data, nonce)), n);
  }

  lemma CrossingFits(t: Talk, n: nat)
    requires Reopened(t, n) && |t.history.secrets| == |t.history.log|
    requires t.history.log[3][0].envelope != t.history.log[2][0].envelope
    ensures Due(Twice, t.history, Responder, 2, SessionOf(t, Responder), t.delivered, 3, 0)
  {
    assert CatchUp(t.responder.session, 0) == 0;
  }

  lemma AnswersDiffer(t: Talk)
    requires Invariant(Twice, t) && Slot(t.history, 3, 0) && Slot(t.history, 2, 0)
    ensures t.history.log[3][0].envelope != t.history.log[2][0].envelope
  {
    WellFormedTalk(Twice, t);
    hide Invariant, RootsOk, LogOk;
    if t.history.log[3][0].envelope == t.history.log[2][0].envelope {
      EnvelopeNamesSlot(Twice, t.history, 3, 0, 2, 0);
    }
  }

  /** The message that opens the epoch is due at the code's responder, however many were lost before it. */
  lemma CrossingIsDue(supply: Supply, t: Talk, n: nat)
    requires Invariant(Twice, t) && Reopened(t, n)
    ensures DueAt(Twice, t, Responder, 3, 0) && Honest(supply, t, Hears(Responder, 3, 0))
  {
    HistoryShape(Twice, t);
    hide Invariant, Due;
    AnswersDiffer(t);
    CrossingFits(t, n);
  }

  /** The specification's responder has no room for the 129 keys it would have to store first. */
  lemma CrossingHasNoRoom(supply: Supply, t: Talk, u: Talk, s: Spec)
    requires Matching(supply, t, u, s) && Invariant(Twice, t) && Reopened(t, 129)
    ensures !RoomFor(s, Hears(Responder, 3, 0))
  {
    hide *;
    MatchingParts(supply, t, u, s, Responder);
    CrossingIsDue(supply, t, 129);
    TwinParts(t, u, Responder);
    HearsWithRoom(supply, t, u, s, Responder, 3, 0);
    DueCachedAlike(t, u, Responder, 3, 0);
    NotDueAfterLoss(t, u);
  }

  lemma NotDueAfterLoss(t: Talk, u: Talk)
    requires Invariant(Twice, t) && Invariant(Once, u) && Reopened(t, 129)
    requires SameHistory(t.history, u.history) && Depth(t, Responder) == Depth(u, Responder)
    requires |t.history.secrets| == |t.history.log| && |u.history.secrets| == |u.history.log|
    requires SessionOf(t, Responder).received == SessionOf(u, Responder).received
    requires IdIn(t.history, 3, 0, SessionOf(t, Responder).skipped) <==> IdIn(u.history, 3, 0, SessionOf(u, Responder).skipped)
    ensures !DueAt(Once, u, Responder, 3, 0)
  {
    hide Invariant;
    assert PreviousOf(Once, u.history, 3) == 129;
    assert CatchUp(u.responder.session, 129) == 129;
  }

  /** The answer, heard, and the message with which the initiator opens its next epoch. */
  function Crossing(plaintext: seq<byte>, data: seq<byte>, nonce: Nonce): seq<Move> {
    [Speaks(Responder, plaintext, data, nonce), Hears(Initiator, 2, 0), Speaks(Initiator, plaintext, data, nonce),
     Hears(Responder, 3, 0)]
  }

  /** `lost` messages of the initiator that nobody hears, and then the crossing. */
  function LossThenCrossing(lost: nat, plaintext: seq<byte>, data: seq<byte>, nonce: Nonce): seq<Move> {
    if lost == 0 then Crossing(plaintext, data, nonce)
    else [Speaks(Initiator, plaintext, data, nonce)] + LossThenCrossing(lost - 1, plaintext, data, nonce)
  }

  /** The code may play the moves, and the specification has not the room for them all. */
  ghost predicate Refused(supply: Supply, t: Talk, s: Spec, moves: seq<Move>) {
    IsHonest(supply, t, moves) && !RoomThroughout(supply, s, moves)
  }

  lemma RefusedLater(supply: Supply, t: Talk, s: Spec, move: Move, rest: seq<Move>)
    requires Honest(supply, t, move) && Refused(supply, CodePlay(supply, t, move), SpecPlay(supply, s, move).spec, rest)
    ensures Refused(supply, t, s, [move] + rest)
  {
    hide Honest, CodePlay, SpecPlay, RoomFor;
    assert ([move] + rest)[1..] == rest;
  }

  lemma LastRefused(supply: Supply, t: Talk, s: Spec, move: Move)
    requires Honest(supply, t, move) && !RoomFor(s, move)
    ensures Refused(supply, t, s, [move])
  {
    hide Honest, CodePlay, SpecPlay, RoomFor;
    assert IsHonest(supply, CodePlay(supply, t, move), []);
    assert [move][1..] == [];
  }

  lemma ReopenedRefuses(supply: Supply, t: Talk, u: Talk, s: Spec)
    requires Matching(supply, t, u, s) && Invariant(Twice, t) && Reopened(t, 129)
    ensures Refused(supply, t, s, [Hears(Responder, 3, 0)])
  {
    hide *;
    CrossingIsDue(supply, t, 129);
    CrossingHasNoRoom(supply, t, u, s);
    LastRefused(supply, t, s, Hears(Responder, 3, 0));
  }

  lemma HeardRefuses(
    supply: Supply, t: Talk, u: Talk, s: Spec, plaintext: seq<byte>, data: seq<byte>, nonce: Nonce)
    requires Matching(supply, t, u, s) && Invariant(Twice, t) && Heard(supply, t, 129) && Distinct4(supply) && plaintext != []
    ensures Refused(supply, t, s, [Speaks(Initiator, plaintext, data, nonce)] + [Hears(Responder, 3, 0)])
  {
    hide *;
    var move := Speaks(Initiator, plaintext, data, nonce);
    HeardReopened(supply, t, 129, plaintext, data, nonce);
    SpeakingHasRoom(s, Initiator, plaintext, data, nonce);
    var v := MoveMatches(supply, t, u, s, move);
    ReopenedRefuses(supply, CodePlay(supply, t, move), v, SpecPlay(supply, s, move).spec);
    RefusedLater(supply, t, s, move, [Hears(Responder, 3, 0)]);
  }

  /** The answer itself stores nothing, so the specification has room for it. */
  lemma AnswerHasRoom(supply: Supply, t: Talk, u: Talk, s: Spec, n: nat)
    requires Matching(supply, t, u, s) && Invariant(Twice, t) && Answered(supply, t, n)
    ensures RoomFor(s, Hears(Initiator, 2, 0))
  {
    hide *;
    MatchingParts(supply, t, u, s, Initiator);
    AnswerIsDue(supply, t, n);
    TwinParts(t, u, Initiator);
    HearsWithRoom(supply, t, u, s, Initiator, 2, 0);
    AnswerFits(supply, t, u, n);
  }

  lemma AnswerFits(supply: Supply, t: Talk, u: Talk, n: nat)
    requires Twin(t, u) && Answered(supply, t, n) && DueAt(Twice, t, Initiator, 2, 0)
    ensures DueAt(Once, u, Initiator, 2, 0)
  {
    hide *;
    DueCachedAlike(t, u, Initiator, 2, 0);
    TwinParts(t, u, Initiator);
    DueParts(Twice, t, Initiator, 2, 0);
    NotDelivered(t, u, Initiator, 2, 0);
    DueIsFits(u, Initiator, 2, 0);
    FitsFirst(supply, t, u, n);
  }

  lemma FitsFirst(supply: Supply, t: Talk, u: Talk, n: nat)
    requires Invariant(Once, u) && Answered(supply, t, n) && Depth(t, Initiator) == Depth(u, Initiator)
    requires |u.history.secrets| == |u.history.log| && Slot(u.history, 2, 0)
    ensures Fits(Once, u.history, ReceiveEpoch(Initiator, Depth(u, Initiator)), SessionOf(u, Initiator), 2, 0)
  {
    var d := Depth(u, Initiator);
    Standing(Once, u, Initiator);
    DueAhead(Once, u.history, Initiator, d, SessionOf(u, Initiator), u.delivered);
    CacheBounded(Once, u.history, Initiator, ReceiveEpoch(Initiator, d), SessionOf(u, Initiator).received,
                 SessionOf(u, Initiator).skipped, u.delivered);
    assert PreviousOf(Once, u.history, 2) == |u.history.log[0]|;
    hide LogOk, PartyOk, Recorded, InStep, SessionOk, CacheOk, WellAt;
    assert CatchUp(SessionOf(u, Initiator), 0) == 0;
  }

  lemma AnsweredRefuses(
    supply: Supply, t: Talk, u: Talk, s: Spec, plaintext: seq<byte>, data: seq<byte>, nonce: Nonce)
    requires Matching(supply, t, u, s) && Invariant(Twice, t) && Answered(supply, t, 129) && Distinct4(supply)
    requires plaintext != []
    ensures Refused(supply, t, s,
              [Hears(Initiator, 2, 0)] + ([Speaks(Initiator, plaintext, data, nonce)] + [Hears(Responder, 3, 0)]))
  {
    hide *;
    var move := Hears(Initiator, 2, 0);
    AnswerHeard(supply, t, 129);
    AnswerHasRoom(supply, t, u, s, 129);
    var v := MoveMatches(supply, t, u, s, move);
    HeardRefuses(supply, CodePlay(supply, t, move), v, SpecPlay(supply, s, move).spec, plaintext, data, nonce);
    RefusedLater(supply, t, s, move, [Speaks(Initiator, plaintext, data, nonce)] + [Hears(Responder, 3, 0)]);
  }

  lemma CrossingIs(plaintext: seq<byte>, data: seq<byte>, nonce: Nonce)
    ensures [Speaks(Responder, plaintext, data, nonce)]
            + ([Hears(Initiator, 2, 0)] + ([Speaks(Initiator, plaintext, data, nonce)] + [Hears(Responder, 3, 0)]))
            == Crossing(plaintext, data, nonce)
  {
  }

  lemma LastLostRefuses(
    supply: Supply, t: Talk, u: Talk, s: Spec, plaintext: seq<byte>, data: seq<byte>, nonce: Nonce)
    requires Matching(supply, t, u, s) && Invariant(Twice, t) && Opening(supply, t, 129) && Distinct4(supply)
    requires plaintext != []
    ensures Refused(supply, t, s, Crossing(plaintext, data, nonce))
  {
    hide *;
    var move := Speaks(Responder, plaintext, data, nonce);
    OpeningAnswered(supply, t, 129, plaintext, data, nonce);
    SpeakingHasRoom(s, Responder, plaintext, data, nonce);
    var v := MoveMatches(supply, t, u, s, move);
    AnsweredRefuses(supply, CodePlay(supply, t, move), v, SpecPlay(supply, s, move).spec, plaintext, data, nonce);
    RefusedLater(supply, t, s, move,
                 [Hears(Initiator, 2, 0)] + ([Speaks(Initiator, plaintext, data, nonce)] + [Hears(Responder, 3, 0)]));
    CrossingIs(plaintext, data, nonce);
  }

  lemma LossIs(lost: nat, plaintext: seq<byte>, data: seq<byte>, nonce: Nonce)
    ensures LossThenCrossing(lost, plaintext, data, nonce)
            == if lost == 0 then Crossing(plaintext, data, nonce)
               else [Speaks(Initiator, plaintext, data, nonce)] + LossThenCrossing(lost - 1, plaintext, data, nonce)
  {
  }

  lemma {:induction false} LossRefuses(
    supply: Supply, t: Talk, u: Talk, s: Spec, lost: nat, plaintext: seq<byte>, data: seq<byte>, nonce: Nonce)
    requires lost <= 129 && Matching(supply, t, u, s) && Invariant(Twice, t) && Opening(supply, t, 129 - lost)
    requires Distinct4(supply) && plaintext != []
    ensures Refused(supply, t, s, LossThenCrossing(lost, plaintext, data, nonce))
    decreases lost
  {
    hide *;
    LossIs(lost, plaintext, data, nonce);
    if lost == 0 {
      LastLostRefuses(supply, t, u, s, plaintext, data, nonce);
    } else {
      var move := Speaks(Initiator, plaintext, data, nonce);
      OpeningGoesOn(supply, t, 129 - lost, plaintext, data, nonce);
      SpeakingHasRoom(s, Initiator, plaintext, data, nonce);
      var v := MoveMatches(supply, t, u, s, move);
      LossRefuses(supply, CodePlay(supply, t, move), v, SpecPlay(supply, s, move).spec, lost - 1, plaintext, data, nonce);
      RefusedLater(supply, t, s, move, LossThenCrossing(lost - 1, plaintext, data, nonce));
    }
  }

  lemma BeginOpens(supply: Supply, shared: Key)
    requires Distinct4(supply)
    ensures Matching(supply, Begin(shared, supply(1), supply(0)), Begin(shared, supply(1), supply(0)), BeginSpec(shared, supply))
    ensures Opening(supply, Begin(shared, supply(1), supply(0)), 0)
    ensures supply(0) != supply(1)
  {
    BeginTwin(shared, supply(1), supply(0));
    BeginAgrees(Once, supply, shared);
    hide Twin, Agrees, BeginEager;
  }

  /**
    The proviso of ShowsTheSameExactly can fail: after 129 messages are lost, the code decrypts
    the first message of the sender's next epoch, and the specification's session refuses it.
   */
  lemma SpecificationRefusesACrossing(
    supply: Supply, shared: Key, plaintext: seq<byte>, data: seq<byte>, nonce: Nonce)
    requires Distinct4(supply) && plaintext != []
    ensures var t, moves := Begin(shared, supply(1), supply(0)), LossThenCrossing(129, plaintext, data, nonce);
            && IsHonest(supply, t, moves)
            && !RoomThroughout(supply, BeginSpec(shared, supply), moves)
            && !AlikeThroughout(supply, t, BeginSpec(shared, supply), moves)
  {
    var t := Begin(shared, supply(1), supply(0));
    BeginOpens(supply, shared);
    TwinParts(t, t, Initiator);
    hide Distinct4, Matching, Opening, Begin, BeginSpec, LossThenCrossing, RoomThroughout, IsHonest, AlikeThroughout, Invariant;
    LossRefuses(supply, t, t, BeginSpec(shared, supply), 129, plaintext, data, nonce);
    ShowsTheSameExactly(supply, shared, LossThenCrossing(129, plaintext, data, nonce));
  }
}

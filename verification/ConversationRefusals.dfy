/**
  Refused messages of a conversation that cost a session held in memory something: a replay in
  the present epoch, and a message of an epoch left behind.
 */
module ConversationRefusals {
  import opened Bytes
  import opened Primitives
  import opened RatchetState
  import opened SkipLemmas
  import opened RatchetRefusals
  import opened Conversation
  import opened ConversationCache
  import opened ConversationDelivery
  import opened ConversationAcceptance
  import opened ConversationRuns
  import opened ConversationTheorems

  /** Trying any key but its own, or none, refuses a genuine message. */
  lemma WrongKeyRefuses(h: History, k: int, n: nat, previous: nat, m: Message, s: State)
    requires 1 <= k < |h.secrets| && |h.roots| == |h.secrets| && Genuine(h, k, n, previous, m)
    requires TakeKey(s, HeaderOf(h, previous, k, n)).key != Ok(MessageKeyAt(Start(h, k), n))
    ensures Refuses(s, m)
    ensures Decrypt(s, m.envelope, m.associatedData).state == TakeKey(s, HeaderOf(h, previous, k, n)).state
  {
    GenuineOpens(h, k, n, previous, m);
    DecryptIsParsed(s, m.envelope, m.associatedData, HeaderOf(h, previous, k, n));
  }

  // A replay in the present epoch

  /** A message number already passed, and not cached, uses up the key at the receiving position. */
  lemma PassedNumberTakesNext(s: State, start: Key, header: ParsedHeader)
    requires s.remote == Some(header.key) && s.receiving == Some(ChainAt(start, s.received))
    requires header.number < s.received && SkippedId(header.key, header.number) !in s.skipped
    ensures TakeKey(s, header)
            == Taken(s.(receiving := Some(ChainAt(start, s.received + 1)), received := s.received + 1),
                     Ok(MessageKeyAt(start, s.received)))
  {
  }

  /**
    Handing a session a message it has already taken is refused and not harmless: the chain
    moves on, and the message at the old position is refused too.
   */
  lemma {:induction false} ReplayCostsAMessage(
    rule: ResetRule, h: History, side: Side, d: nat, s: State, delivered: set<Envelope>, n: nat)
    requires RootsOk(h) && LogOk(rule, h) && 1 <= d < |h.roots| && WellAt(rule, h, side, d, s, delivered)
    requires var r := ReceiveEpoch(side, d);
             Slot(h, r, n) && n < s.received && !IdIn(h, r, n, s.skipped) && Slot(h, r, s.received)
    ensures var r := ReceiveEpoch(side, d);
            var replay := h.log[r][n];
            var after := Decrypt(s, replay.envelope, replay.associatedData).state;
            && Refuses(s, replay) && !Harmless(s, replay.envelope) && after != s
            && Refuses(after, h.log[r][s.received])
  {
    var r := ReceiveEpoch(side, d);
    var start, previous, replay := Start(h, r), PreviousOf(rule, h, r), h.log[r][n];
    assert Genuine(h, r, n, previous, replay) && Genuine(h, r, s.received, previous, h.log[r][s.received]);
    NothingAhead(rule, h, side, r, s.received, s.skipped, delivered, s.received + 1);
    RefusalIsHarmlessExactly(s, replay.envelope, replay.associatedData);
    GenuineOpens(h, r, n, previous, replay);
    hide CacheOk, LogOk, RootsOk;
    PassedNumberTakesNext(s, start, HeaderOf(h, previous, r, n));
    WrongKeyRefuses(h, r, n, previous, replay, s);
    var after := s.(receiving := Some(ChainAt(start, s.received + 1)), received := s.received + 1);
    PassedNumberTakesNext(after, start, HeaderOf(h, previous, r, s.received));
    WrongKeyRefuses(h, r, s.received, previous, h.log[r][s.received], after);
  }

  // A message of an epoch left behind

  /** The cache holds a message's own key. */
  ghost predicate HoldsKey(h: History, j: int, m: nat, skipped: map<SkippedId, Key>)
    requires 1 <= j < |h.secrets| && |h.roots| == |h.secrets|
  {
    var id := SkippedId(PublicKey(h.secrets[j]), m);
    id in skipped && skipped[id] == MessageKeyAt(Start(h, j), m)
  }

  /** A session on a root key, and on a chain, that the conversation never reaches. */
  ghost predicate Astray(h: History, t: State)
    requires RootsOk(h)
  {
    && t.remote.Some?
    && t.root !in h.roots && RootDepth(t.root) > RootDepth(h.roots[0])
    && (t.receiving.Some? ==> OffChain(h, t.remote.value, ChainStart(t.receiving.value)))
  }

  /** `start` is not the first chain key of the epoch of this ratchet key. */
  ghost predicate OffChain(h: History, key: PublicKey, start: Key)
    requires RootsOk(h)
  {
    forall j :: 1 <= j < |h.secrets| && PublicKey(h.secrets[j]) == key ==> start != Start(h, j)
  }

  /** From `t` to `u` a session stays astray and gains no message's own key. */
  ghost predicate StaysAstray(h: History, t: State, u: State)
    requires RootsOk(h)
  {
    && Astray(h, u)
    && forall j, m: nat :: 1 <= j < |h.secrets| && HoldsKey(h, j, m, u.skipped) ==> HoldsKey(h, j, m, t.skipped)
  }

  lemma SkipStaysAstray(h: History, t: State, until: nat)
    requires RootsOk(h) && Astray(h, t)
    ensures StaysAstray(h, t, SkipMessageKeys(t, until).state)
  {
    SkipKeepsRest(t, until);
    if t.receiving.Some? {
      SkipAddsOnly(t, until);
      var u := SkipMessageKeys(t, until).state;
      forall j, m: nat | 1 <= j < |h.secrets| && HoldsKey(h, j, m, u.skipped) ensures HoldsKey(h, j, m, t.skipped) {
        OffChainKey(h, j, m);
      }
    }
    hide RootsOk;
  }

  lemma OffChainKey(h: History, j: int, m: nat)
    requires 1 <= j < |h.secrets| && |h.roots| == |h.secrets|
    ensures KeyStart(MessageKeyAt(Start(h, j), m)) == Start(h, j)
  {
  }

  /** A root key that is not the conversation's has no successor that is. */
  lemma NextRootAstray(h: History, root: Key, dh: DhOutput)
    requires RootsOk(h) && root !in h.roots && RootDepth(root) >= RootDepth(h.roots[0])
    ensures RootKey(root, dh) !in h.roots
  {
    forall x | 0 <= x < |h.roots| ensures h.roots[x] != RootKey(root, dh) {
      assert RootDepth(h.roots[x]) == RootDepth(h.roots[0]) + x;
      assert x > 0 ==> h.roots[x] == RootKey(h.roots[x - 1], Link(h, x)) && h.roots[x - 1] in h.roots;
    }
  }

  lemma ApplyStaysAstray(h: History, t: State, key: PublicKey)
    requires RootsOk(h) && Astray(h, t)
    ensures StaysAstray(h, t, ApplyRemoteRatchet(t, key))
  {
    NextRootAstray(h, t.root, Dh(t.local.secret, key));
    forall j | 1 <= j < |h.secrets| ensures Start(h, j).parent in h.roots {
    }
  }

  lemma TakeNextStaysAstray(h: History, t: State)
    requires RootsOk(h) && Astray(h, t)
    ensures StaysAstray(h, t, TakeNext(t).state)
    ensures TakeNext(t).key.Ok? ==>
              TakeNext(t).key.value.MessageKey? && OffChain(h, t.remote.value, KeyStart(TakeNext(t).key.value))
  {
  }

  lemma AdvanceStaysAstray(h: History, t: State, header: ParsedHeader)
    requires RootsOk(h) && Astray(h, t)
    ensures StaysAstray(h, t, AdvanceTo(t, header).state)
    ensures AdvanceTo(t, header).outcome.Pass? ==> AdvanceTo(t, header).state.remote == Some(header.key)
  {
    if t.remote == Some(header.key) {
      SkipStaysAstray(h, t, header.number);
      SkipKeepsRest(t, header.number);
    } else {
      SkipStaysAstray(h, t, header.previous);
      var closed := SkipMessageKeys(t, header.previous);
      if closed.outcome.Pass? {
        var c := ApplyRemoteRatchet(closed.state, header.key);
        hide Astray, RootsOk, SkipMessageKeys;
        ApplyStaysAstray(h, closed.state, header.key);
        SkipStaysAstray(h, c, header.number);
        SkipKeepsRest(c, header.number);
      }
    }
  }

  /** An astray session takes a message's own key from its cache only, and stays astray. */
  lemma TakeStaysAstray(h: History, t: State, header: ParsedHeader, j: int)
    requires RootsOk(h) && Astray(h, t) && 1 <= j < |h.secrets| && header.key == PublicKey(h.secrets[j])
    ensures StaysAstray(h, t, TakeKey(t, header).state)
    ensures !HoldsKey(h, j, header.number, t.skipped) ==>
              TakeKey(t, header).key != Ok(MessageKeyAt(Start(h, j), header.number))
  {
    OffChainKey(h, j, header.number);
    if SkippedId(header.key, header.number) !in t.skipped {
      AdvanceStaysAstray(h, t, header);
      var u := AdvanceTo(t, header);
      hide AdvanceTo, RootsOk, Astray;
      if u.outcome.Pass? {
        TakeNextStaysAstray(h, u.state);
      }
    }
  }

  /** The session after the messages of some slots are handed to it, in order. */
  function Handed(h: History, t: State, slots: seq<(nat, nat)>): State
    requires forall i :: 0 <= i < |slots| ==> slots[i].0 < |h.log| && slots[i].1 < |h.log[slots[i].0]|
    decreases |slots|
  {
    if slots == [] then t
    else
      var m := h.log[slots[0].0][slots[0].1];
      Handed(h, Decrypt(t, m.envelope, m.associatedData).state, slots[1..])
  }

  lemma OneStaysAstray(rule: ResetRule, h: History, t: State, j: int, m: nat)
    requires RootsOk(h) && LogOk(rule, h) && Astray(h, t) && Slot(h, j, m)
    ensures StaysAstray(h, t, Decrypt(t, h.log[j][m].envelope, h.log[j][m].associatedData).state)
    ensures !HoldsKey(h, j, m, t.skipped) ==> Refuses(t, h.log[j][m])
  {
    var previous, message := PreviousOf(rule, h, j), h.log[j][m];
    assert Genuine(h, j, m, previous, message);
    hide RootsOk, LogOk, Astray;
    TakeStaysAstray(h, t, HeaderOf(h, previous, j, m), j);
    GenuineOpens(h, j, m, previous, message);
    DecryptIsParsed(t, message.envelope, message.associatedData, HeaderOf(h, previous, j, m));
    if !HoldsKey(h, j, m, t.skipped) {
      WrongKeyRefuses(h, j, m, previous, message, t);
    }
  }

  /** Once astray, whatever messages of the conversation it is handed, a session opens none but from its cache. */
  lemma {:induction false} AstrayForGood(rule: ResetRule, h: History, t: State, slots: seq<(nat, nat)>, j: int, m: nat)
    requires RootsOk(h) && LogOk(rule, h) && Astray(h, t) && Slot(h, j, m) && !HoldsKey(h, j, m, t.skipped)
    requires forall i :: 0 <= i < |slots| ==> Slot(h, slots[i].0, slots[i].1)
    ensures Refuses(Handed(h, t, slots), h.log[j][m])
    decreases |slots|
  {
    assert |h.secrets| == |h.log|;
    hide RootsOk, LogOk, Astray, Decrypt, HoldsKey;
    OneStaysAstray(rule, h, t, j, m);
    if slots != [] {
      var first := h.log[slots[0].0][slots[0].1];
      OneStaysAstray(rule, h, t, slots[0].0, slots[0].1);
      AstrayForGood(rule, h, Decrypt(t, first.envelope, first.associatedData).state, slots[1..], j, m);
    }
  }

  // How it goes astray

  lemma LinksDiffer(h: History, d: nat, i: nat, k: int)
    requires RootsOk(h) && d + 1 < |h.secrets| && i <= d && 0 <= k <= d
    ensures Dh(h.secrets[i], PublicKey(h.secrets[k])) != Link(h, d + 1)
  {
    assert h.secrets[i] != h.secrets[d + 1] && h.secrets[k] != h.secrets[d + 1];
  }

  /** Ratcheted by the key of an epoch left behind, a session is astray. */
  lemma OldKeyLeadsAstray(h: History, side: Side, d: nat, s: State, k: int)
    requires RootsOk(h) && 1 <= d < |h.roots| && SessionOk(Twice, h, side, d, s) && 1 <= k < ReceiveEpoch(side, d)
    ensures Astray(h, ApplyRemoteRatchet(s, PublicKey(h.secrets[k])))
  {
    var t := ApplyRemoteRatchet(s, PublicKey(h.secrets[k]));
    assert RootDepth(h.roots[d]) == RootDepth(h.roots[0]) + d;
    forall x | 0 <= x < |h.roots| ensures h.roots[x] != t.root {
      assert RootDepth(h.roots[x]) == RootDepth(h.roots[0]) + x;
      if x == d + 1 {
        LinksDiffer(h, d, if Owner(d) == side then d else d - 1, k);
      }
    }
    assert RootDepth(h.roots[k - 1]) == RootDepth(h.roots[0]) + k - 1;
    forall j | 1 <= j < |h.secrets| && h.secrets[j] == h.secrets[k] ensures j == k {
    }
  }

  /** As written nothing is closed, so the old key is applied and its chain skipped along. */
  lemma StaleTaking(s: State, header: ParsedHeader)
    requires SkippedId(header.key, header.number) !in s.skipped && s.remote != Some(header.key) && header.previous == 0
    ensures var a := SkipMessageKeys(ApplyRemoteRatchet(s, header.key), header.number);
            TakeKey(s, header) == if a.outcome.Pass? then TakeNext(a.state) else Taken(a.state, Err(a.outcome.error))
  {
    hide SkipLoop;
  }

  /**
    As written, a message of an epoch left behind whose key is not cached, replayed or merely
    late, is refused and leads the session astray for good: after it, whatever messages of the
    conversation are handed over in whatever order, those whose keys were not cached by then
    are refused, those sent later included.
   */
  lemma {:induction false} StaleMessageLeadsAstray(
    h: History, side: Side, d: nat, s: State, delivered: set<Envelope>, k: int, n: nat,
    slots: seq<(nat, nat)>, j: int, m: nat)
    requires RootsOk(h) && LogOk(Twice, h) && 1 <= d < |h.roots| && WellAt(Twice, h, side, d, s, delivered)
    requires Slot(h, k, n) && k < ReceiveEpoch(side, d) && !IdIn(h, k, n, s.skipped)
    requires Slot(h, j, m) && forall i :: 0 <= i < |slots| ==> Slot(h, slots[i].0, slots[i].1)
    ensures var stale := h.log[k][n];
            var after := Decrypt(s, stale.envelope, stale.associatedData).state;
            && Refuses(s, stale) && !Harmless(s, stale.envelope)
            && after.root == RootKey(s.root, Dh(s.local.secret, PublicKey(h.secrets[k]))) && after.root !in h.roots
            && (!HoldsKey(h, j, m, s.skipped) ==> Refuses(Handed(h, after, slots), h.log[j][m]))
  {
    var stale, header := h.log[k][n], HeaderOf(h, 0, k, n);
    assert Genuine(h, k, n, 0, stale);
    assert h.secrets[k] != h.secrets[ReceiveEpoch(side, d)];
    OldKeyLeadsAstray(h, side, d, s, k);
    var c := ApplyRemoteRatchet(s, header.key);
    StaleTaking(s, header);
    RefusalIsHarmlessExactly(s, stale.envelope, stale.associatedData);
    GenuineOpens(h, k, n, 0, stale);
    DecryptIsParsed(s, stale.envelope, stale.associatedData, header);
    hide WellAt, SessionOk, CacheOk, Astray, TakeKey, SkipMessageKeys, RatchetAad;
    StaleLeads(h, s, c, header, k);
    var after := TakeKey(s, header).state;
    WrongKeyRefuses(h, k, n, 0, stale, s);
    AstrayIsOffRoots(h, after);
    if !HoldsKey(h, j, m, s.skipped) {
      AstrayForGood(Twice, h, after, slots, j, m);
    }
  }

  lemma AstrayIsOffRoots(h: History, t: State)
    requires RootsOk(h) && Astray(h, t)
    ensures t.root !in h.roots
  {
  }

  /** Taking the key of the stale message keeps the session astray, and does not find its key. */
  lemma StaleLeads(h: History, s: State, c: State, header: ParsedHeader, k: int)
    requires RootsOk(h) && 1 <= k < |h.secrets| && header.key == PublicKey(h.secrets[k]) && header.previous == 0
    requires SkippedId(header.key, header.number) !in s.skipped && s.remote != Some(header.key)
    requires c == ApplyRemoteRatchet(s, header.key) && Astray(h, c)
    ensures var t := TakeKey(s, header);
            && StaysAstray(h, c, t.state) && t.state.root == c.root
            && t.key != Ok(MessageKeyAt(Start(h, k), header.number)) && t.state != s
  {
    StaleTaking(s, header);
    SkipStaysAstray(h, c, header.number);
    SkipKeepsRest(c, header.number);
    var a := SkipMessageKeys(c, header.number);
    OffChainKey(h, k, header.number);
    RootGrows(s.root, Dh(s.local.secret, header.key));
    hide Astray, RootsOk, SkipMessageKeys, TakeKey;
    if a.outcome.Pass? {
      TakeNextStaysAstray(h, a.state);
    }
  }
}

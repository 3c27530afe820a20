/**
  The relay's timed counters in Redis. Times are in milliseconds, on one clock; a key is gone
  from its expiry on. INCR and EXPIRE are separate steps, and so are the reservation of a
  replay token and the receipt of its message.
 */
module RelayLimits {
  import opened Primitives

  const WINDOW: nat := 60_000

  // The rate limit of one namespace

  /** A counter key: its value, and its expiry once EXPIRE has been sent. */
  datatype Counter = Counter(count: nat, expiry: Option<nat>)

  /** `pending` holds while the request that read 1 has not yet sent EXPIRE. */
  datatype Limiter = Limiter(key: Option<Counter>, pending: bool, now: nat)

  datatype Event = Incr(at: nat) | Expire(at: nat)

  predicate Live(key: Option<Counter>, at: nat) {
    key.Some? && (key.value.expiry.Some? ==> at < key.value.expiry.value)
  }

  predicate Allowed(s: Limiter, e: Event) {
    s.now <= e.at && (e.Expire? ==> s.pending)
  }

  /** The value INCR returns. */
  function CountAfter(s: Limiter, at: nat): nat {
    if Live(s.key, at) then s.key.value.count + 1 else 1
  }

  function Next(s: Limiter, e: Event): Limiter
    requires Allowed(s, e)
  {
    match e
    case Incr(at) =>
      if Live(s.key, at) then s.(key := Some(s.key.value.(count := CountAfter(s, at))), now := at)
      else Limiter(Some(Counter(1, None)), true, at)
    case Expire(at) =>
      if Live(s.key, at) then Limiter(Some(s.key.value.(expiry := Some(at + WINDOW))), false, at)
      else Limiter(s.key, false, at)
  }

  predicate IsRun(s: Limiter, events: seq<Event>)
    decreases |events|
  {
    events == [] || (Allowed(s, events[0]) && IsRun(Next(s, events[0]), events[1..]))
  }

  /** The times of the requests let through. */
  function Admitted(limit: nat, s: Limiter, events: seq<Event>): seq<nat>
    requires IsRun(s, events)
    decreases |events|
  {
    if events == [] then []
    else
      var rest := Admitted(limit, Next(s, events[0]), events[1..]);
      if events[0].Incr? && CountAfter(s, events[0].at) <= limit then [events[0].at] + rest else rest
  }

  /** How many of the times lie in the half-open span of a minute from `from`. */
  function InSpan(times: seq<nat>, from: nat): nat {
    if times == [] then 0
    else (if from <= times[0] < from + 60_000 then 1 else 0) + InSpan(times[1..], from)
  }

  /** A stored counter has counted something. */
  predicate Valid(s: Limiter) {
    s.key.Some? ==> s.key.value.count >= 1
  }

  function Left(limit: nat, c: Counter): nat {
    if c.count <= limit then limit - c.count else 0
  }

  function Most(limit: nat): nat {
    if limit == 0 then 0 else 2 * limit - 1
  }

  /**
    How many more requests can be let through within the minute from `from`: once it has begun,
    what the live key has room for, and one more key's worth if that key can expire in time.
   */
  function Room(limit: nat, s: Limiter, from: nat): nat {
    if s.now >= from + WINDOW then 0
    else if s.now < from then Most(limit)
    else if !Live(s.key, s.now) then limit
    else
      Left(limit, s.key.value)
      + if s.key.value.expiry.Some? && s.key.value.expiry.value < from + WINDOW then limit else 0
  }

  /** Room pays for each request let through. */
  lemma RoomShrinks(limit: nat, s: Limiter, e: Event, from: nat)
    requires Valid(s) && Allowed(s, e)
    ensures Valid(Next(s, e))
    ensures Room(limit, Next(s, e), from)
            + (if e.Incr? && CountAfter(s, e.at) <= limit && from <= e.at < from + WINDOW then 1 else 0)
            <= Room(limit, s, from)
  {
  }

  lemma {:induction false} AdmittedFitsRoom(limit: nat, s: Limiter, events: seq<Event>, from: nat)
    requires Valid(s) && IsRun(s, events)
    ensures InSpan(Admitted(limit, s, events), from) <= Room(limit, s, from)
    decreases |events|
  {
    if events != [] {
      hide Room, CountAfter, Next;
      RoomShrinks(limit, s, events[0], from);
      AdmittedFitsRoom(limit, Next(s, events[0]), events[1..], from);
      var rest := Admitted(limit, Next(s, events[0]), events[1..]);
      assert ([events[0].at] + rest)[1..] == rest;
    }
  }

  const NO_KEY := Limiter(None, false, 0)

  /** Any minute lets through fewer than twice the limit, with INCR and EXPIRE apart. */
  lemma UnderTwiceTheLimit(limit: nat, events: seq<Event>, from: nat)
    requires IsRun(NO_KEY, events)
    ensures InSpan(Admitted(limit, NO_KEY, events), from) <= Most(limit)
  {
    AdmittedFitsRoom(limit, NO_KEY, events, from);
  }

  // That many can be let through

  function Burst(at: nat, k: nat): (b: seq<Event>)
    ensures |b| == k
  {
    if k == 0 then [] else [Incr(at)] + Burst(at, k - 1)
  }

  /** The limiter after `k` more increments of a live key. */
  function Counted(s: Limiter, at: nat, k: nat): Limiter
    requires s.key.Some?
  {
    if k == 0 then s else Limiter(Some(s.key.value.(count := s.key.value.count + k)), s.pending, at)
  }

  lemma OneMore(limit: nat, s: Limiter, e: Event, rest: seq<Event>, from: nat)
    requires Allowed(s, e) && IsRun(Next(s, e), rest)
    ensures IsRun(s, [e] + rest)
    ensures InSpan(Admitted(limit, s, [e] + rest), from)
            == (if e.Incr? && CountAfter(s, e.at) <= limit && from <= e.at < from + WINDOW then 1 else 0)
               + InSpan(Admitted(limit, Next(s, e), rest), from)
  {
    var events := [e] + rest;
    assert events[1..] == rest;
    var more := Admitted(limit, Next(s, e), rest);
    assert ([e.at] + more)[1..] == more;
    hide Next, CountAfter;
  }

  lemma {:induction false} BurstAdmits(limit: nat, s: Limiter, at: nat, k: nat, rest: seq<Event>, from: nat)
    requires s.now <= at && Live(s.key, at) && s.key.value.count + k <= limit && from <= at < from + WINDOW
    requires IsRun(Counted(s, at, k), rest)
    ensures IsRun(s, Burst(at, k) + rest)
    ensures InSpan(Admitted(limit, s, Burst(at, k) + rest), from)
            == k + InSpan(Admitted(limit, Counted(s, at, k), rest), from)
    decreases k
  {
    if k == 0 {
      assert Burst(at, k) + rest == rest;
    } else {
      var t := Next(s, Incr(at));
      assert Counted(t, at, k - 1) == Counted(s, at, k);
      BurstAdmits(limit, t, at, k - 1, rest, from);
      hide Admitted, InSpan, IsRun;
      OneMore(limit, s, Incr(at), Burst(at, k - 1) + rest, from);
      assert [Incr(at)] + (Burst(at, k - 1) + rest) == Burst(at, k) + rest;
    }
  }

  /** One request, and a minute later the rest of its key's allowance together with the next key's. */
  function Straddle(limit: nat): seq<Event>
    requires limit > 0
  {
    [Incr(0), Expire(0)] + (Burst(1, limit - 1) + ([Incr(WINDOW)] + Burst(WINDOW, limit - 1)))
  }

  /** The bound is met, whatever the limit. */
  lemma BoundIsMet(limit: nat)
    requires limit > 0
    ensures IsRun(NO_KEY, Straddle(limit))
    ensures InSpan(Admitted(limit, NO_KEY, Straddle(limit)), 1) == Most(limit)
  {
    var s1 := Next(NO_KEY, Incr(0));
    var s2 := Next(s1, Expire(0));
    var s3 := Counted(s2, 1, limit - 1);
    var last := [Incr(WINDOW)] + Burst(WINDOW, limit - 1);
    LastBurst(limit, s3);
    BurstAdmits(limit, s2, 1, limit - 1, last, 1);
    hide Admitted, InSpan, IsRun;
    var middle := Burst(1, limit - 1) + last;
    OneMore(limit, s1, Expire(0), middle, 1);
    OneMore(limit, NO_KEY, Incr(0), [Expire(0)] + middle, 1);
    assert Straddle(limit) == [Incr(0)] + ([Expire(0)] + middle);
  }

  lemma LastBurst(limit: nat, s: Limiter)
    requires limit > 0 && s.now <= WINDOW && s.key.Some? && s.key.value.expiry == Some(WINDOW)
    ensures var last := [Incr(WINDOW)] + Burst(WINDOW, limit - 1);
            IsRun(s, last) && InSpan(Admitted(limit, s, last), 1) == limit
  {
    var t := Next(s, Incr(WINDOW));
    var rest := Burst(WINDOW, limit - 1);
    assert rest + [] == rest;
    BurstAdmits(limit, t, WINDOW, limit - 1, [], 1);
    assert InSpan(Admitted(limit, Counted(t, WINDOW, limit - 1), []), 1) == 0;
    hide Admitted, InSpan, IsRun;
    OneMore(limit, s, Incr(WINDOW), rest, 1);
  }

  /** If EXPIRE is never sent, the key never goes: what it has left is all there will ever be. */
  lemma {:induction false} LostExpireEndsService(limit: nat, s: Limiter, events: seq<Event>)
    requires s.key.Some? && s.key.value.expiry.None? && IsRun(s, events)
    requires forall i :: 0 <= i < |events| ==> events[i].Incr?
    ensures |Admitted(limit, s, events)| <= Left(limit, s.key.value)
    decreases |events|
  {
    if events != [] {
      assert events[0].Incr?;
      LostExpireEndsService(limit, Next(s, events[0]), events[1..]);
    }
  }

  // Redis, one namespace at a time

  class RateLimiter {
    var key: Option<Counter>
    ghost var pending: bool
    ghost var now: nat

    ghost function Value(): Limiter
      reads this
    {
      Limiter(key, pending, now)
    }

    constructor ()
      ensures Value() == NO_KEY
    {
      key, pending, now := None, false, 0;
    }

    /** INCR, and the decision; the caller sends EXPIRE next if it read 1. */
    method Increment(at: nat, limit: nat) returns (count: nat, admitted: bool)
      requires Allowed(Value(), Incr(at))
      modifies this
      ensures Value() == Next(old(Value()), Incr(at))
      ensures var live := old(key).Some? && (old(key).value.expiry.None? || at < old(key).value.expiry.value);
              && count == (if live then old(key).value.count + 1 else 1) && (admitted <==> count <= limit)
              && key == Some(Counter(count, if live then old(key).value.expiry else None))
              && (pending <==> old(pending) || !live)
      ensures count == CountAfter(old(Value()), at)
      ensures count == 1 && Valid(old(Value())) ==> pending
    {
      if key.Some? && (key.value.expiry.None? || at < key.value.expiry.value) {
        key := Some(key.value.(count := key.value.count + 1));
      } else {
        key := Some(Counter(1, None));
        pending := true;
      }
      now := at;
      count := key.value.count;
      admitted := count <= limit;
    }

    method SetExpiry(at: nat)
      requires Allowed(Value(), Expire(at))
      modifies this
      ensures Value() == Next(old(Value()), Expire(at))
      ensures var live := old(key).Some? && (old(key).value.expiry.None? || at < old(key).value.expiry.value);
              key == if live then Some(Counter(old(key).value.count, Some(at + 60_000))) else old(key)
      ensures !pending
    {
      if key.Some? && (key.value.expiry.None? || at < key.value.expiry.value) {
        key := Some(key.value.(expiry := Some(at + WINDOW)));
      }
      pending, now := false, at;
    }
  }

  // Replay tokens

  datatype Slot = Slot(mailbox: nat, token: string)

  datatype Reservation = Reservation(slot: Slot, at: nat, ttl: nat)

  /** The replay keys with their expiries, the reservations made, and when their messages were stored. */
  datatype Relay = Relay(keys: map<Slot, nat>, reserved: seq<Reservation>, received: map<nat, nat>, now: nat)

  const NO_TOKENS := Relay(map[], [], map[], 0)

  datatype Step = Reserve(slot: Slot, ttl: nat, at: nat) | Receive(index: nat, at: nat)

  predicate Held(r: Relay, slot: Slot, at: nat) {
    slot in r.keys && at < r.keys[slot]
  }

  predicate CanStep(r: Relay, e: Step) {
    r.now <= e.at && (e.Receive? ==> e.index < |r.reserved| && e.index !in r.received)
  }

  /** SET NX EX with the message's time to live and the margin; a message is stored later. */
  function Stepped(margin: nat, r: Relay, e: Step): Relay
    requires CanStep(r, e)
  {
    match e
    case Reserve(slot, ttl, at) =>
      if Held(r, slot, at) then r.(now := at)
      else Relay(r.keys[slot := at + ttl + margin], r.reserved + [Reservation(slot, at, ttl)], r.received, at)
    case Receive(index, at) => r.(received := r.received[index := at], now := at)
  }

  /**
    A token is reserved unless it is held, for the message's time to live and the margin; a held
    one is left as it is. Storing a message notes when, and touches no key.
   */
  lemma StepWrites(margin: nat, r: Relay, e: Step)
    requires CanStep(r, e)
    ensures var t := Stepped(margin, r, e);
            && t.now == e.at
            && (e.Receive? ==> t.keys == r.keys && t.reserved == r.reserved && t.received == r.received[e.index := e.at])
            && (e.Reserve? ==>
                  && t.received == r.received
                  && (forall slot :: slot != e.slot ==> (slot in t.keys <==> slot in r.keys)
                                                        && (slot in r.keys ==> t.keys[slot] == r.keys[slot]))
                  && if e.slot in r.keys && e.at < r.keys[e.slot] then t.keys == r.keys && t.reserved == r.reserved
                     else
                       && e.slot in t.keys && t.keys[e.slot] == e.at + e.ttl + margin
                       && t.reserved == r.reserved + [Reservation(e.slot, e.at, e.ttl)])
  {
  }

  /** What an increment does: a live key counts on, and any other starts at one without an expiry. */
  lemma IncrementWrites(s: Limiter, at: nat)
    requires s.now <= at
    ensures var t := Next(s, Incr(at));
            var live := s.key.Some? && (s.key.value.expiry.None? || at < s.key.value.expiry.value);
            && t.now == at && (t.pending <==> s.pending || !live)
            && t.key == Some(if live then Counter(s.key.value.count + 1, s.key.value.expiry) else Counter(1, None))
            && CountAfter(s, at) == t.key.value.count
  {
  }

  /** A live key expires a minute after the command. */
  lemma ExpireWrites(s: Limiter, at: nat)
    requires s.now <= at && s.pending
    ensures var t := Next(s, Expire(at));
            var live := s.key.Some? && (s.key.value.expiry.None? || at < s.key.value.expiry.value);
            && t.now == at && !t.pending
            && t.key == if live then Some(Counter(s.key.value.count, Some(at + 60_000))) else s.key
  {
  }

  predicate IsSteps(margin: nat, r: Relay, steps: seq<Step>)
    decreases |steps|
  {
    steps == [] || (CanStep(r, steps[0]) && IsSteps(margin, Stepped(margin, r, steps[0]), steps[1..]))
  }

  function After(margin: nat, r: Relay, steps: seq<Step>): Relay
    requires IsSteps(margin, r, steps)
    decreases |steps|
  {
    if steps == [] then r else After(margin, Stepped(margin, r, steps[0]), steps[1..])
  }

  /** Each stored message came at most `delay` after its reservation. */
  predicate DelaysWithin(delay: nat, r: Relay) {
    forall i :: i in r.received ==> i < |r.reserved| && r.received[i] <= r.reserved[i].at + delay
  }

  predicate Unexpired(r: Relay, i: nat, at: nat)
    requires i < |r.reserved|
  {
    i in r.received && r.received[i] <= at < r.received[i] + r.reserved[i].ttl
  }

  /** No two unexpired messages of a mailbox share a replay token. */
  ghost predicate TokensUnique(r: Relay) {
    forall i, j, at: nat :: 0 <= i < j < |r.reserved| && r.reserved[i].slot == r.reserved[j].slot
      ==> !(Unexpired(r, i, at) && Unexpired(r, j, at))
  }

  /** Reservations of one token are apart by a life and the margin; the key lives as long as the last. */
  ghost predicate Spaced(margin: nat, r: Relay) {
    && (forall i, j :: 0 <= i < j < |r.reserved| && r.reserved[i].slot == r.reserved[j].slot ==>
          r.reserved[i].at + r.reserved[i].ttl + margin <= r.reserved[j].at)
    && (forall i :: 0 <= i < |r.reserved| ==>
          && r.reserved[i].slot in r.keys
          && r.reserved[i].at + r.reserved[i].ttl + margin <= r.keys[r.reserved[i].slot])
    && (forall i :: i in r.received ==> i < |r.reserved| && r.reserved[i].at <= r.received[i])
    && (forall i :: 0 <= i < |r.reserved| ==> r.reserved[i].at <= r.now)
  }

  lemma StepKeepsSpaced(margin: nat, r: Relay, e: Step)
    requires Spaced(margin, r) && CanStep(r, e)
    ensures Spaced(margin, Stepped(margin, r, e))
  {
  }

  lemma {:induction false} StepsKeepSpaced(margin: nat, r: Relay, steps: seq<Step>)
    requires Spaced(margin, r) && IsSteps(margin, r, steps)
    ensures Spaced(margin, After(margin, r, steps))
    decreases |steps|
  {
    if steps != [] {
      hide Spaced;
      StepKeepsSpaced(margin, r, steps[0]);
      StepsKeepSpaced(margin, Stepped(margin, r, steps[0]), steps[1..]);
    }
  }

  lemma SpacedTokensUnique(margin: nat, r: Relay)
    requires Spaced(margin, r) && DelaysWithin(margin, r)
    ensures TokensUnique(r)
  {
  }

  /** The run in which a message is stored later than the margin allows for. */
  function LateReceipt(margin: nat, ttl: nat): seq<Step> {
    var slot := Slot(0, "");
    [Reserve(slot, ttl, 0), Receive(0, margin + 1), Reserve(slot, ttl, ttl + margin), Receive(1, ttl + margin)]
  }

  lemma LateReceiptShares(margin: nat, ttl: nat)
    requires ttl > 0
    ensures IsSteps(margin, NO_TOKENS, LateReceipt(margin, ttl)) && LivesAre(ttl, LateReceipt(margin, ttl))
    ensures DelaysWithin(margin + 1, After(margin, NO_TOKENS, LateReceipt(margin, ttl)))
    ensures !TokensUnique(After(margin, NO_TOKENS, LateReceipt(margin, ttl)))
  {
    var steps, slot := LateReceipt(margin, ttl), Slot(0, "");
    var again := ttl + margin;
    var first, second := Reservation(slot, 0, ttl), Reservation(slot, again, ttl);
    var r1 := Relay(map[slot := again], [first], map[], 0);
    var r2 := r1.(received := map[0 := margin + 1], now := margin + 1);
    var r3 := Relay(map[slot := again + ttl + margin], [first, second], r2.received, again);
    var r4 := r3.(received := map[0 := margin + 1, 1 := again]);
    assert CanStep(NO_TOKENS, steps[0]) && Stepped(margin, NO_TOKENS, steps[0]) == r1;
    assert CanStep(r1, steps[1]) && Stepped(margin, r1, steps[1]) == r2;
    assert CanStep(r2, steps[2]) && Stepped(margin, r2, steps[2]) == r3;
    assert CanStep(r3, steps[3]) && Stepped(margin, r3, steps[3]) == r4;
    hide CanStep, Stepped, LateReceipt;
    LateReceiptOverlaps(r4, margin, ttl);
    FourSteps(margin, steps, r1, r2, r3, r4);
  }

  lemma LateReceiptOverlaps(r: Relay, margin: nat, ttl: nat)
    requires ttl > 0 && |r.reserved| == 2
    requires r.reserved[0] == Reservation(r.reserved[0].slot, 0, ttl)
    requires r.reserved[1] == Reservation(r.reserved[0].slot, ttl + margin, ttl)
    requires r.received == map[0 := margin + 1, 1 := ttl + margin]
    ensures DelaysWithin(margin + 1, r) && !TokensUnique(r)
  {
    assert Unexpired(r, 0, ttl + margin) && Unexpired(r, 1, ttl + margin);
  }

  lemma FourSteps(margin: nat, steps: seq<Step>, r1: Relay, r2: Relay, r3: Relay, r4: Relay)
    requires |steps| == 4
    requires CanStep(NO_TOKENS, steps[0]) && Stepped(margin, NO_TOKENS, steps[0]) == r1
    requires CanStep(r1, steps[1]) && Stepped(margin, r1, steps[1]) == r2
    requires CanStep(r2, steps[2]) && Stepped(margin, r2, steps[2]) == r3
    requires CanStep(r3, steps[3]) && Stepped(margin, r3, steps[3]) == r4
    ensures IsSteps(margin, NO_TOKENS, steps) && After(margin, NO_TOKENS, steps) == r4
  {
    hide CanStep, Stepped;
    assert steps[1..][1..] == steps[2..] && steps[2..][1..] == steps[3..] && steps[3..][1..] == [];
    assert IsSteps(margin, r3, steps[3..]) && After(margin, r3, steps[3..]) == r4;
    assert IsSteps(margin, r2, steps[2..]) && After(margin, r2, steps[2..]) == r4;
    assert IsSteps(margin, r1, steps[1..]) && After(margin, r1, steps[1..]) == r4;
  }

  /** Every message of the run has one time to live. */
  predicate LivesAre(ttl: nat, steps: seq<Step>) {
    forall i :: 0 <= i < |steps| && steps[i].Reserve? ==> steps[i].ttl == ttl
  }

  /** The margin covers the delay: whatever the times to live, tokens stay unique. */
  lemma MarginIsEnough(margin: nat, delay: nat, steps: seq<Step>)
    requires delay <= margin && IsSteps(margin, NO_TOKENS, steps)
    requires DelaysWithin(delay, After(margin, NO_TOKENS, steps))
    ensures TokensUnique(After(margin, NO_TOKENS, steps))
  {
    StepsKeepSpaced(margin, NO_TOKENS, steps);
    SpacedTokensUnique(margin, After(margin, NO_TOKENS, steps));
  }

  /**
    If receipt follows reservation by at most `delay`, no two unexpired messages of a mailbox
    ever share a replay token, over every run, exactly when the margin is at least the delay;
    and so for the runs of any one time to live.
   */
  lemma MarginIsExact(margin: nat, delay: nat, ttl: nat)
    requires ttl > 0
    ensures (forall steps ::
              IsSteps(margin, NO_TOKENS, steps) && DelaysWithin(delay, After(margin, NO_TOKENS, steps))
              ==> TokensUnique(After(margin, NO_TOKENS, steps)))
            <==> delay <= margin
    ensures (forall steps ::
              IsSteps(margin, NO_TOKENS, steps) && LivesAre(ttl, steps)
              && DelaysWithin(delay, After(margin, NO_TOKENS, steps))
              ==> TokensUnique(After(margin, NO_TOKENS, steps)))
            <==> delay <= margin
  {
    if delay <= margin {
      forall steps | IsSteps(margin, NO_TOKENS, steps) && DelaysWithin(delay, After(margin, NO_TOKENS, steps))
        ensures TokensUnique(After(margin, NO_TOKENS, steps)) {
        MarginIsEnough(margin, delay, steps);
      }
    } else {
      LateReceiptShares(margin, ttl);
      var r := After(margin, NO_TOKENS, LateReceipt(margin, ttl));
      assert DelaysWithin(delay, r) && !TokensUnique(r);
    }
  }
}

/**
  The messages of one chain may arrive in any order, up to an exact bound: from an empty
  cache, an order of arrival decrypts completely if and only if no message arrives with more
  than 128 of its predecessors outstanding, and what is left behind does not depend on it.
 */
module Confluence {
  import opened Bytes
  import opened Primitives
  import opened RatchetState
  import opened SkipLemmas
  import opened Conversation
  import opened ConversationDelivery

  /** Message `n` of the chain that starts at `start`, as its sender sealed it. */
  ghost predicate SealedAs(remote: PublicKey, start: Key, n: nat, m: Message) {
    var header := m.envelope.header;
    && m.envelope.version == RATCHET_VERSION
    && header.key == Encoded(remote) && header.number == n
    && m.envelope.nonce == Encoded(m.nonce)
    && m.envelope.ciphertext == Encoded(Sealed(
         MessageKeyAt(start, n), m.nonce,
         RatchetAad(ParsedHeader(remote, header.previous, header.number), m.associatedData), m.plaintext))
  }

  /** A session about to receive, with nothing cached, and the next messages of its chain. */
  ghost predicate Ready(s: State, start: Key, batch: seq<Message>) {
    && s.remote.Some? && s.receiving == Some(ChainAt(start, s.received)) && s.skipped == map[]
    && forall j :: 0 <= j < |batch| ==> SealedAs(s.remote.value, start, s.received + j, batch[j])
  }

  /** The session after the messages of `batch` have arrived in the given order. */
  function Received(s: State, batch: seq<Message>, order: seq<nat>): State
    requires forall i :: 0 <= i < |order| ==> order[i] < |batch|
  {
    if order == [] then s
    else
      var m := batch[order[|order| - 1]];
      Decrypt(Received(s, batch, order[..|order| - 1]), m.envelope, m.associatedData).state
  }

  /** What the last arrival of an order decrypts to. */
  function LastPlaintext(s: State, batch: seq<Message>, order: seq<nat>): Result<seq<byte>>
    requires order != [] && forall i :: 0 <= i < |order| ==> order[i] < |batch|
  {
    var m := batch[order[|order| - 1]];
    Decrypt(Received(s, batch, order[..|order| - 1]), m.envelope, m.associatedData).result
  }

  /** Every arrival decrypts to the plaintext that was sealed. */
  ghost predicate AllDecrypt(s: State, batch: seq<Message>, order: seq<nat>)
    requires forall i :: 0 <= i < |order| ==> order[i] < |batch|
  {
    order != [] ==>
      && AllDecrypt(s, batch, order[..|order| - 1])
      && LastPlaintext(s, batch, order) == Ok(batch[order[|order| - 1]].plaintext)
  }

  /** An order of arrival: messages of the batch, none twice. */
  ghost predicate IsOrder(order: seq<nat>, k: nat) {
    && (forall i :: 0 <= i < |order| ==> order[i] < k)
    && (forall i, j :: 0 <= i < j < |order| ==> order[i] != order[j])
  }

  /** No message arrives with more than 128 of those before it outstanding. */
  ghost predicate WithinBound(order: seq<nat>) {
    forall i :: 0 <= i < |order| ==> order[i] - i <= MAX_SKIPPED_MESSAGE_KEYS
  }

  /** One past the highest message number that has arrived; `base` if none has. */
  function Top(base: nat, order: seq<nat>): nat {
    if order == [] then base
    else
      var before, last := Top(base, order[..|order| - 1]), base + order[|order| - 1];
      if last < before then before else last + 1
  }

  /** The message numbers that have arrived. */
  function Arrived(base: nat, order: seq<nat>): set<nat> {
    if order == [] then {} else Arrived(base, order[..|order| - 1]) + {base + order[|order| - 1]}
  }

  lemma {:induction false} ArrivedIsIn(base: nat, order: seq<nat>, j: nat)
    ensures base + j in Arrived(base, order) <==> j in order
    ensures j in order ==> base + j < Top(base, order)
    ensures base <= Top(base, order)
    ensures order != [] ==> base <= Top(base, order) - 1 && Top(base, order) - 1 in Arrived(base, order)
  {
    if order != [] {
      assert order == order[..|order| - 1] + [order[|order| - 1]];
      ArrivedIsIn(base, order[..|order| - 1], j);
    }
  }

  lemma {:induction false} ArrivedIsBelow(base: nat, order: seq<nat>)
    ensures forall n :: n in Arrived(base, order) ==> n < Top(base, order)
    ensures base <= Top(base, order)
  {
    if order != [] {
      ArrivedIsBelow(base, order[..|order| - 1]);
    }
  }

  lemma OneMore(base: nat, order: seq<nat>, j: nat)
    ensures Arrived(base, order + [j]) == Arrived(base, order) + {base + j}
    ensures Top(base, order + [j]) == if base + j < Top(base, order) then Top(base, order) else base + j + 1
  {
    assert (order + [j])[..|order|] == order;
  }

  /** The message was passed over and is still to come. */
  predicate Awaited(id: SkippedId, remote: PublicKey, base: nat, top: nat, arrived: set<nat>) {
    id.key == remote && base <= id.number < top && id.number !in arrived
  }

  /** The cache holds the keys of the messages passed over and still to come, and no others. */
  ghost predicate Outstanding(
    skipped: map<SkippedId, Key>, remote: PublicKey, start: Key, base: nat, top: nat, arrived: set<nat>)
  {
    && (forall id :: id in skipped <==> Awaited(id, remote, base, top, arrived))
    && (forall id :: id in skipped ==> skipped[id] == MessageKeyAt(start, id.number))
  }

  /** A session moved to message `top` of its chain, with another cache; the rest of it is as it was. */
  function Along(s: State, start: Key, top: nat, skipped: map<SkippedId, Key>): State {
    s.(receiving := Some(ChainAt(start, top)), received := top, skipped := skipped)
  }

  /** Where a session stands after `count` arrivals. */
  ghost predicate StandsAt(s: State, start: Key, top: nat, arrived: set<nat>, count: nat, t: State) {
    && s.remote.Some?
    && t == Along(s, start, top, t.skipped)
    && |t.skipped| == top - s.received - count
    && Outstanding(t.skipped, s.remote.value, start, s.received, top, arrived)
  }

  ghost predicate Stands(s: State, start: Key, order: seq<nat>, t: State) {
    StandsAt(s, start, Top(s.received, order), Arrived(s.received, order), |order|, t)
  }

  function HeaderIn(remote: PublicKey, m: Message): ParsedHeader {
    ParsedHeader(remote, m.envelope.header.previous, m.envelope.header.number)
  }

  /** With its own key taken, a message opens. */
  lemma SealedOpens(remote: PublicKey, start: Key, n: nat, m: Message, t: State)
    requires SealedAs(remote, start, n, m)
    ensures var taken := TakeKey(t, HeaderIn(remote, m));
            var out := Decrypt(t, m.envelope, m.associatedData);
            && out.state == taken.state
            && (taken.key.Err? ==> out.result.Err?)
            && (taken.key == Ok(MessageKeyAt(start, n)) ==> out.result == Ok(m.plaintext))
  {
    DecryptIsParsed(t, m.envelope, m.associatedData, HeaderIn(remote, m));
  }

  // One arrival

  lemma RemoveAwaited(id: SkippedId, remote: PublicKey, base: nat, top: nat, arrived: set<nat>, n: nat)
    ensures Awaited(id, remote, base, top, arrived + {n})
            <==> Awaited(id, remote, base, top, arrived) && id != SkippedId(remote, n)
  {
  }

  lemma RemoveOutstanding(
    skipped: map<SkippedId, Key>, remote: PublicKey, start: Key, base: nat, top: nat, arrived: set<nat>, n: nat)
    requires Outstanding(skipped, remote, start, base, top, arrived) && base <= n < top && n !in arrived
    ensures var id := SkippedId(remote, n);
            && id in skipped && skipped[id] == MessageKeyAt(start, n)
            && |skipped - {id}| == |skipped| - 1
            && Outstanding(skipped - {id}, remote, start, base, top, arrived + {n})
  {
    hide MessageKeyAt;
    var id := SkippedId(remote, n);
    assert Awaited(id, remote, base, top, arrived);
    RemoveShrinks(skipped, id);
    hide Awaited;
    forall i ensures i in skipped - {id} <==> Awaited(i, remote, base, top, arrived + {n}) {
      RemoveAwaited(i, remote, base, top, arrived, n);
    }
  }

  /** A message passed over is opened with its cached key. */
  lemma LateArrival(
    s: State, start: Key, top: nat, arrived: set<nat>, count: nat, t: State, header: ParsedHeader)
    requires StandsAt(s, start, top, arrived, count, t) && header.key == s.remote.value
    requires s.received <= header.number < top && header.number !in arrived
    ensures var taken := TakeKey(t, header);
            && taken.key == Ok(MessageKeyAt(start, header.number))
            && StandsAt(s, start, top, arrived + {header.number}, count + 1, taken.state)
  {
    hide Outstanding, AdvanceTo, TakeNext, MessageKeyAt;
    RemoveOutstanding(t.skipped, s.remote.value, start, s.received, top, arrived, header.number);
  }

  lemma OutstandingBelow(
    skipped: map<SkippedId, Key>, remote: PublicKey, start: Key, base: nat, top: nat, arrived: set<nat>, until: nat)
    requires Outstanding(skipped, remote, start, base, top, arrived)
    ensures Vacant(skipped, remote, top, until)
  {
    forall id | id in skipped && id.key == remote ensures id.number < top || until <= id.number {
      assert Awaited(id, remote, base, top, arrived);
    }
  }

  /** A message at or past the receiving position is opened exactly if the gap fits. */
  lemma NewArrival(
    s: State, start: Key, top: nat, arrived: set<nat>, count: nat, t: State, header: ParsedHeader)
    requires StandsAt(s, start, top, arrived, count, t) && header.key == s.remote.value
    requires s.received <= top <= header.number && |t.skipped| <= MAX_SKIPPED_MESSAGE_KEYS
    requires forall n :: n in arrived ==> n < top
    ensures var taken := TakeKey(t, header);
            && (taken.key.Ok? <==> header.number - s.received - count <= MAX_SKIPPED_MESSAGE_KEYS)
            && (taken.key.Ok? ==>
                  && taken.key == Ok(MessageKeyAt(start, header.number))
                  && StandsAt(s, start, header.number + 1, arrived + {header.number}, count + 1, taken.state))
  {
    hide TakeKey, Outstanding, MessageKeyAt;
    OutstandingBelow(t.skipped, s.remote.value, start, s.received, top, arrived, header.number + 1);
    TakeForward(t, start, header);
    FilledOutstanding(t.skipped, s.remote.value, start, s.received, top, arrived, header.number);
  }

  lemma FillAwaited(id: SkippedId, remote: PublicKey, base: nat, top: nat, arrived: set<nat>, n: nat)
    requires base <= top <= n && forall i :: i in arrived ==> i < top
    ensures Awaited(id, remote, base, n + 1, arrived + {n})
            <==> Awaited(id, remote, base, top, arrived) || (id.key == remote && top <= id.number < n)
  {
  }

  /** Storing the keys up to message `n` leaves exactly the outstanding ones cached. */
  lemma FilledOutstanding(
    skipped: map<SkippedId, Key>, remote: PublicKey, start: Key, base: nat, top: nat, arrived: set<nat>, n: nat)
    requires Outstanding(skipped, remote, start, base, top, arrived) && base <= top <= n
    requires forall i :: i in arrived ==> i < top
    ensures var f := Filled(skipped, remote, ChainAt(start, top), top, n);
            Outstanding(f, remote, start, base, n + 1, arrived + {n}) && |f| == |skipped| + (n - top)
  {
    hide MessageKeyAt, Awaited, Filled, ChainAt, Vacant;
    var f := Filled(skipped, remote, ChainAt(start, top), top, n);
    OutstandingBelow(skipped, remote, start, base, top, arrived, n);
    FilledSize(skipped, remote, ChainAt(start, top), top, n);
    FilledKeys(skipped, remote, ChainAt(start, top), top, n);
    forall id | id in f ensures f[id] == MessageKeyAt(start, id.number) {
      FilledEntry(skipped, remote, start, top, n, id);
    }
    forall id ensures id in f <==> Awaited(id, remote, base, n + 1, arrived + {n}) {
      FillAwaited(id, remote, base, top, arrived, n);
    }
  }

  lemma FilledEntry(skipped: map<SkippedId, Key>, remote: PublicKey, start: Key, from: nat, until: nat, id: SkippedId)
    requires from <= until && Vacant(skipped, remote, from, until)
    requires forall i :: i in skipped ==> skipped[i] == MessageKeyAt(start, i.number)
    requires id in Filled(skipped, remote, ChainAt(start, from), from, until)
    ensures Filled(skipped, remote, ChainAt(start, from), from, until)[id] == MessageKeyAt(start, id.number)
  {
    var chain := ChainAt(start, from);
    FilledKeys(skipped, remote, chain, from, until);
    if id in skipped {
      FilledKeeps(skipped, remote, chain, from, until, id);
    } else {
      FilledStores(skipped, remote, chain, from, until, id.number);
      ChainAtAdd(start, from, id.number - from);
    }
  }

  /** The step of an arrival: `n` is its number, `top` and `arrived` what came before. */
  lemma OneArrivalAt(
    s: State, start: Key, top: nat, arrived: set<nat>, count: nat, t: State, header: ParsedHeader)
    requires StandsAt(s, start, top, arrived, count, t) && header.key == s.remote.value
    requires s.received <= header.number && header.number !in arrived && s.received <= top
    requires |t.skipped| <= MAX_SKIPPED_MESSAGE_KEYS
    requires forall n :: n in arrived ==> n < top
    ensures var n, taken := header.number, TakeKey(t, header);
            && (taken.key.Ok? <==> n - s.received - count <= MAX_SKIPPED_MESSAGE_KEYS)
            && (taken.key.Ok? ==>
                  && taken.key == Ok(MessageKeyAt(start, n))
                  && StandsAt(s, start, if n < top then top else n + 1, arrived + {n}, count + 1, taken.state))
  {
    hide TakeKey, Outstanding, MessageKeyAt;
    if header.number < top {
      LateArrival(s, start, top, arrived, count, t, header);
    } else {
      NewArrival(s, start, top, arrived, count, t, header);
    }
  }

  /** An arrival decrypts if and only if at most 128 of its predecessors are outstanding. */
  lemma OneArrival(s: State, start: Key, order: seq<nat>, t: State, m: Message, j: nat)
    requires s.remote.Some? && Stands(s, start, order, t)
    requires j !in order && |t.skipped| <= MAX_SKIPPED_MESSAGE_KEYS
    requires SealedAs(s.remote.value, start, s.received + j, m)
    ensures var out := Decrypt(t, m.envelope, m.associatedData);
            && (out.result.Ok? <==> j - |order| <= MAX_SKIPPED_MESSAGE_KEYS)
            && (out.result.Ok? ==> out.result == Ok(m.plaintext) && Stands(s, start, order + [j], out.state))
  {
    hide Decrypt, TakeKey, Outstanding, StandsAt, Top, Arrived;
    SealedOpens(s.remote.value, start, s.received + j, m, t);
    ArrivedIsBelow(s.received, order);
    ArrivedIsIn(s.received, order, j);
    OneMore(s.received, order, j);
    OneArrivalAt(s, start, Top(s.received, order), Arrived(s.received, order), |order|, t, HeaderIn(s.remote.value, m));
  }

  // Whole orders

  lemma SizeAlong(s: State, start: Key, order: seq<nat>, t: State)
    requires Stands(s, start, order, t)
    ensures |t.skipped| == Top(s.received, order) - s.received - |order|
  {
  }

  /** Within the bound, no more than 128 keys are ever outstanding. */
  lemma {:induction false} TopWithinBound(base: nat, order: seq<nat>, k: nat)
    requires IsOrder(order, k) && WithinBound(order)
    ensures Top(base, order) - base - |order| <= MAX_SKIPPED_MESSAGE_KEYS
  {
    if order != [] {
      TopWithinBound(base, order[..|order| - 1], k);
    }
  }

  lemma BoundSplits(before: seq<nat>, j: nat)
    ensures WithinBound(before + [j]) <==> WithinBound(before) && j - |before| <= MAX_SKIPPED_MESSAGE_KEYS
  {
    if WithinBound(before + [j]) {
      assert (before + [j])[|before|] == j;
      forall i | 0 <= i < |before| ensures before[i] - i <= MAX_SKIPPED_MESSAGE_KEYS {
        assert (before + [j])[i] == before[i];
      }
    }
  }

  /** One more arrival, by the definitions. */
  lemma ReceivedOneMore(s: State, batch: seq<Message>, before: seq<nat>, j: nat)
    requires IsOrder(before + [j], |batch|)
    ensures IsOrder(before, |batch|) && j < |batch| && j !in before
    ensures var out := Decrypt(Received(s, batch, before), batch[j].envelope, batch[j].associatedData);
            && Received(s, batch, before + [j]) == out.state
            && (AllDecrypt(s, batch, before + [j])
                <==> AllDecrypt(s, batch, before) && out.result == Ok(batch[j].plaintext))
  {
    hide Decrypt;
    var order := before + [j];
    assert order[..|before|] == before && order[|before|] == j;
    forall i | 0 <= i < |before| ensures before[i] == order[i] && before[i] != j && before[i] < |batch| {
      assert order[i] != order[|before|];
    }
    forall i, l | 0 <= i < l < |before| ensures before[i] != before[l] {
      assert order[i] != order[l];
    }
  }

  lemma ReadyAt(s: State, start: Key, batch: seq<Message>, j: nat)
    requires Ready(s, start, batch) && j < |batch|
    ensures s.remote.Some? && SealedAs(s.remote.value, start, s.received + j, batch[j])
  {
  }

  lemma ReadyStands(s: State, start: Key, batch: seq<Message>)
    requires Ready(s, start, batch)
    ensures Stands(s, start, [], s)
  {
  }

  lemma {:induction false} ArrivalsStand(s: State, start: Key, batch: seq<Message>, order: seq<nat>)
    requires Ready(s, start, batch) && IsOrder(order, |batch|)
    ensures AllDecrypt(s, batch, order) <==> WithinBound(order)
    ensures WithinBound(order) ==> Stands(s, start, order, Received(s, batch, order))
  {
    if order == [] {
      ReadyStands(s, start, batch);
    } else {
      hide *;
      var before, j := order[..|order| - 1], order[|order| - 1];
      assert before + [j] == order;
      ReceivedOneMore(s, batch, before, j);
      ArrivalsStand(s, start, batch, before);
      BoundSplits(before, j);
      ReadyAt(s, start, batch, j);
      if WithinBound(before) {
        TopWithinBound(s.received, before, |batch|);
        SizeAlong(s, start, before, Received(s, batch, before));
        OneArrival(s, start, before, Received(s, batch, before), batch[j], j);
      }
    }
  }

  /** Which orders of arrival decrypt completely. */
  lemma DecryptsExactlyWithinBound(s: State, start: Key, batch: seq<Message>, order: seq<nat>)
    requires Ready(s, start, batch) && IsOrder(order, |batch|)
    ensures AllDecrypt(s, batch, order) <==> WithinBound(order)
  {
    ArrivalsStand(s, start, batch, order);
  }

  lemma SameTop(base: nat, a: seq<nat>, b: seq<nat>)
    requires Arrived(base, a) == Arrived(base, b)
    ensures Top(base, a) == Top(base, b)
  {
    ArrivedIsBelow(base, a);
    ArrivedIsBelow(base, b);
    ArrivedIsIn(base, a, 0);
    ArrivedIsIn(base, b, 0);
    assert a == [] <==> b == [];
  }

  lemma SameCache(
    m: map<SkippedId, Key>, n: map<SkippedId, Key>, remote: PublicKey, start: Key, base: nat, top: nat, arrived: set<nat>)
    requires Outstanding(m, remote, start, base, top, arrived) && Outstanding(n, remote, start, base, top, arrived)
    ensures m == n
  {
    forall id ensures id in m <==> id in n {
      assert id in m <==> Awaited(id, remote, base, top, arrived);
    }
  }

  /** Confluence: orders that decrypt completely and bring the same messages end in the same state. */
  lemma OrderDoesNotMatter(s: State, start: Key, batch: seq<Message>, a: seq<nat>, b: seq<nat>)
    requires Ready(s, start, batch) && IsOrder(a, |batch|) && IsOrder(b, |batch|)
    requires AllDecrypt(s, batch, a) && AllDecrypt(s, batch, b)
    requires Arrived(s.received, a) == Arrived(s.received, b)
    ensures Received(s, batch, a) == Received(s, batch, b)
  {
    hide Outstanding, AllDecrypt, Received, WithinBound, Top, Arrived;
    ArrivalsStand(s, start, batch, a);
    ArrivalsStand(s, start, batch, b);
    SameTop(s.received, a, b);
    SameCache(Received(s, batch, a).skipped, Received(s, batch, b).skipped, s.remote.value, start, s.received,
              Top(s.received, a), Arrived(s.received, a));
  }

  // Whole batches

  ghost predicate IsPermutation(order: seq<nat>, k: nat) {
    IsOrder(order, k) && |order| == k
  }

  function InOrder(k: nat): (order: seq<nat>)
    ensures IsPermutation(order, k)
    ensures forall i :: 0 <= i < k ==> order[i] == i
  {
    seq(k, i requires i >= 0 => i)
  }

  /** The last message first, then the others in order. */
  function LastFirst(k: nat): (order: seq<nat>)
    requires k > 0
    ensures IsPermutation(order, k) && order[0] == k - 1
  {
    [k - 1] + InOrder(k - 1)
  }

  lemma {:induction false} DistinctCount(base: nat, order: seq<nat>, k: nat)
    requires IsOrder(order, k)
    ensures |Arrived(base, order)| == |order|
  {
    if order != [] {
      DistinctCount(base, order[..|order| - 1], k);
      ArrivedIsIn(base, order[..|order| - 1], order[|order| - 1]);
    }
  }

  lemma SubsetOfSameSize(a: set<nat>, b: set<nat>)
    requires a <= b && |a| == |b|
    ensures a == b
  {
    assert |b - a| == |b| - |a|;
  }

  lemma {:induction false} ArrivedInRange(base: nat, order: seq<nat>, k: nat)
    requires IsOrder(order, k)
    ensures forall n :: n in Arrived(base, order) ==> base <= n < base + k
  {
    if order != [] {
      ArrivedInRange(base, order[..|order| - 1], k);
    }
  }

  /** A permutation brings every message of the batch. */
  lemma PermutationCovers(base: nat, order: seq<nat>, k: nat)
    requires IsPermutation(order, k)
    ensures Arrived(base, order) == Arrived(base, InOrder(k))
  {
    DistinctCount(base, order, k);
    DistinctCount(base, InOrder(k), k);
    ArrivedInRange(base, order, k);
    forall n | n in Arrived(base, order) ensures n in Arrived(base, InOrder(k)) {
      ArrivedIsIn(base, InOrder(k), n - base);
      assert InOrder(k)[n - base] == n - base;
    }
    SubsetOfSameSize(Arrived(base, order), Arrived(base, InOrder(k)));
  }

  lemma InOrderTop(base: nat, k: nat)
    ensures Top(base, InOrder(k)) == base + k
  {
    if k > 0 {
      ArrivedIsIn(base, InOrder(k), k - 1);
      assert InOrder(k)[k - 1] == k - 1;
      ArrivedInRange(base, InOrder(k), k);
    }
  }

  /** Every order of a batch of at most 129 decrypts completely, and ends as in-order delivery does. */
  lemma SmallBatchesInAnyOrder(s: State, start: Key, batch: seq<Message>, order: seq<nat>)
    requires Ready(s, start, batch) && IsPermutation(order, |batch|)
    requires |batch| <= 129
    ensures AllDecrypt(s, batch, order)
    ensures Received(s, batch, order) == Received(s, batch, InOrder(|batch|))
    ensures Received(s, batch, order) == Along(s, start, s.received + |batch|, map[])
  {
    hide Outstanding, AllDecrypt, Received, Ready;
    var k := |batch|;
    ArrivalsStand(s, start, batch, order);
    ArrivalsStand(s, start, batch, InOrder(k));
    PermutationCovers(s.received, order, k);
    SameTop(s.received, order, InOrder(k));
    InOrderTop(s.received, k);
    OrderDoesNotMatter(s, start, batch, order, InOrder(k));
    assert Received(s, batch, order).skipped == map[];
  }

  /** The bound is exact: every order of a batch decrypts if and only if the batch has at most 129 messages. */
  lemma BoundIsExact(s: State, start: Key, batch: seq<Message>)
    requires Ready(s, start, batch)
    ensures (forall order :: IsPermutation(order, |batch|) ==> AllDecrypt(s, batch, order))
            <==> |batch| <= 129
  {
    if |batch| <= 129 {
      forall order | IsPermutation(order, |batch|) ensures AllDecrypt(s, batch, order) {
        SmallBatchesInAnyOrder(s, start, batch, order);
      }
    } else {
      var order := LastFirst(|batch|);
      assert IsPermutation(order, |batch|);
      ArrivalsStand(s, start, batch, order);
      assert order[0] - 0 > MAX_SKIPPED_MESSAGE_KEYS;
    }
  }
}

/**
  One-time prekeys at the relay, under concurrent fetch, publish and cleanup. A step is one
  statement of a transaction, or its commit; a row lock is held from the statement that takes
  it to the end of its transaction.
 */
module RelayPrekeys {
  import opened Primitives

  /** A row of relay_one_time_prekeys. */
  datatype Row = Row(mailbox: nat, key: nat, created: int, consumed: bool)

  datatype Holder = Fetching(tx: nat) | Publishing(tx: nat)

  datatype Upload = Upload(id: nat, key: nat)

  /**
    The tables, the row locks and the publish transactions in flight; and, for the record,
    every row ever inserted, the rows handed out in order, the rows deleted unconsumed.
   */
  datatype Store = Store(
    rows: map<nat, Row>,
    bundles: map<nat, int>,
    locks: map<nat, Holder>,
    publishing: map<nat, nat>,
    inserted: set<nat>,
    handed: seq<nat>,
    discarded: set<nat>)

  const EMPTY := Store(map[], map[], map[], map[], {}, [], {})

  datatype Event =
    | Claim(tx: nat, mailbox: nat, candidate: Option<nat>, now: int)
    | CommitFetch(tx: nat, id: nat)
    | AbortFetch(tx: nat, id: nat)
    | StartPublish(tx: nat, mailbox: nat)
    | LockRow(tx: nat, id: nat)
    | CommitPublish(tx: nat, expires: int, now: int, uploads: seq<Upload>)
    | AbortPublish(tx: nat)
    | CleanRow(id: nat, now: int)
    | CleanBundle(mailbox: nat, now: int)
    | DropMailbox(mailbox: nat)

  predicate Active(s: Store, mailbox: nat, now: int) {
    mailbox in s.bundles && s.bundles[mailbox] > now
  }

  predicate Unconsumed(rows: map<nat, Row>, mailbox: nat, id: nat) {
    id in rows && rows[id].mailbox == mailbox && !rows[id].consumed
  }

  /** What FOR UPDATE SKIP LOCKED leaves to choose from. */
  predicate Candidate(rows: map<nat, Row>, locks: map<nat, Holder>, mailbox: nat, id: nat) {
    Unconsumed(rows, mailbox, id) && id !in locks
  }

  predicate Oldest(rows: map<nat, Row>, locks: map<nat, Holder>, mailbox: nat, id: nat) {
    && Candidate(rows, locks, mailbox, id)
    && forall other :: other in rows && Candidate(rows, locks, mailbox, other) ==> rows[id].created <= rows[other].created
  }

  predicate NoKeyTwice(rows: map<nat, Row>) {
    forall i, j :: i in rows && j in rows && i != j ==> rows[i].key != rows[j].key
  }

  /** The table after the loop of inserts. */
  function InsertAll(rows: map<nat, Row>, mailbox: nat, now: int, uploads: seq<Upload>): map<nat, Row> {
    if uploads == [] then rows
    else
      var last := uploads[|uploads| - 1];
      InsertAll(rows, mailbox, now, uploads[..|uploads| - 1])[last.id := Row(mailbox, last.key, now, false)]
  }

  function Ids(uploads: seq<Upload>): set<nat> {
    set u | u in uploads :: u.id
  }

  function LockedBy(s: Store, h: Holder): set<nat> {
    set id | id in s.locks && s.locks[id] == h
  }

  /** The publish transaction has locked, for deletion, every unconsumed row of its mailbox. */
  predicate AllLocked(s: Store, tx: nat, mailbox: nat) {
    forall id :: id in s.rows && Unconsumed(s.rows, mailbox, id) ==> id in s.locks && s.locks[id] == Publishing(tx)
  }

  /** Rows are new, and no public key is stored twice: otherwise the insert fails. */
  predicate CanInsert(s: Store, rows: map<nat, Row>, uploads: seq<Upload>) {
    && (forall u :: u in uploads ==> u.id !in s.inserted && forall id :: id in rows ==> rows[id].key != u.key)
    && (forall i, j :: 0 <= i < j < |uploads| ==> uploads[i].id != uploads[j].id && uploads[i].key != uploads[j].key)
  }

  ghost predicate Allowed(s: Store, e: Event) {
    match e
    case Claim(tx, mailbox, candidate, now) =>
      && Active(s, mailbox, now)
      && (match candidate
          case Some(id) => Oldest(s.rows, s.locks, mailbox, id)
          case None => forall id :: id in s.rows ==> !Candidate(s.rows, s.locks, mailbox, id))
    case CommitFetch(tx, id) => id in s.rows && id in s.locks && s.locks[id] == Fetching(tx)
    case AbortFetch(tx, id) => id in s.locks && s.locks[id] == Fetching(tx)
    // the upsert of the bundle row makes publishers of one mailbox wait for each other
    case StartPublish(tx, mailbox) => tx !in s.publishing && mailbox !in s.publishing.Values
    // a delete waits for locked rows, and skips those it then finds consumed
    case LockRow(tx, id) => tx in s.publishing && Candidate(s.rows, s.locks, s.publishing[tx], id)
    case CommitPublish(tx, expires, now, uploads) =>
      && tx in s.publishing
      && AllLocked(s, tx, s.publishing[tx])
      && CanInsert(s, s.rows - LockedBy(s, Publishing(tx)), uploads)
    case AbortPublish(tx) => tx in s.publishing
    case CleanRow(id, now) =>
      id in s.rows && id !in s.locks && (s.rows[id].consumed || !Active(s, s.rows[id].mailbox, now))
    case CleanBundle(mailbox, now) => mailbox in s.bundles && s.bundles[mailbox] <= now
    case DropMailbox(mailbox) =>
      mailbox !in s.publishing.Values && forall id :: id in s.locks && id in s.rows ==> s.rows[id].mailbox != mailbox
  }

  function Claimed(s: Store, tx: nat, candidate: Option<nat>): Store {
    if candidate.Some? then s.(locks := s.locks[candidate.value := Fetching(tx)]) else s
  }

  function Consumed(s: Store, id: nat): Store
    requires id in s.rows
  {
    s.(rows := s.rows[id := s.rows[id].(consumed := true)], locks := s.locks - {id}, handed := s.handed + [id])
  }

  function Published(s: Store, tx: nat, expires: int, now: int, uploads: seq<Upload>): Store
    requires tx in s.publishing
  {
    var mailbox, gone := s.publishing[tx], LockedBy(s, Publishing(tx));
    s.(rows := InsertAll(s.rows - gone, mailbox, now, uploads),
       bundles := s.bundles[mailbox := expires],
       locks := s.locks - gone,
       publishing := s.publishing - {tx},
       inserted := s.inserted + Ids(uploads),
       discarded := s.discarded + gone)
  }

  function Aborted(s: Store, tx: nat): Store {
    s.(locks := s.locks - LockedBy(s, Publishing(tx)), publishing := s.publishing - {tx})
  }

  /** Rows deleted; those not consumed are lost. */
  function Deleted(s: Store, gone: set<nat>): Store {
    s.(rows := s.rows - gone,
       discarded := s.discarded + set id | id in gone && id in s.rows && !s.rows[id].consumed)
  }

  function RowsOf(s: Store, mailbox: nat): set<nat> {
    set id | id in s.rows && s.rows[id].mailbox == mailbox
  }

  ghost function Next(s: Store, e: Event): Store
    requires Allowed(s, e)
  {
    match e
    case Claim(tx, mailbox, candidate, _) => Claimed(s, tx, candidate)
    case CommitFetch(tx, id) => Consumed(s, id)
    case AbortFetch(tx, id) => s.(locks := s.locks - {id})
    case StartPublish(tx, mailbox) => s.(publishing := s.publishing[tx := mailbox])
    case LockRow(tx, id) => s.(locks := s.locks[id := Publishing(tx)])
    case CommitPublish(tx, expires, now, uploads) => Published(s, tx, expires, now, uploads)
    case AbortPublish(tx) => Aborted(s, tx)
    case CleanRow(id, _) => Deleted(s, {id})
    case CleanBundle(mailbox, _) => s.(bundles := s.bundles - {mailbox})
    case DropMailbox(mailbox) => Deleted(s.(bundles := s.bundles - {mailbox}), RowsOf(s, mailbox))
  }

  // The rows a step leaves

  /** A row of the mailbox that nobody has consumed. */
  predicate Fresh(s: Store, mailbox: nat, id: nat) {
    id in s.rows && s.rows[id].mailbox == mailbox && !s.rows[id].consumed
  }

  /** A fetch takes the lock of an oldest fresh and unlocked row, if there is one, under a bundle not yet expired. */
  lemma ClaimWrites(s: Store, tx: nat, mailbox: nat, candidate: Option<nat>, now: int)
    ensures var e := Claim(tx, mailbox, candidate, now);
            && (Allowed(s, e) <==>
                  && mailbox in s.bundles && now < s.bundles[mailbox]
                  && if candidate.Some? then
                       && Fresh(s, mailbox, candidate.value) && candidate.value !in s.locks
                       && forall other :: other in s.rows && Fresh(s, mailbox, other) && other !in s.locks ==>
                            s.rows[candidate.value].created <= s.rows[other].created
                     else forall other :: other in s.rows && Fresh(s, mailbox, other) ==> other in s.locks)
            && (Allowed(s, e) ==>
                  Next(s, e) == if candidate.Some? then s.(locks := s.locks[candidate.value := Fetching(tx)]) else s)
  {
    if candidate.Some? {
      assert forall other :: other in s.rows ==> (Candidate(s.rows, s.locks, mailbox, other)
                                                  <==> Fresh(s, mailbox, other) && other !in s.locks);
    } else {
      assert forall other :: other in s.rows ==> (Candidate(s.rows, s.locks, mailbox, other)
                                                  <==> Fresh(s, mailbox, other) && other !in s.locks);
    }
  }

  /** The commit of a fetch marks the row consumed, lets go of it, and hands it out. */
  lemma FetchWrites(s: Store, tx: nat, id: nat)
    requires Allowed(s, CommitFetch(tx, id))
    ensures var t := Next(s, CommitFetch(tx, id));
            && s.locks[id] == Fetching(tx) && id in s.rows
            && t.rows == s.rows[id := Row(s.rows[id].mailbox, s.rows[id].key, s.rows[id].created, true)]
            && t.handed == s.handed + [id] && id !in t.locks
            && (forall other :: other in t.locks <==> other in s.locks && other != id)
            && (forall other :: other in t.locks ==> t.locks[other] == s.locks[other])
            && t == s.(rows := t.rows, locks := t.locks, handed := t.handed)
  {
  }

  /** The mailbox's fresh rows are replaced by the uploaded ones, each with its own key; all other rows stay. */
  ghost predicate Replaces(s: Store, rows: map<nat, Row>, mailbox: nat, now: int, uploads: seq<Upload>) {
    && (forall u :: u in uploads ==> u.id in rows && rows[u.id] == Row(mailbox, u.key, now, false))
    && (forall id :: id in rows <==> (id in s.rows && !Fresh(s, mailbox, id)) || exists u :: u in uploads && u.id == id)
    && (forall id :: id in s.rows && !Fresh(s, mailbox, id) ==> rows[id] == s.rows[id])
  }

  /**
    A publish replaces the fresh rows of its mailbox by the uploaded ones, each with its own key,
    and its bundle's expiry; rows of other mailboxes, and consumed ones, stay.
   */
  lemma PublishWrites(s: Store, tx: nat, expires: int, now: int, uploads: seq<Upload>)
    requires Invariant(s) && Allowed(s, CommitPublish(tx, expires, now, uploads))
    ensures var t, mailbox := Next(s, CommitPublish(tx, expires, now, uploads)), s.publishing[tx];
            && t.bundles == s.bundles[mailbox := expires] && t.handed == s.handed && tx !in t.publishing
            && Replaces(s, t.rows, mailbox, now, uploads)
            && (forall id :: id in t.discarded <==> id in s.discarded || Fresh(s, mailbox, id))
  {
    var t, mailbox := Next(s, CommitPublish(tx, expires, now, uploads)), s.publishing[tx];
    var gone := LockedBy(s, Publishing(tx));
    forall id ensures id in gone <==> Fresh(s, mailbox, id) {
      assert id in s.rows ==> (Unconsumed(s.rows, mailbox, id) <==> Fresh(s, mailbox, id));
    }
    var rest := s.rows - gone;
    RowsAreInserted(s);
    forall u | u in uploads ensures u.id in t.rows && t.rows[u.id] == Row(mailbox, u.key, now, false) {
      InsertedRows(rest, mailbox, now, uploads, u.id);
    }
    forall id ensures (id in t.rows <==> id in rest || exists u :: u in uploads && u.id == id)
                      && (id in rest ==> t.rows[id] == s.rows[id]) {
      InsertedRows(rest, mailbox, now, uploads, id);
    }
    hide InsertAll;
  }

  /** A publish goes through if its identifiers are new and no public key is stored that stays, or uploaded twice. */
  lemma PublishAdmitted(s: Store, tx: nat, expires: int, now: int, uploads: seq<Upload>)
    requires Invariant(s) && tx in s.publishing
    requires forall id :: Fresh(s, s.publishing[tx], id) ==> id in s.locks && s.locks[id] == Publishing(tx)
    ensures Allowed(s, CommitPublish(tx, expires, now, uploads)) <==>
              && (forall u :: u in uploads ==> u.id !in s.inserted)
              && (forall u, id :: u in uploads && id in s.rows && !Fresh(s, s.publishing[tx], id) ==> s.rows[id].key != u.key)
              && (forall i, j :: 0 <= i < j < |uploads| ==>
                    uploads[i].id != uploads[j].id && uploads[i].key != uploads[j].key)
  {
    var mailbox, gone := s.publishing[tx], LockedBy(s, Publishing(tx));
    forall id ensures id in gone <==> Fresh(s, mailbox, id) {
      assert id in s.rows ==> (Unconsumed(s.rows, mailbox, id) <==> Fresh(s, mailbox, id));
    }
    var rest := s.rows - gone;
    assert forall id :: id in rest <==> id in s.rows && !Fresh(s, mailbox, id);
    assert AllLocked(s, tx, mailbox) by {
      forall id | id in s.rows && Unconsumed(s.rows, mailbox, id) ensures id in s.locks && s.locks[id] == Publishing(tx) {
        assert Fresh(s, mailbox, id);
      }
    }
    hide FatesOk, OneBatch, HandedOnce, NoKeyTwice;
  }

  /** A row is cleaned up if it is consumed, or has no bundle that has not expired, and nobody holds it. */
  lemma CleanupAdmitted(s: Store, id: nat, mailbox: nat, now: int)
    ensures Allowed(s, CleanRow(id, now)) <==>
              && id in s.rows && id !in s.locks
              && (s.rows[id].consumed || s.rows[id].mailbox !in s.bundles || s.bundles[s.rows[id].mailbox] <= now)
    ensures Allowed(s, CleanBundle(mailbox, now)) <==> mailbox in s.bundles && s.bundles[mailbox] <= now
  {
  }

  /** The row goes, lost if it was fresh; so do a mailbox's bundle and rows. */
  lemma RemovalWrites(s: Store, e: Event, id: nat, mailbox: nat)
    requires Allowed(s, e) && (e.CleanRow? || e.CleanBundle? || e.DropMailbox?)
    ensures var t := Next(s, e);
            var goes := (e.CleanRow? && id == e.id) || (e.DropMailbox? && id in s.rows && s.rows[id].mailbox == e.mailbox);
            && (id in t.rows <==> id in s.rows && !goes) && (id in t.rows ==> t.rows[id] == s.rows[id])
            && (id in t.discarded <==> id in s.discarded || (goes && id in s.rows && !s.rows[id].consumed))
            && (mailbox in t.bundles <==> mailbox in s.bundles && !(!e.CleanRow? && e.mailbox == mailbox))
            && (mailbox in t.bundles ==> t.bundles[mailbox] == s.bundles[mailbox])
            && t == s.(rows := t.rows, bundles := t.bundles, discarded := t.discarded)
  {
  }

  /** Locks and transactions in flight: what is taken, and what an abort gives back. */
  lemma LockWrites(s: Store, e: Event)
    requires Allowed(s, e)
    ensures var t := Next(s, e);
            && (e.AbortFetch? ==> s.locks[e.id] == Fetching(e.tx) && t == s.(locks := t.locks)
                                  && forall id :: id in t.locks <==> id in s.locks && id != e.id)
            && (e.StartPublish? ==> t == s.(publishing := s.publishing[e.tx := e.mailbox]))
            && (e.LockRow? ==> Fresh(s, s.publishing[e.tx], e.id) && e.id !in s.locks
                               && t == s.(locks := s.locks[e.id := Publishing(e.tx)]))
            && (e.AbortPublish? ==> t == s.(locks := t.locks, publishing := t.publishing) && e.tx !in t.publishing
                                    && forall id :: id in t.locks <==> id in s.locks && s.locks[id] != Publishing(e.tx))
  {
  }

  // The invariant

  /** Locks are on unconsumed rows; a publisher's are on its mailbox's. */
  ghost predicate LocksOk(s: Store) {
    && (forall id :: id in s.locks ==> id in s.rows && !s.rows[id].consumed)
    && (forall id :: id in s.locks && s.locks[id].Publishing? ==>
          s.locks[id].tx in s.publishing && s.rows[id].mailbox == s.publishing[s.locks[id].tx])
    && (forall t, u :: t in s.publishing && u in s.publishing && t != u ==> s.publishing[t] != s.publishing[u])
  }

  ghost predicate HandedOnce(s: Store) {
    forall i, j :: 0 <= i < j < |s.handed| ==> s.handed[i] != s.handed[j]
  }

  predicate Available(s: Store, id: nat) {
    id in s.rows && !s.rows[id].consumed
  }

  /** A row ever inserted is in exactly one of three places, for good in the last two. */
  ghost predicate OneFate(s: Store, id: nat) {
    && (Available(s, id) || id in s.handed || id in s.discarded)
    && !(Available(s, id) && id in s.handed)
    && !(Available(s, id) && id in s.discarded)
    && !(id in s.handed && id in s.discarded)
  }

  ghost predicate FatesOk(s: Store) {
    && (forall id :: id in s.inserted ==> OneFate(s, id))
    && (forall id :: id in s.rows ==> id in s.inserted)
    && (forall id :: id in s.handed ==> id in s.inserted)
    && (forall id :: id in s.discarded ==> id in s.inserted && id !in s.rows)
    && (forall id :: id in s.rows && s.rows[id].consumed ==> id in s.handed)
  }

  /** The unconsumed rows of a mailbox come from one publish. */
  ghost predicate OneBatch(s: Store) {
    forall i, j :: i in s.rows && j in s.rows && !s.rows[i].consumed && !s.rows[j].consumed
                   && s.rows[i].mailbox == s.rows[j].mailbox
      ==> s.rows[i].created == s.rows[j].created
  }

  ghost predicate Invariant(s: Store) {
    LocksOk(s) && HandedOnce(s) && FatesOk(s) && NoKeyTwice(s.rows) && OneBatch(s)
  }

  // Inserting

  lemma {:induction false} InsertedRows(rows: map<nat, Row>, mailbox: nat, now: int, uploads: seq<Upload>, id: nat)
    requires forall i, j :: 0 <= i < j < |uploads| ==> uploads[i].id != uploads[j].id
    requires forall u :: u in uploads ==> u.id !in rows
    ensures var after := InsertAll(rows, mailbox, now, uploads);
            && (id in rows ==> id in after && after[id] == rows[id])
            && (id in after && id !in rows ==>
                  exists u :: u in uploads && u.id == id && after[id] == Row(mailbox, u.key, now, false))
            && (forall u :: u in uploads && u.id == id ==> id in after && after[id] == Row(mailbox, u.key, now, false))
  {
    if uploads != [] {
      InsertedRows(rows, mailbox, now, uploads[..|uploads| - 1], id);
      assert uploads == uploads[..|uploads| - 1] + [uploads[|uploads| - 1]];
    }
  }

  lemma {:induction false} InsertedIds(s: Store, rows: map<nat, Row>, mailbox: nat, now: int, uploads: seq<Upload>, id: nat)
    requires CanInsert(s, rows, uploads) && forall i :: i in rows ==> i in s.inserted
    ensures var after := InsertAll(rows, mailbox, now, uploads);
            && (id in after <==> id in rows || id in Ids(uploads))
            && (id in rows ==> after[id] == rows[id] && id !in Ids(uploads))
            && (id in Ids(uploads) ==> id !in s.inserted && after[id] == Row(mailbox, after[id].key, now, false))
  {
    InsertedRows(rows, mailbox, now, uploads, id);
    if id in Ids(uploads) {
      var u :| u in uploads && u.id == id;
    }
  }

  lemma {:induction false} KeyStaysOut(rows: map<nat, Row>, mailbox: nat, now: int, uploads: seq<Upload>, key: nat)
    requires forall id :: id in rows ==> rows[id].key != key
    requires forall i :: 0 <= i < |uploads| ==> uploads[i].key != key
    ensures forall id :: id in InsertAll(rows, mailbox, now, uploads) ==>
              InsertAll(rows, mailbox, now, uploads)[id].key != key
  {
    if uploads != [] {
      KeyStaysOut(rows, mailbox, now, uploads[..|uploads| - 1], key);
    }
  }

  lemma {:induction false} InsertedKeys(s: Store, rows: map<nat, Row>, mailbox: nat, now: int, uploads: seq<Upload>)
    requires CanInsert(s, rows, uploads) && NoKeyTwice(rows)
    ensures NoKeyTwice(InsertAll(rows, mailbox, now, uploads))
  {
    if uploads != [] {
      var n := |uploads| - 1;
      assert uploads[n] in uploads && forall u :: u in uploads[..n] ==> u in uploads;
      InsertedKeys(s, rows, mailbox, now, uploads[..n]);
      KeyStaysOut(rows, mailbox, now, uploads[..n], uploads[n].key);
    }
  }

  // Each kind of step

  lemma DeletedOk(s: Store, gone: set<nat>)
    requires Invariant(s) && forall id :: id in gone ==> id !in s.locks
    ensures Invariant(Deleted(s, gone))
  {
    var t := Deleted(s, gone);
    forall id | id in t.inserted ensures OneFate(t, id) {
      assert OneFate(s, id);
    }
  }

  lemma ConsumedOk(s: Store, id: nat)
    requires Invariant(s) && id in s.locks
    ensures Invariant(Consumed(s, id))
  {
    var t := Consumed(s, id);
    assert OneFate(s, id);
    forall i | i in t.inserted ensures OneFate(t, i) {
      assert OneFate(s, i);
    }
  }

  lemma PublishedLocks(s: Store, tx: nat, expires: int, now: int, uploads: seq<Upload>)
    requires Invariant(s) && Allowed(s, CommitPublish(tx, expires, now, uploads))
    ensures LocksOk(Published(s, tx, expires, now, uploads))
  {
    var t, rest := Published(s, tx, expires, now, uploads), s.rows - LockedBy(s, Publishing(tx));
    forall id | id in t.locks ensures id in t.rows && t.rows[id] == s.rows[id] {
      InsertedIds(s, rest, s.publishing[tx], now, uploads, id);
    }
  }

  lemma PublishedFates(s: Store, tx: nat, expires: int, now: int, uploads: seq<Upload>)
    requires Invariant(s) && Allowed(s, CommitPublish(tx, expires, now, uploads))
    ensures FatesOk(Published(s, tx, expires, now, uploads))
  {
    var t, rest := Published(s, tx, expires, now, uploads), s.rows - LockedBy(s, Publishing(tx));
    forall id ensures FateAfter(t, id) {
      InsertedIds(s, rest, s.publishing[tx], now, uploads, id);
      assert id in s.inserted ==> OneFate(s, id);
    }
    FatesFromEach(t);
  }

  lemma FatesFromEach(t: Store)
    requires forall id :: FateAfter(t, id)
    ensures FatesOk(t)
  {
    forall id | id in t.inserted ensures OneFate(t, id) {
      assert FateAfter(t, id);
    }
    forall id | id in t.rows ensures id in t.inserted && (t.rows[id].consumed ==> id in t.handed) {
      assert FateAfter(t, id);
    }
    forall id | id in t.handed ensures id in t.inserted {
      assert FateAfter(t, id);
    }
    forall id | id in t.discarded ensures id in t.inserted && id !in t.rows {
      assert FateAfter(t, id);
    }
  }

  ghost predicate FateAfter(t: Store, id: nat) {
    && (id in t.inserted ==> OneFate(t, id))
    && (id in t.rows ==> id in t.inserted && (t.rows[id].consumed ==> id in t.handed))
    && (id in t.handed ==> id in t.inserted)
    && (id in t.discarded ==> id in t.inserted && id !in t.rows)
  }

  lemma PublishedBatch(s: Store, tx: nat, expires: int, now: int, uploads: seq<Upload>)
    requires Invariant(s) && Allowed(s, CommitPublish(tx, expires, now, uploads))
    ensures OneBatch(Published(s, tx, expires, now, uploads))
  {
    var mailbox := s.publishing[tx];
    var t, rest := Published(s, tx, expires, now, uploads), s.rows - LockedBy(s, Publishing(tx));
    forall id | id in t.rows && !t.rows[id].consumed
      ensures if id in rest then t.rows[id] == s.rows[id] && t.rows[id].mailbox != mailbox
              else t.rows[id].mailbox == mailbox && t.rows[id].created == now {
      InsertedIds(s, rest, mailbox, now, uploads, id);
      if id in rest {
        assert !Unconsumed(s.rows, mailbox, id);
      }
    }
  }

  lemma PublishedOk(s: Store, tx: nat, expires: int, now: int, uploads: seq<Upload>)
    requires Invariant(s) && Allowed(s, CommitPublish(tx, expires, now, uploads))
    ensures Invariant(Published(s, tx, expires, now, uploads))
  {
    PublishedLocks(s, tx, expires, now, uploads);
    PublishedFates(s, tx, expires, now, uploads);
    PublishedBatch(s, tx, expires, now, uploads);
    InsertedKeys(s, s.rows - LockedBy(s, Publishing(tx)), s.publishing[tx], now, uploads);
    hide LocksOk, FatesOk, OneBatch, InsertAll;
  }

  lemma LocksOnlyOk(s: Store, e: Event)
    requires Invariant(s) && Allowed(s, e)
    requires e.Claim? || e.AbortFetch? || e.StartPublish? || e.LockRow? || e.AbortPublish? || e.CleanBundle?
    ensures Invariant(Next(s, e))
  {
    LocksOnlyLocks(s, e);
    hide LocksOk, FatesOk, OneBatch, NoKeyTwice, HandedOnce, Allowed;
    SameRows(s, Next(s, e));
  }

  lemma LocksOnlyLocks(s: Store, e: Event)
    requires Invariant(s) && Allowed(s, e)
    requires e.Claim? || e.AbortFetch? || e.StartPublish? || e.LockRow? || e.AbortPublish? || e.CleanBundle?
    ensures LocksOk(Next(s, e))
    ensures var t := Next(s, e);
            t.rows == s.rows && t.handed == s.handed && t.inserted == s.inserted && t.discarded == s.discarded
  {
    hide FatesOk, OneBatch, NoKeyTwice, HandedOnce;
  }

  lemma SameRows(s: Store, t: Store)
    requires t.rows == s.rows && t.handed == s.handed && t.inserted == s.inserted && t.discarded == s.discarded
    ensures OneBatch(t) <==> OneBatch(s)
    ensures HandedOnce(t) <==> HandedOnce(s)
    ensures FatesOk(t) <==> FatesOk(s)
  {
    assert forall id :: OneFate(t, id) <==> OneFate(s, id);
  }

  lemma NextKeepsInvariant(s: Store, e: Event)
    requires Invariant(s) && Allowed(s, e)
    ensures Invariant(Next(s, e))
  {
    match e
    case CommitFetch(tx, id) => ConsumedOk(s, id);
    case CommitPublish(tx, expires, now, uploads) => PublishedOk(s, tx, expires, now, uploads);
    case CleanRow(id, _) => DeletedOk(s, {id});
    case DropMailbox(mailbox) =>
      DroppedBundle(s, mailbox);
      DeletedOk(s.(bundles := s.bundles - {mailbox}), RowsOf(s, mailbox));
    case _ => LocksOnlyOk(s, e);
  }

  lemma DroppedBundle(s: Store, mailbox: nat)
    requires Invariant(s)
    ensures Invariant(s.(bundles := s.bundles - {mailbox}))
  {
    SameRows(s, s.(bundles := s.bundles - {mailbox}));
  }

  // Runs

  ghost predicate IsRun(s: Store, events: seq<Event>)
    decreases |events|
  {
    events == [] || (Allowed(s, events[0]) && IsRun(Next(s, events[0]), events[1..]))
  }

  ghost function Run(s: Store, events: seq<Event>): Store
    requires IsRun(s, events)
    decreases |events|
  {
    if events == [] then s else Run(Next(s, events[0]), events[1..])
  }

  lemma {:induction false} RunKeepsInvariant(s: Store, events: seq<Event>)
    requires Invariant(s) && IsRun(s, events)
    ensures Invariant(Run(s, events))
    decreases |events|
  {
    hide Invariant, Allowed, Next;
    if events != [] {
      NextKeepsInvariant(s, events[0]);
      RunKeepsInvariant(Next(s, events[0]), events[1..]);
    }
  }

  /**
    Over every interleaving: each row is handed out at most once, and each row ever inserted
    is in exactly one of three places: available, handed out, discarded.
   */
  lemma EachRowHasOneFate(events: seq<Event>)
    requires IsRun(EMPTY, events)
    ensures var t := Run(EMPTY, events);
            && (forall i, j :: 0 <= i < j < |t.handed| ==> t.handed[i] != t.handed[j])
            && (forall id :: id in t.inserted ==> OneFate(t, id))
  {
    assert Invariant(EMPTY);
    RunKeepsInvariant(EMPTY, events);
    hide Run, IsRun;
  }

  /** A row handed out or discarded stays so, whatever happens next. */
  lemma {:induction false} FatesAreFinal(s: Store, events: seq<Event>, id: nat)
    requires Invariant(s) && IsRun(s, events)
    ensures id in s.handed ==> id in Run(s, events).handed
    ensures id in s.discarded ==> id in Run(s, events).discarded
    decreases |events|
  {
    if events != [] {
      NextKeepsInvariant(s, events[0]);
      OneStepKeepsFate(s, events[0], id);
      hide Allowed, Next, Invariant;
      FatesAreFinal(Next(s, events[0]), events[1..], id);
    }
  }

  lemma OneStepKeepsFate(s: Store, e: Event, id: nat)
    requires Allowed(s, e)
    ensures id in s.handed ==> id in Next(s, e).handed
    ensures id in s.discarded ==> id in Next(s, e).discarded
  {
    hide InsertAll;
  }

  /**
    Only a publish for the mailbox, an inactive bundle, or the mailbox's removal discards an
    available row: fetching never loses one.
   */
  lemma WhatDiscards(s: Store, e: Event, id: nat)
    requires Invariant(s) && Allowed(s, e) && Available(s, id)
    ensures Available(Next(s, e), id)
            || (e.CommitFetch? && e.id == id && id in Next(s, e).handed)
            || (e.CommitPublish? && s.publishing[e.tx] == s.rows[id].mailbox)
            || (e.CleanRow? && e.id == id && !Active(s, s.rows[id].mailbox, e.now))
            || (e.DropMailbox? && e.mailbox == s.rows[id].mailbox)
  {
    hide FatesOk, OneBatch, HandedOnce, InsertAll;
    if e.CommitPublish? {
      var rest := s.rows - LockedBy(s, Publishing(e.tx));
      assert forall i :: i in rest ==> i in s.inserted by {
        RowsAreInserted(s);
      }
      InsertedIds(s, rest, s.publishing[e.tx], e.now, e.uploads, id);
    }
  }

  lemma RowsAreInserted(s: Store)
    requires FatesOk(s)
    ensures forall i :: i in s.rows ==> i in s.inserted
  {
  }

  /** One key is published, fetched, and its row handed out. */
  function Cycle(publisher: nat, fetcher: nat, id: nat, key: nat, now: int): seq<Event> {
    [StartPublish(publisher, 7), CommitPublish(publisher, now + 100, now, [Upload(id, key)]),
     Claim(fetcher, 7, Some(id), now), CommitFetch(fetcher, id)]
  }

  /** It is rows that are handed out once, not keys: after cleanup a key can be published again. */
  lemma KeysCanReturn()
    ensures var events := Cycle(1, 2, 10, 99, 0) + [CleanRow(10, 2)] + Cycle(3, 4, 11, 99, 3);
            IsRun(EMPTY, events) && Run(EMPTY, events).handed == [10, 11]
  {
    var s := RunCycle(EMPTY, 1, 2, 10, 99, 0);
    var t := RunClean(s, 10, 2);
    var u := RunCycle(t, 3, 4, 11, 99, 3);
    assert u.handed == [10, 11];
    hide *;
    var a, b, c := Cycle(1, 2, 10, 99, 0), [CleanRow(10, 2)], Cycle(3, 4, 11, 99, 3);
    RunsOn(EMPTY, a, b);
    RunsOn(EMPTY, a + b, c);
  }

  lemma RunClean(s: Store, id: nat, now: int) returns (t: Store)
    requires id in s.rows && id !in s.locks && s.rows[id].consumed
    ensures IsRun(s, [CleanRow(id, now)]) && Run(s, [CleanRow(id, now)]) == t
    ensures t == s.(rows := s.rows - {id})
  {
    t := Deleted(s, {id});
    assert t.discarded == s.discarded;
    assert Allowed(s, CleanRow(id, now)) && Next(s, CleanRow(id, now)) == t;
    hide Allowed, Next;
    RunsTo([CleanRow(id, now)], [s, t], 0);
  }

  lemma RunCycle(s: Store, publisher: nat, fetcher: nat, id: nat, key: nat, now: int) returns (t: Store)
    requires s.rows == map[] && s.locks == map[] && s.publishing == map[] && id !in s.inserted
    ensures IsRun(s, Cycle(publisher, fetcher, id, key, now)) && Run(s, Cycle(publisher, fetcher, id, key, now)) == t
    ensures t == s.(rows := map[id := Row(7, key, now, true)], bundles := s.bundles[7 := now + 100],
                    inserted := s.inserted + {id}, handed := s.handed + [id])
  {
    var s1 := s.(publishing := map[publisher := 7]);
    var s2 := s.(rows := map[id := Row(7, key, now, false)], bundles := s.bundles[7 := now + 100],
                 inserted := s.inserted + {id});
    var s3 := s2.(locks := map[id := Fetching(fetcher)]);
    t := s2.(rows := map[id := Row(7, key, now, true)], handed := s.handed + [id]);
    StepStart(s, publisher);
    hide Allowed, Next;
    StepPublish(s1, publisher, now, Upload(id, key), s2);
    StepFetch(s2, fetcher, id, now, t);
    RunsTo(Cycle(publisher, fetcher, id, key, now), [s, s1, s2, s3, t], 0);
  }

  lemma StepStart(s: Store, tx: nat)
    requires s.publishing == map[]
    ensures Allowed(s, StartPublish(tx, 7)) && Next(s, StartPublish(tx, 7)) == s.(publishing := map[tx := 7])
  {
  }

  lemma StepPublish(s: Store, tx: nat, now: int, upload: Upload, t: Store)
    requires s.rows == map[] && s.locks == map[] && s.publishing == map[tx := 7] && upload.id !in s.inserted
    requires t == Store(map[upload.id := Row(7, upload.key, now, false)], s.bundles[7 := now + 100], map[], map[],
                        s.inserted + {upload.id}, s.handed, s.discarded)
    ensures var e := CommitPublish(tx, now + 100, now, [upload]);
            Allowed(s, e) && Next(s, e) == t
  {
    assert [upload][..0] == [];
    assert LockedBy(s, Publishing(tx)) == {};
    assert s.rows - {} == s.rows && s.publishing - {tx} == map[];
    assert Ids([upload]) == {upload.id} by {
      assert upload in [upload];
    }
    assert InsertAll(s.rows, 7, now, [upload]) == map[upload.id := Row(7, upload.key, now, false)];
  }

  lemma StepFetch(s: Store, tx: nat, id: nat, now: int, t: Store)
    requires id in s.rows && s.rows == map[id := Row(7, s.rows[id].key, s.rows[id].created, false)]
    requires s.locks == map[] && Active(s, 7, now)
    requires t == s.(rows := map[id := s.rows[id].(consumed := true)], handed := s.handed + [id])
    ensures Allowed(s, Claim(tx, 7, Some(id), now))
    ensures var u := s.(locks := map[id := Fetching(tx)]);
            && Next(s, Claim(tx, 7, Some(id), now)) == u
            && Allowed(u, CommitFetch(tx, id)) && Next(u, CommitFetch(tx, id)) == t
  {
    assert map[id := Fetching(tx)] - {id} == map[];
  }

  lemma {:induction false} RunsTo(events: seq<Event>, states: seq<Store>, from: nat)
    requires |states| == |events| + 1 && from <= |events|
    requires forall i :: from <= i < |events| ==> Allowed(states[i], events[i]) && Next(states[i], events[i]) == states[i + 1]
    ensures IsRun(states[from], events[from..])
    ensures Run(states[from], events[from..]) == states[|events|]
    decreases |events| - from
  {
    if from < |events| {
      RunsTo(events, states, from + 1);
      assert events[from..][1..] == events[from + 1..];
    }
  }

  lemma {:induction false} RunsOn(s: Store, a: seq<Event>, b: seq<Event>)
    requires IsRun(s, a) && IsRun(Run(s, a), b)
    ensures IsRun(s, a + b) && Run(s, a + b) == Run(Run(s, a), b)
    decreases |a|
  {
    if a == [] {
      assert a + b == b;
    } else {
      assert (a + b)[1..] == a[1..] + b;
      RunsOn(Next(s, a[0]), a[1..], b);
    }
  }

  // The tables

  datatype Fetched = NoActiveBundle | Fetched(oneTime: Option<nat>)

  /** While there are candidates there is an oldest. */
  lemma {:induction false} OldestExists(rows: map<nat, Row>, locks: map<nat, Holder>, mailbox: nat, among: set<nat>)
    returns (id: nat)
    requires among != {} && forall i :: i in among ==> Candidate(rows, locks, mailbox, i)
    ensures id in among && id in rows && forall i :: i in among ==> i in rows && rows[id].created <= rows[i].created
    decreases |among|
  {
    id :| id in among;
    if among != {id} {
      var best := OldestExists(rows, locks, mailbox, among - {id});
      if rows[best].created < rows[id].created {
        id := best;
      }
    }
  }

  lemma SomeOldest(rows: map<nat, Row>, locks: map<nat, Holder>, mailbox: nat)
    ensures (exists id :: id in rows && Candidate(rows, locks, mailbox, id))
            ==> (exists id :: id in rows && Oldest(rows, locks, mailbox, id))
  {
    if any :| any in rows && Candidate(rows, locks, mailbox, any) {
      var candidates := set i | i in rows && Candidate(rows, locks, mailbox, i);
      assert any in candidates;
      var oldest := OldestExists(rows, locks, mailbox, candidates);
      assert forall i :: i in rows && Candidate(rows, locks, mailbox, i) ==> i in candidates;
      assert Oldest(rows, locks, mailbox, oldest);
    }
  }

  class PrekeyTables {
    var rows: map<nat, Row>
    var bundles: map<nat, int>
    var locks: map<nat, Holder>
    var publishing: map<nat, nat>
    ghost var inserted: set<nat>
    ghost var handed: seq<nat>
    ghost var discarded: set<nat>

    ghost function Value(): Store
      reads this
    {
      Store(rows, bundles, locks, publishing, inserted, handed, discarded)
    }

    constructor ()
      ensures Value() == EMPTY
    {
      rows, bundles, locks, publishing := map[], map[], map[], map[];
      inserted, handed, discarded := {}, [], {};
    }

    /** The two statements of fetch_prekey_bundle before its commit. */
    method Fetch(tx: nat, mailbox: nat, now: int) returns (r: Fetched)
      modifies this
      ensures r.NoActiveBundle? <==> mailbox !in bundles || bundles[mailbox] <= now
      ensures rows == old(rows) && bundles == old(bundles) && publishing == old(publishing)
      ensures r.Fetched? && r.oneTime.Some? ==>
                && var id := r.oneTime.value;
                   && Fresh(old(Value()), mailbox, id) && id !in old(locks)
                   && locks == old(locks)[id := Holder.Fetching(tx)]
                   && forall other :: other in rows && Fresh(old(Value()), mailbox, other) && other !in old(locks) ==>
                        rows[id].created <= rows[other].created
      ensures r.Fetched? && r.oneTime.None? ==>
                && locks == old(locks)
                && forall other :: other in rows && Fresh(old(Value()), mailbox, other) ==> other in locks
      ensures r.NoActiveBundle? ==> Value() == old(Value())
      ensures r.Fetched? ==>
                && Allowed(old(Value()), Claim(tx, mailbox, r.oneTime, now))
                && Value() == Next(old(Value()), Claim(tx, mailbox, r.oneTime, now))
    {
      hide Candidate, Oldest;
      if mailbox !in bundles || bundles[mailbox] <= now {
        return NoActiveBundle;
      }
      if id :| id in rows && Oldest(rows, locks, mailbox, id) {
        ClaimWrites(Value(), tx, mailbox, Some(id), now);
        locks := locks[id := Holder.Fetching(tx)];
        return Fetched.Fetched(Some(id));
      } else {
        SomeOldest(rows, locks, mailbox);
        ClaimWrites(Value(), tx, mailbox, None, now);
        return Fetched.Fetched(None);
      }
    }

    method CommitFetch(tx: nat, id: nat) returns (key: nat)
      requires Allowed(Value(), Event.CommitFetch(tx, id))
      modifies this
      ensures Value() == Next(old(Value()), Event.CommitFetch(tx, id)) && key == old(rows)[id].key
      ensures rows == old(rows)[id := old(rows)[id].(consumed := true)] && locks == old(locks) - {id}
      ensures bundles == old(bundles) && publishing == old(publishing) && handed == old(handed) + [id]
    {
      key := rows[id].key;
      rows := rows[id := rows[id].(consumed := true)];
      locks := locks - {id};
      handed := handed + [id];
    }

    /** The delete, the inserts, and the commit; a key already stored undoes it all. */
    method CommitPublish(tx: nat, expires: int, now: int, uploads: seq<Upload>) returns (ok: bool)
      requires Invariant(Value()) && tx in publishing && AllLocked(Value(), tx, publishing[tx])
      requires NewIds(inserted, uploads)
      modifies this
      ensures ok <==> CanInsert(old(Value()), old(rows) - LockedBy(old(Value()), Holder.Publishing(tx)), uploads)
      ensures Value() == if ok then Published(old(Value()), tx, expires, now, uploads) else Aborted(old(Value()), tx)
      ensures ok ==>
                && bundles == old(bundles)[old(publishing)[tx] := expires]
                && Replaces(old(Value()), rows, old(publishing)[tx], now, uploads)
      ensures !ok ==> rows == old(rows) && bundles == old(bundles)
      ensures tx !in publishing && forall id :: id in locks <==> id in old(locks) && old(locks)[id] != Holder.Publishing(tx)
    {
      var mailbox := publishing[tx];
      var gone := set id | id in locks && locks[id] == Holder.Publishing(tx);
      assert gone == LockedBy(Value(), Publishing(tx));
      var staged;
      RowsAreInserted(Value());
      ok, staged := InsertRows(Value(), rows - gone, mailbox, now, uploads);
      hide Invariant, InsertAll, AllLocked, CanInsert, Replaces, Ids;
      if ok {
        PublishWrites(Value(), tx, expires, now, uploads);
        rows, bundles := staged, bundles[mailbox := expires];
        inserted, discarded := inserted + Ids(uploads), discarded + gone;
      }
      locks, publishing := locks - gone, publishing - {tx};
    }

    method CleanRow(id: nat, now: int)
      requires Allowed(Value(), Event.CleanRow(id, now))
      modifies this
      ensures Value() == Next(old(Value()), Event.CleanRow(id, now))
      ensures rows == old(rows) - {id} && bundles == old(bundles) && locks == old(locks)
      ensures discarded == if old(rows)[id].consumed then old(discarded) else old(discarded) + {id}
    {
      if !rows[id].consumed {
        discarded := discarded + {id};
      }
      rows := rows - {id};
      assert Value().discarded == Next(old(Value()), Event.CleanRow(id, now)).discarded;
    }
  }

  /** Row identifiers are drawn afresh. */
  ghost predicate NewIds(inserted: set<nat>, uploads: seq<Upload>) {
    && (forall u :: u in uploads ==> u.id !in inserted)
    && (forall i, j :: 0 <= i < j < |uploads| ==> uploads[i].id != uploads[j].id)
  }

  /** The loop of inserts, which stops at a public key already stored. */
  method InsertRows(ghost s: Store, rest: map<nat, Row>, mailbox: nat, now: int, uploads: seq<Upload>)
    returns (ok: bool, staged: map<nat, Row>)
    requires NewIds(s.inserted, uploads) && forall id :: id in rest ==> id in s.inserted
    ensures ok <==> CanInsert(s, rest, uploads)
    ensures ok ==> staged == InsertAll(rest, mailbox, now, uploads)
  {
    staged := rest;
    var i := 0;
    assert CanInsert(s, rest, uploads[..0]) && InsertAll(rest, mailbox, now, uploads[..0]) == rest;
    hide CanInsert, InsertAll;
    while i < |uploads|
      invariant 0 <= i <= |uploads|
      invariant staged == InsertAll(rest, mailbox, now, uploads[..i])
      invariant CanInsert(s, rest, uploads[..i])
    {
      var u := uploads[i];
      if id :| id in staged && staged[id].key == u.key {
        TakenKeyRefused(s, rest, mailbox, now, uploads, i, id);
        return false, staged;
      }
      StageOne(s, rest, mailbox, now, uploads, i);
      staged := staged[u.id := Row(mailbox, u.key, now, false)];
      i := i + 1;
    }
    assert uploads[..i] == uploads;
    ok := true;
  }

  lemma StageOne(s: Store, rest: map<nat, Row>, mailbox: nat, now: int, uploads: seq<Upload>, i: nat)
    requires i < |uploads| && NewIds(s.inserted, uploads) && forall id :: id in rest ==> id in s.inserted
    requires CanInsert(s, rest, uploads[..i])
    requires var staged := InsertAll(rest, mailbox, now, uploads[..i]);
             forall id :: id in staged ==> staged[id].key != uploads[i].key
    ensures CanInsert(s, rest, uploads[..i + 1])
    ensures InsertAll(rest, mailbox, now, uploads[..i + 1])
            == InsertAll(rest, mailbox, now, uploads[..i])[uploads[i].id := Row(mailbox, uploads[i].key, now, false)]
  {
    var done := uploads[..i];
    assert uploads[..i + 1] == done + [uploads[i]] && uploads[..i + 1][..i] == done;
    assert uploads[i] in uploads;
    KeyIsFree(s, rest, mailbox, now, done, uploads[i]);
  }

  /** A key found among the staged rows is one the insert would repeat. */
  lemma TakenKeyRefused(
    s: Store, rest: map<nat, Row>, mailbox: nat, now: int, uploads: seq<Upload>, i: nat, id: nat)
    requires i < |uploads|
    requires id in InsertAll(rest, mailbox, now, uploads[..i])
    requires InsertAll(rest, mailbox, now, uploads[..i])[id].key == uploads[i].key
    ensures !CanInsert(s, rest, uploads)
  {
    if CanInsert(s, rest, uploads) {
      assert uploads[i] in uploads;
      KeyStaysOut(rest, mailbox, now, uploads[..i], uploads[i].key);
    }
  }

  lemma KeyIsFree(s: Store, rest: map<nat, Row>, mailbox: nat, now: int, done: seq<Upload>, u: Upload)
    requires CanInsert(s, rest, done) && u.id !in s.inserted
    requires forall d :: d in done ==> d.id != u.id
    requires forall id :: id in InsertAll(rest, mailbox, now, done) ==> InsertAll(rest, mailbox, now, done)[id].key != u.key
    requires forall id :: id in rest ==> id in s.inserted
    ensures CanInsert(s, rest, done + [u])
  {
    forall id | id in rest ensures rest[id].key != u.key {
      InsertedIds(s, rest, mailbox, now, done, id);
    }
    forall d | d in done ensures d.key != u.key {
      InsertedRows(rest, mailbox, now, done, d.id);
    }
  }
}

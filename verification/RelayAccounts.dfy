/**
  Account ownership at the relay. A step is one SQL statement, or the reading part of a
  handler whose writing part comes later; handlers interleave freely.
 */
module RelayAccounts {
  import opened Primitives

  datatype Role = Admin | User

  datatype Status = Provisioned | Active | Disabled

  datatype Account = Account(role: Role, status: Status, owner: Option<nat>)

  /**
    The tables relay_mailboxes and relay_accounts; every mailbox identifier ever stored; the
    mailboxes that have passed the admin check; the mailboxes being provisioned, with the admin;
    and the handlers between their statements, each with the mailbox it bootstraps or resets.
   */
  datatype State = State(
    mailboxes: set<nat>,
    accounts: map<nat, Account>,
    used: set<nat>,
    authenticated: set<nat>,
    provisioning: map<nat, nat>,
    bootstrapping: map<nat, nat>,
    resetting: map<nat, nat>)

  const EMPTY := State({}, map[], {}, {}, map[], map[], map[])

  datatype Event =
    | Authenticate(admin: nat)
    | ProvisionMailbox(mailbox: nat, admin: nat)
    | ProvisionAccount(mailbox: nat)
    | CreateMailbox(mailbox: nat)
    | UpsertProfile(mailbox: nat)
    | BootstrapCheck(handler: nat, mailbox: nat)
    | BootstrapUpsert(handler: nat)
    | SetStatus(admin: nat, mailbox: nat, status: Status)
    | ResetCheck(handler: nat, admin: nat, mailbox: nat)
    | ResetAccount(handler: nat)
    | Abandon(handler: nat)
    | Delete(admin: nat, mailbox: nat)

  predicate IsAdmin(accounts: map<nat, Account>, id: nat) {
    id in accounts && accounts[id].role == Admin
  }

  /** The WHERE clause of the handlers for managed users. */
  predicate Manages(accounts: map<nat, Account>, admin: nat, mailbox: nat) {
    mailbox in accounts && accounts[mailbox].owner == Some(admin) && accounts[mailbox].role == User
  }

  predicate IsManaged(accounts: map<nat, Account>, mailbox: nat) {
    mailbox in accounts && accounts[mailbox].role == User && accounts[mailbox].owner.Some?
  }

  /**
    What can happen. Nobody presents the token of a mailbox that is being provisioned: it is
    drawn at random and told to the admin only when both its rows are stored, and the
    identifier is drawn afresh.
   */
  predicate Allowed(s: State, e: Event) {
    match e
    case Authenticate(admin) => IsAdmin(s.accounts, admin) && s.accounts[admin].status == Active
    case ProvisionMailbox(mailbox, admin) => admin in s.authenticated && mailbox !in s.used
    case ProvisionAccount(mailbox) =>
      && mailbox in s.provisioning
      && mailbox in s.mailboxes && mailbox !in s.accounts && s.provisioning[mailbox] in s.accounts
    case CreateMailbox(mailbox) => mailbox !in s.mailboxes
    case UpsertProfile(mailbox) => mailbox in s.mailboxes && mailbox !in s.provisioning
    case BootstrapCheck(handler, mailbox) =>
      && handler !in s.bootstrapping
      && mailbox in s.mailboxes && mailbox !in s.provisioning && !IsManaged(s.accounts, mailbox)
    case BootstrapUpsert(handler) => handler in s.bootstrapping && s.bootstrapping[handler] in s.mailboxes
    case SetStatus(admin, mailbox, _) => admin in s.authenticated && Manages(s.accounts, admin, mailbox)
    case ResetCheck(handler, admin, mailbox) =>
      handler !in s.resetting && admin in s.authenticated && Manages(s.accounts, admin, mailbox)
    case ResetAccount(handler) => handler in s.resetting && s.resetting[handler] in s.accounts
    // a statement fails, or the handler does not get that far
    case Abandon(handler) => handler in s.bootstrapping || handler in s.resetting
    case Delete(admin, mailbox) => admin in s.authenticated && Manages(s.accounts, admin, mailbox)
  }

  function Upserted(accounts: map<nat, Account>, mailbox: nat): map<nat, Account> {
    accounts[mailbox :=
      if mailbox in accounts then accounts[mailbox].(status := Active) else Account(User, Active, None)]
  }

  function WithStatus(accounts: map<nat, Account>, mailbox: nat, status: Status): map<nat, Account>
    requires mailbox in accounts
  {
    accounts[mailbox := accounts[mailbox].(status := status)]
  }

  /** The row is gone, and owners that pointed at it are set to null. */
  function Without(accounts: map<nat, Account>, mailbox: nat): map<nat, Account> {
    map id | id in accounts && id != mailbox ::
      if accounts[id].owner == Some(mailbox) then accounts[id].(owner := None) else accounts[id]
  }

  function Next(s: State, e: Event): State
    requires Allowed(s, e)
  {
    match e
    case Authenticate(admin) => s.(authenticated := s.authenticated + {admin})
    case ProvisionMailbox(mailbox, admin) =>
      s.(mailboxes := s.mailboxes + {mailbox}, used := s.used + {mailbox},
         provisioning := s.provisioning[mailbox := admin])
    case ProvisionAccount(mailbox) =>
      s.(accounts := s.accounts[mailbox := Account(User, Provisioned, Some(s.provisioning[mailbox]))],
         provisioning := s.provisioning - {mailbox})
    case CreateMailbox(mailbox) => s.(mailboxes := s.mailboxes + {mailbox}, used := s.used + {mailbox})
    case UpsertProfile(mailbox) => s.(accounts := Upserted(s.accounts, mailbox))
    case BootstrapCheck(handler, mailbox) => s.(bootstrapping := s.bootstrapping[handler := mailbox])
    case BootstrapUpsert(handler) =>
      s.(accounts := s.accounts[s.bootstrapping[handler] := Account(Admin, Active, None)],
         bootstrapping := s.bootstrapping - {handler})
    case SetStatus(_, mailbox, status) => s.(accounts := WithStatus(s.accounts, mailbox, status))
    case ResetCheck(handler, _, mailbox) => s.(resetting := s.resetting[handler := mailbox])
    case ResetAccount(handler) =>
      s.(accounts := WithStatus(s.accounts, s.resetting[handler], Provisioned), resetting := s.resetting - {handler})
    case Abandon(handler) => s.(bootstrapping := s.bootstrapping - {handler}, resetting := s.resetting - {handler})
    case Delete(_, mailbox) =>
      s.(mailboxes := s.mailboxes - {mailbox}, accounts := Without(s.accounts, mailbox))
  }

  // The rows a step leaves

  /** The account a step writes or deletes, if there is one. */
  function Written(s: State, e: Event): Option<nat>
    requires Allowed(s, e)
  {
    match e
    case ProvisionAccount(mailbox) => Some(mailbox)
    case UpsertProfile(mailbox) => Some(mailbox)
    case BootstrapUpsert(handler) => Some(s.bootstrapping[handler])
    case SetStatus(_, mailbox, _) => Some(mailbox)
    case ResetAccount(handler) => Some(s.resetting[handler])
    case Delete(_, mailbox) => Some(mailbox)
    case _ => None
  }

  /** The row it leaves there, column by column; None if it deletes it. */
  lemma WrittenRow(s: State, e: Event)
    requires Allowed(s, e) && Written(s, e).Some?
    ensures var id, after := Written(s, e).value, Next(s, e).accounts;
            match e
            case ProvisionAccount(_) =>
              id in s.provisioning && after == s.accounts[id := Account(User, Provisioned, Some(s.provisioning[id]))]
            case UpsertProfile(_) =>
              if id in s.accounts then after == s.accounts[id := Account(s.accounts[id].role, Active, s.accounts[id].owner)]
              else after == s.accounts[id := Account(User, Active, None)]
            case BootstrapUpsert(_) => after == s.accounts[id := Account(Admin, Active, None)]
            case SetStatus(admin, _, status) =>
              id in s.accounts && after == s.accounts[id := Account(User, status, Some(admin))]
            case ResetAccount(_) =>
              id in s.accounts && after == s.accounts[id := Account(s.accounts[id].role, Provisioned, s.accounts[id].owner)]
            case _ => id !in after
  {
  }

  /** Every other row stays, but for owners that point at a deleted account. */
  lemma OtherRows(s: State, e: Event, id: nat)
    requires Allowed(s, e) && Written(s, e) != Some(id)
    ensures var after := Next(s, e).accounts;
            && (id in after <==> id in s.accounts)
            && (id in after ==>
                  && after[id].role == s.accounts[id].role && after[id].status == s.accounts[id].status
                  && after[id].owner == if e.Delete? && s.accounts[id].owner == Some(e.mailbox) then None
                                        else s.accounts[id].owner)
  {
  }

  /** The WHERE clauses, and the checks that stand before a statement. */
  lemma AdmittedWhen(s: State, e: Event)
    ensures match e
            case Authenticate(admin) =>
              Allowed(s, e) <==> admin in s.accounts && s.accounts[admin].role == Admin && s.accounts[admin].status == Active
            case SetStatus(admin, mailbox, _) =>
              Allowed(s, e) <==> admin in s.authenticated && mailbox in s.accounts
                                 && s.accounts[mailbox].owner == Some(admin) && s.accounts[mailbox].role == User
            case ResetCheck(handler, admin, mailbox) =>
              Allowed(s, e) <==> handler !in s.resetting && admin in s.authenticated && mailbox in s.accounts
                                 && s.accounts[mailbox].owner == Some(admin) && s.accounts[mailbox].role == User
            case Delete(admin, mailbox) =>
              Allowed(s, e) <==> admin in s.authenticated && mailbox in s.accounts
                                 && s.accounts[mailbox].owner == Some(admin) && s.accounts[mailbox].role == User
            case BootstrapCheck(handler, mailbox) =>
              Allowed(s, e) <==> handler !in s.bootstrapping && mailbox in s.mailboxes && mailbox !in s.provisioning
                                 && !(mailbox in s.accounts && s.accounts[mailbox].role == User && s.accounts[mailbox].owner.Some?)
            case ResetAccount(handler) => Allowed(s, e) <==> handler in s.resetting && s.resetting[handler] in s.accounts
            case _ => true
  {
  }

  /** The mailboxes and the handlers in between, after a step. */
  lemma MailboxesAfter(s: State, e: Event, mailbox: nat)
    requires Allowed(s, e)
    ensures var t := Next(s, e);
            && (mailbox in t.mailboxes <==>
                  || ((e.ProvisionMailbox? || e.CreateMailbox?) && e.mailbox == mailbox)
                  || (mailbox in s.mailboxes && !(e.Delete? && e.mailbox == mailbox)))
            && (e.ResetCheck? ==> t.resetting == s.resetting[e.handler := e.mailbox] && t.accounts == s.accounts)
            && (e.BootstrapCheck? ==> t.bootstrapping == s.bootstrapping[e.handler := e.mailbox] && t.accounts == s.accounts)
            && (e.ProvisionMailbox? ==> t.provisioning == s.provisioning[e.mailbox := e.admin] && t.accounts == s.accounts)
  {
  }

  // The invariant

  /** An account with an owner is a user's, and its owner an active admin without one: depth one. */
  predicate OwnedByAdmin(accounts: map<nat, Account>, id: nat)
    requires id in accounts
  {
    var a := accounts[id];
    a.owner.Some? ==>
      && a.role == User
      && a.owner.value in accounts
      && accounts[a.owner.value] == Account(Admin, Active, None)
  }

  predicate Ownership(accounts: map<nat, Account>) {
    forall id :: id in accounts ==> OwnedByAdmin(accounts, id)
  }

  predicate AdminsStand(accounts: map<nat, Account>) {
    forall id :: id in accounts && accounts[id].role == Admin ==> accounts[id] == Account(Admin, Active, None)
  }

  predicate HandlersOk(s: State) {
    && (forall id :: id in s.accounts ==> id in s.mailboxes)
    && s.mailboxes <= s.used
    && (forall id :: id in s.authenticated ==> IsAdmin(s.accounts, id))
    && (forall id :: id in s.provisioning ==>
          id in s.mailboxes && id !in s.accounts && s.provisioning[id] in s.authenticated)
    && (forall h :: h in s.bootstrapping ==>
          var id := s.bootstrapping[h];
          id in s.mailboxes && id !in s.provisioning && !IsManaged(s.accounts, id))
  }

  predicate Invariant(s: State) {
    Ownership(s.accounts) && AdminsStand(s.accounts) && HandlersOk(s)
  }

  /** The one step that can hurt: the last statement of a reset has no guard but the identifier. */
  predicate HitsAdmin(s: State, e: Event)
    requires Allowed(s, e)
  {
    e.ResetAccount? && IsAdmin(s.accounts, s.resetting[e.handler])
  }

  /**
    A step keeps the invariant exactly if it is not a reset whose update lands on an admin.
   */
  lemma NextKeepsInvariantExactly(s: State, e: Event)
    requires Invariant(s) && Allowed(s, e)
    ensures Invariant(Next(s, e)) <==> !HitsAdmin(s, e)
  {
    var t := Next(s, e);
    if HitsAdmin(s, e) {
      var mailbox := s.resetting[e.handler];
      assert mailbox in t.accounts && t.accounts[mailbox].status == Provisioned;
    } else {
      hide Invariant;
      OwnershipStays(s, e);
      HandlersStay(s, e);
      assert Invariant(t) by {
        InvariantIs(t);
      }
    }
  }

  lemma InvariantIs(s: State)
    ensures Invariant(s) <==> Ownership(s.accounts) && AdminsStand(s.accounts) && HandlersOk(s)
  {
  }

  lemma OwnershipStays(s: State, e: Event)
    requires Invariant(s) && Allowed(s, e) && !HitsAdmin(s, e)
    ensures Ownership(Next(s, e).accounts) && AdminsStand(Next(s, e).accounts)
  {
    var t := Next(s, e);
    forall id | id in t.accounts ensures OwnedByAdmin(t.accounts, id) {
      assert id in s.accounts ==> OwnedByAdmin(s.accounts, id);
    }
  }

  lemma HandlersStay(s: State, e: Event)
    requires Invariant(s) && Allowed(s, e) && !HitsAdmin(s, e)
    ensures HandlersOk(Next(s, e))
  {
    var t := Next(s, e);
    match e
    case Delete(admin, mailbox) => assert OwnedByAdmin(s.accounts, mailbox);
    case _ =>
  }

  /** Admins are never demoted, disabled or deleted, but by such a reset. */
  lemma AdminsStay(s: State, e: Event, id: nat)
    requires Invariant(s) && Allowed(s, e) && IsAdmin(s.accounts, id)
    ensures !HitsAdmin(s, e) ==> IsAdmin(Next(s, e).accounts, id) && Next(s, e).accounts[id].status == Active
    ensures e.ResetAccount? && s.resetting[e.handler] == id ==> Next(s, e).accounts[id].status == Provisioned
  {
  }

  // Runs

  predicate IsRun(s: State, events: seq<Event>)
    decreases |events|
  {
    events == [] || (Allowed(s, events[0]) && IsRun(Next(s, events[0]), events[1..]))
  }

  function Run(s: State, events: seq<Event>): State
    requires IsRun(s, events)
    decreases |events|
  {
    if events == [] then s else Run(Next(s, events[0]), events[1..])
  }

  predicate Sound(accounts: map<nat, Account>) {
    Ownership(accounts) && AdminsStand(accounts)
  }

  /** Ownership is sound now and after every further step. */
  predicate SoundThroughout(s: State, events: seq<Event>)
    requires IsRun(s, events)
    decreases |events|
  {
    Sound(s.accounts) && (events != [] ==> SoundThroughout(Next(s, events[0]), events[1..]))
  }

  /** No reset's update lands on an admin. */
  predicate NeverHitsAdmin(s: State, events: seq<Event>)
    requires IsRun(s, events)
    decreases |events|
  {
    events != [] ==> !HitsAdmin(s, events[0]) && NeverHitsAdmin(Next(s, events[0]), events[1..])
  }

  lemma HitBreaks(s: State, e: Event)
    requires Allowed(s, e) && HitsAdmin(s, e)
    ensures !AdminsStand(Next(s, e).accounts)
  {
    var mailbox := s.resetting[e.handler];
    assert mailbox in Next(s, e).accounts && Next(s, e).accounts[mailbox].status == Provisioned;
  }

  lemma {:induction false} SoundExactlyFrom(s: State, events: seq<Event>)
    requires Invariant(s) && IsRun(s, events)
    ensures SoundThroughout(s, events) <==> NeverHitsAdmin(s, events)
    decreases |events|
  {
    assert Sound(s.accounts);
    hide Invariant, Sound, Allowed, Next, HitsAdmin;
    if events != [] {
      NextKeepsInvariantExactly(s, events[0]);
      if HitsAdmin(s, events[0]) {
        HitBreaks(s, events[0]);
        SoundFails(Next(s, events[0]), events[1..]);
      } else {
        SoundExactlyFrom(Next(s, events[0]), events[1..]);
      }
    }
  }

  lemma SoundFails(s: State, events: seq<Event>)
    requires IsRun(s, events) && !AdminsStand(s.accounts)
    ensures !SoundThroughout(s, events)
  {
  }

  /**
    Over every run, at every moment an owned account is a user's and its owner an active admin
    without owner, and every admin is active, if and only if no reset's update lands on an admin.
   */
  lemma OwnershipHoldsExactly(events: seq<Event>)
    requires IsRun(EMPTY, events)
    ensures SoundThroughout(EMPTY, events) <==> NeverHitsAdmin(EMPTY, events)
  {
    assert Invariant(EMPTY);
    SoundExactlyFrom(EMPTY, events);
  }

  lemma {:induction false} RunKeepsInvariant(s: State, events: seq<Event>)
    requires Invariant(s) && IsRun(s, events) && NeverHitsAdmin(s, events)
    ensures Invariant(Run(s, events))
    decreases |events|
  {
    hide Invariant, Allowed, Next, HitsAdmin;
    if events != [] {
      NextKeepsInvariantExactly(s, events[0]);
      RunKeepsInvariant(Next(s, events[0]), events[1..]);
    }
  }

  /** In every state so reached ownership has depth one. */
  lemma OwnershipHasDepthOne(events: seq<Event>, id: nat)
    requires IsRun(EMPTY, events) && NeverHitsAdmin(EMPTY, events)
    requires id in Run(EMPTY, events).accounts
    ensures OwnedByAdmin(Run(EMPTY, events).accounts, id)
  {
    assert Invariant(EMPTY);
    RunKeepsInvariant(EMPTY, events);
  }

  // A proviso on the other handlers

  /** No mailbox is deleted while a handler that is to reset it is under way. */
  predicate NoDeleteInReset(s: State, events: seq<Event>)
    requires IsRun(s, events)
    decreases |events|
  {
    events != [] ==>
      && (events[0].Delete? ==> forall h :: h in s.resetting ==> s.resetting[h] != events[0].mailbox)
      && NoDeleteInReset(Next(s, events[0]), events[1..])
  }

  /** What is being reset is a managed user. */
  predicate ResetsOk(s: State) {
    forall h :: h in s.resetting ==> IsManaged(s.accounts, s.resetting[h])
  }

  lemma ResetsStayOk(s: State, e: Event)
    requires Invariant(s) && ResetsOk(s) && Allowed(s, e)
    requires e.Delete? ==> forall h :: h in s.resetting ==> s.resetting[h] != e.mailbox
    ensures !HitsAdmin(s, e) && ResetsOk(Next(s, e))
  {
    forall h | h in Next(s, e).resetting ensures IsManaged(Next(s, e).accounts, Next(s, e).resetting[h]) {
      if h in s.resetting {
        assert IsManaged(s.accounts, s.resetting[h]) && OwnedByAdmin(s.accounts, s.resetting[h]);
      }
    }
  }

  lemma {:induction false} NoDeleteNeverHits(s: State, events: seq<Event>)
    requires Invariant(s) && ResetsOk(s) && IsRun(s, events) && NoDeleteInReset(s, events)
    ensures NeverHitsAdmin(s, events)
    decreases |events|
  {
    hide Invariant, ResetsOk, Allowed, Next, HitsAdmin;
    if events != [] {
      ResetsStayOk(s, events[0]);
      NextKeepsInvariantExactly(s, events[0]);
      NoDeleteNeverHits(Next(s, events[0]), events[1..]);
    }
  }

  /** It is enough that no mailbox is deleted under a reset of it. */
  lemma NoDeleteInResetIsEnough(events: seq<Event>)
    requires IsRun(EMPTY, events) && NoDeleteInReset(EMPTY, events)
    ensures SoundThroughout(EMPTY, events)
  {
    assert Invariant(EMPTY) && ResetsOk(EMPTY);
    NoDeleteNeverHits(EMPTY, events);
    OwnershipHoldsExactly(events);
  }

  // The failing run

  function BecomesAdmin(mailbox: nat): seq<Event> {
    [CreateMailbox(mailbox), BootstrapCheck(0, mailbox), BootstrapUpsert(0), Authenticate(mailbox)]
  }

  function Provisions(admin: nat, mailbox: nat): seq<Event> {
    [ProvisionMailbox(mailbox, admin), ProvisionAccount(mailbox)]
  }

  /** `events` can happen from `s`, and lead to `t`. */
  predicate Leads(s: State, events: seq<Event>, t: State) {
    IsRun(s, events) && Run(s, events) == t
  }

  lemma LeadsStep(s: State, e: Event, rest: seq<Event>, t: State)
    requires Allowed(s, e) && Leads(Next(s, e), rest, t)
    ensures Leads(s, [e] + rest, t)
  {
    assert ([e] + rest)[1..] == rest;
  }

  lemma {:induction false} LeadsOn(s: State, a: seq<Event>, t: State, b: seq<Event>, u: State)
    requires Leads(s, a, t) && Leads(t, b, u)
    ensures Leads(s, a + b, u)
    decreases |a|
  {
    if a == [] {
      assert a + b == b;
    } else {
      LeadsOn(Next(s, a[0]), a[1..], t, b, u);
      LeadsStep(s, a[0], a[1..] + b, u);
      assert [a[0]] + (a[1..] + b) == a + b;
    }
  }

  lemma AdminJoins(s: State, mailbox: nat) returns (t: State)
    requires mailbox !in s.mailboxes && mailbox !in s.accounts && mailbox !in s.provisioning && s.bootstrapping == map[]
    ensures Leads(s, BecomesAdmin(mailbox), t)
    ensures t == s.(mailboxes := s.mailboxes + {mailbox}, used := s.used + {mailbox},
                    accounts := s.accounts[mailbox := Account(Admin, Active, None)],
                    authenticated := s.authenticated + {mailbox})
  {
    var s1 := Next(s, CreateMailbox(mailbox));
    var s2 := Next(s1, BootstrapCheck(0, mailbox));
    var s3 := Next(s2, BootstrapUpsert(0));
    t := Next(s3, Authenticate(mailbox));
    assert s3.bootstrapping == s.bootstrapping;
    hide Next;
    LeadsStep(s3, Authenticate(mailbox), [], t);
    LeadsStep(s2, BootstrapUpsert(0), [Authenticate(mailbox)], t);
    LeadsStep(s1, BootstrapCheck(0, mailbox), [BootstrapUpsert(0), Authenticate(mailbox)], t);
    LeadsStep(s, CreateMailbox(mailbox), [BootstrapCheck(0, mailbox), BootstrapUpsert(0), Authenticate(mailbox)], t);
  }

  lemma UserJoins(s: State, admin: nat, mailbox: nat) returns (t: State)
    requires admin in s.authenticated && admin in s.accounts && mailbox !in s.used && mailbox !in s.accounts
    requires mailbox !in s.provisioning
    ensures Leads(s, Provisions(admin, mailbox), t)
    ensures t == s.(mailboxes := s.mailboxes + {mailbox}, used := s.used + {mailbox},
                    accounts := s.accounts[mailbox := Account(User, Provisioned, Some(admin))])
  {
    var s1 := Next(s, ProvisionMailbox(mailbox, admin));
    t := Next(s1, ProvisionAccount(mailbox));
    assert t.provisioning == s.provisioning;
    hide Next;
    LeadsStep(s1, ProvisionAccount(mailbox), [], t);
    LeadsStep(s, ProvisionMailbox(mailbox, admin), [ProvisionAccount(mailbox)], t);
  }

  /** A user is deleted between the two halves of its reset. */
  lemma DeletedInReset(s: State, admin: nat, mailbox: nat) returns (t: State)
    requires admin in s.authenticated && Manages(s.accounts, admin, mailbox) && s.resetting == map[]
    requires forall id :: id in s.accounts ==> s.accounts[id].owner != Some(mailbox)
    ensures Leads(s, [ResetCheck(9, admin, mailbox), Delete(admin, mailbox)], t)
    ensures t == s.(mailboxes := s.mailboxes - {mailbox}, accounts := s.accounts - {mailbox},
                    resetting := map[9 := mailbox])
  {
    var s1 := Next(s, ResetCheck(9, admin, mailbox));
    t := Next(s1, Delete(admin, mailbox));
    assert Without(s.accounts, mailbox) == s.accounts - {mailbox};
    hide Next;
    LeadsStep(s1, Delete(admin, mailbox), [], t);
    LeadsStep(s, ResetCheck(9, admin, mailbox), [Delete(admin, mailbox)], t);
  }

  /**
    Without that proviso ownership can fail: mailbox 2 is deleted between the two halves of its
    reset, comes back as an admin, provisions mailbox 3, and is then set back to provisioned.
   */
  function LateReset(): seq<Event> {
    BecomesAdmin(1) + Provisions(1, 2) + [ResetCheck(9, 1, 2), Delete(1, 2)]
    + BecomesAdmin(2) + Provisions(2, 3) + [ResetAccount(9)]
  }

  lemma LateResetBreaksOwnership()
    ensures IsRun(EMPTY, LateReset())
    ensures var accounts := Run(EMPTY, LateReset()).accounts;
            && 2 in accounts && accounts[2] == Account(Admin, Provisioned, None)
            && 3 in accounts && accounts[3].owner == Some(2) && !OwnedByAdmin(accounts, 3)
  {
    var s1 := AdminJoins(EMPTY, 1);
    var s2 := UserJoins(s1, 1, 2);
    var s3 := DeletedInReset(s2, 1, 2);
    hide Leads;
    var s4 := AdminJoins(s3, 2);
    var s5 := UserJoins(s4, 2, 3);
    var s6 := ResetLands(s5, 2);
    assert s6.accounts[2] == Account(Admin, Provisioned, None) && s6.accounts[3].owner == Some(2);
    hide LateReset, OwnedByAdmin;
    LateResetLeads(EMPTY, s1, s2, s3, s4, s5, s6);
    LeadsIs(EMPTY, LateReset(), s6);
    NotOwned(s6.accounts, 3);
  }

  lemma LeadsIs(s: State, events: seq<Event>, t: State)
    requires Leads(s, events, t)
    ensures IsRun(s, events) && Run(s, events) == t
  {
  }

  lemma NotOwned(accounts: map<nat, Account>, id: nat)
    requires id in accounts && accounts[id].owner.Some? && accounts[id].owner.value in accounts
    requires accounts[accounts[id].owner.value].status != Active
    ensures !OwnedByAdmin(accounts, id)
  {
  }

  lemma ResetLands(s: State, mailbox: nat) returns (t: State)
    requires s.resetting == map[9 := mailbox] && mailbox in s.accounts
    ensures Leads(s, [ResetAccount(9)], t)
    ensures t == s.(accounts := WithStatus(s.accounts, mailbox, Provisioned), resetting := s.resetting - {9})
  {
    t := Next(s, ResetAccount(9));
    LeadsStep(s, ResetAccount(9), [], t);
    assert [ResetAccount(9)] + [] == [ResetAccount(9)];
  }

  lemma LateResetLeads(s0: State, s1: State, s2: State, s3: State, s4: State, s5: State, s6: State)
    requires Leads(s0, BecomesAdmin(1), s1) && Leads(s1, Provisions(1, 2), s2)
    requires Leads(s2, [ResetCheck(9, 1, 2), Delete(1, 2)], s3) && Leads(s3, BecomesAdmin(2), s4)
    requires Leads(s4, Provisions(2, 3), s5) && Leads(s5, [ResetAccount(9)], s6)
    ensures Leads(s0, LateReset(), s6)
  {
    hide Leads, BecomesAdmin, Provisions;
    var a := BecomesAdmin(1) + Provisions(1, 2);
    var b := a + [ResetCheck(9, 1, 2), Delete(1, 2)];
    LeadsOn(s0, BecomesAdmin(1), s1, Provisions(1, 2), s2);
    LeadsOn(s0, a, s2, [ResetCheck(9, 1, 2), Delete(1, 2)], s3);
    LeadsOn(s0, b, s3, BecomesAdmin(2), s4);
    LeadsOn(s0, b + BecomesAdmin(2), s4, Provisions(2, 3), s5);
    LeadsOn(s0, b + BecomesAdmin(2) + Provisions(2, 3), s5, [ResetAccount(9)], s6);
  }

  // The tables

  class AccountTables {
    var mailboxes: set<nat>
    var accounts: map<nat, Account>
    ghost var used: set<nat>
    ghost var authenticated: set<nat>
    ghost var provisioning: map<nat, nat>
    ghost var bootstrapping: map<nat, nat>
    ghost var resetting: map<nat, nat>

    ghost function Value(): State
      reads this
    {
      State(mailboxes, accounts, used, authenticated, provisioning, bootstrapping, resetting)
    }

    constructor ()
      ensures Value() == EMPTY
    {
      mailboxes, accounts := {}, map[];
      used, authenticated, provisioning, bootstrapping, resetting := {}, {}, map[], map[], map[];
    }

    method AuthenticateAdmin(admin: nat) returns (ok: bool)
      modifies this
      ensures ok <==> admin in accounts && accounts[admin].role == Admin && accounts[admin].status == Active
      ensures accounts == old(accounts) && mailboxes == old(mailboxes)
      ensures ok <==> Allowed(old(Value()), Authenticate(admin))
      ensures Value() == if ok then Next(old(Value()), Authenticate(admin)) else old(Value())
    {
      ok := admin in accounts && accounts[admin].role == Admin && accounts[admin].status == Active;
      if ok {
        authenticated := authenticated + {admin};
      }
    }

    /** The two statements of admin_provision_mailbox, with nothing between them. */
    method AdminProvisionMailbox(admin: nat, mailbox: nat)
      requires Invariant(Value()) && admin in authenticated && mailbox !in used
      modifies this
      ensures Value() == old(Value()).(mailboxes := old(mailboxes) + {mailbox}, used := old(used) + {mailbox},
                                       accounts := old(accounts)[mailbox := Account(User, Provisioned, Some(admin))])
      ensures Invariant(Value())
    {
      OwnershipAfterProvision(Value(), admin, mailbox);
      mailboxes := mailboxes + {mailbox};
      used := used + {mailbox};
      accounts := accounts[mailbox := Account(User, Provisioned, Some(admin))];
    }

    method UpsertAccountProfile(mailbox: nat) returns (profile: Account)
      requires Allowed(Value(), UpsertProfile(mailbox))
      modifies this
      ensures Value() == Next(old(Value()), UpsertProfile(mailbox))
      ensures profile == if mailbox in old(accounts)
                         then Account(old(accounts)[mailbox].role, Active, old(accounts)[mailbox].owner)
                         else Account(User, Active, None)
      ensures accounts == old(accounts)[mailbox := profile] && mailboxes == old(mailboxes)
    {
      if mailbox in accounts {
        accounts := accounts[mailbox := accounts[mailbox].(status := Active)];
      } else {
        accounts := accounts[mailbox := Account(User, Active, None)];
      }
      profile := accounts[mailbox];
    }

    method BootstrapUpsert(handler: nat, mailbox: nat) returns (profile: Account)
      requires Allowed(Value(), Event.BootstrapUpsert(handler)) && bootstrapping[handler] == mailbox
      modifies this
      ensures Value() == Next(old(Value()), Event.BootstrapUpsert(handler))
      ensures profile == Account(Admin, Active, None)
      ensures accounts == old(accounts)[mailbox := profile] && mailboxes == old(mailboxes)
    {
      profile := Account(Admin, Active, None);
      accounts := accounts[mailbox := profile];
      bootstrapping := bootstrapping - {handler};
    }

    method SetManagedUserStatus(admin: nat, mailbox: nat, status: Status) returns (found: bool)
      requires admin in authenticated
      modifies this
      ensures found <==> mailbox in old(accounts)
                         && old(accounts)[mailbox].owner == Some(admin) && old(accounts)[mailbox].role == User
      ensures found ==> accounts == old(accounts)[mailbox := old(accounts)[mailbox].(status := status)]
      ensures !found ==> accounts == old(accounts)
      ensures mailboxes == old(mailboxes)
      ensures found <==> Allowed(old(Value()), SetStatus(admin, mailbox, status))
      ensures Value() == if found then Next(old(Value()), SetStatus(admin, mailbox, status)) else old(Value())
    {
      found := mailbox in accounts && accounts[mailbox].owner == Some(admin) && accounts[mailbox].role == User;
      if found {
        accounts := accounts[mailbox := accounts[mailbox].(status := status)];
      }
    }

    /** The last statement of a reset: it looks at the identifier only. */
    method ResetAccount(handler: nat, mailbox: nat) returns (found: bool)
      requires handler in resetting && resetting[handler] == mailbox
      modifies this
      ensures found <==> mailbox in old(accounts)
      ensures found ==> accounts == old(accounts)[mailbox := old(accounts)[mailbox].(status := Provisioned)]
      ensures !found ==> accounts == old(accounts)
      ensures mailboxes == old(mailboxes)
      ensures found <==> Allowed(old(Value()), Event.ResetAccount(handler))
      ensures Value() == if found then Next(old(Value()), Event.ResetAccount(handler)) else old(Value())
    {
      found := mailbox in accounts;
      if found {
        accounts := accounts[mailbox := accounts[mailbox].(status := Provisioned)];
        resetting := resetting - {handler};
      }
    }

    method DeleteManagedUser(admin: nat, mailbox: nat) returns (deleted: bool)
      requires admin in authenticated
      modifies this
      ensures deleted <==> mailbox in old(accounts)
                           && old(accounts)[mailbox].owner == Some(admin) && old(accounts)[mailbox].role == User
      ensures mailboxes == if deleted then old(mailboxes) - {mailbox} else old(mailboxes)
      ensures deleted ==> forall id :: id in accounts <==> id in old(accounts) && id != mailbox
      ensures deleted ==> forall id :: id in accounts ==>
                && accounts[id].role == old(accounts)[id].role && accounts[id].status == old(accounts)[id].status
                && accounts[id].owner == if old(accounts)[id].owner == Some(mailbox) then None else old(accounts)[id].owner
      ensures !deleted ==> accounts == old(accounts)
      ensures deleted <==> Allowed(old(Value()), Delete(admin, mailbox))
      ensures Value() == if deleted then Next(old(Value()), Delete(admin, mailbox)) else old(Value())
    {
      deleted := mailbox in accounts && accounts[mailbox].owner == Some(admin) && accounts[mailbox].role == User;
      if deleted {
        mailboxes := mailboxes - {mailbox};
        accounts := map id | id in accounts && id != mailbox ::
          if accounts[id].owner == Some(mailbox) then accounts[id].(owner := None) else accounts[id];
      }
    }
  }

  lemma OwnershipAfterProvision(s: State, admin: nat, mailbox: nat)
    requires Invariant(s) && admin in s.authenticated && mailbox !in s.used
    ensures Invariant(s.(mailboxes := s.mailboxes + {mailbox}, used := s.used + {mailbox},
                         accounts := s.accounts[mailbox := Account(User, Provisioned, Some(admin))]))
  {
    assert mailbox !in s.mailboxes;
    var s1 := Next(s, ProvisionMailbox(mailbox, admin));
    NextKeepsInvariantExactly(s, ProvisionMailbox(mailbox, admin));
    NextKeepsInvariantExactly(s1, ProvisionAccount(mailbox));
    assert s1.provisioning - {mailbox} == s.provisioning;
  }
}

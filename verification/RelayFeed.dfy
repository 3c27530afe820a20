/**
  Feed posts, their deliveries and their replies. A reply is checked against the tables by one
  group of statements and inserted by a later one; other handlers may run in between.
 */
module RelayFeed {
  import opened Primitives

  datatype Post = Post(author: nat, codename: string, noReplies: bool, ciphertext: string, created: int, expires: int)

  /** The key of relay_feed_post_deliveries: a post reaches a recipient once. */
  datatype Delivery = Delivery(post: nat, recipient: nat)

  datatype Reply = Reply(
    post: nat, author: nat, recipient: nat, authorText: string, recipientText: string, created: int, expires: int)

  datatype Profile = Profile(codename: string, active: bool)

  /** The tables, and the replies that have been checked but not inserted, by handler. */
  datatype State = State(
    mailboxes: set<nat>,
    accounts: map<nat, Profile>,
    posts: map<nat, Post>,
    deliveries: map<Delivery, string>,
    replies: map<nat, Reply>,
    checked: map<nat, Reply>)

  const EMPTY := State({}, map[], map[], map[], map[], map[])

  datatype ReplyError =
    | PostNotFound
    | RepliesDisabled
    | RecipientRequired
    | NotAnActiveRecipient
    | NotThePostAuthor
    | OwnMailbox

  datatype Checked = Recipient(mailbox: nat) | Refused(error: ReplyError)

  predicate IsActive(s: State, mailbox: nat) {
    mailbox in s.accounts && s.accounts[mailbox].active
  }

  /** The reply handler's checks, in order, down to the recipient. */
  function CheckRecipient(s: State, viewer: nat, id: nat, requested: Option<nat>, now: int): Checked {
    if id !in s.posts || s.posts[id].expires <= now then Refused(PostNotFound)
    else
      var post := s.posts[id];
      if post.author != viewer && Delivery(id, viewer) !in s.deliveries then Refused(PostNotFound)
      else if post.noReplies then Refused(RepliesDisabled)
      else if post.author == viewer then
        if requested.None? then Refused(RecipientRequired)
        else if Delivery(id, requested.value) !in s.deliveries || !IsActive(s, requested.value) then
          Refused(NotAnActiveRecipient)
        else if requested.value == viewer then Refused(OwnMailbox)
        else Recipient(requested.value)
      else if requested.Some? && requested.value != post.author then Refused(NotThePostAuthor)
      else if post.author == viewer then Refused(OwnMailbox)
      else Recipient(post.author)
  }

  /** The reply targets a listing shows for a post. */
  function ReplyTargets(s: State, viewer: nat, id: nat): set<nat>
    requires id in s.posts
  {
    if s.posts[id].noReplies then {}
    else if s.posts[id].author == viewer then
      set d | d in s.deliveries && d.post == id && IsActive(s, d.recipient) :: d.recipient
    else {s.posts[id].author}
  }

  /** Who is listed: the active recipients for the author, the author for a recipient, nobody without replies. */
  lemma TargetsAre(s: State, viewer: nat, id: nat, x: nat)
    requires id in s.posts
    ensures x in ReplyTargets(s, viewer, id) <==>
              && !s.posts[id].noReplies
              && if s.posts[id].author == viewer then Delivery(id, x) in s.deliveries && x in s.accounts && s.accounts[x].active
                 else x == s.posts[id].author
  {
    if Delivery(id, x) in s.deliveries && IsActive(s, x) && s.posts[id].author == viewer && !s.posts[id].noReplies {
      assert Delivery(id, x).recipient in ReplyTargets(s, viewer, id);
    }
  }

  // Steps

  datatype Upload = Upload(recipient: nat, ciphertext: string)

  datatype Event =
    | AddMailbox(mailbox: nat)
    | SetAccounts(accounts: map<nat, Profile>)
    | CreatePost(id: nat, post: Post, uploads: seq<Upload>)
    | CheckReply(
        handler: nat, viewer: nat, id: nat, requested: Option<nat>, now: int, ttl: nat,
        authorText: string, recipientText: string)
    | InsertReply(handler: nat, replyId: nat)
    | Abandon(handler: nat)
    | CleanPosts(now: int)
    | CleanReplies(now: int)
    | DropMailbox(mailbox: nat)

  /** No recipient is the author, and none is named twice. */
  predicate GoodAudience(author: nat, uploads: seq<Upload>) {
    && uploads != []
    && (forall i :: 0 <= i < |uploads| ==> uploads[i].recipient != author)
    && (forall i, j :: 0 <= i < j < |uploads| ==> uploads[i].recipient != uploads[j].recipient)
  }

  predicate Allowed(s: State, e: Event) {
    match e
    case CreatePost(id, post, uploads) =>
      && id !in s.posts && GoodAudience(post.author, uploads)
      && post.author in s.mailboxes && (forall u :: u in uploads ==> u.recipient in s.mailboxes)
    case CheckReply(handler, viewer, id, requested, now, _, _, _) =>
      handler !in s.checked && CheckRecipient(s, viewer, id, requested, now).Recipient?
    case InsertReply(handler, replyId) =>
      && handler in s.checked && replyId !in s.replies
      && s.checked[handler].post in s.posts
      && s.checked[handler].author in s.mailboxes && s.checked[handler].recipient in s.mailboxes
    // the insert fails, or the handler does not get that far
    case Abandon(handler) => handler in s.checked
    case _ => true
  }

  function Delivered(deliveries: map<Delivery, string>, id: nat, uploads: seq<Upload>): map<Delivery, string> {
    if uploads == [] then deliveries
    else
      var last := uploads[|uploads| - 1];
      Delivered(deliveries, id, uploads[..|uploads| - 1])[Delivery(id, last.recipient) := last.ciphertext]
  }

  /** The reply to be stored: it expires with the post at the latest. */
  function ReplyOf(
    postExpires: int, viewer: nat, id: nat, recipient: nat, now: int, ttl: nat, authorText: string, recipientText: string
  ): Reply {
    Reply(id, viewer, recipient, authorText, recipientText, now,
          if now + ttl < postExpires then now + ttl else postExpires)
  }

  /** Rows go with the posts and mailboxes they refer to. */
  function Cascade(s: State, posts: set<nat>, mailboxes: set<nat>): State {
    s.(mailboxes := s.mailboxes - mailboxes,
       posts := s.posts - posts,
       deliveries := map d | d in s.deliveries && d.post !in posts && d.recipient !in mailboxes :: s.deliveries[d],
       replies := map r | r in s.replies && s.replies[r].post !in posts
                          && s.replies[r].author !in mailboxes && s.replies[r].recipient !in mailboxes
                      :: s.replies[r])
  }

  function Expired(s: State, now: int): set<nat> {
    set id | id in s.posts && s.posts[id].expires <= now
  }

  function PostsBy(s: State, mailbox: nat): set<nat> {
    set id | id in s.posts && s.posts[id].author == mailbox
  }

  function Next(s: State, e: Event): State
    requires Allowed(s, e)
  {
    match e
    case AddMailbox(mailbox) => s.(mailboxes := s.mailboxes + {mailbox})
    case SetAccounts(accounts) => s.(accounts := accounts)
    case CreatePost(id, post, uploads) =>
      s.(posts := s.posts[id := post], deliveries := Delivered(s.deliveries, id, uploads))
    case CheckReply(handler, viewer, id, requested, now, ttl, authorText, recipientText) =>
      var recipient := CheckRecipient(s, viewer, id, requested, now).mailbox;
      s.(checked := s.checked[handler :=
           ReplyOf(s.posts[id].expires, viewer, id, recipient, now, ttl, authorText, recipientText)])
    case InsertReply(handler, replyId) =>
      s.(replies := s.replies[replyId := s.checked[handler]], checked := s.checked - {handler})
    case Abandon(handler) => s.(checked := s.checked - {handler})
    case CleanPosts(now) => Cascade(s, Expired(s, now), {})
    case CleanReplies(now) => s.(replies := map r | r in s.replies && s.replies[r].expires > now :: s.replies[r])
    case DropMailbox(mailbox) => Cascade(s, PostsBy(s, mailbox), {mailbox})
  }

  // The rows a step leaves

  /** The recipient of a delivery. */
  predicate IsFor(d: Delivery, id: nat, u: Upload) {
    d.post == id && d.recipient == u.recipient
  }

  /** Each recipient is delivered what was uploaded for it, and no other delivery changes. */
  lemma {:induction false} DeliveredTexts(deliveries: map<Delivery, string>, id: nat, uploads: seq<Upload>, d: Delivery)
    requires forall i, j :: 0 <= i < j < |uploads| ==> uploads[i].recipient != uploads[j].recipient
    ensures var after := Delivered(deliveries, id, uploads);
            && (forall i :: 0 <= i < |uploads| && IsFor(d, id, uploads[i]) ==> d in after && after[d] == uploads[i].ciphertext)
            && ((forall i :: 0 <= i < |uploads| ==> !IsFor(d, id, uploads[i])) ==>
                  (d in after <==> d in deliveries) && (d in deliveries ==> after[d] == deliveries[d]))
  {
    if uploads != [] {
      var n := |uploads| - 1;
      DeliveredTexts(deliveries, id, uploads[..n], d);
      assert forall i :: 0 <= i < n ==> uploads[..n][i] == uploads[i];
    }
  }

  /** A post is stored as it is, beside the others, and delivered text by text. */
  lemma PostWrites(s: State, id: nat, post: Post, uploads: seq<Upload>)
    requires Allowed(s, CreatePost(id, post, uploads))
    ensures var t := Next(s, CreatePost(id, post, uploads));
            && t == s.(posts := t.posts, deliveries := t.deliveries)
            && t.posts == s.posts[id := post] && id !in s.posts
            && (forall i :: 0 <= i < |uploads| ==>
                  Delivery(id, uploads[i].recipient) in t.deliveries
                  && t.deliveries[Delivery(id, uploads[i].recipient)] == uploads[i].ciphertext)
            && (forall d: Delivery :: (forall i :: 0 <= i < |uploads| ==> !IsFor(d, id, uploads[i])) ==>
                  (d in t.deliveries <==> d in s.deliveries) && (d in s.deliveries ==> t.deliveries[d] == s.deliveries[d]))
  {
    var t := Next(s, CreatePost(id, post, uploads));
    forall i | 0 <= i < |uploads|
      ensures Delivery(id, uploads[i].recipient) in t.deliveries
              && t.deliveries[Delivery(id, uploads[i].recipient)] == uploads[i].ciphertext {
      DeliveredTexts(s.deliveries, id, uploads, Delivery(id, uploads[i].recipient));
      assert IsFor(Delivery(id, uploads[i].recipient), id, uploads[i]);
    }
    forall d: Delivery | forall i :: 0 <= i < |uploads| ==> !IsFor(d, id, uploads[i])
      ensures (d in t.deliveries <==> d in s.deliveries) && (d in s.deliveries ==> t.deliveries[d] == s.deliveries[d]) {
      DeliveredTexts(s.deliveries, id, uploads, d);
    }
    hide Delivered;
  }

  /** The viewer may see the post: it is its author, or the post was delivered to it. */
  predicate Visible(s: State, viewer: nat, id: nat, now: int) {
    && id in s.posts && now < s.posts[id].expires
    && (s.posts[id].author == viewer || Delivery(id, viewer) in s.deliveries)
  }

  /** Whom a reply goes to: an author names an active recipient of the post, a recipient answers the author. */
  lemma ReplyGoesTo(s: State, viewer: nat, id: nat, requested: Option<nat>, now: int, x: nat)
    ensures CheckRecipient(s, viewer, id, requested, now) == Recipient(x)
            <==> && Visible(s, viewer, id, now) && !s.posts[id].noReplies && x != viewer
                 && if s.posts[id].author == viewer then
                      requested == Some(x) && Delivery(id, x) in s.deliveries && x in s.accounts && s.accounts[x].active
                    else x == s.posts[id].author && (requested.None? || requested.value == x)
  {
  }

  /** Why a reply is refused, the first reason in this order. */
  lemma ReplyRefusedFor(s: State, viewer: nat, id: nat, requested: Option<nat>, now: int, error: ReplyError)
    ensures CheckRecipient(s, viewer, id, requested, now) == Refused(error)
            <==> if !Visible(s, viewer, id, now) then error == PostNotFound
                 else if s.posts[id].noReplies then error == RepliesDisabled
                 else if s.posts[id].author == viewer then
                   if requested.None? then error == RecipientRequired
                   else if Delivery(id, requested.value) !in s.deliveries || requested.value !in s.accounts
                           || !s.accounts[requested.value].active then error == NotAnActiveRecipient
                   else requested.value == viewer && error == OwnMailbox
                 else requested.Some? && requested.value != s.posts[id].author && error == NotThePostAuthor
  {
  }

  /** A checked reply, field by field: it lasts as long as was asked for, but not beyond its post. */
  lemma ReplyWrites(
    s: State, handler: nat, viewer: nat, id: nat, requested: Option<nat>, now: int, ttl: nat,
    authorText: string, recipientText: string)
    requires Allowed(s, CheckReply(handler, viewer, id, requested, now, ttl, authorText, recipientText))
    ensures var t := Next(s, CheckReply(handler, viewer, id, requested, now, ttl, authorText, recipientText));
            && id in s.posts && t == s.(checked := t.checked) && handler in t.checked
            && t.checked == s.checked[handler := t.checked[handler]]
            && var r := t.checked[handler];
               && r.post == id && r.author == viewer
               && CheckRecipient(s, viewer, id, requested, now) == Recipient(r.recipient)
               && r.authorText == authorText && r.recipientText == recipientText && r.created == now
               && r.expires <= now + ttl && r.expires <= s.posts[id].expires
               && (r.expires == now + ttl || r.expires == s.posts[id].expires)
  {
  }

  /** The insert stores the checked reply under its identifier, and is done with it. */
  lemma InsertWrites(s: State, handler: nat, replyId: nat)
    requires Allowed(s, InsertReply(handler, replyId))
    ensures var t := Next(s, InsertReply(handler, replyId));
            && replyId !in s.replies && t.replies == s.replies[replyId := s.checked[handler]]
            && t == s.(replies := t.replies, checked := t.checked)
            && (forall h :: h in t.checked <==> h in s.checked && h != handler)
            && (forall h :: h in t.checked ==> t.checked[h] == s.checked[h])
  {
  }

  /** The post goes with this step: expired, or its author's mailbox dropped. */
  predicate PostGoes(s: State, e: Event, id: nat)
    requires id in s.posts
  {
    (e.CleanPosts? && s.posts[id].expires <= e.now) || (e.DropMailbox? && s.posts[id].author == e.mailbox)
  }

  predicate MailboxGoes(e: Event, mailbox: nat) {
    e.DropMailbox? && mailbox == e.mailbox
  }

  /** What cleanup and the removal of a mailbox take along, row by row, and that the rest stays. */
  lemma RemovalWrites(s: State, e: Event)
    requires TablesOk(s) && (e.CleanPosts? || e.DropMailbox?)
    ensures Allowed(s, e)
    ensures var t := Next(s, e);
            && (forall m :: m in t.mailboxes <==> m in s.mailboxes && !MailboxGoes(e, m))
            && (forall id :: id in t.posts <==> id in s.posts && !PostGoes(s, e, id))
            && (forall id :: id in t.posts ==> t.posts[id] == s.posts[id])
            && (forall d :: d in t.deliveries <==> d in s.deliveries && !PostGoes(s, e, d.post) && !MailboxGoes(e, d.recipient))
            && (forall d :: d in t.deliveries ==> t.deliveries[d] == s.deliveries[d])
            && (forall r :: r in t.replies ==> r in s.replies && t.replies[r] == s.replies[r])
            && (forall r :: r in s.replies ==>
                  (r in t.replies <==>
                     && (s.replies[r].post in s.posts ==> !PostGoes(s, e, s.replies[r].post))
                     && !MailboxGoes(e, s.replies[r].author) && !MailboxGoes(e, s.replies[r].recipient)))
            && t.accounts == s.accounts && t.checked == s.checked
  {
  }

  /** Expired replies go, and nothing else. */
  lemma ReplyCleanupWrites(s: State, now: int, r: nat)
    ensures var t := Next(s, CleanReplies(now));
            && t == s.(replies := t.replies)
            && (r in t.replies <==> r in s.replies && now < s.replies[r].expires)
            && (r in t.replies ==> t.replies[r] == s.replies[r])
  {
  }

  // The invariant

  /** A reply joins its post's author and one delivery recipient, and does not outlive the post. */
  predicate Joins(s: State, r: Reply)
    requires r.post in s.posts
  {
    var author := s.posts[r.post].author;
    && ((r.author == author && Delivery(r.post, r.recipient) in s.deliveries)
        || (r.recipient == author && Delivery(r.post, r.author) in s.deliveries))
    && r.expires <= s.posts[r.post].expires
  }

  predicate RepliesOk(s: State) {
    forall id :: id in s.replies ==>
      && s.replies[id].post in s.posts && Joins(s, s.replies[id])
      && s.replies[id].author in s.mailboxes && s.replies[id].recipient in s.mailboxes
  }

  predicate TablesOk(s: State) {
    && (forall id :: id in s.posts ==> s.posts[id].author in s.mailboxes)
    && (forall d :: d in s.deliveries ==>
          d.post in s.posts && d.recipient in s.mailboxes && d.recipient != s.posts[d.post].author)
  }

  predicate Joined(s: State) {
    RepliesOk(s) && TablesOk(s)
  }

  /**
    What the insert could check again, in its WHERE clause: the post now under the identifier is
    still by one side, still delivered to the other, and lasts as long as the reply.
   */
  predicate InsertGuard(s: State, r: Reply) {
    && r.post in s.posts
    && (if s.posts[r.post].author == r.author then Delivery(r.post, r.recipient) in s.deliveries
        else s.posts[r.post].author == r.recipient && Delivery(r.post, r.author) in s.deliveries)
    && r.expires <= s.posts[r.post].expires
  }

  /** The insert of a step, if it is one, meets the guard. */
  predicate Guarded(s: State, e: Event)
    requires Allowed(s, e)
  {
    e.InsertReply? ==> InsertGuard(s, s.checked[e.handler])
  }

  lemma {:induction false} DeliveredIs(deliveries: map<Delivery, string>, id: nat, uploads: seq<Upload>, d: Delivery)
    ensures var after := Delivered(deliveries, id, uploads);
            && (d in after <==> d in deliveries || (d.post == id && exists u :: u in uploads && u.recipient == d.recipient))
            && (d in deliveries && d.post != id ==> after[d] == deliveries[d])
  {
    if uploads != [] {
      DeliveredIs(deliveries, id, uploads[..|uploads| - 1], d);
      assert uploads == uploads[..|uploads| - 1] + [uploads[|uploads| - 1]];
    }
  }

  lemma PostKeeps(s: State, id: nat, post: Post, uploads: seq<Upload>)
    requires Joined(s) && Allowed(s, CreatePost(id, post, uploads))
    ensures Joined(Next(s, CreatePost(id, post, uploads)))
  {
    var t := Next(s, CreatePost(id, post, uploads));
    forall d ensures (d in s.deliveries ==> d in t.deliveries)
                     && (d in t.deliveries && d !in s.deliveries ==>
                           d.post == id && d.recipient in s.mailboxes && d.recipient != post.author) {
      DeliveredIs(s.deliveries, id, uploads, d);
    }
    hide Delivered, GoodAudience;
  }

  lemma CascadeKeeps(s: State, posts: set<nat>, mailboxes: set<nat>)
    requires Joined(s)
    requires forall id :: id in s.posts && s.posts[id].author in mailboxes ==> id in posts
    ensures Joined(Cascade(s, posts, mailboxes))
  {
  }

  /** The insert of a reply keeps replies joined exactly if it meets the guard. */
  lemma InsertExactly(s: State, handler: nat, replyId: nat)
    requires Joined(s) && Allowed(s, InsertReply(handler, replyId))
    ensures Joined(Next(s, InsertReply(handler, replyId))) <==> InsertGuard(s, s.checked[handler])
  {
    var t, r := Next(s, InsertReply(handler, replyId)), s.checked[handler];
    assert replyId in t.replies && t.replies[replyId] == r;
    assert Joins(t, r) <==> InsertGuard(s, r);
    forall id | id in s.replies ensures id in t.replies && t.replies[id] == s.replies[id] {
    }
  }

  /** A step keeps replies joined exactly if it is not an insert that fails the guard. */
  lemma StepJoinsExactly(s: State, e: Event)
    requires Joined(s) && Allowed(s, e)
    ensures Joined(Next(s, e)) <==> Guarded(s, e)
  {
    match e
    case CreatePost(id, post, uploads) => PostKeeps(s, id, post, uploads);
    case InsertReply(handler, replyId) => InsertExactly(s, handler, replyId);
    case CleanPosts(now) => CascadeKeeps(s, Expired(s, now), {});
    case DropMailbox(mailbox) => CascadeKeeps(s, PostsBy(s, mailbox), {mailbox});
    case _ =>
  }

  predicate IsRun(s: State, events: seq<Event>)
    decreases |events|
  {
    events == [] || (Allowed(s, events[0]) && IsRun(Next(s, events[0]), events[1..]))
  }

  function Run(s: State, events: seq<Event>): State
    requires IsRun(s, events)
    decreases |events|
  {
    if events == [] then s else Run(Next(s, events[0]), events[1..])
  }

  /** Replies are joined now and after every further step. */
  predicate JoinedThroughout(s: State, events: seq<Event>)
    requires IsRun(s, events)
    decreases |events|
  {
    Joined(s) && (events != [] ==> JoinedThroughout(Next(s, events[0]), events[1..]))
  }

  /** Every insert meets the guard when it runs. */
  predicate InsertsGuarded(s: State, events: seq<Event>)
    requires IsRun(s, events)
    decreases |events|
  {
    events != [] ==> Guarded(s, events[0]) && InsertsGuarded(Next(s, events[0]), events[1..])
  }

  lemma {:induction false} JoinedExactlyFrom(s: State, events: seq<Event>)
    requires Joined(s) && IsRun(s, events)
    ensures JoinedThroughout(s, events) <==> InsertsGuarded(s, events)
    decreases |events|
  {
    hide Joined, Guarded, Allowed, Next;
    if events != [] {
      StepJoinsExactly(s, events[0]);
      if Guarded(s, events[0]) {
        JoinedExactlyFrom(Next(s, events[0]), events[1..]);
      } else {
        assert !JoinedThroughout(Next(s, events[0]), events[1..]);
      }
    }
  }

  /**
    Over every run, at every moment every stored reply joins its post's author and one delivery
    recipient and does not outlive the post, if and only if every insert meets the guard.
   */
  lemma RepliesJoinedExactly(events: seq<Event>)
    requires IsRun(EMPTY, events)
    ensures JoinedThroughout(EMPTY, events) <==> InsertsGuarded(EMPTY, events)
  {
    assert Joined(EMPTY);
    JoinedExactlyFrom(EMPTY, events);
  }

  // A proviso on the other handlers

  /** What has been checked still holds, unless the post is gone. */
  predicate CheckedOk(s: State) {
    forall h :: h in s.checked && s.checked[h].post in s.posts ==> Joins(s, s.checked[h])
  }

  /** While a reply is checked but not inserted, its post's identifier is not used again, and neither side is dropped. */
  predicate NoReuse(s: State, e: Event) {
    match e
    case CreatePost(id, _, _) => forall h :: h in s.checked ==> s.checked[h].post != id
    case DropMailbox(m) => forall h :: h in s.checked ==> s.checked[h].author != m && s.checked[h].recipient != m
    case _ => true
  }

  predicate NeverReuses(s: State, events: seq<Event>)
    requires IsRun(s, events)
    decreases |events|
  {
    events != [] ==> NoReuse(s, events[0]) && NeverReuses(Next(s, events[0]), events[1..])
  }

  lemma CheckedStaysOk(s: State, e: Event)
    requires Joined(s) && CheckedOk(s) && Allowed(s, e) && NoReuse(s, e)
    ensures Guarded(s, e) && CheckedOk(Next(s, e))
  {
    if e.CreatePost? {
      forall d | d in s.deliveries ensures d in Next(s, e).deliveries {
        DeliveredIs(s.deliveries, e.id, e.uploads, d);
      }
    }
    hide Delivered, GoodAudience;
  }

  lemma {:induction false} NoReuseGuards(s: State, events: seq<Event>)
    requires Joined(s) && CheckedOk(s) && IsRun(s, events) && NeverReuses(s, events)
    ensures InsertsGuarded(s, events)
    decreases |events|
  {
    hide Joined, CheckedOk, Guarded, NoReuse, Allowed, Next;
    if events != [] {
      CheckedStaysOk(s, events[0]);
      StepJoinsExactly(s, events[0]);
      NoReuseGuards(Next(s, events[0]), events[1..]);
    }
  }

  /** It is enough that nothing a reply in flight refers to is reused. */
  lemma NoReuseIsEnough(events: seq<Event>)
    requires IsRun(EMPTY, events) && NeverReuses(EMPTY, events)
    ensures JoinedThroughout(EMPTY, events)
  {
    assert Joined(EMPTY) && CheckedOk(EMPTY);
    NoReuseGuards(EMPTY, events);
    RepliesJoinedExactly(events);
  }

  // Two failing runs

  /** `events` lead from `s` to `t`. */
  predicate Leads(s: State, events: seq<Event>, t: State) {
    IsRun(s, events) && Run(s, events) == t
  }

  lemma Step(s: State, e: Event, rest: seq<Event>, next: State, t: State)
    requires Allowed(s, e) && Next(s, e) == next && (rest == [] ==> next == t) && (rest != [] ==> Leads(next, rest, t))
    ensures Leads(s, [e] + rest, t)
  {
    assert ([e] + rest)[1..] == rest;
  }

  lemma Posts(s: State, id: nat, post: Post, u: Upload, rest: seq<Event>, next: State, t: State)
    requires s.posts == map[] && s.deliveries == map[] && {post.author, u.recipient} <= s.mailboxes
    requires post.author != u.recipient && rest != []
    requires next == s.(posts := map[id := post], deliveries := map[Delivery(id, u.recipient) := u.ciphertext])
    requires Leads(next, rest, t)
    ensures Leads(s, [CreatePost(id, post, [u])] + rest, t)
  {
    assert [u][..0] == [];
    assert Delivered(map[], id, [u]) == map[Delivery(id, u.recipient) := u.ciphertext];
    Step(s, CreatePost(id, post, [u]), rest, next, t);
  }

  lemma People(rest: seq<Event>, people: State, t: State)
    requires people == EMPTY.(mailboxes := {1, 2, 3}) && rest != [] && Leads(people, rest, t)
    ensures var events := [AddMailbox(1)] + ([AddMailbox(2)] + ([AddMailbox(3)] + rest));
            IsRun(EMPTY, events) && Run(EMPTY, events) == t
  {
    var one, two := EMPTY.(mailboxes := {1}), EMPTY.(mailboxes := {1, 2});
    Step(two, AddMailbox(3), rest, people, t);
    Step(one, AddMailbox(2), [AddMailbox(3)] + rest, two, t);
    Step(EMPTY, AddMailbox(1), [AddMailbox(2)] + ([AddMailbox(3)] + rest), one, t);
  }

  function Mine(): Post { Post(1, "", false, "", 0, 10) }

  function Theirs(): Post { Post(3, "", false, "", 11, 20) }

  function LateReply(): Reply { Reply(7, 2, 1, "", "", 9, 10) }

  /** Mailboxes 1 to 3, and what else there is. */
  function With(
    posts: map<nat, Post>, deliveries: map<Delivery, string>, replies: map<nat, Reply>, checked: map<nat, Reply>): State
  {
    State({1, 2, 3}, map[], posts, deliveries, replies, checked)
  }

  function Posted(): State { With(map[7 := Mine()], map[Delivery(7, 2) := ""], map[], map[]) }

  function InFlight(): State { With(map[7 := Mine()], map[Delivery(7, 2) := ""], map[], map[0 := LateReply()]) }

  function Cleaned(): State { With(map[], map[], map[], map[0 := LateReply()]) }

  function Reused(): State { With(map[7 := Theirs()], map[Delivery(7, 1) := ""], map[], map[0 := LateReply()]) }

  function Stored(): State { With(map[7 := Theirs()], map[Delivery(7, 1) := ""], map[5 := LateReply()], map[]) }

  lemma CleanStep(rest: seq<Event>, t: State)
    requires rest != [] && Leads(Cleaned(), rest, t)
    ensures Leads(InFlight(), [CleanPosts(10)] + rest, t)
  {
    assert Expired(InFlight(), 10) == {7};
    assert InFlight().posts - {7} == map[];
    assert Cascade(InFlight(), {7}, {}) == Cleaned();
    Step(InFlight(), CleanPosts(10), rest, Cleaned(), t);
  }

  function AfterPosting(): seq<Event> {
    [CheckReply(0, 2, 7, None, 9, 100, "", "")]
    + ([CleanPosts(10)] + ([CreatePost(7, Theirs(), [Upload(1, "")])] + [InsertReply(0, 5)]))
  }

  function ReuseRun(): seq<Event> {
    [AddMailbox(1)] + ([AddMailbox(2)] + ([AddMailbox(3)] + ([CreatePost(7, Mine(), [Upload(2, "")])] + AfterPosting())))
  }

  lemma AfterPostingLeads()
    ensures Leads(Posted(), AfterPosting(), Stored())
  {
    Step(Reused(), InsertReply(0, 5), [], Stored(), Stored());
    assert [InsertReply(0, 5)] + [] == [InsertReply(0, 5)];
    Posts(Cleaned(), 7, Theirs(), Upload(1, ""), [InsertReply(0, 5)], Reused(), Stored());
    hide Leads;
    var rest := [CreatePost(7, Theirs(), [Upload(1, "")])] + [InsertReply(0, 5)];
    CleanStep(rest, Stored());
    CheckStep([CleanPosts(10)] + rest, Stored());
  }

  lemma CheckStep(rest: seq<Event>, t: State)
    requires rest != [] && Leads(InFlight(), rest, t)
    ensures Leads(Posted(), [CheckReply(0, 2, 7, None, 9, 100, "", "")] + rest, t)
  {
    Step(Posted(), CheckReply(0, 2, 7, None, 9, 100, "", ""), rest, InFlight(), t);
  }

  /**
    With reuse it can fail: a reply to post 7 is checked; the post expires and is cleaned away;
    another author takes its identifier; and the reply is stored under the new post.
   */
  lemma ReuseBreaksReplies()
    ensures IsRun(EMPTY, ReuseRun()) && 5 in Run(EMPTY, ReuseRun()).replies
    ensures var s := Run(EMPTY, ReuseRun());
            s.replies[5].post in s.posts && !Joins(s, s.replies[5])
  {
    AfterPostingLeads();
    var people := With(map[], map[], map[], map[]);
    hide Leads, AfterPosting;
    assert AfterPosting() != [] by {
      AfterPostingIsSome();
    }
    Posts(people, 7, Mine(), Upload(2, ""), AfterPosting(), Posted(), Stored());
    People([CreatePost(7, Mine(), [Upload(2, "")])] + AfterPosting(), people, Stored());
  }

  lemma AfterPostingIsSome()
    ensures AfterPosting() != []
  {
  }

  /** A delivery recipient that has gone and come back: the post is there, its delivery is not. */
  function Undelivered(mailboxes: set<nat>): State {
    State(mailboxes, map[], map[7 := Mine()], map[], map[], map[0 := LateReply()])
  }

  function AfterChecking(): seq<Event> {
    [CheckReply(0, 2, 7, None, 9, 100, "", "")] + ([DropMailbox(2)] + ([AddMailbox(2)] + [InsertReply(0, 5)]))
  }

  function RecreationRun(): seq<Event> {
    [AddMailbox(1)] + ([AddMailbox(2)] + ([AddMailbox(3)] + ([CreatePost(7, Mine(), [Upload(2, "")])] + AfterChecking())))
  }

  function StoredAnyway(): State {
    State({1, 2, 3}, map[], map[7 := Mine()], map[], map[5 := LateReply()], map[])
  }

  lemma DropStep(rest: seq<Event>, t: State)
    requires rest != [] && Leads(Undelivered({1, 3}), rest, t)
    ensures Leads(InFlight(), [DropMailbox(2)] + rest, t)
  {
    assert PostsBy(InFlight(), 2) == {};
    assert Cascade(InFlight(), {}, {2}) == Undelivered({1, 3});
    Step(InFlight(), DropMailbox(2), rest, Undelivered({1, 3}), t);
  }

  lemma AfterCheckingLeads()
    ensures Leads(Posted(), AfterChecking(), StoredAnyway()) && AfterChecking() != []
  {
    assert {1, 3} + {2} == {1, 2, 3};
    Step(Undelivered({1, 2, 3}), InsertReply(0, 5), [], StoredAnyway(), StoredAnyway());
    assert [InsertReply(0, 5)] + [] == [InsertReply(0, 5)];
    Step(Undelivered({1, 3}), AddMailbox(2), [InsertReply(0, 5)], Undelivered({1, 2, 3}), StoredAnyway());
    hide Leads;
    var rest := [AddMailbox(2)] + [InsertReply(0, 5)];
    DropStep(rest, StoredAnyway());
    CheckStep([DropMailbox(2)] + rest, StoredAnyway());
  }

  /**
    Nor is reuse of the identifier the only way: the recipient's mailbox is dropped and made
    again between the check and the insert, and the reply joins no delivery.
   */
  lemma RecreationBreaksReplies()
    ensures IsRun(EMPTY, RecreationRun()) && 5 in Run(EMPTY, RecreationRun()).replies
    ensures var s := Run(EMPTY, RecreationRun());
            s.replies[5].post in s.posts && !Joins(s, s.replies[5])
  {
    AfterCheckingLeads();
    var people := With(map[], map[], map[], map[]);
    hide Leads, AfterChecking;
    Posts(people, 7, Mine(), Upload(2, ""), AfterChecking(), Posted(), StoredAnyway());
    People([CreatePost(7, Mine(), [Upload(2, "")])] + AfterChecking(), people, StoredAnyway());
  }

  // Reply targets

  /** The targets listed are exactly the recipients the reply handler admits when asked for them. */
  lemma TargetsAreAdmitted(s: State, viewer: nat, id: nat, now: int, x: nat)
    requires TablesOk(s) && id in s.posts && s.posts[id].expires > now
    requires s.posts[id].author == viewer || Delivery(id, viewer) in s.deliveries
    ensures x in ReplyTargets(s, viewer, id) <==> CheckRecipient(s, viewer, id, Some(x), now) == Recipient(x)
  {
    if s.posts[id].author == viewer {
      assert Delivery(id, x) in s.deliveries && IsActive(s, x) && !s.posts[id].noReplies
             ==> Delivery(id, x).recipient in ReplyTargets(s, viewer, id);
    }
  }
}

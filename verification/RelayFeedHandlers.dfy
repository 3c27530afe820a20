/** The loops of the feed handlers: checking an audience, storing deliveries, listing posts with their replies. */
module RelayFeedHandlers {
  import opened Primitives
  import opened RelayFeed

  // Posting

  datatype Fault = NoRecipients | AuthorNamed | NamedTwice | NotAnActiveContact | PostExists

  function Recipients(uploads: seq<Upload>): (r: set<nat>)
    ensures forall m :: m in r <==> exists u :: u in uploads && u.recipient == m
  {
    set u | u in uploads :: u.recipient
  }

  /** The first delivery at fault, and why. */
  function FirstFault(author: nat, uploads: seq<Upload>): Option<Fault> {
    if uploads == [] then None
    else
      var before, last := uploads[..|uploads| - 1], uploads[|uploads| - 1];
      var earlier := FirstFault(author, before);
      if earlier.Some? then earlier
      else if last.recipient == author then Some(AuthorNamed)
      else if last.recipient in Recipients(before) then Some(NamedTwice)
      else None
  }

  lemma GoodOneMore(author: nat, uploads: seq<Upload>)
    requires uploads != []
    ensures var before, last := uploads[..|uploads| - 1], uploads[|uploads| - 1];
            GoodAudience(author, uploads)
            <==> (before == [] || GoodAudience(author, before))
                 && last.recipient != author && last.recipient !in Recipients(before)
  {
    var n := |uploads| - 1;
    var before, last := uploads[..n], uploads[n];
    if last.recipient in Recipients(before) {
      var u :| u in before && u.recipient == last.recipient;
      var i :| 0 <= i < n && before[i] == u;
      assert uploads[i].recipient == uploads[n].recipient;
    } else {
      forall i | 0 <= i < n ensures uploads[i].recipient != last.recipient {
        assert uploads[i] in before;
      }
    }
    assert forall i :: 0 <= i < n ==> before[i] == uploads[i];
  }

  lemma {:induction false} NoFaultIsGood(author: nat, uploads: seq<Upload>)
    requires uploads != []
    ensures FirstFault(author, uploads).None? <==> GoodAudience(author, uploads)
  {
    GoodOneMore(author, uploads);
    if |uploads| > 1 {
      NoFaultIsGood(author, uploads[..|uploads| - 1]);
    }
    hide GoodAudience, Recipients;
  }

  /** A fault found early stays the first. */
  lemma {:induction false} FaultStays(author: nat, uploads: seq<Upload>, k: nat)
    requires k <= |uploads| && FirstFault(author, uploads[..k]).Some?
    ensures FirstFault(author, uploads) == FirstFault(author, uploads[..k])
  {
    if k < |uploads| {
      var n := |uploads| - 1;
      assert uploads[..n][..k] == uploads[..k];
      FaultStays(author, uploads[..n], k);
    } else {
      assert uploads[..k] == uploads;
    }
  }

  /** One more delivery, by the definitions. */
  lemma FaultAt(author: nat, uploads: seq<Upload>, i: nat)
    requires i < |uploads| && FirstFault(author, uploads[..i]).None?
    ensures FirstFault(author, uploads[..i + 1])
            == if uploads[i].recipient == author then Some(AuthorNamed)
               else if uploads[i].recipient in Recipients(uploads[..i]) then Some(NamedTwice)
               else None
    ensures Recipients(uploads[..i + 1]) == Recipients(uploads[..i]) + {uploads[i].recipient}
  {
    assert uploads[..i + 1][..i] == uploads[..i] && uploads[..i + 1] == uploads[..i] + [uploads[i]];
    assert uploads[i] in uploads[..i + 1];
  }

  method CheckAudience(author: nat, uploads: seq<Upload>) returns (fault: Option<Fault>, seen: set<nat>)
    ensures fault == FirstFault(author, uploads)
    ensures fault.None? ==> seen == Recipients(uploads)
  {
    seen := {};
    var i := 0;
    assert FirstFault(author, uploads[..0]).None? && Recipients(uploads[..0]) == {};
    hide FirstFault, Recipients;
    while i < |uploads|
      invariant 0 <= i <= |uploads|
      invariant FirstFault(author, uploads[..i]).None? && seen == Recipients(uploads[..i])
    {
      var recipient := uploads[i].recipient;
      FaultAt(author, uploads, i);
      if recipient == author {
        FaultStays(author, uploads, i + 1);
        return Some(AuthorNamed), seen;
      }
      if recipient in seen {
        FaultStays(author, uploads, i + 1);
        return Some(NamedTwice), seen;
      }
      seen := seen + {recipient};
      i := i + 1;
    }
    assert uploads[..i] == uploads;
    fault := None;
  }

  /** The recipients that are active contacts of the author. */
  function AllowedRecipients(s: State, contacts: set<(nat, nat)>, author: nat, among: set<nat>): set<nat> {
    set m | m in among && (author, m) in contacts && IsActive(s, m)
  }

  /** Why a post is refused, in the order the handler looks; None if it is stored. */
  function PostFault(
    s: State, contacts: set<(nat, nat)>, id: nat, author: nat, uploads: seq<Upload>): Option<Fault>
  {
    if uploads == [] then Some(NoRecipients)
    else if FirstFault(author, uploads).Some? then FirstFault(author, uploads)
    else if !(Recipients(uploads) <= AllowedRecipients(s, contacts, author, Recipients(uploads))) then
      Some(NotAnActiveContact)
    else if id in s.posts then Some(PostExists)
    else None
  }

  /** Delivery `i` names the author, or a recipient named before; the author is looked for first. */
  predicate AtFault(author: nat, uploads: seq<Upload>, i: nat, fault: Fault)
    requires i < |uploads|
  {
    if uploads[i].recipient == author then fault == AuthorNamed
    else fault == NamedTwice && exists j :: 0 <= j < i && uploads[j].recipient == uploads[i].recipient
  }

  /** The first delivery at fault decides. */
  lemma FirstFaultDecides(author: nat, uploads: seq<Upload>, i: nat, fault: Fault)
    requires i < |uploads| && AtFault(author, uploads, i, fault)
    requires i == 0 || GoodAudience(author, uploads[..i])
    ensures FirstFault(author, uploads) == Some(fault)
  {
    if i > 0 {
      NoFaultIsGood(author, uploads[..i]);
    }
    FaultAt(author, uploads, i);
    if uploads[i].recipient != author {
      var j :| 0 <= j < i && uploads[j].recipient == uploads[i].recipient;
      assert uploads[..i][j] in uploads[..i];
    }
    FaultStays(author, uploads, i + 1);
  }

  /** Why a post is refused, the first reason in this order. */
  lemma PostRefusedFor(s: State, contacts: set<(nat, nat)>, id: nat, author: nat, uploads: seq<Upload>)
    ensures var fault := PostFault(s, contacts, id, author, uploads);
            if uploads == [] then fault == Some(NoRecipients)
            else if !GoodAudience(author, uploads) then fault == FirstFault(author, uploads) && fault.Some?
            else if exists u :: u in uploads && !((author, u.recipient) in contacts && u.recipient in s.accounts
                                                  && s.accounts[u.recipient].active) then fault == Some(NotAnActiveContact)
            else if id in s.posts then fault == Some(PostExists)
            else fault == None
  {
    if uploads != [] {
      NoFaultIsGood(author, uploads);
      var all := Recipients(uploads);
      var allowed := AllowedRecipients(s, contacts, author, all);
      if u :| u in uploads && !((author, u.recipient) in contacts && u.recipient in s.accounts
                                && s.accounts[u.recipient].active) {
        assert u.recipient in all && u.recipient !in allowed;
      } else {
        forall m | m in all ensures m in allowed {
          var u :| u in uploads && u.recipient == m;
        }
      }
    }
    hide GoodAudience, FirstFault;
  }

  class FeedTables {
    var mailboxes: set<nat>
    var accounts: map<nat, Profile>
    var contacts: set<(nat, nat)>
    var posts: map<nat, Post>
    var deliveries: map<Delivery, string>
    var replies: map<nat, Reply>
    ghost var checked: map<nat, Reply>

    ghost function Value(): State
      reads this
    {
      State(mailboxes, accounts, posts, deliveries, replies, checked)
    }

    /** create_feed_post: checks, then one transaction with a loop over the deliveries. */
    method CreateFeedPost(id: nat, post: Post, uploads: seq<Upload>) returns (fault: Option<Fault>)
      requires post.author in mailboxes && accounts.Keys <= mailboxes
      modifies this
      ensures fault == PostFault(old(Value()), old(contacts), id, post.author, uploads)
      ensures fault.None? ==>
                Allowed(old(Value()), CreatePost(id, post, uploads))
                && Value() == Next(old(Value()), CreatePost(id, post, uploads))
      ensures fault.Some? ==> Value() == old(Value())
      ensures contacts == old(contacts) && accounts == old(accounts) && mailboxes == old(mailboxes) && replies == old(replies)
      ensures fault.None? ==> id !in old(posts) && posts == old(posts)[id := post]
      ensures fault.None? ==> forall i :: 0 <= i < |uploads| ==>
                Delivery(id, uploads[i].recipient) in deliveries
                && deliveries[Delivery(id, uploads[i].recipient)] == uploads[i].ciphertext
      ensures fault.None? ==> forall d: Delivery :: (forall i :: 0 <= i < |uploads| ==> !IsFor(d, id, uploads[i])) ==>
                (d in deliveries <==> d in old(deliveries)) && (d in old(deliveries) ==> deliveries[d] == old(deliveries)[d])
    {
      if uploads == [] {
        return Some(NoRecipients);
      }
      var seen;
      fault, seen := CheckAudience(post.author, uploads);
      if fault.Some? {
        return;
      }
      NoFaultIsGood(post.author, uploads);
      var allowed := set m | m in seen && (post.author, m) in contacts && m in accounts && accounts[m].active;
      assert allowed == AllowedRecipients(Value(), contacts, post.author, seen);
      if |allowed| != |seen| || !(seen <= allowed) {
        SameSizeIfSubset(seen, allowed);
        return Some(NotAnActiveContact);
      }
      if id in posts {
        return Some(PostExists);
      }
      assert forall u :: u in uploads ==> u.recipient in seen;
      var staged := StoreDeliveries(deliveries, id, uploads);
      PostWrites(Value(), id, post, uploads);
      posts, deliveries := posts[id := post], staged;
    }

    /** The reading part of create_feed_reply, down to the reply it is about to store. */
    method CheckReply(
      handler: nat, viewer: nat, id: nat, requested: Option<nat>, now: int, ttl: nat,
      authorText: string, recipientText: string)
      returns (r: Checked, reply: Option<Reply>)
      requires handler !in checked
      modifies this`checked
      ensures r == CheckRecipient(old(Value()), viewer, id, requested, now)
      ensures reply.Some? <==> r.Recipient?
      ensures r.Recipient? ==>
                && id in posts && checked == old(checked)[handler := reply.value]
                && reply.value.post == id && reply.value.author == viewer && reply.value.recipient == r.mailbox
                && reply.value.authorText == authorText && reply.value.recipientText == recipientText
                && reply.value.created == now
                && reply.value.expires == (if now + ttl < posts[id].expires then now + ttl else posts[id].expires)
      ensures var e := Event.CheckReply(handler, viewer, id, requested, now, ttl, authorText, recipientText);
              if r.Recipient? then
                Allowed(old(Value()), e) && Value() == Next(old(Value()), e) && reply == Some(checked[handler])
              else Value() == old(Value())
    {
      reply := None;
      if id !in posts || posts[id].expires <= now {
        return Refused(PostNotFound), None;
      }
      var post := posts[id];
      var viewerIsAuthor := post.author == viewer;
      if !viewerIsAuthor && Delivery(id, viewer) !in deliveries {
        return Refused(PostNotFound), None;
      }
      if post.noReplies {
        return Refused(RepliesDisabled), None;
      }
      var recipient;
      if viewerIsAuthor {
        if requested.None? {
          return Refused(RecipientRequired), None;
        }
        recipient := requested.value;
        if Delivery(id, recipient) !in deliveries || recipient !in accounts || !accounts[recipient].active {
          return Refused(NotAnActiveRecipient), None;
        }
      } else {
        if requested.Some? && requested.value != post.author {
          return Refused(NotThePostAuthor), None;
        }
        recipient := post.author;
      }
      if recipient == viewer {
        return Refused(OwnMailbox), None;
      }
      r := Recipient(recipient);
      var requestedExpiry := now + ttl;
      var expires := if requestedExpiry < post.expires then requestedExpiry else post.expires;
      reply := Some(Reply(id, viewer, recipient, authorText, recipientText, now, expires));
      checked := checked[handler := reply.value];
    }

    /** The later statement of create_feed_reply. */
    method InsertReply(handler: nat, replyId: nat, reply: Reply) returns (ok: bool)
      requires handler in checked && reply == checked[handler]
      modifies this
      ensures ok <==> replyId !in old(replies) && reply.post in posts
                      && reply.author in mailboxes && reply.recipient in mailboxes
      ensures replies == if ok then old(replies)[replyId := reply] else old(replies)
      ensures posts == old(posts) && deliveries == old(deliveries) && accounts == old(accounts) && mailboxes == old(mailboxes)
      ensures ok <==> Allowed(old(Value()), Event.InsertReply(handler, replyId))
      ensures Value() == if ok then Next(old(Value()), Event.InsertReply(handler, replyId)) else old(Value())
      ensures contacts == old(contacts)
    {
      ok := replyId !in replies && reply.post in posts && reply.author in mailboxes && reply.recipient in mailboxes;
      if ok {
        replies := replies[replyId := reply];
        checked := checked - {handler};
      }
    }
  }

  lemma SameSizeIfSubset(seen: set<nat>, allowed: set<nat>)
    requires allowed <= seen
    ensures |allowed| != |seen| || !(seen <= allowed) <==> !(seen <= allowed)
  {
    if seen <= allowed {
      assert seen == allowed;
    }
  }

  /** The loop of delivery inserts. */
  method StoreDeliveries(deliveries: map<Delivery, string>, id: nat, uploads: seq<Upload>)
    returns (staged: map<Delivery, string>)
    ensures staged == Delivered(deliveries, id, uploads)
  {
    staged := deliveries;
    var i := 0;
    while i < |uploads|
      invariant 0 <= i <= |uploads| && staged == Delivered(deliveries, id, uploads[..i])
    {
      assert uploads[..i + 1][..i] == uploads[..i];
      staged := staged[Delivery(id, uploads[i].recipient) := uploads[i].ciphertext];
      i := i + 1;
    }
    assert uploads[..i] == uploads;
  }

  // Listing

  datatype Row = Row(post: nat, ciphertext: string, created: int, authored: bool)

  datatype ReplyRow = ReplyRow(id: nat, post: nat, ciphertext: string, created: int, authored: bool)

  datatype Listed = Listed(row: Row, targets: set<nat>, replies: seq<ReplyRow>)

  /** A row of the union of the viewer's own posts and the posts delivered to it. */
  predicate IsRow(s: State, viewer: nat, now: int, row: Row) {
    && row.post in s.posts && s.posts[row.post].expires > now && row.created == s.posts[row.post].created
    && (if row.authored then s.posts[row.post].author == viewer && row.ciphertext == s.posts[row.post].ciphertext
        else Delivery(row.post, viewer) in s.deliveries && row.ciphertext == s.deliveries[Delivery(row.post, viewer)])
  }

  /** After a post is stored, each recipient is listed the text uploaded for it, and the author its own. */
  lemma EachSeesItsText(
    s: State, id: nat, post: Post, uploads: seq<Upload>, i: nat, viewer: nat, now: int, row: Row)
    requires TablesOk(s) && Allowed(s, CreatePost(id, post, uploads)) && i < |uploads|
    requires row.post == id && now < post.expires
    requires viewer == uploads[i].recipient || viewer == post.author
    ensures IsRow(Next(s, CreatePost(id, post, uploads)), viewer, now, row)
            <==> if viewer == uploads[i].recipient then row == Row(id, uploads[i].ciphertext, post.created, false)
                 else row == Row(id, post.ciphertext, post.created, true)
  {
    PostWrites(s, id, post, uploads);
    var d := Delivery(id, viewer);
    if viewer == post.author {
      assert forall j :: 0 <= j < |uploads| ==> !IsFor(d, id, uploads[j]);
    }
    hide Next;
  }

  /** What the query may answer: the newest rows, up to the limit, each once. */
  ghost predicate IsListing(s: State, viewer: nat, now: int, limit: nat, rows: seq<Row>) {
    && |rows| <= limit
    && (forall i, j :: 0 <= i < j < |rows| ==> rows[i] != rows[j] && rows[i].created >= rows[j].created)
    && (forall row :: row in rows ==> IsRow(s, viewer, now, row))
    && (forall row :: IsRow(s, viewer, now, row) && row !in rows ==>
          |rows| == limit && forall r :: r in rows ==> r.created >= row.created)
  }

  function Posts(rows: seq<Row>): set<nat> {
    set r | r in rows :: r.post
  }

  /** A reply to a listed post, by or to the viewer. */
  predicate IsReplyRow(s: State, viewer: nat, now: int, posts: set<nat>, row: ReplyRow) {
    && row.id in s.replies
    && var r := s.replies[row.id];
       && r.post in posts && r.expires > now && (r.author == viewer || r.recipient == viewer)
       && row == ReplyRow(row.id, r.post, if r.author == viewer then r.authorText else r.recipientText,
                          r.created, r.author == viewer)
  }

  /** The author of a reply is shown the text it kept for itself, the recipient the one meant for it; nobody else any. */
  lemma EachSeesItsReply(s: State, viewer: nat, now: int, posts: set<nat>, row: ReplyRow)
    requires row.id in s.replies
    ensures var r := s.replies[row.id];
            IsReplyRow(s, viewer, now, posts, row) <==>
              && r.post in posts && now < r.expires && row.post == r.post && row.created == r.created
              && if viewer == r.author then row.ciphertext == r.authorText && row.authored
                 else viewer == r.recipient && row.ciphertext == r.recipientText && !row.authored
  {
  }

  ghost predicate IsReplyListing(s: State, viewer: nat, now: int, posts: set<nat>, rows: seq<ReplyRow>) {
    && (forall i, j :: 0 <= i < j < |rows| ==> rows[i] != rows[j] && rows[i].created <= rows[j].created)
    && (forall row :: row in rows <==> IsReplyRow(s, viewer, now, posts, row))
  }

  /** The replies to one post, in the order they came. */
  function RepliesTo(rows: seq<ReplyRow>, post: nat): seq<ReplyRow> {
    if rows == [] then []
    else
      var before, last := RepliesTo(rows[..|rows| - 1], post), rows[|rows| - 1];
      if last.post == post then before + [last] else before
  }

  /** They stand in the order they came in. */
  lemma {:induction false} RepliesInOrder(rows: seq<ReplyRow>, post: nat, i: nat, j: nat) returns (a: nat, b: nat)
    requires i < j < |RepliesTo(rows, post)|
    ensures a < b < |rows| && rows[a] == RepliesTo(rows, post)[i] && rows[b] == RepliesTo(rows, post)[j]
  {
    var n := |rows| - 1;
    if j < |RepliesTo(rows[..n], post)| {
      a, b := RepliesInOrder(rows[..n], post, i, j);
    } else {
      a := ReplyFrom(rows[..n], post, i);
      b := n;
    }
  }

  lemma {:induction false} ReplyFrom(rows: seq<ReplyRow>, post: nat, i: nat) returns (a: nat)
    requires i < |RepliesTo(rows, post)|
    ensures a < |rows| && rows[a] == RepliesTo(rows, post)[i] && rows[a].post == post
  {
    var n := |rows| - 1;
    if i < |RepliesTo(rows[..n], post)| {
      a := ReplyFrom(rows[..n], post, i);
    } else {
      a := n;
    }
  }

  function Taken(grouped: map<nat, seq<ReplyRow>>, post: nat): seq<ReplyRow> {
    if post in grouped then grouped[post] else []
  }

  /** The loop that groups replies by post. */
  method GroupReplies(rows: seq<ReplyRow>) returns (grouped: map<nat, seq<ReplyRow>>)
    ensures forall p :: Taken(grouped, p) == RepliesTo(rows, p)
  {
    grouped := map[];
    var i := 0;
    while i < |rows|
      invariant 0 <= i <= |rows|
      invariant forall p :: Taken(grouped, p) == RepliesTo(rows[..i], p)
    {
      assert rows[..i + 1][..i] == rows[..i];
      ghost var before := grouped;
      assert Taken(grouped, rows[i].post) == RepliesTo(rows[..i], rows[i].post);
      grouped := grouped[rows[i].post := Taken(grouped, rows[i].post) + [rows[i]]];
      assert forall p :: Taken(grouped, p) == if p == rows[i].post then Taken(before, p) + [rows[i]] else Taken(before, p);
      i := i + 1;
    }
    assert rows[..i] == rows;
  }

  /** What the listing shows for row `i`: a post listed before has taken its replies already. */
  function ListedAt(s: State, viewer: nat, rows: seq<Row>, replies: seq<ReplyRow>, i: nat): Listed
    requires i < |rows| && rows[i].post in s.posts
  {
    Listed(rows[i], ReplyTargets(s, viewer, rows[i].post),
           if rows[i].post in Posts(rows[..i]) then [] else RepliesTo(replies, rows[i].post))
  }

  /** A listed post: its row, whom it can be answered to, and its replies unless they were listed before. */
  lemma ListedWrites(s: State, viewer: nat, rows: seq<Row>, replies: seq<ReplyRow>, i: nat, x: nat)
    requires i < |rows| && rows[i].post in s.posts
    ensures var listed, id := ListedAt(s, viewer, rows, replies, i), rows[i].post;
            && listed.row == rows[i]
            && (x in listed.targets <==>
                  && !s.posts[id].noReplies
                  && if s.posts[id].author == viewer then
                       Delivery(id, x) in s.deliveries && x in s.accounts && s.accounts[x].active
                     else x == s.posts[id].author)
            && (listed.replies == if exists k :: 0 <= k < i && rows[k].post == id then [] else RepliesTo(replies, id))
  {
    TargetsAre(s, viewer, rows[i].post, x);
    if k :| 0 <= k < i && rows[k].post == rows[i].post {
      assert rows[..i][k] in rows[..i] && rows[..i][k].post in Posts(rows[..i]);
    }
    hide ReplyTargets, RepliesTo;
  }

  /** The loop that builds the answer, taking each post's replies out of the map. */
  method ListFeedPosts(s: State, viewer: nat, rows: seq<Row>, replies: seq<ReplyRow>) returns (out: seq<Listed>)
    requires forall row :: row in rows ==> row.post in s.posts
    ensures |out| == |rows|
    ensures forall i :: 0 <= i < |rows| ==> rows[i].post in s.posts && out[i] == ListedAt(s, viewer, rows, replies, i)
  {
    var grouped := GroupReplies(replies);
    out := [];
    var i := 0;
    UntakenAtFirst(grouped, rows, replies);
    hide Untaken, Taken, Posts, RepliesTo, ReplyTargets, ListedAt;
    while i < |rows|
      invariant 0 <= i <= |rows| && |out| == i
      invariant Untaken(grouped, rows, i, replies)
      invariant forall j :: 0 <= j < i ==> rows[j].post in s.posts && out[j] == ListedAt(s, viewer, rows, replies, j)
    {
      var row := rows[i];
      assert row in rows;
      TakeOne(s, viewer, grouped, rows, i, replies);
      var taken := Taken(grouped, row.post);
      grouped := grouped - {row.post};
      out := out + [Listed(row, ReplyTargets(s, viewer, row.post), taken)];
      i := i + 1;
    }
  }

  /** The map still holds the replies of every post not yet listed. */
  ghost predicate Untaken(grouped: map<nat, seq<ReplyRow>>, rows: seq<Row>, i: nat, replies: seq<ReplyRow>)
    requires i <= |rows|
  {
    forall p :: Taken(grouped, p) == if p in Posts(rows[..i]) then [] else RepliesTo(replies, p)
  }

  lemma UntakenAtFirst(grouped: map<nat, seq<ReplyRow>>, rows: seq<Row>, replies: seq<ReplyRow>)
    requires forall p :: Taken(grouped, p) == RepliesTo(replies, p)
    ensures Untaken(grouped, rows, 0, replies)
  {
    hide Taken, RepliesTo;
  }

  lemma TakeOne(
    s: State, viewer: nat, grouped: map<nat, seq<ReplyRow>>, rows: seq<Row>, i: nat, replies: seq<ReplyRow>)
    requires i < |rows| && rows[i].post in s.posts && Untaken(grouped, rows, i, replies)
    ensures ListedAt(s, viewer, rows, replies, i)
            == Listed(rows[i], ReplyTargets(s, viewer, rows[i].post), Taken(grouped, rows[i].post))
    ensures Untaken(grouped - {rows[i].post}, rows, i + 1, replies)
  {
    OnePostMore(rows, i);
    assert forall p :: Taken(grouped - {rows[i].post}, p) == if p == rows[i].post then [] else Taken(grouped, p);
  }

  lemma OnePostMore(rows: seq<Row>, i: nat)
    requires i < |rows|
    ensures Posts(rows[..i + 1]) == Posts(rows[..i]) + {rows[i].post}
  {
    assert rows[..i + 1] == rows[..i] + [rows[i]];
    assert rows[i] in rows[..i + 1];
  }

  /** No post is listed twice: nobody is delivered a post of its own. */
  lemma EachPostOnce(s: State, viewer: nat, now: int, limit: nat, rows: seq<Row>, i: nat, j: nat)
    requires TablesOk(s) && IsListing(s, viewer, now, limit, rows) && i < j < |rows|
    ensures rows[i].post != rows[j].post
  {
    assert rows[i] in rows && rows[j] in rows;
    if rows[i].post == rows[j].post {
      SamePostSameRow(s, viewer, now, rows[i], rows[j]);
    }
  }

  lemma SamePostSameRow(s: State, viewer: nat, now: int, a: Row, b: Row)
    requires TablesOk(s) && IsRow(s, viewer, now, a) && IsRow(s, viewer, now, b) && a.post == b.post
    ensures a == b
  {
  }

  lemma {:induction false} RepliesToAre(rows: seq<ReplyRow>, post: nat, row: ReplyRow)
    requires forall i, j :: 0 <= i < j < |rows| ==> rows[i] != rows[j]
    ensures multiset(RepliesTo(rows, post))[row] == if row in rows && row.post == post then 1 else 0
  {
    if rows != [] {
      var n := |rows| - 1;
      assert rows == rows[..n] + [rows[n]];
      RepliesToAre(rows[..n], post, row);
      forall i | 0 <= i < n ensures rows[..n][i] != rows[n] {
      }
    }
  }

  /** Posts are listed from the newest on, and nothing newer is left out. */
  lemma ListedNewestFirst(
    s: State, viewer: nat, now: int, limit: nat, rows: seq<Row>, replies: seq<ReplyRow>, out: seq<Listed>, row: Row,
    i: nat, j: nat)
    requires IsListing(s, viewer, now, limit, rows) && |out| == |rows| && i < j < |rows|
    requires forall i :: 0 <= i < |rows| ==> rows[i].post in s.posts && out[i] == ListedAt(s, viewer, rows, replies, i)
    ensures out[i].row.created >= out[j].row.created
    ensures IsRow(s, viewer, now, row) && row !in rows ==> |out| == limit && out[j].row.created >= row.created
  {
    assert rows[j] in rows;
  }

  /** The replies under a post are shown from the oldest on. */
  lemma RepliesOldestFirst(
    s: State, viewer: nat, now: int, rows: seq<Row>, replies: seq<ReplyRow>, i: nat, k: nat, l: nat)
    requires IsReplyListing(s, viewer, now, Posts(rows), replies)
    requires i < |rows| && rows[i].post in s.posts && k < l < |ListedAt(s, viewer, rows, replies, i).replies|
    ensures var shown := ListedAt(s, viewer, rows, replies, i).replies;
            shown[k].created <= shown[l].created && shown[k].post == rows[i].post
  {
    var a, b := RepliesInOrder(replies, rows[i].post, k, l);
    var c := ReplyFrom(replies, rows[i].post, k);
  }

  /** The answer shows a reply under row `i` as often as this. */
  function Shown(out: seq<Listed>, i: nat, row: ReplyRow): nat
    requires i < |out|
  {
    multiset(out[i].replies)[row]
  }

  /** The one place of a reply to a listed post. */
  ghost predicate AttachedAt(out: seq<Listed>, row: ReplyRow, i: nat) {
    && i < |out| && out[i].row.post == row.post
    && forall j :: 0 <= j < |out| ==> Shown(out, j, row) == if j == i then 1 else 0
  }

  /**
    From one state, the answer lists each post once, attaches every visible reply to a listed
    post exactly once, to that post, and attaches nothing else.
   */
  lemma RepliesAttachedOnce(
    s: State, viewer: nat, now: int, limit: nat, rows: seq<Row>, replies: seq<ReplyRow>, out: seq<Listed>, row: ReplyRow)
    requires TablesOk(s) && IsListing(s, viewer, now, limit, rows)
    requires IsReplyListing(s, viewer, now, Posts(rows), replies)
    requires |out| == |rows|
    requires forall i :: 0 <= i < |rows| ==> rows[i].post in s.posts && out[i] == ListedAt(s, viewer, rows, replies, i)
    ensures IsReplyRow(s, viewer, now, Posts(rows), row) ==> exists i :: AttachedAt(out, row, i)
    ensures !IsReplyRow(s, viewer, now, Posts(rows), row) ==> forall i :: 0 <= i < |out| ==> Shown(out, i, row) == 0
  {
    forall i | 0 <= i < |out|
      ensures Shown(out, i, row)
              == if IsReplyRow(s, viewer, now, Posts(rows), row) && row.post == rows[i].post then 1 else 0 {
      forall k | 0 <= k < i ensures rows[k].post != rows[i].post {
        EachPostOnce(s, viewer, now, limit, rows, k, i);
      }
      RepliesToAre(replies, rows[i].post, row);
    }
    if IsReplyRow(s, viewer, now, Posts(rows), row) {
      var r :| r in rows && r.post == row.post;
      var i: nat :| i < |rows| && rows[i] == r;
      forall j | 0 <= j < |out| && j != i ensures rows[j].post != row.post {
        if j < i {
          EachPostOnce(s, viewer, now, limit, rows, j, i);
        } else {
          EachPostOnce(s, viewer, now, limit, rows, i, j);
        }
      }
      assert AttachedAt(out, row, i);
    }
  }
}

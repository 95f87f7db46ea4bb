/** The `send-broadcasts` scheduled task: each run takes the oldest broadcast in
    `sending`, checks it, fetches the next page of its audience after the
    cursor `meta.lastProcessedContactId`, queues one `send-email` job per
    contact of the page and advances the cursor; an empty page completes the
    broadcast. */
module Dispatcher {
  import opened Common
  import opened Store

  /** The `broadcastConfig` options the task reads. */
  datatype BroadcastConfig = BroadcastConfig(batchSize: Option<nat>, emailQueueName: Option<string>)

  const DefaultBatchSize: nat := 100
  const SendEmailTask := "send-email"

  /** `batchSize || 100`: an unset or zero batch size means 100. */
  function BatchSize(cfg: BroadcastConfig): (n: nat)
    ensures n >= 1
    ensures cfg.batchSize.Some? && cfg.batchSize.value > 0 ==> n == cfg.batchSize.value
    ensures cfg.batchSize.None? || cfg.batchSize.value == 0 ==> n == 100
  {
    match cfg.batchSize
    case Some(k) => if k > 0 then k else DefaultBatchSize
    case None => DefaultBatchSize
  }

  /** `emailQueueName || 'send-emails'`. */
  function EmailQueueName(cfg: BroadcastConfig): (q: string)
    ensures q != ""
    ensures cfg.emailQueueName.Some? && cfg.emailQueueName.value != "" ==> q == cfg.emailQueueName.value
  {
    match cfg.emailQueueName
    case Some(n) => if n != "" then n else "send-emails"
    case None => "send-emails"
  }

  /** `BroadcastSchema.safeParse(...).success`. `isEmail` stands for zod's
      email format check. */
  predicate SchemaAccepts(b: Broadcast, isEmail: string -> bool)
  {
    && b.content != Undefined && b.content != Null
    && isEmail(b.fromAddress)
    && |b.fromName| >= 1
    && b.meta.contactsCount >= 0
    && b.meta.lastProcessedContactId >= 0
    && b.meta.processedCount >= 0
    && |b.subject| >= 1
    && (b.to == "all" || b.to == "tags")
  }

  /** The ids of a list of tag references. */
  function TagIds(ts: seq<TagRef>): (ids: seq<nat>)
    ensures |ids| == |ts| && forall i :: 0 <= i < |ts| ==> ids[i] == ts[i].Id()
  {
    if ts == [] then [] else [ts[0].Id()] + TagIds(ts[1..])
  }

  /** The contact query of one run: opted in, id after the cursor, and, when
      present, sharing a tag with `tagIds`. */
  datatype ContactsWhere = ContactsWhere(cursor: int, tagIds: Option<seq<nat>>)

  /** `buildContactsWhereClause`: the tag condition is added only for
      `to = 'tags'` with a non-empty tag list. */
  function BuildContactsWhere(b: Broadcast): (w: ContactsWhere)
    ensures w.cursor == b.meta.lastProcessedContactId
    ensures w.tagIds.Some? <==> b.to == "tags" && b.tags.Some? && |b.tags.value| > 0
    ensures w.tagIds.Some? ==> w.tagIds.value == TagIds(b.tags.value)
  {
    ContactsWhere(
      b.meta.lastProcessedContactId,
      if b.to == "tags" && b.tags.Some? && |b.tags.value| > 0 then Some(TagIds(b.tags.value)) else None)
  }

  /** Some tag of `tags` is in `wanted`. */
  predicate SharesTag(tags: seq<nat>, wanted: seq<nat>)
  {
    tags != [] && (tags[0] in wanted || SharesTag(tags[1..], wanted))
  }

  lemma {:induction false} SharesTagIff(tags: seq<nat>, wanted: seq<nat>)
    ensures SharesTag(tags, wanted) <==> exists t :: t in tags && t in wanted
  {
    if tags != [] {
      SharesTagIff(tags[1..], wanted);
      assert forall t :: t in tags[1..] ==> t in tags;
      assert forall t :: t in tags && t != tags[0] ==> t in tags[1..];
    }
  }

  /** `tags: { in: tagIds }` on a has-many relationship: some tag in common. */
  predicate TagMatch(c: Contact, tagIds: Option<seq<nat>>)
  {
    tagIds.None? || SharesTag(c.tags, tagIds.value)
  }

  predicate Matches(c: Contact, w: ContactsWhere)
  {
    OptedIn(c) && c.id > w.cursor && TagMatch(c, w.tagIds)
  }

  /** Strictly increasing ids. */
  predicate SortedById(cs: seq<Contact>)
  {
    forall i, j :: 0 <= i < j < |cs| ==> cs[i].id < cs[j].id
  }

  /** The contacts of a consistent store are in id order. */
  lemma ConsistentSorted(s: State)
    requires Consistent(s)
    ensures SortedById(s.contacts)
  {
    var ids := ContactIds(s.contacts);
    assert forall i, j :: 0 <= i < j < |s.contacts| ==> ids[i] < ids[j];
  }

  /** A contact with a smaller id than every contact of a sorted list can
      go in front of it. */
  lemma SortedCons(x: Contact, rest: seq<Contact>)
    requires SortedById(rest) && forall c :: c in rest ==> x.id < c.id
    ensures SortedById([x] + rest)
  {
    var r := [x] + rest;
    forall i, j | 0 <= i < j < |r| ensures r[i].id < r[j].id {
      assert r[j] == rest[j - 1];
      if i > 0 {
        assert r[i] == rest[i - 1];
      }
    }
  }

  /** The contacts the query matches, in id order. */
  function Select(cs: seq<Contact>, w: ContactsWhere): (r: seq<Contact>)
    ensures forall c :: c in r <==> c in cs && Matches(c, w)
    ensures SortedById(cs) ==> SortedById(r)
  {
    if cs == [] then []
    else
      var rest := Select(cs[1..], w);
      assert forall c :: c in cs[1..] ==> c in cs;
      if Matches(cs[0], w) then
        (if SortedById(cs) then
           assert forall c :: c in cs[1..] ==> cs[0].id < c.id by {
             forall c | c in cs[1..] ensures cs[0].id < c.id {
               var k :| 0 <= k < |cs[1..]| && cs[1..][k] == c;
               assert c == cs[k + 1];
             }
           }
           SortedCons(cs[0], rest);
           [cs[0]] + rest
         else [cs[0]] + rest)
      else rest
  }

  /** The query returns nothing exactly when no contact matches it. */
  lemma SelectEmptyIff(cs: seq<Contact>, w: ContactsWhere)
    ensures Select(cs, w) == [] <==> forall c :: c in cs ==> !Matches(c, w)
  {
    var r := Select(cs, w);
    if r != [] {
      assert r[0] in r;
    }
  }

  /** `find({ where, sort: 'id', limit })` */
  function Page(cs: seq<Contact>, w: ContactsWhere, limit: nat): (p: seq<Contact>)
  {
    var all := Select(cs, w);
    if |all| <= limit then all else all[..limit]
  }

  /** The jobs queued for a page: one `send-email` job per contact, in order. */
  function JobsFor(broadcastId: nat, page: seq<Contact>, queue: string): (js: seq<Job>)
    ensures |js| == |page|
    ensures forall k :: 0 <= k < |page| ==> js[k] == Job(SendEmailTask, queue, broadcastId, page[k].id)
  {
    if page == [] then []
    else JobsFor(broadcastId, page[..|page| - 1], queue) + [Job(SendEmailTask, queue, broadcastId, page[|page| - 1].id)]
  }

  /** The first broadcast (lowest id) in `sending`. */
  function FirstSending(bs: seq<Broadcast>): (r: Option<nat>)
    ensures r.Some? ==> r.value < |bs| && bs[r.value].status == Sending
    ensures r.Some? ==> forall i :: 0 <= i < r.value ==> bs[i].status != Sending
    ensures r.None? ==> forall i :: 0 <= i < |bs| ==> bs[i].status != Sending
  {
    if bs == [] then None
    else if bs[0].status == Sending then Some(0)
    else match FirstSending(bs[1..])
      case None => None
      case Some(k) => Some(k + 1)
  }

  /** The meta update after queuing a non-empty page: the cursor becomes the
      page's last id and `processedCount` grows by the page length;
      `contactsCount` keeps its value. */
  function Advance(m: Meta, page: seq<Contact>): Meta
    requires page != []
  {
    m.(lastProcessedContactId := page[|page| - 1].id, processedCount := m.processedCount + |page|)
  }

  datatype PollResult = PollResult(state: State, success: bool)

  /** The store with the status of the broadcast at `i` replaced. */
  function WithStatus(s: State, i: nat, status: BroadcastStatus): State
    requires i < |s.broadcasts|
  {
    s.(broadcasts := s.broadcasts[i := s.broadcasts[i].(status := status)])
  }

  /** The store after queuing `page` for the broadcast at `i` and advancing
      its meta. */
  function Enqueued(s: State, i: nat, page: seq<Contact>, queue: string): State
    requires i < |s.broadcasts| && page != []
  {
    var b := s.broadcasts[i];
    s.(jobs := s.jobs + JobsFor(b.id, page, queue), broadcasts := s.broadcasts[i := b.(meta := Advance(b.meta, page))])
  }

  /** One run of the task, as a function of the store before it. */
  function Poll(s: State, cfg: BroadcastConfig, isEmail: string -> bool): (r: PollResult)
    ensures |r.state.broadcasts| == |s.broadcasts| && r.state.contacts == s.contacts
  {
    match FirstSending(s.broadcasts)
    case None => PollResult(s, true)
    case Some(i) =>
      var b := s.broadcasts[i];
      if !SchemaAccepts(b, isEmail) then PollResult(WithStatus(s, i, Failed), false)
      else
        var page := Page(s.contacts, BuildContactsWhere(b), BatchSize(cfg));
        if page == [] then PollResult(WithStatus(s, i, Sent), true)
        else PollResult(Enqueued(s, i, page, EmailQueueName(cfg)), true)
  }

  /** The task's handler, step by step against the store. */
  method RunSendBroadcasts(st: Store, cfg: BroadcastConfig, isEmail: string -> bool) returns (success: bool)
    modifies st
    ensures PollResult(st.View(), success) == Poll(old(st.View()), cfg, isEmail)
  {
    var found := FirstSending(st.broadcasts);
    if found.None? {
      return true;
    }
    var i := found.value;
    var b := st.broadcasts[i];
    if !SchemaAccepts(b, isEmail) {
      st.broadcasts := st.broadcasts[i := b.(status := Failed)];
      return false;
    }
    var contacts := Page(st.contacts, BuildContactsWhere(b), BatchSize(cfg));
    if |contacts| == 0 {
      st.broadcasts := st.broadcasts[i := b.(status := Sent)];
      return true;
    }
    var queue := EmailQueueName(cfg);
    for k := 0 to |contacts|
      invariant st.View() == old(st.View()).(jobs := old(st.jobs) + JobsFor(b.id, contacts[..k], queue))
    {
      assert contacts[..k + 1][..k] == contacts[..k];
      st.jobs := st.jobs + [Job(SendEmailTask, queue, b.id, contacts[k].id)];
    }
    assert contacts[..|contacts|] == contacts;
    st.broadcasts := st.broadcasts[i := b.(meta := Advance(b.meta, contacts))];
    return true;
  }

  // ---------------------------------------------------------------------
  // What one run does.

  /** A page holds at most `limit` contacts, all matching the query, in id
      order; it is empty only when nothing matches; and it is a prefix of the
      matches, so every match up to its last id is in it. */
  lemma PageFacts(cs: seq<Contact>, w: ContactsWhere, limit: nat)
    requires SortedById(cs) && limit >= 1
    ensures var p := Page(cs, w, limit);
      && |p| <= limit
      && SortedById(p)
      && (forall c :: c in p ==> c in cs && Matches(c, w))
      && (p == [] <==> Select(cs, w) == [])
      && (p != [] ==> forall c :: c in cs && Matches(c, w) && c.id <= p[|p| - 1].id ==> c in p)
  {
    var all := Select(cs, w);
    var p := Page(cs, w, limit);
    assert p == all[..|p|];
    assert forall c :: c in p ==> c in all;
    if p != [] {
      forall c | c in cs && Matches(c, w) && c.id <= p[|p| - 1].id
        ensures c in p
      {
        assert c in all;
        var j :| 0 <= j < |all| && all[j] == c;
        assert all[|p| - 1] == p[|p| - 1];
        assert j < |p|;
        assert p[j] == c;
      }
    }
  }

  /** With no broadcast in `sending`, a run succeeds and changes nothing. */
  lemma PollWithoutSendingIsIdle(s: State, cfg: BroadcastConfig, isEmail: string -> bool)
    requires forall i :: 0 <= i < |s.broadcasts| ==> s.broadcasts[i].status != Sending
    ensures Poll(s, cfg, isEmail) == PollResult(s, true)
  {
  }

  /** `i` is the oldest broadcast in `sending`. */
  predicate OldestSending(bs: seq<Broadcast>, i: nat)
  {
    i < |bs| && bs[i].status == Sending && forall j :: 0 <= j < i ==> bs[j].status != Sending
  }

  /** A broadcast the schema rejects is marked `failed`, the run reports
      failure, and no job is queued and nothing else is written. */
  lemma PollRejectsInvalidBroadcast(s: State, cfg: BroadcastConfig, isEmail: string -> bool, i: nat)
    requires OldestSending(s.broadcasts, i) && !SchemaAccepts(s.broadcasts[i], isEmail)
    ensures var r := Poll(s, cfg, isEmail);
      && !r.success
      && r.state == s.(broadcasts := s.broadcasts[i := s.broadcasts[i].(status := Failed)])
  {
    assert FirstSending(s.broadcasts) == Some(i);
  }

  /** When nothing is left after the cursor, the broadcast is marked `sent`:
      its meta stays as it was and no job is queued. */
  lemma PollCompletesBroadcast(s: State, cfg: BroadcastConfig, isEmail: string -> bool, i: nat)
    requires OldestSending(s.broadcasts, i) && SchemaAccepts(s.broadcasts[i], isEmail)
    requires forall c :: c in s.contacts ==> !Matches(c, BuildContactsWhere(s.broadcasts[i]))
    ensures var r := Poll(s, cfg, isEmail);
      && r.success
      && r.state == s.(broadcasts := s.broadcasts[i := s.broadcasts[i].(status := Sent)])
  {
    assert FirstSending(s.broadcasts) == Some(i);
    SelectEmptyIff(s.contacts, BuildContactsWhere(s.broadcasts[i]));
  }

  /** When some contact matches after the cursor, the run queues the page. */
  lemma PollQueuesWhenMatching(s: State, cfg: BroadcastConfig, isEmail: string -> bool, i: nat)
    requires Consistent(s)
    requires OldestSending(s.broadcasts, i) && SchemaAccepts(s.broadcasts[i], isEmail)
    requires exists c :: c in s.contacts && Matches(c, BuildContactsWhere(s.broadcasts[i]))
    ensures var p := Page(s.contacts, BuildContactsWhere(s.broadcasts[i]), BatchSize(cfg));
      && p != []
      && Poll(s, cfg, isEmail) == PollResult(Enqueued(s, i, p, EmailQueueName(cfg)), true)
  {
    assert FirstSending(s.broadcasts) == Some(i);
    var w := BuildContactsWhere(s.broadcasts[i]);
    ConsistentSorted(s);
    PageFacts(s.contacts, w, BatchSize(cfg));
    var c :| c in s.contacts && Matches(c, w);
    assert c in Select(s.contacts, w);
  }

  /** Queuing a page adds exactly one `send-email` job per contact of the
      page, at most a batch of them, each for this broadcast and for a
      contact that is opted in, past the cursor and, for `to = 'tags'`,
      shares a tag; the jobs already queued stay as they were. */
  lemma EnqueuedJobs(s: State, cfg: BroadcastConfig, i: nat)
    requires SortedById(s.contacts) && i < |s.broadcasts|
    requires Page(s.contacts, BuildContactsWhere(s.broadcasts[i]), BatchSize(cfg)) != []
    ensures var b := s.broadcasts[i];
      var w := BuildContactsWhere(b);
      var s' := Enqueued(s, i, Page(s.contacts, w, BatchSize(cfg)), EmailQueueName(cfg));
      && |s.jobs| < |s'.jobs| <= |s.jobs| + BatchSize(cfg)
      && s'.jobs[..|s.jobs|] == s.jobs
      && forall k :: |s.jobs| <= k < |s'.jobs| ==>
           && s'.jobs[k].task == "send-email" && s'.jobs[k].queue == EmailQueueName(cfg)
           && s'.jobs[k].broadcastId == b.id
           && exists c :: c in s.contacts && c.id == s'.jobs[k].contactId && Matches(c, w)
  {
    var w := BuildContactsWhere(s.broadcasts[i]);
    var p := Page(s.contacts, w, BatchSize(cfg));
    PageFacts(s.contacts, w, BatchSize(cfg));
    PageJobs(s, i, p, EmailQueueName(cfg), w);
  }

  /** The jobs a matching page adds, for any page. */
  lemma PageJobs(s: State, i: nat, p: seq<Contact>, q: string, w: ContactsWhere)
    requires i < |s.broadcasts| && p != []
    requires forall c :: c in p ==> c in s.contacts && Matches(c, w)
    ensures var s' := Enqueued(s, i, p, q);
      && |s'.jobs| == |s.jobs| + |p|
      && s'.jobs[..|s.jobs|] == s.jobs
      && forall k :: |s.jobs| <= k < |s'.jobs| ==>
           && s'.jobs[k].task == SendEmailTask && s'.jobs[k].queue == q
           && s'.jobs[k].broadcastId == s.broadcasts[i].id
           && exists c :: c in s.contacts && c.id == s'.jobs[k].contactId && Matches(c, w)
  {
    var news := JobsFor(s.broadcasts[i].id, p, q);
    var jobs := s.jobs + news;
    assert Enqueued(s, i, p, q).jobs == jobs;
    forall k | |s.jobs| <= k < |jobs|
      ensures exists c :: c in s.contacts && c.id == jobs[k].contactId && Matches(c, w)
    {
      assert jobs[k] == news[k - |s.jobs|];
      assert p[k - |s.jobs|] in p;
    }
  }

  /** Queuing a page keeps the broadcast in `sending` and moves its cursor
      strictly forward, to the page's last and largest id, which is the
      contact id of the last job queued; `processedCount` grows by the number
      of jobs queued and `contactsCount` and every other broadcast are kept. */
  lemma EnqueuedAdvancesCursor(s: State, cfg: BroadcastConfig, i: nat)
    requires SortedById(s.contacts) && i < |s.broadcasts|
    requires Page(s.contacts, BuildContactsWhere(s.broadcasts[i]), BatchSize(cfg)) != []
    ensures var b := s.broadcasts[i];
      var s' := Enqueued(s, i, Page(s.contacts, BuildContactsWhere(b), BatchSize(cfg)), EmailQueueName(cfg));
      var m' := s'.broadcasts[i].meta;
      && |s'.broadcasts| == |s.broadcasts|
      && (forall j :: 0 <= j < |s.broadcasts| && j != i ==> s'.broadcasts[j] == s.broadcasts[j])
      && s'.broadcasts[i] == b.(meta := m')
      && m'.contactsCount == b.meta.contactsCount
      && m'.processedCount == b.meta.processedCount + (|s'.jobs| - |s.jobs|)
      && m'.lastProcessedContactId > b.meta.lastProcessedContactId
      && m'.lastProcessedContactId == s'.jobs[|s'.jobs| - 1].contactId
      && (forall k :: |s.jobs| <= k < |s'.jobs| ==> s'.jobs[k].contactId <= m'.lastProcessedContactId)
  {
    var b := s.broadcasts[i];
    var w := BuildContactsWhere(b);
    var p := Page(s.contacts, w, BatchSize(cfg));
    PageFacts(s.contacts, w, BatchSize(cfg));
    var s' := Enqueued(s, i, p, EmailQueueName(cfg));
    var news := JobsFor(b.id, p, EmailQueueName(cfg));
    assert s'.jobs == s.jobs + news;
    assert p[|p| - 1] in p;
    forall k | |s.jobs| <= k < |s'.jobs|
      ensures s'.jobs[k].contactId <= p[|p| - 1].id
    {
      assert s'.jobs[k] == news[k - |s.jobs|];
    }
  }

  // ---------------------------------------------------------------------
  // Across runs: no contact is queued twice for a broadcast.

  /** The contact ids of the jobs queued for one broadcast, in queue order. */
  function JobContactIds(jobs: seq<Job>, broadcastId: nat): (ids: seq<nat>)
    ensures |ids| <= |jobs|
    ensures forall c :: c in ids <==>
              exists j :: 0 <= j < |jobs| && jobs[j].broadcastId == broadcastId && jobs[j].contactId == c
  {
    if jobs == [] then []
    else
      var last := jobs[|jobs| - 1];
      JobContactIds(jobs[..|jobs| - 1], broadcastId) + (if last.broadcastId == broadcastId then [last.contactId] else [])
  }

  lemma {:induction false} JobContactIdsAppend(a: seq<Job>, b: seq<Job>, broadcastId: nat)
    ensures JobContactIds(a + b, broadcastId) == JobContactIds(a, broadcastId) + JobContactIds(b, broadcastId)
    decreases |b|
  {
    if b == [] {
      assert a + b == a;
    } else {
      var b0 := b[..|b| - 1];
      assert (a + b)[..|a + b| - 1] == a + b0;
      assert (a + b)[|a + b| - 1] == b[|b| - 1];
      JobContactIdsAppend(a, b0, broadcastId);
    }
  }

  /** The jobs of a page carry exactly the page's contact ids, and none for
      any other broadcast. */
  lemma {:induction false} JobsForContactIds(broadcastId: nat, page: seq<Contact>, queue: string, other: nat)
    ensures JobContactIds(JobsFor(broadcastId, page, queue), broadcastId) == ContactIds(page)
    ensures other != broadcastId ==> JobContactIds(JobsFor(broadcastId, page, queue), other) == []
    decreases |page|
  {
    if page != [] {
      var front := page[..|page| - 1];
      JobsForContactIds(broadcastId, front, queue, other);
      var js := JobsFor(broadcastId, page, queue);
      assert js[..|js| - 1] == JobsFor(broadcastId, front, queue);
      assert ContactIds(page) == ContactIds(front) + [page[|page| - 1].id];
    }
  }

  /** Ids queued so far are increasing and none lies past the cursor. */
  predicate QueuedUpTo(ids: seq<nat>, cursor: int)
  {
    Increasing(ids) && forall k :: 0 <= k < |ids| ==> ids[k] <= cursor
  }

  /** A draft broadcast has no jobs; a sending one has its jobs queued in
      increasing contact order, none past its cursor. */
  predicate DispatchInvariant(s: State)
  {
    forall i :: 0 <= i < |s.broadcasts| ==>
      var b := s.broadcasts[i];
      && (b.status == Draft ==> JobContactIds(s.jobs, b.id) == [])
      && (b.status == Sending ==> QueuedUpTo(JobContactIds(s.jobs, b.id), b.meta.lastProcessedContactId))
  }

  /** Appending the ids of a sorted page past the cursor keeps the queued ids
      increasing, none past the page's last id. */
  lemma QueuedUpToAppend(olds: seq<nat>, cursor: int, p: seq<Contact>)
    requires QueuedUpTo(olds, cursor)
    requires p != [] && SortedById(p)
    requires forall c :: c in p ==> c.id > cursor
    ensures QueuedUpTo(olds + ContactIds(p), p[|p| - 1].id)
  {
    var ids := olds + ContactIds(p);
    assert forall k :: 0 <= k < |p| ==> p[k] in p;
    forall k1, k2 | 0 <= k1 < k2 < |ids| ensures ids[k1] < ids[k2] {
      if k2 < |olds| {
      } else if k1 < |olds| {
        assert olds[k1] <= cursor;
        assert ids[k2] == p[k2 - |olds|].id;
      } else {
        assert ids[k1] == p[k1 - |olds|].id;
        assert ids[k2] == p[k2 - |olds|].id;
      }
    }
    forall k | 0 <= k < |ids| ensures ids[k] <= p[|p| - 1].id {
      if k >= |olds| {
        assert ids[k] == p[k - |olds|].id;
      } else {
        assert olds[k] <= cursor;
      }
    }
  }

  /** Queuing a page of ids past the cursor, in increasing order, keeps the
      dispatch invariant. */
  lemma EnqueuedKeepsDispatchInvariant(s: State, i: nat, p: seq<Contact>, q: string)
    requires Consistent(s) && DispatchInvariant(s)
    requires i < |s.broadcasts| && s.broadcasts[i].status == Sending
    requires p != [] && SortedById(p)
    requires forall c :: c in p ==> c.id > s.broadcasts[i].meta.lastProcessedContactId
    ensures DispatchInvariant(Enqueued(s, i, p, q))
  {
    var b := s.broadcasts[i];
    var s' := Enqueued(s, i, p, q);
    forall j | 0 <= j < |s'.broadcasts|
      ensures var bj := s'.broadcasts[j];
        && (bj.status == Draft ==> JobContactIds(s'.jobs, bj.id) == [])
        && (bj.status == Sending ==> QueuedUpTo(JobContactIds(s'.jobs, bj.id), bj.meta.lastProcessedContactId))
    {
      var id := s.broadcasts[j].id;
      JobContactIdsAppend(s.jobs, JobsFor(b.id, p, q), id);
      JobsForContactIds(b.id, p, q, id);
      if j == i {
        QueuedUpToAppend(JobContactIds(s.jobs, id), b.meta.lastProcessedContactId, p);
      } else {
        assert BroadcastIds(s.broadcasts)[i] == b.id;
        assert s'.broadcasts[j] == s.broadcasts[j];
      }
    }
  }

  /** Each run keeps the dispatch invariant: the ids it queues for a
      broadcast lie strictly between the old cursor and the new one, so no
      contact is ever queued twice for the same broadcast, whatever happens to
      the contacts between runs. */
  lemma PollKeepsDispatchInvariant(s: State, cfg: BroadcastConfig, isEmail: string -> bool)
    requires Consistent(s) && DispatchInvariant(s)
    ensures Consistent(Poll(s, cfg, isEmail).state)
    ensures DispatchInvariant(Poll(s, cfg, isEmail).state)
  {
    match FirstSending(s.broadcasts)
    case None =>
    case Some(i) =>
      var b := s.broadcasts[i];
      if !SchemaAccepts(b, isEmail) {
        WithStatusKeeps(s, i, Failed);
      } else {
        var w := BuildContactsWhere(b);
        var p := Page(s.contacts, w, BatchSize(cfg));
        if p == [] {
          WithStatusKeeps(s, i, Sent);
        } else {
          ConsistentSorted(s);
          PageFacts(s.contacts, w, BatchSize(cfg));
          EnqueuedKeepsDispatchInvariant(s, i, p, EmailQueueName(cfg));
          EnqueuedKeepsConsistent(s, i, p, EmailQueueName(cfg));
        }
      }
  }

  /** Marking a broadcast `failed` or `sent` keeps the ids and the dispatch
      invariant. */
  lemma WithStatusKeeps(s: State, i: nat, status: BroadcastStatus)
    requires Consistent(s) && DispatchInvariant(s) && i < |s.broadcasts|
    requires status != Draft && status != Sending
    ensures Consistent(WithStatus(s, i, status)) && DispatchInvariant(WithStatus(s, i, status))
  {
    var s' := WithStatus(s, i, status);
    assert BroadcastIds(s'.broadcasts) == BroadcastIds(s.broadcasts);
  }

  /** Queuing a page keeps the ids. */
  lemma EnqueuedKeepsConsistent(s: State, i: nat, p: seq<Contact>, q: string)
    requires Consistent(s) && i < |s.broadcasts| && p != []
    ensures Consistent(Enqueued(s, i, p, q))
  {
    var s' := Enqueued(s, i, p, q);
    assert BroadcastIds(s'.broadcasts) == BroadcastIds(s.broadcasts);
  }

  // ---------------------------------------------------------------------
  // Coverage and termination for a broadcast whose audience stays the same.

  /** The ids of the contacts the broadcast targets (any cursor) that lie at
      or before `cursor`. */
  ghost function Reached(cs: seq<Contact>, tagIds: Option<seq<nat>>, cursor: int): set<nat>
  {
    set c | c in cs && OptedIn(c) && TagMatch(c, tagIds) && c.id <= cursor :: c.id
  }

  /** The ids of all the contacts the broadcast targets. */
  ghost function AudienceIds(cs: seq<Contact>, tagIds: Option<seq<nat>>): set<nat>
  {
    set c | c in cs && OptedIn(c) && TagMatch(c, tagIds) :: c.id
  }

  /** The ids the query of the next run still matches. */
  ghost function Remaining(cs: seq<Contact>, w: ContactsWhere): set<nat>
  {
    set c | c in cs && Matches(c, w) :: c.id
  }

  ghost function Elems(ids: seq<nat>): set<nat>
  {
    set x | x in ids
  }

  /** The jobs queued for a broadcast are exactly its audience up to its cursor. */
  ghost predicate Covered(s: State, i: nat)
    requires i < |s.broadcasts|
  {
    var b := s.broadcasts[i];
    Elems(JobContactIds(s.jobs, b.id)) == Reached(s.contacts, BuildContactsWhere(b).tagIds, b.meta.lastProcessedContactId)
  }

  /** Queuing the next page of a covered broadcast keeps it covered, and the
      query of the next run matches strictly fewer contacts. */
  lemma EnqueuedCoverage(s: State, cfg: BroadcastConfig, i: nat)
    requires SortedById(s.contacts) && i < |s.broadcasts| && Covered(s, i)
    requires Page(s.contacts, BuildContactsWhere(s.broadcasts[i]), BatchSize(cfg)) != []
    ensures var b := s.broadcasts[i];
      var s' := Enqueued(s, i, Page(s.contacts, BuildContactsWhere(b), BatchSize(cfg)), EmailQueueName(cfg));
      && Covered(s', i)
      && Remaining(s'.contacts, BuildContactsWhere(s'.broadcasts[i])) < Remaining(s.contacts, BuildContactsWhere(b))
  {
    var w := BuildContactsWhere(s.broadcasts[i]);
    var p := Page(s.contacts, w, BatchSize(cfg));
    PageFacts(s.contacts, w, BatchSize(cfg));
    PageCovered(s, i, p, EmailQueueName(cfg));
    PageShrinksRemaining(s, i, p, EmailQueueName(cfg));
  }

  /** Every id queued so far or in a sorted page of matches is reached by the
      page's last id. */
  lemma ReachedIncludesQueued(cs: seq<Contact>, w: ContactsWhere, olds: seq<nat>, p: seq<Contact>)
    requires Elems(olds) == Reached(cs, w.tagIds, w.cursor)
    requires p != [] && SortedById(p) && forall c :: c in p ==> c in cs && Matches(c, w)
    ensures Elems(olds + ContactIds(p)) <= Reached(cs, w.tagIds, p[|p| - 1].id)
  {
    var last := p[|p| - 1].id;
    var ids := olds + ContactIds(p);
    assert p[|p| - 1] in p;
    forall x | x in Elems(ids) ensures x in Reached(cs, w.tagIds, last) {
      assert x in olds || x in ContactIds(p);
      if x in olds {
        assert x in Reached(cs, w.tagIds, w.cursor);
        var c :| c in cs && OptedIn(c) && TagMatch(c, w.tagIds) && c.id <= w.cursor && c.id == x;
        assert c.id <= last;
      } else {
        var k :| 0 <= k < |ContactIds(p)| && ContactIds(p)[k] == x;
        var c := p[k];
        assert c in p;
        assert c in cs && OptedIn(c) && TagMatch(c, w.tagIds) && c.id <= last && c.id == x;
      }
    }
  }

  /** Every id reached by the last id of a page that holds every match up to
      that id was queued so far or is in the page. */
  lemma QueuedIncludesReached(cs: seq<Contact>, w: ContactsWhere, olds: seq<nat>, p: seq<Contact>)
    requires Elems(olds) == Reached(cs, w.tagIds, w.cursor)
    requires p != []
    requires forall c :: c in cs && Matches(c, w) && c.id <= p[|p| - 1].id ==> c in p
    ensures Reached(cs, w.tagIds, p[|p| - 1].id) <= Elems(olds + ContactIds(p))
  {
    var last := p[|p| - 1].id;
    forall x | x in Reached(cs, w.tagIds, last) ensures x in olds + ContactIds(p) {
      var c :| c in cs && OptedIn(c) && TagMatch(c, w.tagIds) && c.id <= last && c.id == x;
      if c.id > w.cursor {
        assert Matches(c, w);
        var k :| 0 <= k < |p| && p[k] == c;
        assert ContactIds(p)[k] == x;
      } else {
        assert x in Reached(cs, w.tagIds, w.cursor);
        assert x in olds;
      }
    }
  }

  /** Adding the ids of a page that holds every match up to its last id to
      the ids reached by the cursor gives the ids reached by that last id. */
  lemma ReachedExtends(cs: seq<Contact>, w: ContactsWhere, olds: seq<nat>, p: seq<Contact>)
    requires Elems(olds) == Reached(cs, w.tagIds, w.cursor)
    requires p != [] && SortedById(p) && forall c :: c in p ==> c in cs && Matches(c, w)
    requires forall c :: c in cs && Matches(c, w) && c.id <= p[|p| - 1].id ==> c in p
    ensures Elems(olds + ContactIds(p)) == Reached(cs, w.tagIds, p[|p| - 1].id)
  {
    ReachedIncludesQueued(cs, w, olds, p);
    QueuedIncludesReached(cs, w, olds, p);
  }

  /** A page that holds every match up to its last id moves coverage to the
      new cursor. */
  lemma PageCovered(s: State, i: nat, p: seq<Contact>, q: string)
    requires i < |s.broadcasts| && Covered(s, i) && p != [] && SortedById(p)
    requires var w := BuildContactsWhere(s.broadcasts[i]);
      && (forall c :: c in p ==> c in s.contacts && Matches(c, w))
      && (forall c :: c in s.contacts && Matches(c, w) && c.id <= p[|p| - 1].id ==> c in p)
    ensures Covered(Enqueued(s, i, p, q), i)
  {
    var b := s.broadcasts[i];
    var w := BuildContactsWhere(b);
    var s' := Enqueued(s, i, p, q);
    assert s'.broadcasts[i] == b.(meta := Advance(b.meta, p));
    assert BuildContactsWhere(s'.broadcasts[i]).tagIds == w.tagIds;
    JobContactIdsAppend(s.jobs, JobsFor(b.id, p, q), b.id);
    JobsForContactIds(b.id, p, q, b.id);
    var olds := JobContactIds(s.jobs, b.id);
    assert JobContactIds(s'.jobs, b.id) == olds + ContactIds(p);
    ReachedExtends(s.contacts, w, olds, p);
  }

  /** Queuing a non-empty page of matches leaves strictly fewer matches for
      the next run. */
  lemma PageShrinksRemaining(s: State, i: nat, p: seq<Contact>, q: string)
    requires i < |s.broadcasts| && p != []
    requires forall c :: c in p ==> c in s.contacts && Matches(c, BuildContactsWhere(s.broadcasts[i]))
    ensures var s' := Enqueued(s, i, p, q);
      Remaining(s'.contacts, BuildContactsWhere(s'.broadcasts[i])) < Remaining(s.contacts, BuildContactsWhere(s.broadcasts[i]))
  {
    var w := BuildContactsWhere(s.broadcasts[i]);
    var s' := Enqueued(s, i, p, q);
    var last := p[|p| - 1].id;
    assert BuildContactsWhere(s'.broadcasts[i]) == w.(cursor := last);
    assert p[|p| - 1] in p;
    assert last in Remaining(s.contacts, w);
  }

  /** A covered broadcast whose query matches nothing more has had its whole
      audience queued. */
  lemma CompletedCoverage(s: State, i: nat)
    requires i < |s.broadcasts| && Covered(s, i)
    requires Remaining(s.contacts, BuildContactsWhere(s.broadcasts[i])) == {}
    ensures var b := s.broadcasts[i];
      Elems(JobContactIds(s.jobs, b.id)) == AudienceIds(s.contacts, BuildContactsWhere(b).tagIds)
  {
    var w := BuildContactsWhere(s.broadcasts[i]);
    forall x | x in AudienceIds(s.contacts, w.tagIds) ensures x in Reached(s.contacts, w.tagIds, w.cursor) {
      var c :| c in s.contacts && OptedIn(c) && TagMatch(c, w.tagIds) && c.id == x;
      assert c.id !in Remaining(s.contacts, w);
    }
  }

  /** A run on a covered broadcast keeps it covered while it is sending, and
      the query of the next run then matches strictly fewer contacts, so with
      an unchanged audience the broadcast reaches `sent`; when it is marked
      `sent`, the jobs queued for it are its whole audience. */
  lemma PollCoverage(s: State, cfg: BroadcastConfig, isEmail: string -> bool, i: nat)
    requires Consistent(s)
    requires OldestSending(s.broadcasts, i) && SchemaAccepts(s.broadcasts[i], isEmail)
    requires Covered(s, i)
    ensures var r := Poll(s, cfg, isEmail);
      var b := s.broadcasts[i];
      var b' := r.state.broadcasts[i];
      && (b'.status == Sending || b'.status == Sent)
      && (b'.status == Sending ==> Covered(r.state, i))
      && (b'.status == Sending ==>
            Remaining(r.state.contacts, BuildContactsWhere(b')) < Remaining(s.contacts, BuildContactsWhere(b)))
      && (b'.status == Sent ==>
            Elems(JobContactIds(r.state.jobs, b.id)) == AudienceIds(s.contacts, BuildContactsWhere(b).tagIds))
  {
    assert FirstSending(s.broadcasts) == Some(i);
    var b := s.broadcasts[i];
    var w := BuildContactsWhere(b);
    var p := Page(s.contacts, w, BatchSize(cfg));
    ConsistentSorted(s);
    if p == [] {
      PageFacts(s.contacts, w, BatchSize(cfg));
      SelectEmptyIff(s.contacts, w);
      CompletedCoverage(s, i);
    } else {
      EnqueuedCoverage(s, cfg, i);
    }
  }

  // ---------------------------------------------------------------------
  // Paging through consecutive ids.

  /** Contacts with ids `base, base + 1, ...`, all opted in. */
  predicate OptedInFrom(cs: seq<Contact>, base: int)
  {
    forall k :: 0 <= k < |cs| ==> cs[k].id == base + k && OptedIn(cs[k])
  }

  /** `x` limited to the range `0..n`. */
  function Clamp(x: int, n: nat): (r: nat)
    ensures r <= n
    ensures 0 <= x <= n ==> r == x
    ensures x < 0 ==> r == 0
    ensures x > n ==> r == n
  {
    if x < 0 then 0 else if x > n then n else x
  }

  /** Without a tag condition, the query on consecutive opted-in ids matches
      exactly the contacts past the cursor. */
  lemma {:induction false} SelectConsecutive(cs: seq<Contact>, w: ContactsWhere, base: int)
    requires OptedInFrom(cs, base) && w.tagIds.None?
    ensures Select(cs, w) == cs[Clamp(w.cursor - base + 1, |cs|)..]
    decreases |cs|
  {
    if cs != [] {
      var rest := cs[1..];
      assert OptedInFrom(rest, base + 1);
      SelectConsecutive(rest, w, base + 1);
      if w.cursor - base + 1 > 0 {
        assert rest[Clamp(w.cursor - base, |rest|)..] == cs[Clamp(w.cursor - base + 1, |cs|)..];
      }
    }
  }

  /** On consecutive opted-in ids from 1, a page without a tag condition is
      the next `limit` contacts after the cursor (fewer at the end), and its
      last id is where the cursor moves. */
  lemma ConsecutivePage(cs: seq<Contact>, w: ContactsWhere, limit: nat)
    requires OptedInFrom(cs, 1) && w.tagIds.None? && 0 <= w.cursor <= |cs|
    ensures var next := if w.cursor + limit < |cs| then w.cursor + limit else |cs|;
      var p := Page(cs, w, limit);
      && |p| == next - w.cursor
      && (p != [] ==> p[|p| - 1].id == next)
  {
    SelectConsecutive(cs, w, 1);
    assert Clamp(w.cursor, |cs|) == w.cursor;
    assert Select(cs, w) == cs[w.cursor..];
    var p := Page(cs, w, limit);
    if p != [] {
      assert p[|p| - 1] == cs[w.cursor + |p| - 1];
    }
  }

  /** One run on a broadcast to all of `n` consecutive opted-in contacts with
      the cursor at `c`: at `c = n` it is marked `sent`; before that the
      cursor moves to `min(c + batch, n)`, `processedCount` grows by the page
      length, and the broadcast stays the oldest sending one and valid. */
  lemma PollOnConsecutive(s: State, cfg: BroadcastConfig, isEmail: string -> bool, i: nat)
    requires OldestSending(s.broadcasts, i) && SchemaAccepts(s.broadcasts[i], isEmail)
    requires BuildContactsWhere(s.broadcasts[i]).tagIds.None?
    requires OptedInFrom(s.contacts, 1)
    requires 0 <= s.broadcasts[i].meta.lastProcessedContactId <= |s.contacts|
    ensures var b := s.broadcasts[i];
      var c := b.meta.lastProcessedContactId;
      var n := |s.contacts|;
      var r := Poll(s, cfg, isEmail);
      var next := if c + BatchSize(cfg) < n then c + BatchSize(cfg) else n;
      && r.success
      && r.state.contacts == s.contacts
      && (c == n ==> r.state.broadcasts[i] == b.(status := Sent))
      && (c < n ==>
            && r.state.broadcasts[i] == b.(meta := b.meta.(lastProcessedContactId := next, processedCount := b.meta.processedCount + (next - c)))
            && OldestSending(r.state.broadcasts, i)
            && SchemaAccepts(r.state.broadcasts[i], isEmail)
            && BuildContactsWhere(r.state.broadcasts[i]).tagIds.None?)
  {
    assert FirstSending(s.broadcasts) == Some(i);
    var b := s.broadcasts[i];
    var w := BuildContactsWhere(b);
    ConsecutivePage(s.contacts, w, BatchSize(cfg));
    var p := Page(s.contacts, w, BatchSize(cfg));
    if b.meta.lastProcessedContactId < |s.contacts| {
      var s' := Enqueued(s, i, p, EmailQueueName(cfg));
      assert Poll(s, cfg, isEmail) == PollResult(s', true);
      assert s'.broadcasts == s.broadcasts[i := b.(meta := Advance(b.meta, p))];
      assert forall j :: 0 <= j < i ==> s'.broadcasts[j] == s.broadcasts[j];
    }
  }

  /** 250 contacts with ids 1 to 250, all opted in, a broadcast to all of them
      and the default batch size: the cursor goes 100, 200, 250, and the
      fourth run marks the broadcast `sent`. */
  lemma TwoHundredFiftyContactsTakeFourRuns(s: State, cfg: BroadcastConfig, isEmail: string -> bool, i: nat)
    requires OldestSending(s.broadcasts, i) && SchemaAccepts(s.broadcasts[i], isEmail)
    requires s.broadcasts[i].to == "all" && s.broadcasts[i].meta.lastProcessedContactId == 0
    requires OptedInFrom(s.contacts, 1) && |s.contacts| == 250
    requires cfg.batchSize.None?
    ensures var s1 := Poll(s, cfg, isEmail).state;
      var s2 := Poll(s1, cfg, isEmail).state;
      var s3 := Poll(s2, cfg, isEmail).state;
      var s4 := Poll(s3, cfg, isEmail).state;
      && s1.broadcasts[i].status == Sending && s1.broadcasts[i].meta.lastProcessedContactId == 100
      && s2.broadcasts[i].status == Sending && s2.broadcasts[i].meta.lastProcessedContactId == 200
      && s3.broadcasts[i].status == Sending && s3.broadcasts[i].meta.lastProcessedContactId == 250
      && s4.broadcasts[i].status == Sent
  {
    PollOnConsecutive(s, cfg, isEmail, i);
    var s1 := Poll(s, cfg, isEmail).state;
    PollOnConsecutive(s1, cfg, isEmail, i);
    var s2 := Poll(s1, cfg, isEmail).state;
    PollOnConsecutive(s2, cfg, isEmail, i);
    var s3 := Poll(s2, cfg, isEmail).state;
    PollOnConsecutive(s3, cfg, isEmail, i);
  }
}

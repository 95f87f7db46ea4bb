/** Deriving an email's status from its activity log: the beforeChange hook of
    the Email collection. */
module SyncStatus {
  import opened Common
  import opened EmailTypes

  /** `activityTypeToStatus`: which activities carry a status. */
  function ActivityTypeToStatus(a: ActivityType): Option<EmailStatus>
  {
    match a
    case Bounced => Some(EmailStatus.Bounced)
    case Complained => Some(EmailStatus.Complained)
    case Delivered => Some(EmailStatus.Delivered)
    case Sent => Some(EmailStatus.Sent)
    case Unsubscribed => Some(EmailStatus.Unsubscribed)
    case _ => None
  }

  /** `statusPriority`: a higher index is a more significant status. */
  const StatusPriority: seq<EmailStatus> :=
    [EmailStatus.Queued, EmailStatus.Sent, EmailStatus.Delivered,
     EmailStatus.Bounced, EmailStatus.Complained, EmailStatus.Unsubscribed]

  /** `getStatusPriority`: the index in `StatusPriority`, or 0 when absent. */
  function GetStatusPriority(s: EmailStatus): nat
  {
    match s
    case Queued => 0
    case Sent => 1
    case Delivered => 2
    case Bounced => 3
    case Complained => 4
    case Unsubscribed => 5
    case Failed => 0
  }

  /** An activity carries the status of the same name, and clicked,
      delivery_delayed, failed, opened and received carry none. */
  lemma ActivityStatusNames(a: ActivityType)
    ensures ActivityTypeToStatus(a).Some? ==> StatusName(ActivityTypeToStatus(a).value) == ActivityName(a)
    ensures ActivityTypeToStatus(a).None? <==>
              a in {ActivityType.Clicked, ActivityType.DeliveryDelayed, ActivityType.Failed,
                    ActivityType.Opened, ActivityType.Received}
  {
  }

  /** A listed status's priority is its index in `StatusPriority`; an
      unlisted one has priority 0. */
  lemma StatusPriorityIndex(s: EmailStatus)
    ensures s in StatusPriority ==>
              GetStatusPriority(s) < |StatusPriority| && StatusPriority[GetStatusPriority(s)] == s
    ensures s !in StatusPriority ==> GetStatusPriority(s) == 0
  {
  }

  /** The status an entry maps to, if any. */
  function Mapped(item: ActivityItem): Option<EmailStatus>
  {
    ActivityTypeToStatus(item.kind)
  }

  /** `getStatusFromActivity` as a left fold over the log: the loop of the source
      keeps the first status of strictly greatest priority seen so far. */
  function DerivedStatus(activity: seq<ActivityItem>): Option<EmailStatus>
    decreases |activity|
  {
    if activity == [] then None
    else
      var before := DerivedStatus(activity[..|activity| - 1]);
      var m := Mapped(activity[|activity| - 1]);
      if m.Some? && (before.None? || GetStatusPriority(m.value) > GetStatusPriority(before.value))
      then m else before
  }

  /** `s` is the most significant status among the log's mapped statuses. */
  ghost predicate IsMostSignificant(activity: seq<ActivityItem>, s: EmailStatus)
  {
    && (exists i :: 0 <= i < |activity| && Mapped(activity[i]) == Some(s))
    && (forall i :: 0 <= i < |activity| && Mapped(activity[i]).Some? ==>
          GetStatusPriority(Mapped(activity[i]).value) <= GetStatusPriority(s))
  }

  /** The derived status is absent exactly when no entry carries a status. */
  lemma {:induction false} DerivedStatusNoneIff(activity: seq<ActivityItem>)
    ensures DerivedStatus(activity).None? <==>
              forall i :: 0 <= i < |activity| ==> Mapped(activity[i]).None?
    decreases |activity|
  {
    if activity != [] {
      var n := |activity| - 1;
      var init := activity[..n];
      DerivedStatusNoneIff(init);
      assert forall i :: 0 <= i < n ==> activity[i] == init[i];
    }
  }

  /** One more entry keeps the derived status the most significant one. */
  lemma MostSignificantSnoc(init: seq<ActivityItem>, x: ActivityItem)
    requires DerivedStatus(init).None? ==> forall i :: 0 <= i < |init| ==> Mapped(init[i]).None?
    requires DerivedStatus(init).Some? ==> IsMostSignificant(init, DerivedStatus(init).value)
    ensures DerivedStatus(init + [x]).Some? ==> IsMostSignificant(init + [x], DerivedStatus(init + [x]).value)
  {
    var a := init + [x];
    assert a[..|init|] == init;
    assert forall i :: 0 <= i < |init| ==> a[i] == init[i];
    var before := DerivedStatus(init);
    var m := Mapped(x);
    if m.Some? && (before.None? || GetStatusPriority(m.value) > GetStatusPriority(before.value)) {
      assert Mapped(a[|init|]) == m;
    } else if before.Some? {
      var i :| 0 <= i < |init| && Mapped(init[i]) == Some(before.value);
      assert Mapped(a[i]) == Some(before.value);
    }
  }

  /** The derived status is absent exactly when no entry carries a status, and
      otherwise is the mapped status of highest priority. */
  lemma {:induction false} DerivedStatusIsMostSignificant(activity: seq<ActivityItem>)
    ensures DerivedStatus(activity).None? <==>
              forall i :: 0 <= i < |activity| ==> Mapped(activity[i]).None?
    ensures DerivedStatus(activity).Some? ==> IsMostSignificant(activity, DerivedStatus(activity).value)
    decreases |activity|
  {
    DerivedStatusNoneIff(activity);
    if activity != [] {
      var n := |activity| - 1;
      var init := activity[..n];
      DerivedStatusIsMostSignificant(init);
      assert activity == init + [activity[n]];
      MostSignificantSnoc(init, activity[n]);
    }
  }

  /** Statuses that activities can map to have pairwise distinct priorities. */
  lemma MappedPrioritiesDistinct(a: ActivityType, b: ActivityType)
    requires ActivityTypeToStatus(a).Some? && ActivityTypeToStatus(b).Some?
    requires GetStatusPriority(ActivityTypeToStatus(a).value) == GetStatusPriority(ActivityTypeToStatus(b).value)
    ensures ActivityTypeToStatus(a) == ActivityTypeToStatus(b)
  {
  }

  /** The most significant status of a log is unique. */
  lemma MostSignificantUnique(activity: seq<ActivityItem>, s: EmailStatus, t: EmailStatus)
    requires IsMostSignificant(activity, s) && IsMostSignificant(activity, t)
    ensures s == t
  {
    var i :| 0 <= i < |activity| && Mapped(activity[i]) == Some(s);
    var j :| 0 <= j < |activity| && Mapped(activity[j]) == Some(t);
    MappedPrioritiesDistinct(activity[i].kind, activity[j].kind);
  }

  /** The activity types occurring in a log. */
  ghost function Kinds(activity: seq<ActivityItem>): set<ActivityType>
  {
    set i | 0 <= i < |activity| :: activity[i].kind
  }

  /** The most significant status of `a` stays most significant in a log `b`
      holding exactly the same activity types. */
  lemma MostSignificantTransfers(a: seq<ActivityItem>, b: seq<ActivityItem>, s: EmailStatus)
    requires Kinds(a) == Kinds(b)
    requires IsMostSignificant(a, s)
    ensures IsMostSignificant(b, s)
  {
    var i :| 0 <= i < |a| && Mapped(a[i]) == Some(s);
    assert a[i].kind in Kinds(b);
    var j :| 0 <= j < |b| && b[j].kind == a[i].kind;
    assert Mapped(b[j]) == Some(s);
    forall k | 0 <= k < |b| && Mapped(b[k]).Some?
      ensures GetStatusPriority(Mapped(b[k]).value) <= GetStatusPriority(s)
    {
      assert b[k].kind in Kinds(a);
      var i' :| 0 <= i' < |a| && a[i'].kind == b[k].kind;
      assert Mapped(a[i']) == Mapped(b[k]);
    }
  }

  /** Order independence: two logs holding the same activity types derive the
      same status, whatever the order or repetition of their entries. */
  lemma DerivedStatusOrderIndependent(a: seq<ActivityItem>, b: seq<ActivityItem>)
    requires Kinds(a) == Kinds(b)
    ensures DerivedStatus(a) == DerivedStatus(b)
  {
    DerivedStatusIsMostSignificant(a);
    DerivedStatusIsMostSignificant(b);
    if DerivedStatus(a).Some? {
      MostSignificantTransfers(a, b, DerivedStatus(a).value);
      MostSignificantUnique(b, DerivedStatus(a).value, DerivedStatus(b).value);
    } else if DerivedStatus(b).Some? {
      MostSignificantTransfers(b, a, DerivedStatus(b).value);
    }
  }

  /** A derived status is never `queued` or `failed`: in particular a `failed`
      activity never yields status `failed`. */
  lemma DerivedStatusRange(activity: seq<ActivityItem>)
    ensures DerivedStatus(activity).Some? ==>
              DerivedStatus(activity).value in {EmailStatus.Sent, EmailStatus.Delivered, EmailStatus.Bounced,
                                                EmailStatus.Complained, EmailStatus.Unsubscribed}
  {
    DerivedStatusIsMostSignificant(activity);
    if DerivedStatus(activity).Some? {
      var i :| 0 <= i < |activity| && Mapped(activity[i]) == DerivedStatus(activity);
    }
  }

  /** The worked examples: [sent, delivered, bounced] and [sent, bounced, delivered]
      both give bounced; [sent] alone gives sent. */
  lemma StatusPriorityExamples(t0: int, t1: int, t2: int)
    ensures DerivedStatus([ActivityItem(ActivityType.Sent, t0), ActivityItem(ActivityType.Delivered, t1),
                           ActivityItem(ActivityType.Bounced, t2)]) == Some(EmailStatus.Bounced)
    ensures DerivedStatus([ActivityItem(ActivityType.Sent, t0), ActivityItem(ActivityType.Bounced, t1),
                           ActivityItem(ActivityType.Delivered, t2)]) == Some(EmailStatus.Bounced)
    ensures DerivedStatus([ActivityItem(ActivityType.Sent, t0)]) == Some(EmailStatus.Sent)
  {
    var x := ActivityItem(ActivityType.Sent, t0);
    var d := ActivityItem(ActivityType.Delivered, t1);
    var bo := ActivityItem(ActivityType.Bounced, t2);
    assert [x][..0] == [];
    assert DerivedStatus([x]) == Some(EmailStatus.Sent);
    assert [x, d][..1] == [x];
    assert DerivedStatus([x, d]) == Some(EmailStatus.Delivered);
    assert [x, d, bo][..2] == [x, d];
    var b1 := ActivityItem(ActivityType.Bounced, t1);
    var d2 := ActivityItem(ActivityType.Delivered, t2);
    assert [x, b1][..1] == [x];
    assert DerivedStatus([x, b1]) == Some(EmailStatus.Bounced);
    assert [x, b1, d2][..2] == [x, b1];
  }

  /** `getStatusFromActivity`: the loop over the log, keeping the status of
      strictly greatest priority seen so far. */
  method GetStatusFromActivity(activity: seq<ActivityItem>) returns (highestPriorityStatus: Option<EmailStatus>)
    ensures highestPriorityStatus == DerivedStatus(activity)
    ensures highestPriorityStatus.None? <==> forall i :: 0 <= i < |activity| ==> Mapped(activity[i]).None?
    ensures highestPriorityStatus.Some? ==> IsMostSignificant(activity, highestPriorityStatus.value)
  {
    if |activity| == 0 {
      return None;
    }
    highestPriorityStatus := None;
    var highestPriority: int := -1;
    for i := 0 to |activity|
      invariant highestPriorityStatus == DerivedStatus(activity[..i])
      invariant highestPriority == if highestPriorityStatus.None? then -1 else GetStatusPriority(highestPriorityStatus.value)
    {
      assert activity[..i + 1][..i] == activity[..i];
      var status := ActivityTypeToStatus(activity[i].kind);
      if status.Some? {
        var priority := GetStatusPriority(status.value);
        if priority > highestPriority {
          highestPriority := priority;
          highestPriorityStatus := status;
        }
      }
    }
    assert activity[..|activity|] == activity;
    DerivedStatusIsMostSignificant(activity);
  }

  /** `syncStatusFromActivityBeforeChangeHook`: replaces `status` by the derived
      status when there is one and it differs; everything else is kept. */
  function SyncStatusFromActivity(data: EmailRecord): (r: EmailRecord)
    ensures r == data.(status := r.status)
    ensures DerivedStatus(data.activity).None? ==> r == data
    ensures DerivedStatus(data.activity).Some? ==> r.status == DerivedStatus(data.activity).value
  {
    if |data.activity| == 0 then data
    else
      var derivedStatus := DerivedStatus(data.activity);
      if derivedStatus.Some? && derivedStatus.value != data.status then data.(status := derivedStatus.value)
      else data
  }

  /** A missing or empty log leaves the document unchanged, and so does a log of
      entries none of which carries a status (opened, clicked, delivery_delayed,
      failed, received). */
  lemma SyncLeavesStatuslessLogs(data: EmailRecord)
    requires forall i :: 0 <= i < |data.activity| ==> Mapped(data.activity[i]).None?
    ensures SyncStatusFromActivity(data) == data
  {
    DerivedStatusIsMostSignificant(data.activity);
  }

  /** After the hook the status is the most significant mapped status of the
      log whenever the log has one. */
  lemma SyncStatusIsMostSignificant(data: EmailRecord)
    requires exists i :: 0 <= i < |data.activity| && Mapped(data.activity[i]).Some?
    ensures IsMostSignificant(data.activity, SyncStatusFromActivity(data).status)
  {
    DerivedStatusIsMostSignificant(data.activity);
  }

  /** The hook does not keep the more significant of the old and derived status:
      an `unsubscribed` document with only a `sent` entry becomes `sent`. */
  lemma SyncDoesNotKeepHigherIncomingStatus(data: EmailRecord, t: int)
    requires data.status == EmailStatus.Unsubscribed
    requires data.activity == [ActivityItem(ActivityType.Sent, t)]
    ensures SyncStatusFromActivity(data).status == EmailStatus.Sent
    ensures GetStatusPriority(EmailStatus.Sent) < GetStatusPriority(data.status)
  {
    assert data.activity[..0] == [];
    assert DerivedStatus(data.activity) == Some(EmailStatus.Sent);
  }
}

/** The `emails` collection: its select options, its access rules and the
    composition of its `beforeChange` hooks. */
module EmailsCollection {
  import opened Common
  import opened Access
  import opened EmailTypes
  import opened SyncStatus
  import opened CollectionHooks

  /** The values of the `status` select, in the order declared. */
  const StatusOptions: seq<string> :=
    ["queued", "failed", "sent", "delivered", "bounced", "unsubscribed", "complained"]

  /** The `status` field's `defaultValue`. */
  const StatusDefault: string := "draft"

  /** The values of the `type` select of an `activity` entry. */
  const ActivityTypeOptions: seq<string> :=
    ["sent", "delivered", "opened", "clicked", "bounced", "unsubscribed", "complained"]

  /** An activity entry of this type passes the select's validation. */
  predicate ActivityTypeAccepted(a: ActivityType)
  {
    ActivityName(a) in ActivityTypeOptions
  }

  /** The status options are exactly the names of the email statuses, and the
      default value `draft` is none of them. */
  lemma StatusOptionsAreStatuses()
    ensures forall s: EmailStatus :: StatusName(s) in StatusOptions
    ensures forall v :: v in StatusOptions ==> exists s: EmailStatus :: StatusName(s) == v
    ensures StatusDefault !in StatusOptions
  {
    forall v | v in StatusOptions
      ensures exists s: EmailStatus :: StatusName(s) == v
    {
      if v == "queued" { assert StatusName(EmailStatus.Queued) == v; }
      else if v == "failed" { assert StatusName(EmailStatus.Failed) == v; }
      else if v == "sent" { assert StatusName(EmailStatus.Sent) == v; }
      else if v == "delivered" { assert StatusName(EmailStatus.Delivered) == v; }
      else if v == "bounced" { assert StatusName(EmailStatus.Bounced) == v; }
      else if v == "unsubscribed" { assert StatusName(EmailStatus.Unsubscribed) == v; }
      else { assert StatusName(EmailStatus.Complained) == v; }
    }
  }

  /** The activity log accepts every type except `delivery_delayed`, `failed`
      and `received`, although providers report those. */
  lemma ActivityTypesAccepted(a: ActivityType)
    ensures ActivityTypeAccepted(a) <==>
      !(a == ActivityType.DeliveryDelayed || a == ActivityType.Failed || a == ActivityType.Received)
  {
  }

  /** The operations access is decided for. */
  datatype AccessOperation = ReadDocs | CreateDocs | UpdateDocs | DeleteDocs

  /** The collection's access rules: emails are written only by the plugin
      itself (through the local API, which skips access) and read by logged-in
      users. */
  function EmailsAccess(op: AccessOperation, user: UserField): (allowed: bool)
    ensures allowed <==> op == ReadDocs && user.Present?
  {
    match op
    case ReadDocs => Authenticated(user)
    case _ => false
  }

  /** The status hook, as a collection hook. */
  function SyncHook(op: Operation, data: EmailRecord): EmailRecord
  {
    SyncStatusFromActivity(data)
  }

  /** The `beforeChange` list as written: the status hook then the override's
      hooks, after which the override's whole `hooks` object is spread, so an
      override with a `beforeChange` key replaces the list. */
  function EmailsBeforeChangeAsWritten(ov: HooksOverride): (hooks: seq<Hook>)
    ensures ov.HooksOverride? && ov.beforeChange.Some? ==> PluginHook !in hooks
    ensures !(ov.HooksOverride? && ov.beforeChange.Some?) ==> hooks == [PluginHook]
  {
    var composed := [PluginHook] + UserHooks(ov);
    if ov.HooksOverride? && ov.beforeChange.Some? then UserHooks(ov) else composed
  }

  /** The `beforeChange` list as evidently intended: the status hook first,
      then the override's hooks in their order. */
  function EmailsBeforeChange(ov: HooksOverride): (hooks: seq<Hook>)
    ensures |hooks| >= 1 && hooks[0] == PluginHook && hooks[1..] == UserHooks(ov)
  {
    [PluginHook] + UserHooks(ov)
  }

  /** Without a `beforeChange` override the two agree, and saving runs the
      status hook alone, so the stored status is the one the log implies. */
  lemma EmailsHooksAgreeWithoutOverride(ov: HooksOverride, op: Operation, data: EmailRecord,
                                         user: (nat, Operation, EmailRecord) -> EmailRecord)
    requires !(ov.HooksOverride? && ov.beforeChange.Some?)
    ensures EmailsBeforeChangeAsWritten(ov) == EmailsBeforeChange(ov)
    ensures RunHooks(EmailsBeforeChange(ov), op, data, SyncHook, user) == SyncStatusFromActivity(data)
  {
    RunHooksFirst(PluginHook, [], op, data, SyncHook, user);
  }

  /** With the intended list the status hook sees the data first, whatever
      the override adds. */
  lemma SyncRunsFirst(ov: HooksOverride, op: Operation, data: EmailRecord,
                      user: (nat, Operation, EmailRecord) -> EmailRecord)
    ensures RunHooks(EmailsBeforeChange(ov), op, data, SyncHook, user)
         == RunHooks(UserHooks(ov), op, SyncStatusFromActivity(data), SyncHook, user)
  {
    RunHooksFirst(PluginHook, UserHooks(ov), op, data, SyncHook, user);
  }

  /** As written, an override whose `beforeChange` list is empty removes the
      status hook: a record logged as bounced but marked sent is saved as
      sent, where the intended list saves it as bounced. */
  lemma EmptyOverrideDropsSync(user: (nat, Operation, EmailRecord) -> EmailRecord)
    ensures var data := EmailRecord(1, 1, 1, "a@b.c", "", EmailStatus.Sent, "", "c@d.e", None,
                                    [ActivityItem(ActivityType.Bounced, 0)]);
      && EmailsBeforeChangeAsWritten(HooksOverride(Some(0))) == []
      && RunHooks(EmailsBeforeChangeAsWritten(HooksOverride(Some(0))), Update, data, SyncHook, user).status
         == EmailStatus.Sent
      && RunHooks(EmailsBeforeChange(HooksOverride(Some(0))), Update, data, SyncHook, user).status
         == EmailStatus.Bounced
  {
    var data := EmailRecord(1, 1, 1, "a@b.c", "", EmailStatus.Sent, "", "c@d.e", None,
                            [ActivityItem(ActivityType.Bounced, 0)]);
    assert DerivedStatus(data.activity) == Some(EmailStatus.Bounced);
    EmailsHooksAgreeWithoutOverride(NoHooksOverride, Update, data, user);
    assert EmailsBeforeChange(HooksOverride(Some(0))) == EmailsBeforeChange(NoHooksOverride);
  }
}

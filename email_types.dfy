/** The enumerations of src/types/index.ts and the Email document they describe. */
module EmailTypes {
  import opened Common

  /** `EmailStatus`. */
  datatype EmailStatus = Bounced | Complained | Delivered | Failed | Queued | Sent | Unsubscribed

  /** `EmailActivityType` together with `'unsubscribed'`, the extra activity the
      status hook accepts. */
  datatype ActivityType =
    | Bounced | Clicked | Complained | Delivered | DeliveryDelayed
    | Failed | Opened | Received | Sent | Unsubscribed

  /** The activity types a provider reports: `EmailActivityType` proper. */
  type EmailActivityType = a: ActivityType | !a.Unsubscribed? witness ActivityType.Sent

  /** The string value each status is stored under. */
  function StatusName(s: EmailStatus): string
  {
    match s
    case Bounced => "bounced"
    case Complained => "complained"
    case Delivered => "delivered"
    case Failed => "failed"
    case Queued => "queued"
    case Sent => "sent"
    case Unsubscribed => "unsubscribed"
  }

  /** The string value each activity type is stored under. */
  function ActivityName(a: ActivityType): string
  {
    match a
    case Bounced => "bounced"
    case Clicked => "clicked"
    case Complained => "complained"
    case Delivered => "delivered"
    case DeliveryDelayed => "delivery_delayed"
    case Failed => "failed"
    case Opened => "opened"
    case Received => "received"
    case Sent => "sent"
    case Unsubscribed => "unsubscribed"
  }

  /** One entry of an email's activity log; `timestamp` is in milliseconds. */
  datatype ActivityItem = ActivityItem(kind: ActivityType, timestamp: int)

  /** An Email document: one per (broadcast, contact) send. An absent `activity`
      array is the empty log. */
  datatype EmailRecord = EmailRecord(
    id: nat,
    broadcast: nat,
    contact: nat,
    from: string,
    html: string,
    status: EmailStatus,
    subject: string,
    to: string,
    providerId: Option<string>,
    activity: seq<ActivityItem>)
}

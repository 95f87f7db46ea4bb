/** The `broadcasts` collection: the status select, the dispatch counters'
    defaults, the access rules and the hook that keeps new broadcasts drafts. */
module BroadcastsCollection {
  import opened Common
  import opened Access
  import opened Store
  import opened CollectionHooks
  import opened SendBroadcastEndpoint

  /** The value each broadcast status is stored under. */
  function BroadcastStatusName(s: BroadcastStatus): string
  {
    match s
    case Draft => "draft"
    case Sending => "sending"
    case Failed => "failed"
    case Sent => "sent"
  }

  /** The values of the `status` select, in the order declared. */
  const StatusOptions: seq<string> := ["draft", "sending", "failed", "sent"]

  /** The `status` field's `defaultValue`. */
  const StatusDefault: string := "draft"

  /** The `meta` group's defaults. */
  const DefaultMeta: Meta := Meta(0, 0, 0)

  /** The options name each status once, and the default is the draft one. */
  lemma StatusOptionsAreStatuses()
    ensures forall s: BroadcastStatus :: BroadcastStatusName(s) in StatusOptions
    ensures forall s, t: BroadcastStatus :: BroadcastStatusName(s) == BroadcastStatusName(t) ==> s == t
    ensures |StatusOptions| == 4
    ensures StatusDefault == BroadcastStatusName(Draft)
  {
  }

  /** The plugin's `beforeChange` hook: a create whose status is not `draft`
      is saved as a draft; everything else is returned as it came. */
  function ForceDraftOnCreate(op: Operation, data: Broadcast): (r: Broadcast)
    ensures r == data.(status := r.status)
    ensures op == Create ==> r.status == Draft
    ensures op == Update ==> r == data
  {
    if op == Create && data.status != Draft then data.(status := Draft) else data
  }

  /** The `beforeChange` list: the override's hooks, then the plugin's. */
  function BroadcastsBeforeChange(ov: HooksOverride): (hooks: seq<Hook>)
    ensures |hooks| >= 1 && hooks[|hooks| - 1] == PluginHook
    ensures hooks[..|hooks| - 1] == UserHooks(ov)
  {
    UserHooks(ov) + [PluginHook]
  }

  /** Whatever the override's hooks do, a broadcast is created as a draft,
      with every other field as they left it; on update the plugin's hook
      changes nothing. */
  lemma CreatedBroadcastIsDraft(ov: HooksOverride, op: Operation, data: Broadcast,
                                user: (nat, Operation, Broadcast) -> Broadcast)
    ensures var saved := RunHooks(BroadcastsBeforeChange(ov), op, data, ForceDraftOnCreate, user);
      var byUser := RunHooks(UserHooks(ov), op, data, ForceDraftOnCreate, user);
      && (op == Create ==> saved == byUser.(status := Draft))
      && (op == Update ==> saved == byUser)
  {
    RunHooksLast(UserHooks(ov), PluginHook, op, data, ForceDraftOnCreate, user);
  }

  /** The collection's `update` access is a query constraint: only a broadcast
      still in draft can be updated through the API. */
  predicate UpdateAllowed(doc: Broadcast)
  {
    doc.status == Draft
  }

  /** The `name` field's own update access, `doc?.status === 'draft'`: no
      document, no update. */
  predicate NameUpdateAllowed(doc: Option<Broadcast>)
  {
    doc.Some? && doc.value.status == Draft
  }

  /** `read` access. */
  predicate ReadAllowed(user: UserField)
  {
    Authenticated(user)
  }

  /** A broadcast the send endpoint has started can no longer be edited, as a
      document or by name, and a freshly created one can. */
  lemma StartedBroadcastIsLocked(b: Broadcast, count: nat)
    ensures !UpdateAllowed(Started(b, count)) && !NameUpdateAllowed(Some(Started(b, count)))
    ensures UpdateAllowed(ForceDraftOnCreate(Create, b)) && NameUpdateAllowed(Some(ForceDraftOnCreate(Create, b)))
    ensures !NameUpdateAllowed(None)
  {
  }
}

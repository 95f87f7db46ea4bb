/** Collection `beforeChange` hooks: how a collection's list is composed from
    the plugin's own hook and the hooks of a collection override, and how
    Payload runs the list. */
module CollectionHooks {
  import opened Common

  /** One entry of a `beforeChange` list: the plugin's own hook of the
      collection, or the hook at position `index` of the override's list. */
  datatype Hook = PluginHook | UserHook(index: nat)

  /** The `hooks` key of a collection override: absent, or present with a
      `beforeChange` list of the given length (`None` when the key is absent). */
  datatype HooksOverride = NoHooksOverride | HooksOverride(beforeChange: Option<nat>)

  /** The override's `beforeChange` list; an absent one is empty. */
  function UserHooks(ov: HooksOverride): (hs: seq<Hook>)
    ensures ov.HooksOverride? && ov.beforeChange.Some? ==> |hs| == ov.beforeChange.value
    ensures !(ov.HooksOverride? && ov.beforeChange.Some?) ==> hs == []
    ensures forall i :: 0 <= i < |hs| ==> hs[i] == UserHook(i)
  {
    if ov.HooksOverride? && ov.beforeChange.Some? then UserHookList(ov.beforeChange.value) else []
  }

  function UserHookList(n: nat): (hs: seq<Hook>)
    ensures |hs| == n && forall i :: 0 <= i < n ==> hs[i] == UserHook(i)
  {
    if n == 0 then [] else UserHookList(n - 1) + [UserHook(n - 1)]
  }

  /** One hook applied to the data: the plugin's by `plugin`, the override's
      by `user`. */
  function ApplyHook<T>(h: Hook, op: Operation, data: T,
                        plugin: (Operation, T) -> T, user: (nat, Operation, T) -> T): T
  {
    match h
    case PluginHook => plugin(op, data)
    case UserHook(i) => user(i, op, data)
  }

  /** Payload runs the list in order, each hook receiving what the one
      before it returned. */
  function RunHooks<T>(hooks: seq<Hook>, op: Operation, data: T,
                       plugin: (Operation, T) -> T, user: (nat, Operation, T) -> T): T
  {
    if hooks == [] then data
    else RunHooks(hooks[1..], op, ApplyHook(hooks[0], op, data, plugin, user), plugin, user)
  }

  /** The last hook of a list sees what the others made of the data. */
  lemma {:induction false} RunHooksLast<T>(hooks: seq<Hook>, h: Hook, op: Operation, data: T,
                                           plugin: (Operation, T) -> T, user: (nat, Operation, T) -> T)
    ensures RunHooks(hooks + [h], op, data, plugin, user)
         == ApplyHook(h, op, RunHooks(hooks, op, data, plugin, user), plugin, user)
    decreases |hooks|
  {
    if hooks != [] {
      assert (hooks + [h])[1..] == hooks[1..] + [h];
      RunHooksLast(hooks[1..], h, op, ApplyHook(hooks[0], op, data, plugin, user), plugin, user);
    }
  }

  /** The first hook of a list sees the data as saved. */
  lemma RunHooksFirst<T>(h: Hook, hooks: seq<Hook>, op: Operation, data: T,
                         plugin: (Operation, T) -> T, user: (nat, Operation, T) -> T)
    ensures RunHooks([h] + hooks, op, data, plugin, user)
         == RunHooks(hooks, op, ApplyHook(h, op, data, plugin, user), plugin, user)
  {
    assert ([h] + hooks)[1..] == hooks;
  }
}

/**
  The `system_settings` key/value table (app/Models/SystemSetting.php).
  A key occurs at most once (the `key` column is unique), so the table is a map
  from key to the decoded JSON value, where `None` is a stored JSON `null`.
 */
module Settings {
  import opened Wrappers

  /** A decoded JSON scalar as read through the `json` cast of the `value` column. */
  datatype Value = Bool(b: bool) | Num(n: int) | Str(s: string)

  type Store = map<string, Option<Value>>

  /** The key behind the radar kill-switch. */
  const ScansEnabledKey: string := "scans_enabled"

  /** PHP truthiness of a decoded value: `null`, `false`, `0`, `""` and `"0"` are false. */
  predicate Truthy(v: Option<Value>) {
    match v
    case None => false
    case Some(Bool(b)) => b
    case Some(Num(n)) => n != 0
    case Some(Str(s)) => s != "" && s != "0"
  }

  /**
    `SystemSetting::get($key, $default)`: the stored value, falling back to the
    default only when the key is absent or its value is `null` (PHP's `??`).
   */
  function Get(store: Store, key: string, default: Option<Value>): (r: Option<Value>)
    ensures key in store && store[key].Some? ==> r == store[key]
    ensures key !in store || store[key].None? ==> r == default
    ensures r.None? ==> default.None?
  {
    if key in store && store[key].Some? then store[key] else default
  }

  /**
    `SystemSetting::put($key, $value)`: an upsert on the unique key. Every other
    key keeps its value, and reading the key back yields the value whatever the
    default, unless the value is `null`.
   */
  function Put(store: Store, key: string, value: Option<Value>): (r: Store)
    ensures r.Keys == store.Keys + {key}
    ensures forall k :: k in store && k != key ==> r[k] == store[k]
    ensures value.Some? ==> forall d :: Get(r, key, d) == value
    ensures value.None? ==> forall d :: Get(r, key, d) == d
  {
    store[key := value]
  }

  /**
    The kill-switch as every reader in the source evaluates it:
    `SystemSetting::get('scans_enabled', true)` taken for its truthiness.
   */
  function ScansEnabled(store: Store): (on: bool)
    ensures ScansEnabledKey !in store ==> on
    ensures ScansEnabledKey in store && store[ScansEnabledKey].None? ==> on
    ensures ScansEnabledKey in store && store[ScansEnabledKey] == Some(Bool(false)) ==> !on
    ensures ScansEnabledKey in store && store[ScansEnabledKey].Some? ==> (on <==> Truthy(store[ScansEnabledKey]))
  {
    Truthy(Get(store, ScansEnabledKey, Some(Bool(true))))
  }

  /** A stored `false` is returned as `false`: `??` does not replace it by the default. */
  lemma StoredFalseIsKept(store: Store, key: string, default: Option<Value>)
    requires key in store && store[key] == Some(Bool(false))
    ensures Get(store, key, default) == Some(Bool(false))
    ensures !Truthy(Get(store, key, default))
  {
  }

  /** Put twice on the same key is the same as the last put alone. */
  lemma PutOverwrites(store: Store, key: string, v1: Option<Value>, v2: Option<Value>)
    ensures Put(Put(store, key, v1), key, v2) == Put(store, key, v2)
  {
  }
}

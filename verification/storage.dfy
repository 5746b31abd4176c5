/** The device key/value store (AsyncStorage) as the client sees it. Every
    call may throw; which ones do is an oracle carried by the store itself:
    the call numbered `calls` throws exactly when that number is in
    `failing`, and a throwing call changes no item. */
module Storage {
  import opened Wrappers

  /** The two keys the session code reads and writes. */
  const AuthTokenKey: string := "authToken"
  const UserKey: string := "user"

  datatype Store = Store(items: map<string, string>, failing: set<nat>, calls: nat)

  datatype Read = Read(store: Store, result: Result<Option<string>>)
  datatype Write = Write(store: Store, ok: bool)

  /** No call from now on throws. */
  predicate Reliable(st: Store) {
    forall k :: k in st.failing ==> k < st.calls
  }

  /** The store after one more call. */
  function Tick(st: Store): (r: Store)
    ensures r.items == st.items && r.failing == st.failing
    ensures r.calls == st.calls + 1
    ensures Reliable(st) ==> Reliable(r)
  {
    st.(calls := st.calls + 1)
  }

  /** The value stored under `key`, if any. */
  function Stored(st: Store, key: string): Option<string> {
    if key in st.items then Some(st.items[key]) else None
  }

  /** `getItem`: the stored string, or None when the key is absent. */
  function GetItem(st: Store, key: string): (r: Read)
    ensures r.store == Tick(st)
    ensures r.result.Ok? <==> st.calls !in st.failing
    ensures r.result.Ok? ==> (r.result.value.Some? <==> key in st.items)
    ensures r.result.Ok? && key in st.items ==> r.result.value.value == st.items[key]
    ensures r.result.Ok? ==> r.result.value == Stored(st, key)
  {
    if st.calls in st.failing then Read(Tick(st), Err("AsyncStorage getItem failed"))
    else if key in st.items then Read(Tick(st), Ok(Some(st.items[key])))
    else Read(Tick(st), Ok(None))
  }

  /** `setItem`: an absent (undefined) value is refused by the store's own
      input check, which throws. */
  function SetItem(st: Store, key: string, value: Option<string>): (r: Write)
    ensures r.store.calls == st.calls + 1 && r.store.failing == st.failing
    ensures r.ok <==> st.calls !in st.failing && value.Some?
    ensures r.ok ==> r.store.items == st.items[key := value.value]
    ensures !r.ok ==> r.store.items == st.items
  {
    if st.calls in st.failing || value.None? then Write(Tick(st), false)
    else Write(Tick(st).(items := st.items[key := value.value]), true)
  }

  /** `removeItem`: removing an absent key succeeds and changes nothing. */
  function RemoveItem(st: Store, key: string): (r: Write)
    ensures r.store.calls == st.calls + 1 && r.store.failing == st.failing
    ensures r.ok <==> st.calls !in st.failing
    ensures r.ok ==> r.store.items == st.items - {key}
    ensures !r.ok ==> r.store.items == st.items
  {
    if st.calls in st.failing then Write(Tick(st), false)
    else Write(Tick(st).(items := st.items - {key}), true)
  }
}

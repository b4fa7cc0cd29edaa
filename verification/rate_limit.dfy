/**
 * The per-caller fixed-window rate limiter. The process-wide store becomes an
 * explicit value and the clock an explicit `now` (milliseconds), so one call
 * is a pure transition from the old store to the new one plus a verdict.
 */
module RateLimit {

  const MaxRequests: int := 10
  const WindowMs: int := 60000

  /** Requests counted in the caller's current window, and when that window ends. */
  datatype Entry = Entry(count: int, resetAt: int)

  type Store = map<string, Entry>

  datatype Decision = Decision(store: Store, admitted: bool)

  /** Every stored count lies between 1 and the limit. */
  predicate CountsBounded(store: Store) {
    forall k :: k in store ==> 1 <= store[k].count <= MaxRequests
  }

  /** `store` and `store'` agree on every key other than `key`. */
  predicate OthersUnchanged(store: Store, store': Store, key: string) {
    store' - {key} == store - {key}
  }

  /** The caller has no window open at `now`: never seen, or its window ended strictly before `now`. */
  predicate StartsWindow(store: Store, key: string, now: int) {
    key !in store || now > store[key].resetAt
  }

  /** `checkRateLimit(key)` at time `now`. */
  function Check(store: Store, key: string, now: int): (d: Decision)
    ensures d.admitted <==> StartsWindow(store, key, now) || store[key].count < MaxRequests
    ensures OthersUnchanged(store, d.store, key)
    ensures !d.admitted ==> d.store == store
    ensures d.admitted ==> key in d.store
    ensures StartsWindow(store, key, now) ==> d.store[key] == Entry(1, now + WindowMs)
    ensures !StartsWindow(store, key, now) && d.admitted
      ==> d.store[key] == store[key].(count := store[key].count + 1)
  {
    if key !in store || now > store[key].resetAt then
      Decision(store[key := Entry(1, now + WindowMs)], true)
    else if store[key].count >= MaxRequests then
      Decision(store, false)
    else
      Decision(store[key := store[key].(count := store[key].count + 1)], true)
  }

  /** Every call keeps all stored counts between 1 and the limit. */
  lemma CheckKeepsCountsBounded(store: Store, key: string, now: int)
    requires CountsBounded(store)
    ensures CountsBounded(Check(store, key, now).store)
  {
  }

  /** At `now == resetAt` the old window still applies: a full window denies. */
  lemma WindowEndIsInclusive(store: Store, key: string)
    requires key in store && store[key].count >= MaxRequests
    ensures !Check(store, key, store[key].resetAt).admitted
    ensures Check(store, key, store[key].resetAt + 1).admitted
  {
  }

  /** The verdicts of successive calls for one key at the given times, and the final store. */
  function Calls(store: Store, key: string, times: seq<int>): (r: (Store, seq<bool>))
    ensures |r.1| == |times|
    decreases |times|
  {
    if times == [] then (store, [])
    else
      var d := Check(store, key, times[0]);
      var rest := Calls(d.store, key, times[1..]);
      (rest.0, [d.admitted] + rest.1)
  }

  /**
   * Within one open window (every time at or before its end), a caller that
   * has made `c` requests gets exactly `MaxRequests - c` more admitted, and
   * every later call is denied.
   */
  lemma {:induction false} CallsWithinWindow(store: Store, key: string, times: seq<int>)
    requires key in store && 1 <= store[key].count <= MaxRequests
    requires forall i :: 0 <= i < |times| ==> times[i] <= store[key].resetAt
    ensures var r := Calls(store, key, times);
      && (forall i :: 0 <= i < |times| ==> r.1[i] == (store[key].count + i < MaxRequests))
      && key in r.0 && r.0[key].resetAt == store[key].resetAt
      && r.0[key].count == if store[key].count + |times| < MaxRequests then store[key].count + |times| else MaxRequests
  {
    if times != [] {
      var d := Check(store, key, times[0]);
      assert forall i :: 0 <= i < |times[1..]| ==> times[1..][i] == times[i + 1];
      CallsWithinWindow(d.store, key, times[1..]);
    }
  }

  /**
   * A caller never seen before, calling ten times or more within the window
   * its first call opens, has exactly calls 1 to 10 admitted.
   */
  lemma FreshCallerBurst(store: Store, key: string, times: seq<int>)
    requires key !in store
    requires |times| >= 1
    requires forall i :: 0 <= i < |times| ==> times[i] <= times[0] + WindowMs
    ensures forall i :: 0 <= i < |times| ==> Calls(store, key, times).1[i] == (i < MaxRequests)
  {
    var d := Check(store, key, times[0]);
    assert forall i :: 0 <= i < |times[1..]| ==> times[1..][i] == times[i + 1];
    CallsWithinWindow(d.store, key, times[1..]);
  }

  /** Once the window has passed, the next call admits and the count restarts at 1. */
  lemma ExpiredWindowResets(store: Store, key: string, now: int)
    requires key in store && now > store[key].resetAt
    ensures Check(store, key, now) == Decision(store[key := Entry(1, now + WindowMs)], true)
  {
  }
}

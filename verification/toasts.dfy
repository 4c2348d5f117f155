/**
 * The toast notifications: a list of at most five visible toasts, the newest last, and a timer
 * per toast with a positive duration that dismisses it when it fires.
 */
module Toasts {
  import opened Wrappers
  import opened Seqs

  datatype ToastType = Success | Error | Warning | Info

  /** A toast; a missing `message` or `duration` is `None`. */
  datatype Toast = Toast(id: string, kind: ToastType, title: string, message: Option<string>, duration: Option<int>)

  const DefaultDuration: int := 5000
  const MaxVisible: nat := 5

  /** `t.duration ?? DEFAULT_DURATION`. */
  function Duration(duration: Option<int>): (d: int)
    ensures duration.None? ==> d == DefaultDuration
    ensures duration.Some? ==> d == duration.value
  {
    duration.GetOr(DefaultDuration)
  }

  /**
   * `[...prev.slice(-(MAX_VISIBLE - 1)), newToast]`: the new toast last, after the most recent
   * earlier toasts in their order, at most five in all; nothing is dropped while there is room.
   */
  function Pushed(prev: seq<Toast>, t: Toast): (next: seq<Toast>)
    ensures 1 <= |next| <= MaxVisible && next[|next| - 1] == t
    ensures |next| - 1 <= |prev| && next[..|next| - 1] == prev[|prev| - (|next| - 1)..]
    ensures |prev| < MaxVisible ==> next == prev + [t]
  {
    var kept := if |prev| <= MaxVisible - 1 then prev else prev[|prev| - (MaxVisible - 1)..];
    assert (kept + [t])[..|kept|] == kept;
    kept + [t]
  }

  /** Only the oldest toasts are dropped: the list after a push is the earlier list plus the new toast, minus a prefix. */
  lemma PushedDropsOldest(prev: seq<Toast>, t: Toast)
    ensures var next := Pushed(prev, t);
      exists k :: 0 <= k <= |prev| && next == prev[k..] + [t]
  {
    var next := Pushed(prev, t);
    var k := |prev| - (|next| - 1);
    assert next == next[..|next| - 1] + [t];
  }

  /** The test a toast survives `dismiss(id)` by. */
  function Keeps(id: string): Toast -> bool {
    (t: Toast) => t.id != id
  }

  /** `prev.filter((t) => t.id !== id)`: exactly the toasts with that id go, the rest keep their order. */
  function Without(prev: seq<Toast>, id: string): (next: seq<Toast>)
    ensures |next| <= |prev|
    ensures forall t :: t in next <==> t in prev && t.id != id
  {
    FilterMembers(Keeps(id), prev);
    Filter(Keeps(id), prev)
  }

  /** Dismissing works piecewise, so the toasts that stay keep their relative order. */
  lemma WithoutConcat(a: seq<Toast>, b: seq<Toast>, id: string)
    ensures Without(a + b, id) == Without(a, id) + Without(b, id)
  {
    FilterConcat(Keeps(id), a, b);
  }

  /** Dismissing an id no toast has changes nothing, and dismissing twice is dismissing once. */
  lemma DismissUnknownOrTwice(prev: seq<Toast>, id: string)
    ensures (forall t :: t in prev ==> t.id != id) ==> Without(prev, id) == prev
    ensures Without(Without(prev, id), id) == Without(prev, id)
  {
    if forall t :: t in prev ==> t.id != id {
      FilterAll(Keeps(id), prev);
    }
    FilterIdempotent(Keeps(id), prev);
  }

  /** The toast state: the visible toasts and the pending timers, each by its toast's id with its delay. */
  class ToastProvider {
    var toasts: seq<Toast>
    var timers: map<string, int>

    /** At most five toasts, and a timer only for a positive delay. */
    predicate Valid()
      reads this
    {
      |toasts| <= MaxVisible && forall id :: id in timers ==> timers[id] > 0
    }

    constructor()
      ensures toasts == [] && timers == map[] && Valid()
    {
      toasts, timers := [], map[];
    }

    /**
     * `toast`: pushes a toast under the fresh `id` (a random UUID in the app) and returns that id;
     * a timer is set exactly when the duration is positive, so a duration of 0 persists.
     */
    method ShowToast(kind: ToastType, title: string, message: Option<string>, duration: Option<int>, id: string)
      returns (r: string)
      requires Valid()
      modifies this
      ensures Valid() && r == id
      ensures toasts == Pushed(old(toasts), Toast(id, kind, title, message, duration))
      ensures Duration(duration) > 0 ==> timers == old(timers)[id := Duration(duration)]
      ensures Duration(duration) <= 0 ==> timers == old(timers)
    {
      toasts := Pushed(toasts, Toast(id, kind, title, message, duration));
      var d := Duration(duration);
      if d > 0 {
        timers := timers[id := d];
      }
      r := id;
    }

    /**
     * `dismiss`: clears and forgets the id's timer, if any, and removes the toasts with that id.
     * A timer that fires calls this too.
     */
    method Dismiss(id: string)
      requires Valid()
      modifies this
      ensures Valid()
      ensures toasts == Without(old(toasts), id) && timers == old(timers) - {id}
    {
      if id in timers {
        timers := timers - {id};
      }
      toasts := Without(toasts, id);
    }

    /** The cleanup on unmount: every pending timer is cleared; the toasts are left as they are. */
    method ClearTimers()
      requires Valid()
      modifies this
      ensures Valid() && timers == map[] && toasts == old(toasts)
    {
      timers := map[];
    }
  }

  /** A toast shown with a duration of 0 stays until dismissed: no timer is registered for it. */
  method PersistentToast(p: ToastProvider, id: string)
    requires p.Valid() && id !in p.timers
    modifies p
    ensures p.Valid() && id !in p.timers && |p.toasts| >= 1 && p.toasts[|p.toasts| - 1].id == id
  {
    var r := p.ShowToast(Info, "", None, Some(0), id);
  }
}

/**
 * The notification queue (src/stores/toast.ts): a store holding the list of visible toasts,
 * with operations that append one, remove one by id, and clear them all, and the four
 * `toast.*` helpers that append a toast of a given kind. The id, which the source makes from
 * the clock and a random number, is passed in.
 */
module ToastQueue {
  import opened Wrappers
  import opened Seqs

  datatype ToastKind = SuccessToast | ErrorToast | WarningToast | InfoToast

  /** What `addToast` is given: a toast without its id. */
  datatype ToastFields = ToastFields(
    kind: ToastKind, title: string, message: Option<string>, duration: Option<int>)

  datatype Toast = Toast(
    id: string, kind: ToastKind, title: string, message: Option<string>, duration: Option<int>)

  /** `{ ...toast, id }` */
  function WithId(t: ToastFields, id: string): (r: Toast)
    ensures r.id == id
    ensures ToastFields(r.kind, r.title, r.message, r.duration) == t
  {
    Toast(id, t.kind, t.title, t.message, t.duration)
  }

  predicate KeepUnless(id: string, t: Toast) {
    t.id != id
  }

  /** `toasts.filter(toast => toast.id !== id)` */
  function WithoutId(ts: seq<Toast>, id: string): (r: seq<Toast>)
    ensures IsSubsequence(r, ts)
    ensures forall t :: t in r <==> t in ts && t.id != id
    ensures forall t :: multiset(r)[t] == if t.id != id then multiset(ts)[t] else 0
  {
    var keep := (t: Toast) => KeepUnless(id, t);
    FilterIsSubsequence(keep, ts);
    FilterMembershipAll(keep, ts);
    FilterMultiplicity(keep, ts);
    Filter(keep, ts)
  }

  predicate HasId(ts: seq<Toast>, id: string) {
    exists i :: 0 <= i < |ts| && ts[i].id == id
  }

  /** Removing an id that no toast has leaves the list as it is. */
  lemma RemoveAbsentIsNoop(ts: seq<Toast>, id: string)
    requires !HasId(ts, id)
    ensures WithoutId(ts, id) == ts
  {
    FilterAllPass((t: Toast) => KeepUnless(id, t), ts);
  }

  /** Removing the same id twice is removing it once. */
  lemma RemoveIdempotent(ts: seq<Toast>, id: string)
    ensures WithoutId(WithoutId(ts, id), id) == WithoutId(ts, id)
  {
    FilterIdempotent((t: Toast) => KeepUnless(id, t), ts);
  }

  /** Appending a toast with a fresh id and then removing that id restores the list. */
  lemma AddThenRemoveRestores(ts: seq<Toast>, t: ToastFields, id: string)
    requires !HasId(ts, id)
    ensures WithoutId(ts + [WithId(t, id)], id) == ts
  {
    var keep := (x: Toast) => KeepUnless(id, x);
    FilterAppend(keep, ts, [WithId(t, id)]);
    RemoveAbsentIsNoop(ts, id);
  }

  /** `useToastStore`: the state and the three operations that replace it. */
  class ToastStore {
    var toasts: seq<Toast>

    constructor ()
      ensures toasts == []
    {
      toasts := [];
    }

    /** `addToast(toast)`: append the toast, with the given id, after all the others. */
    method AddToast(t: ToastFields, id: string)
      modifies this
      ensures toasts == old(toasts) + [WithId(t, id)]
    {
      toasts := toasts + [WithId(t, id)];
    }

    /** `removeToast(id)`: drop every toast with that id, keeping the others in order. */
    method RemoveToast(id: string)
      modifies this
      ensures toasts == WithoutId(old(toasts), id)
    {
      toasts := WithoutId(toasts, id);
    }

    /** `clearAllToasts()` */
    method ClearAllToasts()
      modifies this
      ensures toasts == []
    {
      toasts := [];
    }
  }

  /** `toast.success(title, message, duration)` */
  method Success(store: ToastStore, title: string, message: Option<string>, duration: Option<int>, id: string)
    modifies store
    ensures store.toasts == old(store.toasts) + [Toast(id, SuccessToast, title, message, duration)]
  {
    store.AddToast(ToastFields(SuccessToast, title, message, duration), id);
  }

  /** `toast.error(title, message, duration)` */
  method Error(store: ToastStore, title: string, message: Option<string>, duration: Option<int>, id: string)
    modifies store
    ensures store.toasts == old(store.toasts) + [Toast(id, ErrorToast, title, message, duration)]
  {
    store.AddToast(ToastFields(ErrorToast, title, message, duration), id);
  }

  /** `toast.warning(title, message, duration)` */
  method Warning(store: ToastStore, title: string, message: Option<string>, duration: Option<int>, id: string)
    modifies store
    ensures store.toasts == old(store.toasts) + [Toast(id, WarningToast, title, message, duration)]
  {
    store.AddToast(ToastFields(WarningToast, title, message, duration), id);
  }

  /** `toast.info(title, message, duration)` */
  method Info(store: ToastStore, title: string, message: Option<string>, duration: Option<int>, id: string)
    modifies store
    ensures store.toasts == old(store.toasts) + [Toast(id, InfoToast, title, message, duration)]
  {
    store.AddToast(ToastFields(InfoToast, title, message, duration), id);
  }
}

/**
 * `showToast(message, type)`: the toast container is created on first use, each
 * call appends one toast to it, and a toast that has been hidden removes itself.
 *
 * A toast is found again after insertion by its id, `toast-${Date.now()}`, with
 * `getElementById`, which returns the FIRST element carrying that id. Two calls
 * in the same millisecond therefore bind the earlier toast twice and leave the
 * new one never shown and never removed. `ShowAsWritten` models that lookup;
 * `Shown` binds the inserted toast itself, which is what the code means to do,
 * and is what `ToastHost` uses.
 */
module Toast {
  import opened Wrappers

  const SuccessIcon := "bi-check-circle-fill text-success"
  const DangerIcon := "bi-x-circle-fill text-danger"
  const WarningIcon := "bi-exclamation-triangle-fill text-warning"
  const PrimaryIcon := "bi-info-circle-fill text-primary"

  /**
   * One toast in the container: its id, icon, message, and whether it is live,
   * that is, shown by Bootstrap with the listener that removes it once hidden.
   */
  datatype ToastItem = ToastItem(id: string, icon: string, message: string, live: bool)

  /** `type` defaults to `'primary'` when the caller leaves it out. */
  function KindOrDefault(kind: Option<string>): string {
    if kind.Some? then kind.value else "primary"
  }

  /** `iconMap[type] || iconMap.primary`. */
  function IconFor(kind: Option<string>): (icon: string)
    ensures KindOrDefault(kind) == "success" ==> icon == SuccessIcon
    ensures KindOrDefault(kind) == "danger" ==> icon == DangerIcon
    ensures KindOrDefault(kind) == "warning" ==> icon == WarningIcon
    ensures KindOrDefault(kind) !in {"success", "danger", "warning"} ==> icon == PrimaryIcon
  {
    match KindOrDefault(kind)
    case "success" => SuccessIcon
    case "danger" => DangerIcon
    case "warning" => WarningIcon
    case _ => PrimaryIcon
  }

  /** The toasts of a container, none before it is created. */
  function Items(container: Option<seq<ToastItem>>): seq<ToastItem> {
    if container.Some? then container.value else []
  }

  /** Every toast in the container is shown and will remove itself. */
  predicate AllLive(items: seq<ToastItem>) {
    forall i :: 0 <= i < |items| ==> items[i].live
  }

  /** The number of toasts that will never be removed. */
  function Stranded(items: seq<ToastItem>): (n: nat)
    ensures n <= |items|
    ensures n == 0 <==> AllLive(items)
  {
    if items == [] then 0
    else Stranded(items[..|items| - 1]) + (if items[|items| - 1].live then 0 else 1)
  }

  /** The toast at `k` has been hidden: a live one removes itself, and nothing else changes. */
  function Dismissed(items: seq<ToastItem>, k: int): (after: seq<ToastItem>)
    ensures 0 <= k < |items| && items[k].live ==> after == items[..k] + items[k + 1..]
    ensures !(0 <= k < |items| && items[k].live) ==> after == items
  {
    if 0 <= k < |items| && items[k].live then items[..k] + items[k + 1..] else items
  }

  /** The corrected `showToast`: the new toast is appended last, shown, and bound to its remover. */
  function Shown(items: seq<ToastItem>, t: ToastItem): (after: seq<ToastItem>)
    ensures |after| == |items| + 1 && after[..|items|] == items
    ensures after[|items|] == t.(live := true)
  {
    items + [t.(live := true)]
  }

  /** Corrected `showToast` keeps every toast live. */
  lemma ShownKeepsAllLive(items: seq<ToastItem>, t: ToastItem)
    requires AllLive(items)
    ensures AllLive(Shown(items, t))
    ensures Stranded(Shown(items, t)) == 0
  {
    var after := Shown(items, t);
    assert forall i :: 0 <= i < |after| ==> after[i].live by {
      forall i | 0 <= i < |after|
        ensures after[i].live
      {
        if i < |items| {
          assert after[i] == after[..|items|][i];
        }
      }
    }
  }

  lemma DismissedKeepsAllLive(items: seq<ToastItem>, k: int)
    requires AllLive(items)
    ensures AllLive(Dismissed(items, k))
  {
  }

  /** `document.getElementById(id)` over the container: the first toast with that id. */
  function IndexOfId(items: seq<ToastItem>, id: string): (k: int)
    ensures -1 <= k < |items|
    ensures k >= 0 ==> items[k].id == id && forall j :: 0 <= j < k ==> items[j].id != id
    ensures k == -1 ==> forall j :: 0 <= j < |items| ==> items[j].id != id
    decreases |items|
  {
    if items == [] then -1
    else
      var k := IndexOfId(items[..|items| - 1], id);
      if k >= 0 then k else if items[|items| - 1].id == id then |items| - 1 else -1
  }

  /**
   * `showToast` as written: the toast is inserted, then the first toast carrying
   * its id is shown and bound to the remover.
   */
  function ShowAsWritten(items: seq<ToastItem>, t: ToastItem): (after: seq<ToastItem>)
    ensures |after| == |items| + 1
  {
    var inserted := items + [t.(live := false)];
    var k := IndexOfId(inserted, t.id);
    inserted[k := inserted[k].(live := true)]
  }

  /** With a fresh id the code as written does what `Shown` does. */
  lemma AsWrittenAgreesWhenFresh(items: seq<ToastItem>, t: ToastItem)
    requires forall j :: 0 <= j < |items| ==> items[j].id != t.id
    ensures ShowAsWritten(items, t) == Shown(items, t)
  {
    var inserted := items + [t.(live := false)];
    assert forall j :: 0 <= j < |items| ==> inserted[j].id != t.id;
  }

  /**
   * With an id already in the container, the code as written leaves the new toast
   * last and not live: it is never shown and never removed.
   */
  lemma CollidingIdStrandsToast(items: seq<ToastItem>, t: ToastItem, j: int)
    requires 0 <= j < |items| && items[j].id == t.id
    ensures ShowAsWritten(items, t)[|items|] == t.(live := false)
    ensures !AllLive(ShowAsWritten(items, t)) && Stranded(ShowAsWritten(items, t)) > 0
  {
    var inserted := items + [t.(live := false)];
    var k := IndexOfId(inserted, t.id);
    assert inserted[j].id == t.id;
    assert k <= j;
  }

  /** Two toasts made in the same millisecond: the second one is stranded. */
  lemma SameMillisecondExample()
    ensures var first := ToastItem("toast-1700000000000", PrimaryIcon, "Saved", true);
      var second := ToastItem("toast-1700000000000", SuccessIcon, "Sent", false);
      ShowAsWritten([first], second) == [first, second]
  {
    var first := ToastItem("toast-1700000000000", PrimaryIcon, "Saved", true);
    var second := ToastItem("toast-1700000000000", SuccessIcon, "Sent", false);
    assert IndexOfId([first, second], second.id) == 0 by {
      assert [first, second][..1] == [first];
    }
  }

  lemma StrandedAppend(items: seq<ToastItem>, t: ToastItem)
    ensures Stranded(items + [t]) == Stranded(items) + (if t.live then 0 else 1)
  {
    assert (items + [t])[..|items|] == items;
  }

  lemma {:induction false} StrandedSplit(a: seq<ToastItem>, b: seq<ToastItem>)
    ensures Stranded(a + b) == Stranded(a) + Stranded(b)
    decreases |b|
  {
    if b == [] {
      assert a + b == a;
    } else {
      var b' := b[..|b| - 1];
      assert a + b == (a + b') + [b[|b| - 1]];
      assert b == b' + [b[|b| - 1]];
      StrandedAppend(a + b', b[|b| - 1]);
      StrandedAppend(b', b[|b| - 1]);
      StrandedSplit(a, b');
    }
  }

  /** Taking a live toast out of the middle leaves the stranded count as it was. */
  lemma StrandedWithoutLive(a: seq<ToastItem>, t: ToastItem, b: seq<ToastItem>)
    requires t.live
    ensures Stranded(a + [t] + b) == Stranded(a + b)
  {
    StrandedSplit(a + [t], b);
    StrandedAppend(a, t);
    StrandedSplit(a, b);
  }

  /** Hiding a toast never removes a stranded one: their number does not change. */
  lemma DismissedKeepsStranded(items: seq<ToastItem>, k: int)
    ensures Stranded(Dismissed(items, k)) == Stranded(items)
  {
    if 0 <= k < |items| && items[k].live {
      assert items == items[..k] + [items[k]] + items[k + 1..];
      StrandedWithoutLive(items[..k], items[k], items[k + 1..]);
    }
  }

  /** Whatever toasts are hidden afterwards, the stranded ones stay in the container. */
  lemma {:induction false} DismissalsKeepStranded(items: seq<ToastItem>, ks: seq<int>)
    ensures Stranded(DismissAll(items, ks)) == Stranded(items)
    decreases |ks|
  {
    if ks != [] {
      DismissedKeepsStranded(items, ks[0]);
      DismissalsKeepStranded(Dismissed(items, ks[0]), ks[1..]);
    }
  }

  /** The container after the toasts at the given positions are hidden, in order. */
  function DismissAll(items: seq<ToastItem>, ks: seq<int>): seq<ToastItem>
    decreases |ks|
  {
    if ks == [] then items else DismissAll(Dismissed(items, ks[0]), ks[1..])
  }

  /** The page's toast container, `None` until the first toast creates it. */
  class ToastHost {
    var container: Option<seq<ToastItem>>

    constructor (container: Option<seq<ToastItem>>)
      ensures this.container == container
    {
      this.container := container;
    }

    /**
     * `showToast(message, type)` with the id it would compute passed in: creates the
     * container if there is none and appends the new toast, live, after the others.
     */
    method ShowToast(message: string, kind: Option<string>, id: string)
      modifies this
      ensures container == Some(Shown(Items(old(container)), ToastItem(id, IconFor(kind), message, true)))
    {
      var items: seq<ToastItem>;
      if container.None? {
        items := [];
      } else {
        items := container.value;
      }
      var icon := IconFor(kind);
      items := items + [ToastItem(id, icon, message, true)];
      container := Some(items);
    }

    /** The `hidden.bs.toast` listener of the toast at position `k`. */
    method OnHidden(k: int)
      modifies this
      ensures container == if old(container).None? then None else Some(Dismissed(old(container).value, k))
    {
      if container.None? {
        return;
      }
      var items := container.value;
      if 0 <= k < |items| && items[k].live {
        container := Some(items[..k] + items[k + 1..]);
      }
    }
  }
}

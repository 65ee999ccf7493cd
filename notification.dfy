/** `showNotification` and its helpers (script.js): one toast slot, a new toast
    evicting the old one, and removal by the close button or the auto-dismiss
    timer. Timers are events that name the toast they were started for. */
module Notification {
  import opened JsValues

  /** `getNotificationIcon`: the Font Awesome icon for a notification type. */
  function IconFor(kind: string): (r: string)
    ensures kind == "success" ==> r == "check-circle"
    ensures kind == "error" ==> r == "exclamation-circle"
    ensures kind == "warning" ==> r == "exclamation-triangle"
    ensures r == "info-circle" <==> kind !in {"success", "error", "warning"}
  {
    match kind
    case "success" => "check-circle"
    case "error" => "exclamation-circle"
    case "warning" => "exclamation-triangle"
    case _ => "info-circle"
  }

  /** `getNotificationColor`: the background colour for a notification type. */
  function ColorFor(kind: string): (r: string)
    ensures kind == "success" ==> r == "#2ECC71"
    ensures kind == "error" ==> r == "#E74C3C"
    ensures kind == "warning" ==> r == "#F39C12"
    ensures r == "#3498DB" <==> kind !in {"success", "error", "warning"}
  {
    match kind
    case "success" => "#2ECC71"
    case "error" => "#E74C3C"
    case "warning" => "#F39C12"
    case _ => "#3498DB"
  }

  /** Icon and colour pick the same case: two types share an icon exactly when
      they share a colour. */
  lemma IconAndColorAgree(a: string, b: string)
    ensures IconFor(a) == IconFor(b) <==> ColorFor(a) == ColorFor(b)
  {
  }

  /** A notification node; `id` stands for the node's identity. */
  datatype Toast = Toast(id: nat, message: string, kind: string)

  class Notifier {
    /** The `.notification` node attached to the page, if any. */
    var slot: Option<Toast>
    /** The identity the next node will get. */
    var nextId: nat

    /** Every node on the page was created before the next one. */
    ghost predicate Valid()
      reads this
    {
      slot.Some? ==> slot.value.id < nextId
    }

    predicate Showing(id: nat)
      reads this
    {
      slot.Some? && slot.value.id == id
    }

    constructor ()
      ensures Valid() && slot == None && nextId == 0
    {
      slot := None;
      nextId := 0;
    }

    /** `showNotification(message, kind)`: remove the existing node, attach a
        new one, and return its identity for the timers started with it. */
    method Show(message: string, kind: string) returns (id: nat)
      requires Valid()
      modifies this
      ensures Valid()
      ensures id == old(nextId) && nextId == id + 1
      ensures slot == Some(Toast(id, message, kind))
      ensures forall earlier: nat | earlier < id :: !Showing(earlier)
    {
      slot := None;
      id := nextId;
      slot := Some(Toast(id, message, kind));
      nextId := nextId + 1;
    }

    /** The close button (and the removal the timer schedules): `remove()` on
        the node started with `id`, which does nothing once it is detached. */
    method Dismiss(id: nat)
      requires Valid()
      modifies this
      ensures Valid() && nextId == old(nextId)
      ensures slot == if old(Showing(id)) then None else old(slot)
    {
      if Showing(id) {
        slot := None;
      }
    }

    /** The five-second timer: only when the node is still attached
        (`notification.parentNode`) does it go on to remove it. */
    method Expire(id: nat)
      requires Valid()
      modifies this
      ensures Valid() && nextId == old(nextId)
      ensures slot == if old(Showing(id)) then None else old(slot)
    {
      if Showing(id) {
        Dismiss(id);
      }
    }
  }
}

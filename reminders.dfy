/** `toggle_reminder`: a user switches one of their own reminders on or off. */
module Reminders {
  import opened Optional
  import opened ProductModels

  /** The reminder with primary key `id` owned by `user`, if there is one */
  function FindOwnedReminder(reminders: seq<Reminder>, user: nat, id: nat): (k: Option<nat>)
    ensures k.Some? ==> k.value < |reminders| && reminders[k.value].user == user && reminders[k.value].id == id
    ensures k.None? ==> forall i :: 0 <= i < |reminders| ==> !(reminders[i].user == user && reminders[i].id == id)
  {
    if reminders == [] then None
    else if reminders[0].user == user && reminders[0].id == id then Some(0)
    else match FindOwnedReminder(reminders[1..], user, id)
      case None => None
      case Some(k) => Some(k + 1)
  }

  /** The reminder at `k` with `is_active` negated */
  function Flipped(reminders: seq<Reminder>, k: nat): (r: seq<Reminder>)
    requires k < |reminders|
    ensures |r| == |reminders|
    ensures r[k].isActive == !reminders[k].isActive
    ensures r[k] == reminders[k].(isActive := r[k].isActive)
    ensures forall i :: 0 <= i < |r| && i != k ==> r[i] == reminders[i]
  {
    reminders[k := reminders[k].(isActive := !reminders[k].isActive)]
  }

  /** Toggling twice restores the reminders. */
  lemma FlipTwice(reminders: seq<Reminder>, k: nat)
    requires k < |reminders|
    ensures Flipped(Flipped(reminders, k), k) == reminders
  {
    assert Flipped(Flipped(reminders, k), k)[k] == reminders[k];
  }

  /** `'activated' if reminder.is_active else 'deactivated'` */
  function Status(active: bool): string {
    if active then "activated" else "deactivated"
  }

  /** What `toggle_reminder` answers */
  datatype ToggleReply = ReminderNotFound | Toggled(status: string)

  /** The `SkincareReminder` table */
  class ReminderBook {
    var reminders: seq<Reminder>

    /** Primary keys are unique */
    ghost predicate Valid()
      reads this
    {
      forall i, j :: 0 <= i < j < |reminders| ==> reminders[i].id != reminders[j].id
    }

    constructor (reminders: seq<Reminder>)
      requires forall i, j :: 0 <= i < j < |reminders| ==> reminders[i].id != reminders[j].id
      ensures Valid() && this.reminders == reminders
    {
      this.reminders := reminders;
    }

    /** `toggle_reminder`: 404 unless the reminder is the user's; otherwise
        its `is_active` flips and the reply names the new state */
    method Toggle(user: nat, id: nat) returns (reply: ToggleReply)
      requires Valid()
      modifies this
      ensures Valid()
      ensures FindOwnedReminder(old(reminders), user, id).None? ==> reply == ReminderNotFound && reminders == old(reminders)
      ensures FindOwnedReminder(old(reminders), user, id).Some? ==>
                var k := FindOwnedReminder(old(reminders), user, id).value;
                reminders == Flipped(old(reminders), k)
                && reply == Toggled(Status(reminders[k].isActive))
                && (reply.status == "activated" <==> !old(reminders)[k].isActive)
    {
      match FindOwnedReminder(reminders, user, id)
      case None =>
        reply := ReminderNotFound;
      case Some(k) =>
        reminders := Flipped(reminders, k);
        reply := Toggled(Status(reminders[k].isActive));
    }
  }
}

/**
 * A mutable list of appointments (`java.util.List<Appointment>`). It is an
 * object so that two person records can share one list, as the list-taking
 * constructors of `Patient` and `Doctor` make them do.
 */
module AppointmentLists {
  import opened Records
  import Sequences

  class AppointmentList {
    var items: seq<Appointment>

    /** `new ArrayList<>()` */
    constructor Empty()
      ensures items == []
    {
      items := [];
    }

    /** `add`: appends at the end. */
    method Add(a: Appointment)
      modifies this
      ensures items == old(items) + [a]
    {
      items := items + [a];
    }

    /** `remove(Object)`: drops the first equal element and says whether there was one. */
    method Remove(a: Appointment) returns (removed: bool)
      modifies this
      ensures removed == (a in old(items))
      ensures items == Sequences.RemoveFirst(old(items), a)
    {
      removed := a in items;
      items := Sequences.RemoveFirst(items, a);
    }

    /** Replaces every element equal to `target` by `edited`. */
    method ReplaceAll(target: Appointment, edited: Appointment)
      modifies this
      ensures items == Sequences.ReplaceAll(old(items), target, edited)
    {
      items := Sequences.ReplaceAll(items, target, edited);
    }
  }
}

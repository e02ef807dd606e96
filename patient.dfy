/**
 * `Patient`: a person record with a telegram id, a medical history and two
 * appointment lists, upcoming and past, which its methods change in place.
 */
module Patients {
  import opened Wrappers
  import opened Records
  import opened AppointmentLists
  import Sequences

  /** Index of the LAST appointment in `s` that `isSameAppointment` to `target`. */
  function LastSame(s: seq<Appointment>, target: Appointment): (r: Option<nat>)
    ensures r.Some? ==> r.value < |s| && s[r.value].IsSameAppointment(target)
    ensures r.Some? ==> forall j :: r.value < j < |s| ==> !s[j].IsSameAppointment(target)
    ensures r.None? <==> forall j :: 0 <= j < |s| ==> !s[j].IsSameAppointment(target)
  {
    if s == [] then None
    else if s[|s| - 1].IsSameAppointment(target) then Some(|s| - 1)
    else LastSame(s[..|s| - 1], target)
  }

  class Patient {
    const details: PersonDetails
    var telegramId: string
    var medicalHistory: MedicalHistory
    const upcoming: AppointmentList
    const past: AppointmentList

    /** The seven-argument constructor: two new empty lists and a new medical history. */
    constructor (details: PersonDetails, telegramId: string)
      ensures this.details == details && this.telegramId == telegramId
      ensures fresh(upcoming) && fresh(past) && upcoming != past
      ensures upcoming.items == [] && past.items == []
      ensures medicalHistory == FreshHistory
    {
      this.details := details;
      this.telegramId := telegramId;
      upcoming := new AppointmentList.Empty();
      past := new AppointmentList.Empty();
      medicalHistory := FreshHistory;
    }

    /** The nine-argument constructor: the given lists are stored, not copied. */
    constructor WithLists(details: PersonDetails, telegramId: string,
                          upcoming: AppointmentList, past: AppointmentList)
      ensures this.details == details && this.telegramId == telegramId
      ensures this.upcoming == upcoming && this.past == past
      ensures medicalHistory == FreshHistory
    {
      this.details := details;
      this.telegramId := telegramId;
      this.upcoming := upcoming;
      this.past := past;
      medicalHistory := FreshHistory;
    }

    /** The ten-argument constructor: lists stored, not copied, and the given history kept. */
    constructor WithHistory(details: PersonDetails, telegramId: string,
                            upcoming: AppointmentList, past: AppointmentList,
                            medicalHistory: MedicalHistory)
      ensures this.details == details && this.telegramId == telegramId
      ensures this.upcoming == upcoming && this.past == past
      ensures this.medicalHistory == medicalHistory
    {
      this.details := details;
      this.telegramId := telegramId;
      this.upcoming := upcoming;
      this.past := past;
      this.medicalHistory := medicalHistory;
    }

    /** Some upcoming appointment carries `id`; the past list plays no part. */
    predicate HasAppointmentWith(id: int)
      reads upcoming
    {
      exists i :: 0 <= i < |upcoming.items| && upcoming.items[i].id == id
    }

    /** `addUpcomingAppointment`: appends to the upcoming list. */
    method AddUpcomingAppointment(a: Appointment)
      modifies upcoming
      ensures upcoming.items == old(upcoming.items) + [a]
      ensures upcoming != past ==> unchanged(past)
    {
      upcoming.Add(a);
    }

    /** `deleteAppointment`: drops the first equal upcoming appointment, if any. */
    method DeleteAppointment(a: Appointment)
      modifies upcoming
      ensures upcoming.items == Sequences.RemoveFirst(old(upcoming.items), a)
      ensures upcoming != past ==> unchanged(past)
    {
      var _ := upcoming.Remove(a);
    }

    /**
     * `completeUpcomingAppointment`: the last upcoming appointment that is the
     * same as `target` is marked complete where it stands, the first element
     * equal to the completed value is removed from the upcoming list, and the
     * completed value is appended to the past list. The source dereferences
     * null when nothing matches, so a match is required.
     */
    method CompleteUpcomingAppointment(target: Appointment)
      requires exists i :: 0 <= i < |upcoming.items| && upcoming.items[i].IsSameAppointment(target)
      modifies upcoming, past
      ensures LastSame(old(upcoming.items), target).Some?
      ensures
        var k := LastSame(old(upcoming.items), target).value;
        var done := old(upcoming.items)[k].Complete();
        var marked := old(upcoming.items)[k := done];
        if upcoming != past then
          upcoming.items == Sequences.RemoveFirst(marked, done) &&
          past.items == old(past.items) + [done]
        else
          upcoming.items == Sequences.RemoveFirst(marked, done) + [done]
      ensures upcoming != past ==>
        var k := LastSame(old(upcoming.items), target).value;
        multiset(upcoming.items) == multiset(old(upcoming.items)) - multiset{old(upcoming.items)[k]} &&
        |upcoming.items| + |past.items| == old(|upcoming.items| + |past.items|)
    {
      var found: Option<nat> := None;
      var i := 0;
      while i < |upcoming.items|
        invariant 0 <= i <= |upcoming.items|
        invariant found == LastSame(upcoming.items[..i], target)
      {
        assert upcoming.items[..i + 1][..i] == upcoming.items[..i];
        if upcoming.items[i].IsSameAppointment(target) {
          found := Some(i);
        }
        i := i + 1;
      }
      assert upcoming.items[..i] == upcoming.items;
      var k := found.value;
      var done := upcoming.items[k].Complete();
      var marked := upcoming.items[k := done];
      Sequences.UpdateThenRemove(upcoming.items, k, done);
      // the appointment object changes status while it is still in the list
      upcoming.items := marked;
      var _ := upcoming.Remove(done);
      past.Add(done);
    }

    /** `hasAppointment`: a search of the upcoming list only. */
    method HasAppointment(id: int) returns (b: bool)
      ensures b <==> exists i :: 0 <= i < |upcoming.items| && upcoming.items[i].id == id
      ensures b == HasAppointmentWith(id)
    {
      var i := 0;
      while i < |upcoming.items|
        invariant 0 <= i <= |upcoming.items|
        invariant forall j :: 0 <= j < i ==> upcoming.items[j].id != id
      {
        if upcoming.items[i].id == id {
          return true;
        }
        i := i + 1;
      }
      return false;
    }

    /**
     * `setAppointment` (inherited from `Person`): every element equal to
     * `target`, in both lists, becomes `edited`.
     */
    method SetAppointment(target: Appointment, edited: Appointment)
      modifies upcoming, past
      ensures upcoming.items == Sequences.ReplaceAll(old(upcoming.items), target, edited)
      ensures past.items == Sequences.ReplaceAll(old(past.items), target, edited)
    {
      upcoming.ReplaceAll(target, edited);
      if past == upcoming {
        Sequences.ReplaceAllIdempotent(old(upcoming.items), target, edited);
      }
      past.ReplaceAll(target, edited);
    }
  }
}

/**
 * The part of `Model` that `AddPrescriptionCommand` uses: the filtered
 * appointment and person lists, the two "show everything" switches and a
 * count of commits to the undo history.
 */
module Models {
  import opened Records
  import opened Persons
  import Sequences

  class Model {
    var appointments: seq<Appointment>
    var persons: seq<Person>
    var showAllAppointments: bool
    var showAllPersons: bool
    var commits: nat

    constructor (appointments: seq<Appointment>, persons: seq<Person>)
      ensures this.appointments == appointments && this.persons == persons
      ensures !showAllAppointments && !showAllPersons && commits == 0
    {
      this.appointments := appointments;
      this.persons := persons;
      showAllAppointments, showAllPersons := false, false;
      commits := 0;
    }

    /** `setAppointment`: the target, which must be present, is replaced by `edited`. */
    method SetAppointment(target: Appointment, edited: Appointment)
      requires target in appointments
      modifies this
      ensures appointments == Sequences.ReplaceFirst(old(appointments), target, edited)
      ensures persons == old(persons) && commits == old(commits)
      ensures showAllAppointments == old(showAllAppointments) && showAllPersons == old(showAllPersons)
    {
      appointments := Sequences.ReplaceFirst(appointments, target, edited);
    }

    /** `updatePerson`: the target record, which must be present, is replaced by `edited`. */
    method UpdatePerson(target: Person, edited: Person)
      requires target in persons
      modifies this
      ensures persons == Sequences.ReplaceFirst(old(persons), target, edited)
      ensures appointments == old(appointments) && commits == old(commits)
      ensures showAllAppointments == old(showAllAppointments) && showAllPersons == old(showAllPersons)
    {
      persons := Sequences.ReplaceFirst(persons, target, edited);
    }

    /** `updateFilteredAppointmentList(PREDICATE_SHOW_ALL_APPOINTMENTS)` */
    method ShowAllAppointments()
      modifies this
      ensures showAllAppointments
      ensures appointments == old(appointments) && persons == old(persons) && commits == old(commits)
      ensures showAllPersons == old(showAllPersons)
    {
      showAllAppointments := true;
    }

    /** `updateFilteredPersonList(PREDICATE_SHOW_ALL_PERSONS)` */
    method ShowAllPersons()
      modifies this
      ensures showAllPersons
      ensures appointments == old(appointments) && persons == old(persons) && commits == old(commits)
      ensures showAllAppointments == old(showAllAppointments)
    {
      showAllPersons := true;
    }

    /** `commitAddressBook`: one more snapshot in the undo history. */
    method CommitAddressBook()
      modifies this
      ensures commits == old(commits) + 1
      ensures appointments == old(appointments) && persons == old(persons)
      ensures showAllAppointments == old(showAllAppointments) && showAllPersons == old(showAllPersons)
    {
      commits := commits + 1;
    }
  }
}

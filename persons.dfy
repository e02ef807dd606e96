/**
 * The person records the model holds. `Doctor` is a stand-in with only what
 * `AddPrescriptionCommand` relies on; `Person` is the tagged variant that
 * replaces the source's `instanceof` tests.
 */
module Persons {
  import opened Records
  import opened AppointmentLists
  import opened Patients
  import Sequences

  /** A doctor: the person fields and a list of upcoming appointments only. */
  class Doctor {
    const details: PersonDetails
    const upcoming: AppointmentList

    /** The seven-argument constructor: the list is stored, not copied. */
    constructor (details: PersonDetails, upcoming: AppointmentList)
      ensures this.details == details && this.upcoming == upcoming
    {
      this.details := details;
      this.upcoming := upcoming;
    }

    /** Some upcoming appointment carries `id`; only the upcoming list is searched. */
    predicate HasAppointmentWith(id: int)
      reads upcoming
    {
      exists i :: 0 <= i < |upcoming.items| && upcoming.items[i].id == id
    }

    /**
     * `hasAppointment`: a search of the upcoming list. The scan reads the
     * predicate `HasAppointmentWith`; this loop shows that the search the
     * source runs answers the same.
     */
    method HasAppointment(id: int) returns (b: bool)
      ensures b <==> exists i :: 0 <= i < |upcoming.items| && upcoming.items[i].id == id
      ensures b == HasAppointmentWith(id)
    {
      var i := 0;
      while i < |upcoming.items|
        invariant 0 <= i <= |upcoming.items|
        invariant forall j :: 0 <= j < i ==> upcoming.items[j].id != id
      {
        if upcoming.items[i].id == id {
          return true;
        }
        i := i + 1;
      }
      return false;
    }

    /** `setAppointment`: every element equal to `target` becomes `edited`. */
    method SetAppointment(target: Appointment, edited: Appointment)
      modifies upcoming
      ensures upcoming.items == Sequences.ReplaceAll(old(upcoming.items), target, edited)
    {
      upcoming.ReplaceAll(target, edited);
    }
  }

  datatype Person = PatientRecord(patient: Patient) | DoctorRecord(doctor: Doctor)
  {
    function Name(): string {
      match this
      case PatientRecord(p) => p.details.name
      case DoctorRecord(d) => d.details.name
    }

    /** The appointment lists this record refers to. */
    function Lists(): set<AppointmentList> {
      match this
      case PatientRecord(p) => {p.upcoming, p.past}
      case DoctorRecord(d) => {d.upcoming}
    }

    /** The record object itself. */
    function Record(): object {
      match this
      case PatientRecord(p) => p
      case DoctorRecord(d) => d
    }
  }

  /** Every appointment list the records of `ps` refer to. */
  ghost function ListsOf(ps: seq<Person>): set<AppointmentList> {
    set i, l | 0 <= i < |ps| && l in ps[i].Lists() :: l
  }

  /** Every record object of `ps` and every list they refer to. */
  ghost function ObjectsOf(ps: seq<Person>): set<object> {
    ListsOf(ps) + set i | 0 <= i < |ps| :: ps[i].Record()
  }
}

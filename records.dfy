/**
 * The value entities of the health book: the fields shared by every person
 * record, prescriptions, a patient's medical history and appointments.
 */
module Records {
  import opened Wrappers

  /** The fields of `Person`: name, phone, email, address, remark and tags. */
  datatype PersonDetails = PersonDetails(
    name: string, phone: string, email: string, address: string, remark: string, tags: set<string>)

  /** `Prescription`: equal exactly when all three fields are equal. */
  datatype Prescription = Prescription(medicineName: string, dosage: int, consumptionPerDay: int)

  /** `MedicalHistory`; the allergies in the order a scan visits them. */
  datatype MedicalHistory = MedicalHistory(allergies: seq<string>, conditions: seq<string>)

  /** `new MedicalHistory()` */
  const FreshHistory := MedicalHistory([], [])

  const Upcoming := "UPCOMING"
  const Completed := "COMPLETED"

  /**
   * `Appointment`: the doctor and the patient are referred to by name and the
   * status is a string, as in the source.
   */
  datatype Appointment = Appointment(
    id: int, doctor: string, patient: string, dateTime: string,
    status: string, comments: string, prescriptions: seq<Prescription>)
  {
    /**
     * The copy `execute` builds: every field copied, the prescriptions being
     * the old ones followed by `p`.
     */
    function WithPrescription(p: Prescription): (r: Appointment)
      ensures r.id == id && r.doctor == doctor && r.patient == patient
      ensures r.dateTime == dateTime && r.status == status && r.comments == comments
      ensures |r.prescriptions| == |prescriptions| + 1
      ensures r.prescriptions[..|prescriptions|] == prescriptions && r.prescriptions[|prescriptions|] == p
      ensures p !in prescriptions ==> r != this
    {
      Appointment(id, doctor, patient, dateTime, status, comments, prescriptions + [p])
    }

    /** `completeAppointment`: only the status changes. */
    function Complete(): (r: Appointment)
      ensures r.status == Completed
      ensures r.(status := status) == this
    {
      this.(status := Completed)
    }

    /**
     * `isSameAppointment`: the same appointment id. An appointment is the same
     * as itself, and never the same as one with another id.
     */
    predicate IsSameAppointment(other: Appointment)
      ensures other == this ==> IsSameAppointment(other)
      ensures other.id != id ==> !IsSameAppointment(other)
    {
      id == other.id
    }
  }

  /** Index of the first appointment in list order whose id is `id`. */
  function FirstWithId(s: seq<Appointment>, id: int): (r: Option<nat>)
    ensures r.Some? ==> r.value < |s| && s[r.value].id == id
    ensures r.Some? ==> forall j :: 0 <= j < r.value ==> s[j].id != id
    ensures r.None? <==> forall j :: 0 <= j < |s| ==> s[j].id != id
  {
    if s == [] then None
    else if s[0].id == id then Some(0)
    else match FirstWithId(s[1..], id)
      case None => None
      case Some(k) => Some(k + 1)
  }
}

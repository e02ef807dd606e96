/**
 * A worked example of the `add prescription` command. Appointment 10005 has no
 * prescriptions yet. The person list holds its patient, who is allergic to
 * "peanuts", and then its doctor.
 */
module PrescriptionScenario {
  import opened Wrappers
  import opened Strings
  import opened Records
  import opened AppointmentLists
  import opened Patients
  import opened Persons
  import opened Models
  import opened AddPrescription

  /** Two doses of Paracetamol, three times a day. */
  const Paracetamol := Prescription("Paracetamol", 2, 3)

  /**
   * The person list is the patient of `a`, then its doctor, each holding `a`
   * as its only upcoming appointment, the patient being allergic to "peanuts".
   */
  predicate Booked(persons: seq<Person>, a: Appointment)
    reads ObjectsOf(persons)
  {
    |persons| == 2 && persons[0].PatientRecord? && persons[1].DoctorRecord? &&
    var p := persons[0].patient;
    var d := persons[1].doctor;
    assert p.upcoming in persons[0].Lists() && d.upcoming in persons[1].Lists();
    p.details.name == a.patient && p.upcoming.items == [a] && p.medicalHistory.allergies == ["peanuts"] &&
    d.details.name == a.doctor && d.upcoming.items == [a]
  }

  /** On a booked list the scan finds the patient first and the doctor second. */
  lemma BookedScan(persons: seq<Person>, a: Appointment)
    requires Booked(persons, a)
    ensures Scan(persons, a, a.id) == Selection(Some(1), Some(0))
  {
    var none := Selection(None, None);
    assert persons[0].patient.upcoming.items[0] == a;
    assert persons[1].doctor.upcoming.items[0] == a;
    assert IsPatientFor(persons[0], a, a.id) && !IsDoctorFor(persons[0], a, a.id);
    assert IsDoctorFor(persons[1], a, a.id) && !IsPatientFor(persons[1], a, a.id);
    assert Step(none, persons, 0, a, a.id) == Selection(None, Some(0));
    assert Step(Selection(None, Some(0)), persons, 1, a, a.id) == Selection(Some(1), Some(0));
    assert ScanFrom(persons, a, a.id, 1, Selection(None, Some(0))) == Selection(Some(1), Some(0));
  }

  /** On a booked list the checks pass unless the medicine is "peanuts" in some case. */
  lemma BookedCheck(persons: seq<Person>, a: Appointment, medicine: string)
    requires Booked(persons, a)
    ensures Check(0, a, persons, a.id, medicine) ==
      if EqualsIgnoreCase("peanuts", medicine) then Allergic(0, Selection(Some(1), Some(0)), "peanuts")
      else Apply(0, Selection(Some(1), Some(0)))
  {
    BookedScan(persons, a);
  }

  /** A command on the only, booked, appointment, with a new prescription, reaches the checks. */
  lemma BookedDecide(cmd: AddPrescriptionCommand, appts: seq<Appointment>, persons: seq<Person>, a: Appointment)
    requires Booked(persons, a) && appts == [a] && cmd.id == a.id && cmd.prescription !in a.prescriptions
    ensures cmd.Decide(appts, persons) ==
      if EqualsIgnoreCase("peanuts", cmd.prescription.medicineName) then Allergic(0, Selection(Some(1), Some(0)), "peanuts")
      else Apply(0, Selection(Some(1), Some(0)))
  {
    assert FirstWithId(appts, a.id) == Some(0);
    BookedCheck(persons, a, cmd.prescription.medicineName);
  }

  /** Paracetamol on the booked appointment without prescriptions passes every check. */
  lemma ParacetamolApplies(persons: seq<Person>, a: Appointment)
    requires Booked(persons, a) && a.id == 10005 && a.prescriptions == []
    ensures AddPrescriptionCommand(10005, Paracetamol).Decide([a], persons) == Apply(0, Selection(Some(1), Some(0)))
    ensures Touched(Selection(Some(1), Some(0)), persons) <= ObjectsOf(persons)
  {
    PeanutsSpellings();
    BookedDecide(AddPrescriptionCommand(10005, Paracetamol), [a], persons, a);
  }

  /** Paracetamol on the booked appointment that already holds it is a duplicate. */
  lemma ParacetamolDuplicate(persons: seq<Person>, a: Appointment)
    requires a.id == 10005 && a.prescriptions == [Paracetamol]
    ensures AddPrescriptionCommand(10005, Paracetamol).Decide([a], persons) == Duplicate(0)
  {
    assert FirstWithId([a], 10005) == Some(0);
  }

  /** "Peanuts" on the booked appointment holding Paracetamol is refused for the allergy. */
  lemma PeanutsAllergic(persons: seq<Person>, a: Appointment)
    requires Booked(persons, a) && a.id == 10005 && a.prescriptions == [Paracetamol]
    ensures AddPrescriptionCommand(10005, Prescription("Peanuts", 1, 1)).Decide([a], persons) ==
      Allergic(0, Selection(Some(1), Some(0)), "peanuts")
  {
    PeanutsSpellings();
    BookedDecide(AddPrescriptionCommand(10005, Prescription("Peanuts", 1, 1)), [a], persons, a);
  }

  /** "Peanuts" is "peanuts" ignoring case; "Paracetamol" is not. */
  lemma PeanutsSpellings()
    ensures EqualsIgnoreCase("peanuts", "Peanuts")
    ensures !EqualsIgnoreCase("peanuts", "Paracetamol")
    ensures Prescription("Peanuts", 1, 1) !in [Paracetamol]
  {
    var lower := ToLower("Peanuts");
    assert lower[0] == LowerChar('P');
    assert lower == "peanuts";
    assert ToLower("peanuts") == "peanuts";
  }

  /** A model holding appointment `a` and its two records, as `Booked` describes. */
  method Setup(a: Appointment) returns (model: Model)
    ensures fresh(model) && model.appointments == [a]
    ensures Booked(model.persons, a)
    ensures fresh(ObjectsOf(model.persons))
  {
    var patient := new Patient(PersonDetails(a.patient, "91234567", "lim@example.com", "Blk 1", "", {}), "@lim");
    patient.medicalHistory := MedicalHistory(["peanuts"], []);
    patient.AddUpcomingAppointment(a);
    var doctorList := new AppointmentList.Empty();
    doctorList.Add(a);
    var doctor := new Doctor(PersonDetails(a.doctor, "98765432", "tan@example.com", "Blk 2", "", {}), doctorList);
    model := new Model([a], [PatientRecord(patient), DoctorRecord(doctor)]);
  }

  /**
   * On appointment 10005 without prescriptions, adding Paracetamol succeeds
   * and leaves the appointment holding it; adding the same prescription once
   * more is then refused as a duplicate.
   */
  method ParacetamolTwice() returns (first: CommandResult, again: CommandResult)
    ensures first == Success("Paracetamol")
    ensures again == Failure(DuplicatePrescription)
  {
    var appt := Appointment(10005, "Tan", "Lim", "2026-10-14 10:00", Upcoming, "", []);
    var model := Setup(appt);
    var add := AddPrescriptionCommand(10005, Paracetamol);
    ParacetamolApplies(model.persons, appt);
    var selected: Option<Patient>;
    ghost var editedDoctor: Option<Doctor>;
    ghost var stage: Stage;
    first, selected, editedDoctor, stage := add.Execute(model);
    var edited := appt.WithPrescription(Paracetamol);
    assert model.appointments == [edited];
    ParacetamolDuplicate(model.persons, edited);
    again, selected, editedDoctor, stage := add.Execute(model);
  }

  /**
   * Once the appointment holds Paracetamol, adding "Peanuts" is refused
   * because it is the patient's allergy "peanuts" ignoring case, and the
   * error names the allergy as the record spells it.
   */
  method PeanutsRefused() returns (result: CommandResult)
    ensures result == Failure(PatientAllergicTo("peanuts"))
  {
    var edited := Appointment(10005, "Tan", "Lim", "2026-10-14 10:00", Upcoming, "", [Paracetamol]);
    var model := Setup(edited);
    var add := AddPrescriptionCommand(10005, Prescription("Peanuts", 1, 1));
    PeanutsAllergic(model.persons, edited);
    ghost var refusal := Allergic(0, Selection(Some(1), Some(0)), "peanuts");
    var selected: Option<Patient>;
    ghost var editedDoctor: Option<Doctor>;
    ghost var stage: Stage;
    result, selected, editedDoctor, stage := add.Execute(model);
    assert stage == refusal;
  }
}

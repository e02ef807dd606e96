/**
 * `AddPrescriptionCommand`: adds a prescription to an appointment after a
 * fixed sequence of checks, then replaces the appointment, the patient record
 * and, when there is one, the doctor record, and commits.
 */
module AddPrescription {
  import opened Wrappers
  import opened Strings
  import opened Records
  import opened AppointmentLists
  import opened Patients
  import opened Persons
  import opened Models
  import Sequences

  /** The three user-facing failure messages; the allergic one names the allergy. */
  datatype CommandError =
    | AppointmentDoesNotExist
    | DuplicatePrescription
    | PatientAllergicTo(allergy: string)

  /** Either "New Prescription added: <medicine name>" or a failure. */
  datatype CommandResult = Success(medicineName: string) | Failure(error: CommandError)

  /** What a command object is compared with: another `AddPrescriptionCommand` or anything else. */
  datatype CommandObject = AddPrescriptionObject(command: AddPrescriptionCommand) | OtherObject(kind: string)

  /** Positions, in the person list, of the doctor and patient records the scan has selected so far. */
  datatype Selection = Selection(doctor: Option<nat>, patient: Option<nat>)
  {
    predicate BothFound() {
      doctor.Some? && patient.Some?
    }

    /** The selected positions exist and hold records of the right kind. */
    predicate Within(ps: seq<Person>) {
      (patient.Some? ==> patient.value < |ps| && ps[patient.value].PatientRecord?) &&
      (doctor.Some? ==> doctor.value < |ps| && ps[doctor.value].DoctorRecord?)
    }
  }

  /** `person` is a doctor named like the appointment's doctor who has an upcoming appointment `id`. */
  predicate IsDoctorFor(person: Person, appt: Appointment, id: int)
    reads person.Lists()
    ensures IsDoctorFor(person, appt, id) ==> person.DoctorRecord? && person.Name() == appt.doctor
    ensures IsDoctorFor(person, appt, id) ==> !IsPatientFor(person, appt, id)
  {
    person.DoctorRecord? && appt.doctor == person.doctor.details.name && person.doctor.HasAppointmentWith(id)
  }

  /** `person` is a patient named like the appointment's patient who has an upcoming appointment `id`. */
  predicate IsPatientFor(person: Person, appt: Appointment, id: int)
    reads person.Lists()
    ensures IsPatientFor(person, appt, id) ==> person.PatientRecord? && person.Name() == appt.patient
  {
    person.PatientRecord? && appt.patient == person.patient.details.name && person.patient.HasAppointmentWith(id)
  }

  /**
   * One turn of the person scan at position `i`: a matching record overrides
   * the earlier choice of its kind, and the other kind's choice is kept.
   */
  function Step(sel: Selection, ps: seq<Person>, i: nat, appt: Appointment, id: int): (r: Selection)
    requires i < |ps|
    reads ps[i].Lists()
    ensures IsPatientFor(ps[i], appt, id) ==> r.patient == Some(i) && r.doctor == sel.doctor
    ensures IsDoctorFor(ps[i], appt, id) ==> r.doctor == Some(i) && r.patient == sel.patient
    ensures !IsPatientFor(ps[i], appt, id) && !IsDoctorFor(ps[i], appt, id) ==> r == sel
  {
    Selection(
      if IsDoctorFor(ps[i], appt, id) then Some(i) else sel.doctor,
      if IsPatientFor(ps[i], appt, id) then Some(i) else sel.patient)
  }

  /** The person scan from position `i` on, stopping once both records have been found. */
  ghost function ScanFrom(ps: seq<Person>, appt: Appointment, id: int, i: nat, sel: Selection): Selection
    requires i <= |ps|
    reads ListsOf(ps)
    decreases |ps| - i
  {
    if i == |ps| || sel.BothFound() then sel
    else ScanFrom(ps, appt, id, i + 1, Step(sel, ps, i, appt, id))
  }

  /** The person scan of `execute`, from the start of the list with nothing selected. */
  ghost function Scan(ps: seq<Person>, appt: Appointment, id: int): Selection
    reads ListsOf(ps)
  {
    ScanFrom(ps, appt, id, 0, Selection(None, None))
  }

  /**
   * From position `i` on, a record is selected only if it matches or was
   * selected before, and a kind of record stays missing exactly when it was
   * missing and nothing from `i` on matches.
   */
  lemma {:induction false} ScanFromSelects(ps: seq<Person>, appt: Appointment, id: int, i: nat, sel: Selection)
    requires i <= |ps|
    ensures var r := ScanFrom(ps, appt, id, i, sel);
      r.patient.Some? ==>
        r.patient == sel.patient ||
        (i <= r.patient.value < |ps| && IsPatientFor(ps[r.patient.value], appt, id))
    ensures var r := ScanFrom(ps, appt, id, i, sel);
      r.doctor.Some? ==>
        r.doctor == sel.doctor ||
        (i <= r.doctor.value < |ps| && IsDoctorFor(ps[r.doctor.value], appt, id))
    ensures var r := ScanFrom(ps, appt, id, i, sel);
      r.patient.None? <==> sel.patient.None? && forall j :: i <= j < |ps| ==> !IsPatientFor(ps[j], appt, id)
    ensures var r := ScanFrom(ps, appt, id, i, sel);
      r.doctor.None? <==> sel.doctor.None? && forall j :: i <= j < |ps| ==> !IsDoctorFor(ps[j], appt, id)
    decreases |ps| - i
  {
    if i < |ps| && !sel.BothFound() {
      ScanFromSelects(ps, appt, id, i + 1, Step(sel, ps, i, appt, id));
    }
  }

  /**
   * The scan selects a patient (a doctor) only among the matching records,
   * and leaves it missing exactly when no record matches.
   */
  lemma ScanSelects(ps: seq<Person>, appt: Appointment, id: int)
    ensures var r := Scan(ps, appt, id);
      r.patient.Some? ==> r.patient.value < |ps| && IsPatientFor(ps[r.patient.value], appt, id)
    ensures var r := Scan(ps, appt, id);
      r.doctor.Some? ==> r.doctor.value < |ps| && IsDoctorFor(ps[r.doctor.value], appt, id)
    ensures Scan(ps, appt, id).patient.None? <==> forall j :: 0 <= j < |ps| ==> !IsPatientFor(ps[j], appt, id)
    ensures Scan(ps, appt, id).doctor.None? <==> forall j :: 0 <= j < |ps| ==> !IsDoctorFor(ps[j], appt, id)
  {
    ScanFromSelects(ps, appt, id, 0, Selection(None, None));
  }

  /** Index of the first allergy equal to `medicine` once both are lower-cased. */
  function FirstAllergy(allergies: seq<string>, medicine: string): (r: Option<nat>)
    ensures r.Some? ==> r.value < |allergies| && EqualsIgnoreCase(allergies[r.value], medicine)
    ensures r.Some? ==> forall j :: 0 <= j < r.value ==> !EqualsIgnoreCase(allergies[j], medicine)
    ensures r.None? <==> forall j :: 0 <= j < |allergies| ==> !EqualsIgnoreCase(allergies[j], medicine)
  {
    if allergies == [] then None
    else if EqualsIgnoreCase(allergies[0], medicine) then Some(0)
    else match FirstAllergy(allergies[1..], medicine)
      case None => None
      case Some(k) => Some(k + 1)
  }

  /** The person scan of `execute`. */
  method SelectRecords(ps: seq<Person>, appt: Appointment, id: int) returns (sel: Selection)
    ensures sel == Scan(ps, appt, id)
  {
    sel := Selection(None, None);
    var i := 0;
    while i < |ps|
      invariant 0 <= i <= |ps|
      invariant !sel.BothFound()
      invariant ScanFrom(ps, appt, id, i, sel) == Scan(ps, appt, id)
    {
      ghost var before := sel;
      match ps[i] {
        case DoctorRecord(d) =>
          if appt.doctor == d.details.name && d.HasAppointmentWith(id) {
            sel := sel.(doctor := Some(i));
          }
        case PatientRecord(p) =>
          if appt.patient == p.details.name && p.HasAppointmentWith(id) {
            sel := sel.(patient := Some(i));
          }
      }
      assert sel == Step(before, ps, i, appt, id);
      assert ScanFrom(ps, appt, id, i, before) == ScanFrom(ps, appt, id, i + 1, sel);
      if sel.BothFound() {
        return;
      }
      i := i + 1;
    }
  }

  /** The allergy check of `execute`. */
  method FindAllergy(allergies: seq<string>, medicine: string) returns (r: Option<nat>)
    ensures r == FirstAllergy(allergies, medicine)
  {
    var i := 0;
    while i < |allergies|
      invariant 0 <= i <= |allergies|
      invariant forall j :: 0 <= j < i ==> !EqualsIgnoreCase(allergies[j], medicine)
    {
      if ToLower(allergies[i]) == ToLower(medicine) {
        return Some(i);
      }
      i := i + 1;
    }
    return None;
  }

  /** How far `execute` gets, given the filtered lists; `k` is the appointment's position. */
  datatype Stage =
    | NoAppointment
    | Duplicate(k: nat)
    | Unmatched(k: nat, sel: Selection)
    | Allergic(k: nat, sel: Selection, allergy: string)
    | Apply(k: nat, sel: Selection)
  {
    /**
     * The message `execute` ends with: "appointment does not exist" for an
     * unknown id and for a missing record, the duplicate message for a
     * duplicate, the allergy for an allergic patient, and the medicine's name
     * on success.
     */
    function Result(medicineName: string): (r: CommandResult)
      ensures r.Success? <==> Apply?
      ensures r.Success? ==> r.medicineName == medicineName
      ensures r == Failure(AppointmentDoesNotExist) <==> NoAppointment? || Unmatched?
      ensures r == Failure(DuplicatePrescription) <==> Duplicate?
      ensures r.Failure? && r.error.PatientAllergicTo? <==> Allergic?
      ensures Allergic? ==> r.error.allergy == allergy
    {
      match this
      case NoAppointment => Failure(AppointmentDoesNotExist)
      case Duplicate(_) => Failure(DuplicatePrescription)
      case Unmatched(_, _) => Failure(AppointmentDoesNotExist)
      case Allergic(_, _, a) => Failure(PatientAllergicTo(a))
      case Apply(_, _) => Success(medicineName)
    }

    /** The lists the decision lets `execute` rewrite: the selected records' on success, none otherwise. */
    function Rewrites(ps: seq<Person>): set<AppointmentList>
      requires Apply? ==> sel.Within(ps)
    {
      if Apply? then Touched(sel, ps) else {}
    }
  }

  /** The scan only depends on the lists of the records. */
  twostate lemma ScanFramed(query: (seq<Person>, Appointment, int))
    requires var (ps, _, _) := query; unchanged(ListsOf(ps))
    ensures var (ps, appt, id) := query; Scan(ps, appt, id) == old(Scan(ps, appt, id))
  {
  }

  /** The lists the edit rewrites: the selected patient's two and the selected doctor's, if any. */
  function Touched(sel: Selection, ps: seq<Person>): set<AppointmentList>
    requires sel.Within(ps)
  {
    (if sel.patient.Some? then ps[sel.patient.value].Lists() else {}) +
    (if sel.doctor.Some? then ps[sel.doctor.value].Lists() else {})
  }


  /**
   * The checks `execute` makes once the appointment (at position `k`) is
   * known: the record scan, the missing-record test and the allergy test.
   */
  ghost function Check(k: nat, appt: Appointment, persons: seq<Person>, id: int, medicine: string): (s: Stage)
    reads ObjectsOf(persons)
    ensures (s.Unmatched? || s.Allergic? || s.Apply?) && s.k == k && s.sel.Within(persons)
    ensures (s.Allergic? || s.Apply?) ==> s.sel.patient.Some?
  {
    var sel := Scan(persons, appt, id);
    ScanSelects(persons, appt, id);
    if (appt.status == Upcoming && (sel.patient.None? || sel.doctor.None?)) || sel.patient.None? then
      Unmatched(k, sel)
    else
      var allergies := persons[sel.patient.value].patient.medicalHistory.allergies;
      match FirstAllergy(allergies, medicine)
      case Some(a) => Allergic(k, sel, allergies[a])
      case None => Apply(k, sel)
  }

  /** The checks only depend on the records and their lists. */
  twostate lemma CheckFramed(query: (nat, Appointment, seq<Person>, int, string))
    requires var (_, _, ps, _, _) := query; unchanged(ObjectsOf(ps))
    ensures var (k, appt, ps, id, medicine) := query;
      Check(k, appt, ps, id, medicine) == old(Check(k, appt, ps, id, medicine))
  {
  }

  /**
   * The checks of `execute` after the appointment has been rewritten: an
   * upcoming appointment needs both records, any other needs the patient's;
   * then the patient must not be allergic to the medicine.
   */
  method Validate(k: nat, appt: Appointment, persons: seq<Person>, id: int, medicine: string) returns (s: Stage)
    ensures s == Check(k, appt, persons, id, medicine)
  {
    var sel := SelectRecords(persons, appt, id);
    label Scanned:
    ScanSelects(persons, appt, id);
    if appt.status == Upcoming {
      if sel.patient.None? || sel.doctor.None? {
        return Unmatched(k, sel);
      }
    } else {
      if sel.patient.None? {
        return Unmatched(k, sel);
      }
    }
    var q := persons[sel.patient.value].patient;
    var allergies := q.medicalHistory.allergies;
    var allergic := FindAllergy(allergies, medicine);
    ScanFramed@Scanned((persons, appt, id));
    if allergic.Some? {
      return Allergic(k, sel, allergies[allergic.value]);
    }
    return Apply(k, sel);
  }

  /**
   * The patient record at `qi` is replaced by a copy holding the same details,
   * history and list objects, after `target` became `edited` in both lists.
   */
  method ReplacePatient(model: Model, qi: nat, target: Appointment, edited: Appointment) returns (np: Patient)
    requires qi < |model.persons| && model.persons[qi].PatientRecord?
    modifies model, model.persons[qi].Lists()
    ensures var q := old(model.persons[qi].patient);
      fresh(np) && np.details == q.details && np.telegramId == q.telegramId &&
      np.medicalHistory == old(q.medicalHistory) && np.upcoming == q.upcoming && np.past == q.past
    ensures var q := old(model.persons[qi].patient);
      q.upcoming.items == Sequences.ReplaceAll(old(q.upcoming.items), target, edited) &&
      q.past.items == Sequences.ReplaceAll(old(q.past.items), target, edited)
    ensures model.persons == Sequences.ReplaceFirst(old(model.persons), old(model.persons[qi]), PatientRecord(np))
    ensures model.appointments == old(model.appointments) && model.commits == old(model.commits)
    ensures model.showAllAppointments == old(model.showAllAppointments)
    ensures model.showAllPersons == old(model.showAllPersons)
  {
    var q := model.persons[qi].patient;
    np := new Patient.WithHistory(q.details, q.telegramId, q.upcoming, q.past, q.medicalHistory);
    np.SetAppointment(target, edited);
    model.UpdatePerson(PatientRecord(q), PatientRecord(np));
  }

  /**
   * The doctor record at `di` is replaced by a copy holding the same details
   * and list object, after `target` became `edited` in that list.
   */
  method ReplaceDoctor(model: Model, di: nat, target: Appointment, edited: Appointment) returns (nd: Doctor)
    requires di < |model.persons| && model.persons[di].DoctorRecord?
    modifies model, model.persons[di].Lists()
    ensures var d := old(model.persons[di].doctor);
      fresh(nd) && nd.details == d.details && nd.upcoming == d.upcoming &&
      d.upcoming.items == Sequences.ReplaceAll(old(d.upcoming.items), target, edited)
    ensures model.persons == Sequences.ReplaceFirst(old(model.persons), old(model.persons[di]), DoctorRecord(nd))
    ensures model.appointments == old(model.appointments) && model.commits == old(model.commits)
    ensures model.showAllAppointments == old(model.showAllAppointments)
    ensures model.showAllPersons == old(model.showAllPersons)
  {
    var d := model.persons[di].doctor;
    nd := new Doctor(d.details, d.upcoming);
    nd.SetAppointment(target, edited);
    model.UpdatePerson(DoctorRecord(d), DoctorRecord(nd));
  }

  /**
   * The success path of `execute` has replaced the selected records: the
   * patient record by the new `np` and, when a doctor was selected, the doctor
   * record by the new `nd`, each copy holding the same details and list objects; `target` has
   * become `edited` in those lists, both filtered lists show everything, and
   * the model has been committed once.
   */
  twostate predicate Replaced(model: Model, ps: seq<Person>, sel: Selection, target: Appointment,
                              edited: Appointment, new np: Patient, new nd: Option<Doctor>)
    requires sel.Within(ps) && sel.patient.Some?
    reads model, np, ps[sel.patient.value].Record(), Touched(sel, ps)
  {
    var q := ps[sel.patient.value].patient;
    fresh(np) && (nd.Some? ==> fresh(nd.value)) &&
    np.details == q.details && np.telegramId == q.telegramId && np.medicalHistory == q.medicalHistory &&
    np.upcoming == q.upcoming && np.past == q.past &&
    q.upcoming.items == Sequences.ReplaceAll(old(q.upcoming.items), target, edited) &&
    q.past.items == Sequences.ReplaceAll(old(q.past.items), target, edited) &&
    var afterPatient := Sequences.ReplaceFirst(ps, ps[sel.patient.value], PatientRecord(np));
    (sel.doctor.None? ==> nd.None? && model.persons == afterPatient) &&
    (sel.doctor.Some? ==>
      var d := ps[sel.doctor.value].doctor;
      nd.Some? && nd.value.details == d.details && nd.value.upcoming == d.upcoming &&
      d.upcoming.items == Sequences.ReplaceAll(old(d.upcoming.items), target, edited) &&
      model.persons == Sequences.ReplaceFirst(afterPatient, ps[sel.doctor.value], DoctorRecord(nd.value))) &&
    model.showAllAppointments && model.showAllPersons && model.commits == old(model.commits) + 1
  }

  /**
   * What replacing the appointment by its copy with a new prescription does
   * to any list, such as the selected records' lists in `Replaced`: every
   * place that held `appt` holds the copy, and `appt` is no longer there.
   */
  lemma EditedListsLoseTarget(s: seq<Appointment>, appt: Appointment, p: Prescription)
    requires p !in appt.prescriptions
    ensures var r := Sequences.ReplaceAll(s, appt, appt.WithPrescription(p));
      appt !in r && |r| == |s| &&
      forall i :: 0 <= i < |s| && s[i] == appt ==> r[i] == appt.WithPrescription(p)
  {
    Sequences.ReplaceAllRemoves(s, appt, appt.WithPrescription(p));
  }

  /** The success path of `execute`, for the patient at `qi` and the doctor at `di`, if any. */
  method ReplaceRecords(model: Model, qi: nat, di: Option<nat>, target: Appointment, edited: Appointment)
      returns (np: Patient, nd: Option<Doctor>)
    requires Selection(di, Some(qi)).Within(model.persons)
    modifies model, Touched(Selection(di, Some(qi)), model.persons)
    ensures Replaced(model, old(model.persons), Selection(di, Some(qi)), target, edited, np, nd)
    ensures model.appointments == old(model.appointments)
  {
    var persons := model.persons;
    var q := persons[qi].patient;
    Sequences.ReplaceAllIdempotent(q.upcoming.items, target, edited);
    Sequences.ReplaceAllIdempotent(q.past.items, target, edited);
    np := ReplacePatient(model, qi, target, edited);
    nd := None;
    if di.Some? {
      var d := persons[di.value].doctor;
      ghost var doctorBefore := old(d.upcoming.items);
      assert d.upcoming !in {q.upcoming, q.past} ==> d.upcoming.items == doctorBefore;
      Sequences.ReplaceAllIdempotent(doctorBefore, target, edited);
      assert persons[di.value] != persons[qi];
      assert model.persons[di.value] == persons[di.value];
      var editedDoctor := ReplaceDoctor(model, di.value, target, edited);
      nd := Some(editedDoctor);
    }
    model.ShowAllAppointments();
    model.ShowAllPersons();
    model.CommitAddressBook();
  }

  /**
   * `execute` once the appointment has been rewritten: the checks run on
   * `appt`, the appointment as it was, and on success the records are
   * replaced and the model committed. Only the lists of the selected records
   * may change, and only on success.
   */
  method CheckAndReplace(model: Model, k: nat, appt: Appointment, edited: Appointment, id: int, medicine: string)
      returns (result: CommandResult, selected: Option<Patient>,
               ghost editedDoctor: Option<Doctor>, ghost stage: Stage)
    modifies model, Check(k, appt, model.persons, id, medicine).Rewrites(model.persons)
    ensures stage == old(Check(k, appt, model.persons, id, medicine))
    ensures result == stage.Result(medicine)
    ensures selected.Some? <==> stage.Apply?
    ensures model.appointments == old(model.appointments)
    ensures !stage.Apply? ==>
      model.persons == old(model.persons) && model.commits == old(model.commits) &&
      model.showAllAppointments == old(model.showAllAppointments) &&
      model.showAllPersons == old(model.showAllPersons)
    ensures stage.Apply? ==>
      Replaced(model, old(model.persons), stage.sel, appt, edited, selected.value, editedDoctor)
  {
    var persons := model.persons;
    var checked := Validate(k, appt, persons, id, medicine);
    CheckFramed((k, appt, persons, id, medicine));
    stage := checked;
    if !checked.Apply? {
      return checked.Result(medicine), None, None, stage;
    }
    var sel := checked.sel;
    assert sel == Selection(sel.doctor, Some(sel.patient.value));
    var q := persons[sel.patient.value].patient;
    assert q.upcoming.items == old(q.upcoming.items) && q.past.items == old(q.past.items);
    assert sel.doctor.Some? ==>
      persons[sel.doctor.value].doctor.upcoming.items == old(persons[sel.doctor.value].doctor.upcoming.items);
    var np, nd := ReplaceRecords(model, sel.patient.value, sel.doctor, appt, edited);
    return Success(medicine), Some(np), nd, stage;
  }

  /**
   * `execute` from the moment the appointment at `k` is found and holds no
   * equal prescription: the appointment is rewritten first, then the checks
   * and the replacement of `CheckAndReplace` follow.
   */
  method EditAndApply(model: Model, k: nat, id: int, prescription: Prescription)
      returns (result: CommandResult, selected: Option<Patient>,
               ghost editedDoctor: Option<Doctor>, ghost stage: Stage)
    requires k < |model.appointments|
    requires forall j :: 0 <= j < k ==> model.appointments[j] != model.appointments[k]
    modifies model,
      Check(k, model.appointments[k], model.persons, id, prescription.medicineName).Rewrites(model.persons)
    ensures stage == old(Check(k, model.appointments[k], model.persons, id, prescription.medicineName))
    ensures result == stage.Result(prescription.medicineName)
    ensures selected.Some? <==> stage.Apply?
    ensures model.appointments ==
      old(model.appointments)[k := old(model.appointments)[k].WithPrescription(prescription)]
    ensures !stage.Apply? ==>
      model.persons == old(model.persons) && model.commits == old(model.commits) &&
      model.showAllAppointments == old(model.showAllAppointments) &&
      model.showAllPersons == old(model.showAllPersons)
    ensures stage.Apply? ==>
      var appt := old(model.appointments)[k];
      Replaced(model, old(model.persons), stage.sel, appt, appt.WithPrescription(prescription),
               selected.value, editedDoctor)
  {
    var appt := model.appointments[k];
    var edited := appt.WithPrescription(prescription);
    Sequences.ReplaceFirstAt(model.appointments, k, edited);
    model.SetAppointment(appt, edited);
    CheckFramed((k, appt, model.persons, id, prescription.medicineName));
    result, selected, editedDoctor, stage := CheckAndReplace(model, k, appt, edited, id, prescription.medicineName);
  }

  /** An `add prescription` command: the appointment id and the prescription to add. */
  datatype AddPrescriptionCommand = AddPrescriptionCommand(id: int, prescription: Prescription)
  {
    /** `equals`: the same id and an equal prescription; never equal to another kind of object. */
    predicate Equals(o: CommandObject)
      ensures Equals(o) <==> o == AddPrescriptionObject(this)
    {
      o.AddPrescriptionObject? && id == o.command.id && prescription == o.command.prescription
    }

    /**
     * `execute`. The result is the one `Decide` names (`stage` is that
     * decision). A missing appointment or a duplicate leaves everything as it
     * was; a missing record or an allergy is detected after the appointment
     * list has already been rewritten, but before any person record changes or
     * anything is committed. On success the records are replaced as
     * `ReplaceRecords` states. `selected` is the edited patient, which the
     * source posts to the user interface.
     */
    method Execute(model: Model)
        returns (result: CommandResult, selected: Option<Patient>,
                 ghost editedDoctor: Option<Doctor>, ghost stage: Stage)
      modifies model, Decide(model.appointments, model.persons).Rewrites(model.persons)
      ensures stage == old(Decide(model.appointments, model.persons))
      ensures result == stage.Result(prescription.medicineName)
      ensures selected.Some? <==> stage.Apply?
      ensures !stage.Apply? ==>
        model.persons == old(model.persons) && model.commits == old(model.commits) &&
        model.showAllAppointments == old(model.showAllAppointments) &&
        model.showAllPersons == old(model.showAllPersons)
      ensures (stage.NoAppointment? || stage.Duplicate?) ==> model.appointments == old(model.appointments)
      ensures !stage.NoAppointment? ==> stage.k < |old(model.appointments)|
      ensures (stage.Unmatched? || stage.Allergic? || stage.Apply?) ==>
        model.appointments ==
          old(model.appointments)[stage.k := old(model.appointments)[stage.k].WithPrescription(prescription)]
      ensures stage.Apply? ==>
        var appt := old(model.appointments)[stage.k];
          Replaced(model, old(model.persons), stage.sel, appt, appt.WithPrescription(prescription),
                 selected.value, editedDoctor)
    {
      stage := Decide(model.appointments, model.persons);
      var appts := model.appointments;
      var k := 0;
      while k < |appts| && appts[k].id != id
        invariant k <= |appts|
        invariant forall j :: 0 <= j < k ==> appts[j].id != id
      {
        k := k + 1;
      }
      if k == |appts| {
        return Failure(AppointmentDoesNotExist), None, None, stage;
      }
      assert FirstWithId(appts, id) == Some(k);
      if prescription in appts[k].prescriptions {
        return Failure(DuplicatePrescription), None, None, stage;
      }
      ghost var checked;
      result, selected, editedDoctor, checked := EditAndApply(model, k, id, prescription);
    }

    /**
     * The validation pipeline of `execute` in the order of the source:
     * appointment lookup, duplicate check, then the checks of `Check`.
     */
    ghost function Decide(appts: seq<Appointment>, persons: seq<Person>): (s: Stage)
      reads ObjectsOf(persons)
      ensures !s.NoAppointment? ==> s.k < |appts|
      ensures (s.Unmatched? || s.Allergic? || s.Apply?) ==> s.sel.Within(persons)
      ensures (s.Allergic? || s.Apply?) ==> s.sel.patient.Some?
    {
      match FirstWithId(appts, id)
      case None => NoAppointment
      case Some(k) =>
        if prescription in appts[k].prescriptions then Duplicate(k)
        else Check(k, appts[k], persons, id, prescription.medicineName)
    }

    /**
     * The records are found through their upcoming lists only: when no patient
     * has an upcoming appointment with the id, a new prescription is refused
     * for a missing record even if the appointment sits in a past list.
     */
    lemma UpcomingOnlyLookup(appts: seq<Appointment>, persons: seq<Person>)
      requires FirstWithId(appts, id).Some?
      requires prescription !in appts[FirstWithId(appts, id).value].prescriptions
      requires forall j :: 0 <= j < |persons| && persons[j].PatientRecord? ==> !persons[j].patient.HasAppointmentWith(id)
      ensures Decide(appts, persons).Unmatched?
      ensures Decide(appts, persons).Result(prescription.medicineName) == Failure(AppointmentDoesNotExist)
    {
      DecideOrder(appts, persons);
    }

    /**
     * The order of the checks: an unknown id fails first; a duplicate fails
     * next, whatever the allergies; a missing patient, or a missing doctor for
     * an upcoming appointment, fails before the allergy check.
     */
    lemma DecideOrder(appts: seq<Appointment>, persons: seq<Person>)
      ensures var s := Decide(appts, persons);
        s.NoAppointment? <==> forall j :: 0 <= j < |appts| ==> appts[j].id != id
      ensures var s := Decide(appts, persons);
        !s.NoAppointment? ==>
          s.k < |appts| && appts[s.k].id == id && forall j :: 0 <= j < s.k ==> appts[j].id != id
      ensures var s := Decide(appts, persons);
        s.Duplicate? <==> !s.NoAppointment? && prescription in appts[s.k].prescriptions
      ensures var s := Decide(appts, persons);
        s.Unmatched? <==>
          !s.NoAppointment? && prescription !in appts[s.k].prescriptions &&
          ((forall j :: 0 <= j < |persons| ==> !IsPatientFor(persons[j], appts[s.k], id)) ||
           (appts[s.k].status == Upcoming &&
            forall j :: 0 <= j < |persons| ==> !IsDoctorFor(persons[j], appts[s.k], id)))
      ensures var s := Decide(appts, persons);
        (s.Allergic? || s.Apply?) ==>
          s.sel.patient.Some? && (appts[s.k].status == Upcoming ==> s.sel.doctor.Some?)
      ensures var s := Decide(appts, persons);
        (s.Allergic? || s.Apply?) ==>
          var allergies := persons[s.sel.patient.value].patient.medicalHistory.allergies;
          (s.Allergic? <==> exists j :: 0 <= j < |allergies| && EqualsIgnoreCase(allergies[j], prescription.medicineName)) &&
          (s.Allergic? ==> s.allergy in allergies && EqualsIgnoreCase(s.allergy, prescription.medicineName))
    {
      match FirstWithId(appts, id)
      case None =>
      case Some(k) => ScanSelects(persons, appts[k], id);
    }
  }
}

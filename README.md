# Health book: adding a prescription, and the patient record

This project models two parts of a desktop health book, which keeps patients, doctors and appointments:

- **The `add prescription` command.** It looks up an appointment by id and refuses a prescription that is already there. It writes the edited appointment back into the model's appointment list. It then finds the doctor and patient records holding the appointment, and refuses the medicine if it matches one of the patient's allergies, ignoring case. Finally it replaces the appointment in those records' lists, swaps the records for copies sharing the same lists, shows every item in both filtered lists, and commits the address book.
- **The `Patient` record.** Its three constructors, and the methods that add, delete, complete and look up upcoming appointments.

Modules and files:

- `wrappers.dfy`: `Option`.
- `sequences.dfy`: the `java.util.List` operations the command relies on, stated on sequences.
- `strings.dfy`: ASCII lower-casing.
- `records.dfy`: the value entities: appointments, prescriptions, medical history, person fields.
- `appointment_list.dfy`: a mutable appointment list. It is an object so that two records can share one list.
- `patient.dfy`: the `Patient` class.
- `persons.dfy`: a minimal `Doctor` class and the `Person` variant.
- `model.dfy`: the part of the model the command touches.
- `add_prescription.dfy`: the command.
- `scenario.dfy`: a worked example. Appointment 10005 belongs to a patient allergic to "peanuts". Adding Paracetamol succeeds, adding it again is a duplicate, and adding "Peanuts" is refused.

`Execute` is proved against the ghost function `Decide`, which names the outcome of the checks in source order. `DecideOrder` states what each outcome means in terms of the inputs.

The source replaces the appointment in the model's appointment list *before* it scans for the records and checks allergies. So a missing record, or an allergy, fails the command after the appointment list already holds the edited appointment. In that case no person record changes and nothing is committed. `Execute` states this case exactly.

Both the doctor and the patient are found through their *upcoming* lists only (`Patient.hasAppointment` does not search the past list). So the branch for an appointment that is not UPCOMING still needs the patient to hold it as upcoming; `UpcomingOnlyLookup` states this.

## Model

| member | source | states |
|---|---|---|
| Records.FirstWithId | src/main/java/seedu/address/logic/commands/AddPrescriptionCommand.java:72-78 | the found index holds the id and no earlier appointment does; none is found exactly when no appointment has the id |
| Records.Appointment.WithPrescription | src/main/java/seedu/address/logic/commands/AddPrescriptionCommand.java:90-100 | the copy keeps every field, and its prescriptions are the old ones followed by the new one; a prescription not already present makes the copy differ from the original |
| Records.Appointment.IsSameAppointment | src/main/java/seedu/address/model/patient/Patient.java:118 | an appointment is the same as itself, and never the same as one with a different id |
| Records.Appointment.Complete | src/main/java/seedu/address/model/patient/Patient.java:122 | completing sets the status to COMPLETED and changes nothing else |
| Sequences.RemoveFirst | src/main/java/seedu/address/model/patient/Patient.java:108 | an absent element leaves the list as it was; otherwise exactly the first equal element is cut out; either way, one occurrence leaves the multiset |
| Sequences.UpdateThenRemove | src/main/java/seedu/address/model/patient/Patient.java:122-123 | marking an element in place and then removing the marked value takes the old element out of the multiset and shortens the list by one |
| Sequences.ReplaceAll | src/main/java/seedu/address/logic/commands/AddPrescriptionCommand.java:152 | the length is kept, and each position holds the replacement exactly where it held the target |
| Sequences.ReplaceAllRemoves | src/main/java/seedu/address/logic/commands/AddPrescriptionCommand.java:152 | once the target is replaced by a different value, no occurrence of the target is left |
| Sequences.ReplaceAllIdempotent | src/main/java/seedu/address/logic/commands/AddPrescriptionCommand.java:152-159 | replacing twice equals replacing once, so a list shared by two records ends up the same |
| Sequences.ReplaceFirstAt | src/main/java/seedu/address/logic/commands/AddPrescriptionCommand.java:101 | when position k holds the first occurrence of its value, replacing the first occurrence rewrites exactly position k |
| Sequences.IndexOf | src/main/java/seedu/address/logic/commands/AddPrescriptionCommand.java:101 | the position holds the element and no earlier position does |
| Sequences.ReplaceFirst | src/main/java/seedu/address/logic/commands/AddPrescriptionCommand.java:101 | the length is kept; an absent target leaves the list as it was; otherwise exactly the first occurrence is rewritten |
| AppointmentLists.AppointmentList.Add | src/main/java/seedu/address/model/patient/Patient.java:101 | the element is appended |
| AppointmentLists.AppointmentList.ReplaceAll | src/main/java/seedu/address/logic/commands/AddPrescriptionCommand.java:152 | every element equal to the target becomes the edited appointment |
| Persons.Doctor.constructor | src/main/java/seedu/address/logic/commands/AddPrescriptionCommand.java:156-158 | the given list object is stored, not copied |
| Persons.Doctor.SetAppointment | src/main/java/seedu/address/logic/commands/AddPrescriptionCommand.java:159 | every upcoming element equal to the target becomes the edited appointment |
| Persons.Doctor.HasAppointmentWith | src/main/java/seedu/address/logic/commands/AddPrescriptionCommand.java:110 | the definition the scan uses: some upcoming appointment of the doctor carries the id; `Doctor.HasAppointment` is proved equal to it |
| Persons.Doctor.HasAppointment | src/main/java/seedu/address/logic/commands/AddPrescriptionCommand.java:110 | the search of the doctor's upcoming list answers true exactly when some upcoming appointment carries the id |
| Models.Model.SetAppointment | src/main/java/seedu/address/logic/commands/AddPrescriptionCommand.java:101 | the first equal appointment is replaced; the persons, flags and commits are unchanged |
| Models.Model.UpdatePerson | src/main/java/seedu/address/logic/commands/AddPrescriptionCommand.java:153 | the first equal record is replaced; the appointments, flags and commits are unchanged |
| Models.Model.ShowAllAppointments | src/main/java/seedu/address/logic/commands/AddPrescriptionCommand.java:165 | the appointment filter shows everything, and nothing else changes |
| Models.Model.ShowAllPersons | src/main/java/seedu/address/logic/commands/AddPrescriptionCommand.java:166 | the person filter shows everything, and nothing else changes |
| Models.Model.CommitAddressBook | src/main/java/seedu/address/logic/commands/AddPrescriptionCommand.java:167 | one more commit, and nothing else changes |
| Strings.ToLower | src/main/java/seedu/address/logic/commands/AddPrescriptionCommand.java:142 | lower-casing keeps the length and maps every character on its own |
| Strings.EqualsIgnoreCase | src/main/java/seedu/address/logic/commands/AddPrescriptionCommand.java:142 | two strings match ignoring case exactly when they have the same length and the same letters position by position once lower-cased; equal strings always match |
| Patients.LastSame | src/main/java/seedu/address/model/patient/Patient.java:116-121 | the chosen index is the last one that is the same appointment as the target; none is chosen exactly when no element matches |
| Patients.Patient.constructor | src/main/java/seedu/address/model/patient/Patient.java:29-36 | two new, distinct, empty lists and an empty medical history |
| Patients.Patient.WithLists | src/main/java/seedu/address/model/patient/Patient.java:38-46 | the given list objects are stored, not copied, and the medical history is empty |
| Patients.Patient.WithHistory | src/main/java/seedu/address/model/patient/Patient.java:48-57 | the given list objects and the given medical history are stored |
| Patients.Patient.AddUpcomingAppointment | src/main/java/seedu/address/model/patient/Patient.java:100-102 | the appointment is appended to the upcoming list; a separate past list is unchanged |
| Patients.Patient.DeleteAppointment | src/main/java/seedu/address/model/patient/Patient.java:107-109 | the first equal upcoming appointment is removed; a separate past list is unchanged |
| Patients.Patient.CompleteUpcomingAppointment | src/main/java/seedu/address/model/patient/Patient.java:115-125 | the last matching upcoming appointment is marked complete where it stands; the first element equal to the completed value leaves the upcoming list; the completed value is appended to the past list; with separate lists, the marked element leaves the upcoming multiset and the total count is kept |
| Patients.Patient.HasAppointment | src/main/java/seedu/address/model/patient/Patient.java:130-137 | true exactly when some upcoming appointment carries the id (past appointments do not count) |
| Patients.Patient.SetAppointment | src/main/java/seedu/address/logic/commands/AddPrescriptionCommand.java:152 | in both lists, every element equal to the target becomes the edited appointment, even when the two lists are one object |
| AppointmentLists.AppointmentList.Remove | src/main/java/seedu/address/model/patient/Patient.java:108 | reports whether the element was present, and removes its first occurrence |
| AddPrescription.IsDoctorFor | src/main/java/seedu/address/logic/commands/AddPrescriptionCommand.java:108-114 | a matching record is a doctor record named like the appointment's doctor, and it is never also a matching patient |
| AddPrescription.IsPatientFor | src/main/java/seedu/address/logic/commands/AddPrescriptionCommand.java:115-121 | a matching record is a patient record named like the appointment's patient |
| AddPrescription.Step | src/main/java/seedu/address/logic/commands/AddPrescriptionCommand.java:107-121 | one turn of the loop: a matching doctor or patient replaces the earlier choice of that kind and keeps the other kind's choice; a record that matches neither changes nothing |
| AddPrescription.ScanFrom | src/main/java/seedu/address/logic/commands/AddPrescriptionCommand.java:107-125 | the definition of the loop from a position on: it applies `Step` record by record and stops at the end of the list or once both records are chosen; its properties are stated by `ScanFromSelects` |
| AddPrescription.Scan | src/main/java/seedu/address/logic/commands/AddPrescriptionCommand.java:104-125 | the loop from the first record with nothing chosen; its properties are stated by `ScanSelects` |
| AddPrescription.ScanFromSelects | src/main/java/seedu/address/logic/commands/AddPrescriptionCommand.java:107-125 | from any point of the scan on, a record is selected only if it matches or was selected before; a kind of record stays missing exactly when no later record matches |
| AddPrescription.ScanSelects | src/main/java/seedu/address/logic/commands/AddPrescriptionCommand.java:104-125 | the scan selects only matching doctor and patient records, and leaves one missing exactly when no record of that kind matches |
| AddPrescription.SelectRecords | src/main/java/seedu/address/logic/commands/AddPrescriptionCommand.java:104-125 | the scan loop, including its early exit once both records are found, computes the scan function |
| AddPrescription.FirstAllergy | src/main/java/seedu/address/logic/commands/AddPrescriptionCommand.java:140-145 | the found allergy equals the medicine ignoring case and no earlier one does; none is found exactly when no allergy matches |
| AddPrescription.FindAllergy | src/main/java/seedu/address/logic/commands/AddPrescriptionCommand.java:140-145 | the allergy loop computes the first matching allergy |
| AddPrescription.Check | src/main/java/seedu/address/logic/commands/AddPrescriptionCommand.java:104-145 | the checks after the rewrite fail (records missing, or allergic) or pass, keep the appointment's position, and select records that exist and are of the right kind |
| AddPrescription.Validate | src/main/java/seedu/address/logic/commands/AddPrescriptionCommand.java:104-145 | the scan, the missing-record test (both records for an UPCOMING appointment, the patient otherwise) and the allergy test together compute the check |
| AddPrescription.ReplacePatient | src/main/java/seedu/address/logic/commands/AddPrescriptionCommand.java:148-153 | the new patient copies the details, history and list objects; both lists have the appointment replaced; the record is swapped in the person list; other model fields are unchanged |
| AddPrescription.ReplaceDoctor | src/main/java/seedu/address/logic/commands/AddPrescriptionCommand.java:155-161 | the new doctor copies the details and list object; the list has the appointment replaced; the record is swapped in the person list |
| AddPrescription.EditedListsLoseTarget | src/main/java/seedu/address/logic/commands/AddPrescriptionCommand.java:152-160 | in any list after `ReplaceAll` of the appointment by its copy with a new prescription, every place that held the appointment holds the copy, the length is kept, and the appointment itself is gone; `Replaced` states the selected records' lists as such a `ReplaceAll` |
| AddPrescription.Replaced | src/main/java/seedu/address/logic/commands/AddPrescriptionCommand.java:148-167 | the success state: fresh patient (and doctor) copies with the same details, history and list objects; the appointment replaced in every list of the selected records; the records swapped in the person list, patient first; both filters showing everything; one more commit |
| AddPrescription.ReplaceRecords | src/main/java/seedu/address/logic/commands/AddPrescriptionCommand.java:148-167 | the success path: patient, then doctor if any, replaced; both filters show everything; one commit; the appointment list is untouched |
| AddPrescription.CheckAndReplace | src/main/java/seedu/address/logic/commands/AddPrescriptionCommand.java:104-170 | the result follows the check; a failure changes no person record, flag or commit; success replaces the records; only the selected records' lists can change |
| AddPrescription.EditAndApply | src/main/java/seedu/address/logic/commands/AddPrescriptionCommand.java:90-170 | the appointment at its position is replaced by the copy with the prescription, then the checks and the replacement follow |
| AddPrescription.Stage.Result | src/main/java/seedu/address/logic/commands/AddPrescriptionCommand.java:80-170 | the message each outcome ends with: success exactly on `Apply`, naming the medicine; "appointment does not exist" exactly for an unknown id or a missing record; the duplicate message exactly for a duplicate; the allergy message exactly for an allergic patient, naming that allergy |
| AddPrescription.AddPrescriptionCommand.Execute | src/main/java/seedu/address/logic/commands/AddPrescriptionCommand.java:66-171 | the result is the one the decision names. A missing appointment or a duplicate leaves the model as it was. A missing record or an allergy leaves only the rewritten appointment, with no commit. Success replaces the records and commits once. Only the selected records' lists may change |
| AddPrescription.AddPrescriptionCommand.Decide | src/main/java/seedu/address/logic/commands/AddPrescriptionCommand.java:72-145 | the decision's position is a valid index, and its selection exists whenever the appointment was found and is not a duplicate |
| AddPrescription.AddPrescriptionCommand.DecideOrder | src/main/java/seedu/address/logic/commands/AddPrescriptionCommand.java:72-145 | "not found" holds exactly when no appointment has the id; otherwise the first appointment with the id is used; "duplicate" holds exactly when it already has the prescription; "records missing" holds exactly for no matching patient, or, for an UPCOMING appointment, no matching doctor; "allergic" holds exactly when some allergy equals the medicine ignoring case, and names such an allergy |
| AddPrescription.AddPrescriptionCommand.UpcomingOnlyLookup | src/main/java/seedu/address/logic/commands/AddPrescriptionCommand.java:116-136 | when no patient has an upcoming appointment with the id, a new prescription is refused with "appointment does not exist", even for an appointment that is only in a past list |
| AddPrescription.AddPrescriptionCommand.Equals | src/main/java/seedu/address/logic/commands/AddPrescriptionCommand.java:173-187 | equal exactly to a command with the same id and an equal prescription, never to another kind of object |
| PrescriptionScenario.BookedScan | src/main/java/seedu/address/logic/commands/AddPrescriptionCommand.java:104-125 | on the booked list, the scan selects the patient at position 0 and the doctor at position 1 |
| PrescriptionScenario.BookedCheck | src/main/java/seedu/address/logic/commands/AddPrescriptionCommand.java:104-145 | on the booked list, the checks refuse exactly the medicines that are "peanuts" ignoring case, naming the allergy, and pass every other medicine |
| PrescriptionScenario.BookedDecide | src/main/java/seedu/address/logic/commands/AddPrescriptionCommand.java:72-145 | a new prescription for the only, booked, appointment reaches those checks |
| PrescriptionScenario.ParacetamolApplies | src/main/java/seedu/address/logic/commands/AddPrescriptionCommand.java:72-145 | Paracetamol on the booked appointment without prescriptions passes every check |
| PrescriptionScenario.ParacetamolDuplicate | src/main/java/seedu/address/logic/commands/AddPrescriptionCommand.java:85-88 | Paracetamol on an appointment already holding it is a duplicate |
| PrescriptionScenario.PeanutsAllergic | src/main/java/seedu/address/logic/commands/AddPrescriptionCommand.java:139-145 | "Peanuts" on the booked appointment is refused for the allergy "peanuts" |
| PrescriptionScenario.PeanutsSpellings | src/main/java/seedu/address/logic/commands/AddPrescriptionCommand.java:142 | "Peanuts" equals "peanuts" ignoring case, "Paracetamol" does not, and the two prescriptions differ |
| PrescriptionScenario.ParacetamolTwice | src/main/java/seedu/address/logic/commands/AddPrescriptionCommand.java:66-171 | run on the model as `Execute` leaves it, adding Paracetamol succeeds, and adding it again is refused as a duplicate |
| PrescriptionScenario.PeanutsRefused | src/main/java/seedu/address/logic/commands/AddPrescriptionCommand.java:66-171 | adding "Peanuts" to the appointment holding Paracetamol is refused, naming the allergy "peanuts" as the record spells it |

## Left out

- Storage, the parser and the user interface are not part of this model. The edited patient that `execute` posts to the events center is the `selected` out-parameter. The calendar and history parameters of `execute` are unused there and are dropped.
- Message texts and `String.format`: each failure is a tag (`CommandError`), and the allergic one carries the allergy.
- The model's internals (`ModelManager`, the versioned address book, undo/redo, the filter predicates) are not part of this model. The model holds the filtered lists, two show-everything flags and a commit counter. Predicates other than "show all" are not modelled, so the filtered lists are treated as the whole lists.
- `Doctor`, `Person.setAppointment`, `Appointment.isSameAppointment` and `Appointment.completeAppointment` are not part of this model. They are stand-ins with the behaviour their use implies:
  - a doctor holds details and an upcoming list, and `Doctor.hasAppointment` looks for the id in that upcoming list;
  - setting an appointment replaces every equal element in each list;
  - two appointments are the same appointment when their ids are equal;
  - completing sets the status to COMPLETED.
- `Model.setAppointment` and `Model.updatePerson` are not part of this model. They replace the first equal element and require the target to be present.
- `String.toLowerCase` is modelled for ASCII letters only, with no locale.
- `Appointment.equals` and `Prescription.equals` are not part of this model. Appointments and prescriptions are datatypes, so Java `equals` becomes value equality. That equality decides `List.remove`, `List.contains` and both `setAppointment`s.
- Patients.Patient.WithHistory: the ten-argument constructor (`Patient.java` line 55) stores the `MedicalHistory` object it is given, so the copy made at `AddPrescriptionCommand.java` line 151 shares that object with the old patient. Here the medical history is a value and is copied. No modelled operation changes a medical history in place, so the difference cannot be observed in the model.
- A patient's allergies are a set in the source. Here they are a sequence, so the model fixes one order. When several allergies match ignoring case, the allergy named in the error is the first in that order.
- Patients.Patient.CompleteUpcomingAppointment: the appointment is a value here. The source changes the appointment object's status in place. Any other holder of that same object would see the change, and the model does not capture that.
- Patients.Patient.CompleteUpcomingAppointment: its `requires` rules out a target that matches no upcoming appointment. In that case the source calls `completeAppointment` on null (`Patient.java` line 122) and throws; the model does not describe that path.
- AddPrescription.SelectRecords: the scan reads the doctor's and patient's upcoming lists through the `HasAppointmentWith` predicate. It does not call the `HasAppointment` method, which is proved equal to that predicate.
- The getters and setters of `Patient` and `addAllergy`/`addCondition` are not modelled. They only read or assign a field, or forward to `MedicalHistory`.
- `Execute` is proved through the helpers `EditAndApply`, `CheckAndReplace`, `Validate` and `ReplaceRecords`. Each one covers a consecutive stretch of the source method.
- Integers are unbounded. The source's `int` id is only compared for equality, so its width does not matter.
- PrescriptionScenario.PeanutsRefused: the "Peanuts" command runs on a new model booked with the appointment that already holds Paracetamol. It does not run on the model the two Paracetamol commands leave behind. That model holds the same appointment and lists, but its record objects are the copies `execute` made, both show-everything flags are set and it has one commit more. `Decide` reads neither the flags nor the commit count, and each copy holds the same fields and list contents as the record it replaced.

/** The account service's user schema: required and bounded fields, enumerated
    genders, nested records with required parts, and defaults. */
module UserModel {
  import opened Common
  import opened Text

  datatype Address = Address(city: string, state: string)

  /** An entry of `medicalHistory`; `consition` is the schema's own spelling. */
  datatype Condition = Condition(consition: string, diagnosisDate: string, patientStatus: string)

  datatype Appointment = Appointment(date: Option<Time>, reason: string)

  /** `phoneNumber` and `dateOfBirth` are Number paths whose default "" casts to null. */
  datatype UserRecord = UserRecord(
    id: Id,
    email: string,
    fullName: string,
    password: string,
    phoneNumber: Option<int>,
    dateOfBirth: Option<int>,
    gender: seq<string>,
    address: seq<Address>,
    medicalHistory: seq<Condition>,
    appointments: seq<Appointment>,
    adrDetectionSystem: seq<bool>)

  const MinPasswordLength := 6

  predicate IsGender(g: string) {
    g == "Male" || g == "Female" || g == "Other"
  }

  /** What the schema's validators accept. */
  predicate ValidUser(u: UserRecord) {
    && Required(u.email)
    && Required(u.fullName)
    && Required(u.password) && Utf16Length(u.password) >= MinPasswordLength
    && (forall g <- u.gender :: IsGender(g))
    && (forall a <- u.address :: Required(a.city) && Required(a.state))
    && (forall c <- u.medicalHistory :: Required(c.consition) && Required(c.diagnosisDate) && Required(c.patientStatus))
  }

  /** The `unique` index on `email`. */
  predicate UniqueEmails(us: seq<UserRecord>) {
    forall i, j :: 0 <= i < j < |us| ==> us[i].email != us[j].email
  }

  /** `new User({fullName, email, password})`: every other path takes its default. */
  function NewUser(id: Id, fullName: string, email: string, password: string): (u: UserRecord)
    ensures u.id == id && u.fullName == fullName && u.email == email && u.password == password
    ensures u.phoneNumber.None? && u.dateOfBirth.None?
    ensures u.gender == [] && u.address == [] && u.medicalHistory == [] && u.appointments == [] && u.adrDetectionSystem == []
    ensures ValidUser(u) <==> fullName != [] && email != [] && Utf16Length(password) >= MinPasswordLength
  {
    UserRecord(id, email, fullName, password, None, None, [], [], [], [], [])
  }

  /** Casting an `appointments` entry: a missing `date` stays null and a missing `reason` is "". */
  function CastAppointment(date: Option<Time>, reason: Option<string>): (a: Appointment)
    ensures a.date == date
    ensures reason.None? ==> a.reason == ""
    ensures reason.Some? ==> a.reason == reason.value
  {
    Appointment(date, if reason.Some? then reason.value else "")
  }
}

/** The account service's doctor schema: required email, name and password, a
    unique email, and defaults for the optional paths. */
module DoctorModel {
  import opened Common
  import opened Text

  /** `phoneNumber` is a Number path whose default "" casts to null. */
  datatype DoctorRecord = DoctorRecord(
    id: Id,
    email: string,
    fullName: string,
    password: string,
    phoneNumber: Option<int>,
    profilePic: string)

  const MinPasswordLength := 6

  predicate ValidDoctor(d: DoctorRecord) {
    Required(d.email) && Required(d.fullName) && Required(d.password) && Utf16Length(d.password) >= MinPasswordLength
  }

  /** The `unique` index on `email`. */
  predicate UniqueEmails(ds: seq<DoctorRecord>) {
    forall i, j :: 0 <= i < j < |ds| ==> ds[i].email != ds[j].email
  }

  /** `new Doctor({fullName, email, password})`: `phoneNumber` is null and `profilePic` "". */
  function NewDoctor(id: Id, fullName: string, email: string, password: string): (d: DoctorRecord)
    ensures d.id == id && d.fullName == fullName && d.email == email && d.password == password
    ensures d.phoneNumber.None? && d.profilePic == ""
    ensures ValidDoctor(d) <==> fullName != [] && email != [] && Utf16Length(password) >= MinPasswordLength
  {
    DoctorRecord(id, email, fullName, password, None, "")
  }
}

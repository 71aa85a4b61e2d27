/** The account service's signup handlers over two separate collections, doctors and
    users. `bcrypt` is a function `hash(password, salt)` handed in by the caller
    together with the salt `genSalt(10)` produced; the login cookie is not modelled. */
module AuthController {
  import opened Common
  import opened Text
  import opened UserModel
  import opened DoctorModel

  /** The request body; any field may be absent. */
  datatype SignupInput = SignupInput(fullName: Option<string>, email: Option<string>, password: Option<string>)

  const AllFieldsRequired := "All fields are required"
  const PasswordTooShort := "Password must be at least 6 characters"
  const EmailExists := "Email already exists"

  /** JavaScript truthiness of a string field: present and not empty. */
  predicate Truthy(v: Option<string>) {
    v.Some? && v.value != ""
  }

  /** The guards both handlers run before any lookup: the first failing one's message. */
  function CheckInput(input: SignupInput): (r: Option<string>)
    ensures r == Some(AllFieldsRequired) <==> !(Truthy(input.fullName) && Truthy(input.email) && Truthy(input.password))
    ensures r == Some(PasswordTooShort) <==>
              Truthy(input.fullName) && Truthy(input.email) && Truthy(input.password)
              && Utf16Length(input.password.value) < 6
    ensures r.None? <==>
              Truthy(input.fullName) && Truthy(input.email) && Truthy(input.password)
              && Utf16Length(input.password.value) >= 6
  {
    if !Truthy(input.fullName) || !Truthy(input.email) || !Truthy(input.password) then Some(AllFieldsRequired)
    else if Utf16Length(input.password.value) < 6 then Some(PasswordTooShort)
    else None
  }

  /** The body of a successful doctor signup; it carries no password. */
  datatype DoctorView = DoctorView(id: Id, fullName: string, email: string, profilePic: Option<string>)

  /** The body of a successful user signup; it carries no password. */
  datatype UserView = UserView(id: Id, fullName: string, email: string)

  /** `profilePic: newDoctor.profilePic || null`: the empty string is falsy. */
  function ViewOfDoctor(d: DoctorRecord): (v: DoctorView)
    ensures v.id == d.id && v.fullName == d.fullName && v.email == d.email
    ensures v.profilePic.None? <==> d.profilePic == ""
    ensures v.profilePic.Some? ==> v.profilePic.value == d.profilePic
  {
    DoctorView(d.id, d.fullName, d.email, if d.profilePic != "" then Some(d.profilePic) else None)
  }

  function ViewOfUser(u: UserRecord): (v: UserView)
    ensures v.id == u.id && v.fullName == u.fullName && v.email == u.email
  {
    UserView(u.id, u.fullName, u.email)
  }

  /** A freshly signed-up doctor has the default empty picture, so the response says null. */
  lemma FreshDoctorViewHasNoPicture(id: Id, fullName: string, email: string, password: string)
    ensures ViewOfDoctor(NewDoctor(id, fullName, email, password)).profilePic == None
  {
  }

  predicate DoctorEmailTaken(ds: seq<DoctorRecord>, email: string) {
    exists d <- ds :: d.email == email
  }

  predicate UserEmailTaken(us: seq<UserRecord>, email: string) {
    exists u <- us :: u.email == email
  }

  class AccountStore {
    var doctors: seq<DoctorRecord>
    var users: seq<UserRecord>
    /** The ObjectId generator, shared by both collections. */
    var nextId: Id

    ghost predicate Valid()
      reads this
    {
      && (forall d <- doctors :: ValidDoctor(d) && d.id < nextId)
      && (forall u <- users :: ValidUser(u) && u.id < nextId)
      && (forall i, j :: 0 <= i < j < |doctors| ==> doctors[i].id != doctors[j].id)
      && (forall i, j :: 0 <= i < j < |users| ==> users[i].id != users[j].id)
      && (forall d <- doctors, u <- users :: d.id != u.id)
      && DoctorModel.UniqueEmails(doctors)
      && UserModel.UniqueEmails(users)
    }

    constructor ()
      ensures Valid() && doctors == [] && users == [] && nextId == 0
    {
      doctors := [];
      users := [];
      nextId := 0;
    }

    /** `doctorSignup`: the input guards, then the email lookup among doctors only,
        then the insert of the hashed-password record, which the schema validates. */
    method DoctorSignup(input: SignupInput, salt: string, hash: (string, string) -> string)
      returns (r: Response<DoctorView>)
      requires Valid()
      modifies this
      ensures Valid() && users == old(users)
      ensures CheckInput(input).Some? ==>
                r == BadRequest(CheckInput(input).value) && doctors == old(doctors) && nextId == old(nextId)
      ensures CheckInput(input).None? && DoctorEmailTaken(old(doctors), input.email.value) ==>
                r == BadRequest(EmailExists) && doctors == old(doctors) && nextId == old(nextId)
      ensures CheckInput(input).None? && !DoctorEmailTaken(old(doctors), input.email.value) ==>
                var record := NewDoctor(old(nextId), input.fullName.value, input.email.value,
                                        hash(input.password.value, salt));
                if Utf16Length(record.password) < DoctorModel.MinPasswordLength then
                  r == ServerError && doctors == old(doctors) && nextId == old(nextId) + 1
                else
                  r == Ok(ViewOfDoctor(record)) && doctors == old(doctors) + [record] && nextId == old(nextId) + 1
      ensures r.Ok? ==> r.value.profilePic.None?
    {
      var invalid := CheckInput(input);
      if invalid.Some? {
        return BadRequest(invalid.value);
      }
      var fullName, email, password := input.fullName.value, input.email.value, input.password.value;
      if exists d <- doctors :: d.email == email {
        return BadRequest(EmailExists);
      }
      var hashed := hash(password, salt);
      var record := NewDoctor(nextId, fullName, email, hashed);
      nextId := nextId + 1;
      // `save()`: the schema validators, then the unique email index
      if !ValidDoctor(record) || exists d <- doctors :: d.email == email {
        return ServerError;
      }
      doctors := doctors + [record];
      r := Ok(ViewOfDoctor(record));
    }

    /** `userSignup`: the same chain, against users only. */
    method UserSignup(input: SignupInput, salt: string, hash: (string, string) -> string)
      returns (r: Response<UserView>)
      requires Valid()
      modifies this
      ensures Valid() && doctors == old(doctors)
      ensures CheckInput(input).Some? ==>
                r == BadRequest(CheckInput(input).value) && users == old(users) && nextId == old(nextId)
      ensures CheckInput(input).None? && UserEmailTaken(old(users), input.email.value) ==>
                r == BadRequest(EmailExists) && users == old(users) && nextId == old(nextId)
      ensures CheckInput(input).None? && !UserEmailTaken(old(users), input.email.value) ==>
                var record := NewUser(old(nextId), input.fullName.value, input.email.value,
                                      hash(input.password.value, salt));
                if Utf16Length(record.password) < UserModel.MinPasswordLength then
                  r == ServerError && users == old(users) && nextId == old(nextId) + 1
                else
                  r == Ok(ViewOfUser(record)) && users == old(users) + [record] && nextId == old(nextId) + 1
    {
      var invalid := CheckInput(input);
      if invalid.Some? {
        return BadRequest(invalid.value);
      }
      var fullName, email, password := input.fullName.value, input.email.value, input.password.value;
      if exists u <- users :: u.email == email {
        return BadRequest(EmailExists);
      }
      var hashed := hash(password, salt);
      var record := NewUser(nextId, fullName, email, hashed);
      nextId := nextId + 1;
      // `save()`: the schema validators, then the unique email index
      if !ValidUser(record) || exists u <- users :: u.email == email {
        return ServerError;
      }
      users := users + [record];
      r := Ok(ViewOfUser(record));
    }

    /** The `login` stub: a fixed reply; it reads and writes no account. */
    method Login() returns (body: string)
      ensures body == "Login route"
    {
      body := "Login route";
    }

    /** The `logout` stub: a fixed reply; it reads and writes no account. */
    method Logout() returns (body: string)
      ensures body == "Logout route"
    {
      body := "Logout route";
    }
  }
}

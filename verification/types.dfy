/** The records exchanged with the REST API. */
module Types {
  import opened Common

  datatype Gender = Male | Female | Other

  datatype EmergencyContact = EmergencyContact(name: string, relationship: string, phone: string)

  /** A stored patient; `id` and `createdAt` are assigned by the server. */
  datatype Patient = Patient(
    id: int,
    name: string,
    age: int,
    gender: Gender,
    medicalHistory: seq<string>,
    allergies: seq<string>,
    medications: seq<string>,
    emergencyContact: Option<EmergencyContact>,
    createdAt: string)

  /** The body of a create or update request. */
  datatype PatientInput = PatientInput(
    name: string,
    age: int,
    gender: Gender,
    medicalHistory: Option<seq<string>>,
    allergies: Option<seq<string>>,
    medications: Option<seq<string>>,
    emergencyContact: Option<EmergencyContact>)

  datatype Role = UserRole | AdminRole

  datatype User = User(id: int, email: string, name: string, role: Role, createdAt: string)

  /** The body of a successful login. */
  datatype AuthResponse = AuthResponse(token: string, user: User)

  /** The wire spelling of a gender, as the schema's enum and the
      dashboard's comparisons write it. */
  function GenderName(g: Gender): string {
    match g
    case Male => "Male"
    case Female => "Female"
    case Other => "Other"
  }

  function ParseGender(s: string): (r: Option<Gender>)
    ensures r.Some? <==> s in {"Male", "Female", "Other"}
  {
    if s == "Male" then Some(Male)
    else if s == "Female" then Some(Female)
    else if s == "Other" then Some(Other)
    else None
  }

  /** The three spellings are exactly the names of the three genders. */
  lemma GenderRoundTrip(g: Gender, s: string)
    ensures ParseGender(GenderName(g)) == Some(g)
    ensures ParseGender(s) == Some(g) <==> s == GenderName(g)
  {
  }
}

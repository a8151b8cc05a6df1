/** The patient form: the validation schema as a predicate, the default
    values, the tag-list helpers and the submit merge. */
module PatientForm {
  import opened Common
  import opened Types
  import Text

  /** Field values as the form holds them; gender is the select's string. */
  datatype FormValues = FormValues(
    name: string,
    age: int,
    gender: string,
    medicalHistory: Option<seq<string>>,
    allergies: Option<seq<string>>,
    medications: Option<seq<string>>,
    emergencyContact: Option<EmergencyContact>)

  /** Field values the schema accepted. */
  datatype FormData = FormData(
    name: string,
    age: int,
    gender: Gender,
    medicalHistory: Option<seq<string>>,
    allergies: Option<seq<string>>,
    medications: Option<seq<string>>,
    emergencyContact: Option<EmergencyContact>)

  // ---------------------------------------------------------------------
  // Validation

  datatype Issue =
    | NameRequired
    | AgeTooLow
    | AgeTooHigh
    | InvalidGender
    | ContactNameRequired
    | RelationshipRequired
    | PhoneRequired

  /** The message the schema attaches to an issue; the enum check keeps
      the library's default message, which is not part of this model. */
  function Message(issue: Issue): Option<string> {
    match issue
    case NameRequired => Some("Name is required")
    case AgeTooLow => Some("Age must be at least 0")
    case AgeTooHigh => Some("Age must be at most 150")
    case InvalidGender => None
    case ContactNameRequired => Some("Emergency contact name is required")
    case RelationshipRequired => Some("Relationship is required")
    case PhoneRequired => Some("Phone number is required")
  }

  /** Whether the values break the rule an issue stands for. */
  predicate Violates(v: FormValues, issue: Issue) {
    match issue
    case NameRequired => |v.name| < 1
    case AgeTooLow => v.age < 0
    case AgeTooHigh => v.age > 150
    case InvalidGender => ParseGender(v.gender).None?
    case ContactNameRequired => v.emergencyContact.Some? && |v.emergencyContact.value.name| < 1
    case RelationshipRequired => v.emergencyContact.Some? && |v.emergencyContact.value.relationship| < 1
    case PhoneRequired => v.emergencyContact.Some? && |v.emergencyContact.value.phone| < 1
  }

  /** The schema's acceptance condition, field by field. */
  predicate SchemaAccepts(v: FormValues) {
    && v.name != ""
    && 0 <= v.age <= 150
    && v.gender in {"Male", "Female", "Other"}
    && (v.emergencyContact.Some? ==>
          var c := v.emergencyContact.value;
          c.name != "" && c.relationship != "" && c.phone != "")
  }

  function ContactIssues(contact: Option<EmergencyContact>): seq<Issue> {
    match contact
    case None => []
    case Some(c) =>
      (if c.name == "" then [ContactNameRequired] else [])
      + (if c.relationship == "" then [RelationshipRequired] else [])
      + (if c.phone == "" then [PhoneRequired] else [])
  }

  /** The issues in the order the schema lists its fields. */
  function Issues(v: FormValues): seq<Issue> {
    (if v.name == "" then [NameRequired] else [])
    + (if v.age < 0 then [AgeTooLow] else [])
    + (if v.age > 150 then [AgeTooHigh] else [])
    + (if ParseGender(v.gender).None? then [InvalidGender] else [])
    + ContactIssues(v.emergencyContact)
  }

  /** An issue is listed exactly when its rule is broken, so none are
      listed exactly when the schema accepts. */
  lemma IssuesComplete(v: FormValues)
    ensures forall issue :: issue in Issues(v) <==> Violates(v, issue)
    ensures Issues(v) == [] <==> SchemaAccepts(v)
  {
    var c := ContactIssues(v.emergencyContact);
    forall issue ensures issue in Issues(v) <==> Violates(v, issue) {
      match issue
      case NameRequired =>
      case AgeTooLow =>
      case AgeTooHigh =>
      case InvalidGender =>
      case ContactNameRequired =>
        assert issue in Issues(v) <==> issue in c;
      case RelationshipRequired =>
        assert issue in Issues(v) <==> issue in c;
      case PhoneRequired =>
        assert issue in Issues(v) <==> issue in c;
    }
    if Issues(v) == [] {
      assert !Violates(v, NameRequired) && !Violates(v, AgeTooLow) && !Violates(v, AgeTooHigh);
      assert !Violates(v, InvalidGender);
      assert !Violates(v, ContactNameRequired) && !Violates(v, RelationshipRequired) && !Violates(v, PhoneRequired);
    } else {
      assert Violates(v, Issues(v)[0]);
    }
  }

  datatype Validation = Valid(data: FormData) | Invalid(issues: seq<Issue>)

  function Validate(v: FormValues): (r: Validation)
    ensures r.Valid? <==> SchemaAccepts(v)
    ensures r.Valid? ==>
              && r.data.name == v.name && r.data.age == v.age
              && GenderName(r.data.gender) == v.gender
              && r.data.medicalHistory == v.medicalHistory && r.data.allergies == v.allergies
              && r.data.medications == v.medications && r.data.emergencyContact == v.emergencyContact
    ensures r.Invalid? ==> r.issues != [] && forall issue :: issue in r.issues <==> Violates(v, issue)
  {
    var issues := Issues(v);
    IssuesComplete(v);
    if issues == [] then
      var g := ParseGender(v.gender).value;
      GenderRoundTrip(g, v.gender);
      Valid(FormData(v.name, v.age, g, v.medicalHistory, v.allergies, v.medications, v.emergencyContact))
    else
      Invalid(issues)
  }

  // ---------------------------------------------------------------------
  // Defaults

  const EmptyContact: EmergencyContact := EmergencyContact("", "", "")

  /** `defaultValues`: the edited patient's fields, or blanks for a new
      one; the contact object is always present. */
  function DefaultValues(patient: Option<Patient>): FormValues {
    match patient
    case None => FormValues("", 0, "Male", Some([]), Some([]), Some([]), Some(EmptyContact))
    case Some(p) =>
      FormValues(p.name, p.age, GenderName(p.gender), Some(p.medicalHistory), Some(p.allergies),
                 Some(p.medications), if p.emergencyContact.Some? then p.emergencyContact else Some(EmptyContact))
  }

  /** The blank form for a new patient fails on the name and on all three
      contact fields, and on nothing else. */
  lemma NewPatientDefaultsInvalid()
    ensures Validate(DefaultValues(None)) == Invalid([NameRequired, ContactNameRequired, RelationshipRequired, PhoneRequired])
  {
  }

  /** The messages the schema attaches to the blank new-patient form's
      issues, in field order. Only the first is rendered (see `Rendered`). */
  lemma BlankFormMessages()
    ensures var r := Validate(DefaultValues(None));
            && r.Invalid? && |r.issues| == 4
            && Message(r.issues[0]) == Some("Name is required")
            && Message(r.issues[1]) == Some("Emergency contact name is required")
            && Message(r.issues[2]) == Some("Relationship is required")
            && Message(r.issues[3]) == Some("Phone number is required")
  {
    NewPatientDefaultsInvalid();
  }

  /** Whether the form has an error element for the issue's field: only
      name, age and gender do; the contact inputs show none. */
  predicate Rendered(issue: Issue) {
    issue in {NameRequired, AgeTooLow, AgeTooHigh, InvalidGender}
  }

  /** The schema refuses the values without any message on screen exactly
      when name, age and gender are fine and a field of a present contact
      is blank. */
  lemma SilentRefusal(v: FormValues)
    ensures (&& Validate(v).Invalid?
             && forall i :: 0 <= i < |Validate(v).issues| ==> !Rendered(Validate(v).issues[i]))
            <==>
            (&& v.name != "" && 0 <= v.age <= 150 && ParseGender(v.gender).Some?
             && v.emergencyContact.Some?
             && var c := v.emergencyContact.value;
                c.name == "" || c.relationship == "" || c.phone == "")
  {
    IssuesComplete(v);
    var r := Validate(v);
    if r.Invalid? && forall i :: 0 <= i < |r.issues| ==> !Rendered(r.issues[i]) {
      assert forall issue :: issue in r.issues ==> !Rendered(issue);
      assert !Violates(v, NameRequired) && !Violates(v, AgeTooLow) && !Violates(v, AgeTooHigh);
      assert !Violates(v, InvalidGender);
      assert Violates(v, r.issues[0]);
    }
  }

  /** A new patient with a name but a blank contact is refused silently. */
  lemma NamedBlankContactRefusedSilently(name: string)
    requires name != ""
    ensures var r := Validate(DefaultValues(None).(name := name));
            && r.Invalid?
            && forall i :: 0 <= i < |r.issues| ==> !Rendered(r.issues[i])
  {
    SilentRefusal(DefaultValues(None).(name := name));
  }

  /** Filling in the name and the contact is all a new patient needs. */
  lemma NewPatientDefaultsFilled(name: string, contact: EmergencyContact)
    requires name != "" && contact.name != "" && contact.relationship != "" && contact.phone != ""
    ensures Validate(DefaultValues(None).(name := name, emergencyContact := Some(contact))).Valid?
  {
  }

  /** The three tag lists the form holds outside the schema. */
  datatype TagLists = TagLists(medicalHistory: seq<string>, allergies: seq<string>, medications: seq<string>)

  function InitialLists(patient: Option<Patient>): TagLists {
    match patient
    case None => TagLists([], [], [])
    case Some(p) => TagLists(p.medicalHistory, p.allergies, p.medications)
  }

  // ---------------------------------------------------------------------
  // Tag lists

  /** No entry repeats, and every entry is non-blank and already trimmed. */
  ghost predicate WellFormedList(items: seq<string>) {
    && (forall i, j :: 0 <= i < j < |items| ==> items[i] != items[j])
    && (forall i :: 0 <= i < |items| ==> items[i] != "" && Text.Trim(items[i]) == items[i])
  }

  /** `addItem`: appends the trimmed item when it is non-blank and new. */
  function AddItem(items: seq<string>, item: string): (r: seq<string>)
    ensures |items| <= |r| <= |items| + 1 && r[..|items|] == items
    ensures forall x :: x in r <==> x in items || (x == Text.Trim(item) && x != "")
    ensures Text.Trim(item) == "" || Text.Trim(item) in items ==> r == items
  {
    var t := Text.Trim(item);
    if t != "" && t !in items then items + [t] else items
  }

  lemma AddItemIdempotent(items: seq<string>, item: string)
    ensures AddItem(AddItem(items, item), item) == AddItem(items, item)
  {
  }

  /** A blank item, or one whose trim is already listed, changes nothing. */
  lemma AddItemNoop(items: seq<string>, item: string)
    requires Text.Trim(item) == "" || Text.Trim(item) in items
    ensures AddItem(items, item) == items
  {
  }

  lemma AddItemKeepsWellFormed(items: seq<string>, item: string)
    requires WellFormedList(items)
    ensures WellFormedList(AddItem(items, item))
  {
    Text.TrimIdempotent(item);
  }

  /** `array.filter((_, i) => i !== index)` */
  function RemoveItem(items: seq<string>, index: int): (r: seq<string>)
    ensures 0 <= index < |items| ==> r == items[..index] + items[index + 1..]
    ensures !(0 <= index < |items|) ==> r == items
  {
    if items == [] then []
    else (if index == 0 then [] else [items[0]]) + RemoveItem(items[1..], index - 1)
  }

  lemma {:induction false} RemoveItemKeepsWellFormed(items: seq<string>, index: int)
    requires WellFormedList(items)
    ensures WellFormedList(RemoveItem(items, index))
    ensures 0 <= index < |items| ==> |RemoveItem(items, index)| == |items| - 1 && items[index] !in RemoveItem(items, index)
  {
    if 0 <= index < |items| {
      var r := RemoveItem(items, index);
      assert forall k :: 0 <= k < |r| ==> r[k] == items[if k < index then k else k + 1];
      forall i, j | 0 <= i < j < |r| ensures r[i] != r[j] {
        var i' := if i < index then i else i + 1;
        var j' := if j < index then j else j + 1;
        assert r[i] == items[i'] && r[j] == items[j'] && i' < j';
      }
      forall i | 0 <= i < |r| ensures r[i] != "" && Text.Trim(r[i]) == r[i] {
      }
      forall k | 0 <= k < |r| ensures r[k] != items[index] {
        var k' := if k < index then k else k + 1;
        assert r[k] == items[k'] && k' != index;
      }
    }
  }

  // ---------------------------------------------------------------------
  // Submit

  /** `handleFormSubmit`: the accepted data with the three list fields
      replaced by the lists the form holds. */
  function MergeLists(data: FormData, lists: TagLists): PatientInput {
    PatientInput(data.name, data.age, data.gender, Some(lists.medicalHistory), Some(lists.allergies),
                 Some(lists.medications), data.emergencyContact)
  }

  /** Validation followed by the merge; None when the schema refuses and
      nothing is submitted. */
  function Submit(v: FormValues, lists: TagLists): (r: Option<PatientInput>)
    ensures r.Some? <==> SchemaAccepts(v)
    ensures r.Some? ==>
              && r.value.name == v.name && r.value.age == v.age && GenderName(r.value.gender) == v.gender
              && r.value.emergencyContact == v.emergencyContact
              && r.value.medicalHistory == Some(lists.medicalHistory)
              && r.value.allergies == Some(lists.allergies)
              && r.value.medications == Some(lists.medications)
  {
    match Validate(v)
    case Valid(data) => Some(MergeLists(data, lists))
    case Invalid(_) => None
  }

  /** The schema's own list fields never reach the request. */
  lemma SubmitIgnoresFormLists(v: FormValues, lists: TagLists, mh: Option<seq<string>>, al: Option<seq<string>>, md: Option<seq<string>>)
    ensures Submit(v.(medicalHistory := mh, allergies := al, medications := md), lists) == Submit(v, lists)
  {
  }

  /** Opening a valid patient for edit and submitting untouched sends the
      patient's own fields back. */
  lemma EditUntouchedResubmits(p: Patient)
    requires p.name != "" && 0 <= p.age <= 150
    requires p.emergencyContact.Some?
    requires var c := p.emergencyContact.value; c.name != "" && c.relationship != "" && c.phone != ""
    ensures Submit(DefaultValues(Some(p)), InitialLists(Some(p))) ==
              Some(PatientInput(p.name, p.age, p.gender, Some(p.medicalHistory), Some(p.allergies),
                                Some(p.medications), p.emergencyContact))
  {
    GenderRoundTrip(p.gender, GenderName(p.gender));
  }
}

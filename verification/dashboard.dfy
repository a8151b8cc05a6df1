/** The dashboard controller: the patient list loaded once and patched
    locally after each mutation, the single error channel, the form and
    edit flags, the delete confirmation and the gender statistics. */
module Dashboard {
  import opened Common
  import opened Types
  import Api

  // ---------------------------------------------------------------------
  // Local list patches

  ghost predicate UniqueIds(ps: seq<Patient>) {
    forall i, j :: 0 <= i < j < |ps| ==> ps[i].id != ps[j].id
  }

  function Ids(ps: seq<Patient>): set<int> {
    set p | p in ps :: p.id
  }

  /** `patients.map(p => p.id === id ? updated : p)` */
  function ReplaceById(ps: seq<Patient>, id: int, updated: Patient): (r: seq<Patient>)
    ensures |r| == |ps|
    ensures forall i :: 0 <= i < |ps| && ps[i].id == id ==> r[i] == updated
    ensures forall i :: 0 <= i < |ps| && ps[i].id != id ==> r[i] == ps[i]
  {
    if ps == [] then []
    else [if ps[0].id == id then updated else ps[0]] + ReplaceById(ps[1..], id, updated)
  }

  /** `patients.filter(p => p.id !== id)` */
  function RemoveById(ps: seq<Patient>, id: int): (r: seq<Patient>)
    ensures |r| <= |ps|
    ensures forall p :: p in r <==> p in ps && p.id != id
  {
    if ps == [] then []
    else (if ps[0].id == id then [] else [ps[0]]) + RemoveById(ps[1..], id)
  }

  /** Removing distributes over concatenation: the survivors keep their
      relative order. */
  lemma {:induction false} RemoveByIdConcat(a: seq<Patient>, b: seq<Patient>, id: int)
    ensures RemoveById(a + b, id) == RemoveById(a, id) + RemoveById(b, id)
  {
    if a == [] {
      assert a + b == b;
    } else {
      assert (a + b)[1..] == a[1..] + b;
      RemoveByIdConcat(a[1..], b, id);
    }
  }

  /** With unique ids, removing a present id shortens the list by exactly
      one and an absent id changes nothing. */
  lemma {:induction false} RemoveByIdLength(ps: seq<Patient>, id: int)
    requires UniqueIds(ps)
    ensures id in Ids(ps) ==> |RemoveById(ps, id)| == |ps| - 1
    ensures id !in Ids(ps) ==> RemoveById(ps, id) == ps
  {
    if ps != [] {
      assert UniqueIds(ps[1..]) by {
        forall i, j | 0 <= i < j < |ps[1..]| ensures ps[1..][i].id != ps[1..][j].id {
          assert ps[1..][i] == ps[i + 1] && ps[1..][j] == ps[j + 1];
        }
      }
      RemoveByIdLength(ps[1..], id);
      assert Ids(ps) == {ps[0].id} + Ids(ps[1..]) by {
        assert forall p :: p in ps <==> p == ps[0] || p in ps[1..];
      }
      if ps[0].id == id {
        assert id !in Ids(ps[1..]) by {
          forall k | 0 <= k < |ps[1..]| ensures ps[1..][k].id != id {
            assert ps[1..][k] == ps[k + 1];
          }
        }
      }
    }
  }

  lemma {:induction false} RemoveByIdIdempotent(ps: seq<Patient>, id: int)
    ensures RemoveById(RemoveById(ps, id), id) == RemoveById(ps, id)
  {
    assert forall p :: p in RemoveById(ps, id) ==> p.id != id;
    RemoveByIdNoop(RemoveById(ps, id), id);
  }

  lemma {:induction false} RemoveByIdNoop(ps: seq<Patient>, id: int)
    requires forall p :: p in ps ==> p.id != id
    ensures RemoveById(ps, id) == ps
  {
    if ps != [] {
      assert ps[0] in ps;
      RemoveByIdNoop(ps[1..], id);
    }
  }

  // ---------------------------------------------------------------------
  // Mirroring the server's store

  /** The list reflects a server store keyed by id: one entry per stored
      patient, each the store's current record. */
  ghost predicate Mirrors(ps: seq<Patient>, store: map<int, Patient>) {
    && UniqueIds(ps)
    && Ids(ps) == store.Keys
    && forall i :: 0 <= i < |ps| ==> store[ps[i].id] == ps[i]
  }

  /** Appending what create returned, under a fresh id, keeps the mirror. */
  lemma {:induction false} AppendKeepsMirror(ps: seq<Patient>, store: map<int, Patient>, created: Patient)
    requires Mirrors(ps, store) && created.id !in store
    ensures Mirrors(ps + [created], store[created.id := created])
  {
    var r := ps + [created];
    assert forall p :: p in r <==> p in ps || p == created;
    assert Ids(r) == Ids(ps) + {created.id};
    forall i | 0 <= i < |ps| ensures ps[i].id != created.id {
      assert ps[i] in ps;
    }
  }

  /** Replacing by id with what update returned under the same id keeps
      the mirror. */
  lemma {:induction false} ReplaceKeepsMirror(ps: seq<Patient>, store: map<int, Patient>, updated: Patient)
    requires Mirrors(ps, store) && updated.id in store
    ensures Mirrors(ReplaceById(ps, updated.id, updated), store[updated.id := updated])
  {
    ReplaceKeepsIds(ps, updated);
    ReplaceRecords(ps, store, updated);
  }

  /** Replacing by id with a record under that same id changes no id. */
  lemma {:induction false} ReplaceKeepsIds(ps: seq<Patient>, updated: Patient)
    ensures Ids(ReplaceById(ps, updated.id, updated)) == Ids(ps)
    ensures UniqueIds(ps) ==> UniqueIds(ReplaceById(ps, updated.id, updated))
  {
    SameIdsLemma(ps, ReplaceById(ps, updated.id, updated));
  }

  /** After the replacement every entry is the updated store's record. */
  lemma {:induction false} ReplaceRecords(ps: seq<Patient>, store: map<int, Patient>, updated: Patient)
    requires forall i :: 0 <= i < |ps| ==> ps[i].id in store && store[ps[i].id] == ps[i]
    ensures var r := ReplaceById(ps, updated.id, updated);
            forall i :: 0 <= i < |r| ==> store[updated.id := updated][r[i].id] == r[i]
  {
    var r := ReplaceById(ps, updated.id, updated);
    forall i | 0 <= i < |r| ensures store[updated.id := updated][r[i].id] == r[i] {
      if ps[i].id != updated.id {
        assert r[i] == ps[i];
      }
    }
  }

  /** Two lists with the same id at every position have the same id set
      and are equally free of duplicate ids. */
  lemma {:induction false} SameIdsLemma(a: seq<Patient>, b: seq<Patient>)
    requires |a| == |b| && forall i :: 0 <= i < |a| ==> a[i].id == b[i].id
    ensures Ids(a) == Ids(b)
    ensures UniqueIds(a) ==> UniqueIds(b)
  {
    forall x | x in Ids(a) ensures x in Ids(b) {
      var p :| p in a && p.id == x;
      var i :| 0 <= i < |a| && a[i] == p;
      assert b[i] in b;
    }
    forall x | x in Ids(b) ensures x in Ids(a) {
      var p :| p in b && p.id == x;
      var i :| 0 <= i < |b| && b[i] == p;
      assert a[i] in a;
    }
  }

  /** Filtering out the deleted id keeps the mirror. */
  lemma {:induction false} RemoveKeepsMirror(ps: seq<Patient>, store: map<int, Patient>, id: int)
    requires Mirrors(ps, store)
    ensures Mirrors(RemoveById(ps, id), store - {id})
  {
    var r := RemoveById(ps, id);
    RemoveByIdUnique(ps, id);
    assert Ids(r) == Ids(ps) - {id};
    forall i | 0 <= i < |r| ensures (store - {id})[r[i].id] == r[i] {
      assert r[i] in ps;
      var k :| 0 <= k < |ps| && ps[k] == r[i];
    }
  }

  lemma {:induction false} RemoveByIdUnique(ps: seq<Patient>, id: int)
    requires UniqueIds(ps)
    ensures UniqueIds(RemoveById(ps, id))
  {
    if ps != [] {
      var tail := ps[1..];
      assert UniqueIds(tail) by {
        forall i, j | 0 <= i < j < |tail| ensures tail[i].id != tail[j].id {
          assert tail[i] == ps[i + 1] && tail[j] == ps[j + 1];
        }
      }
      RemoveByIdUnique(tail, id);
      var rest := RemoveById(tail, id);
      forall k | 0 <= k < |rest| ensures rest[k].id != ps[0].id {
        assert rest[k] in tail;
        var m :| 0 <= m < |tail| && tail[m] == rest[k];
        assert tail[m] == ps[m + 1];
      }
    }
  }

  // ---------------------------------------------------------------------
  // Controller state and handlers

  datatype DashboardState = DashboardState(
    patients: seq<Patient>,
    loading: bool,
    showForm: bool,
    editing: Option<Patient>,
    formLoading: bool,
    error: Option<string>)

  const Initial: DashboardState := DashboardState([], true, false, None, false, None)

  const LoadFailedMessage: string := "Failed to load patients. Please check if the API server is running."
  const AddFailedMessage: string := "Failed to add patient"
  const UpdateFailedMessage: string := "Failed to update patient"
  const DeleteFailedMessage: string := "Failed to delete patient"

  /** The message a failed mutation shows: the server's `error` when it is
      non-empty, else the operation's fallback. */
  function FailureMessage<T>(reply: Reply<T>, fallback: string): string
    requires reply.Failed?
  {
    OrElse(reply.serverError, fallback)
  }

  function LoadPatients(s: DashboardState, reply: Reply<seq<Patient>>): (r: DashboardState)
    ensures !r.loading
    ensures reply.Ok? ==> r.patients == reply.value && r.error.None?
    ensures reply.Failed? ==> r.patients == s.patients && r.error == Some(LoadFailedMessage)
    ensures r.showForm == s.showForm && r.editing == s.editing && r.formLoading == s.formLoading
  {
    match reply
    case Ok(data) => s.(patients := data, error := None, loading := false)
    case Failed(_, _) => s.(error := Some(LoadFailedMessage), loading := false)
  }

  function AddPatient(s: DashboardState, reply: Reply<Patient>): (r: DashboardState)
    ensures !r.formLoading && r.loading == s.loading && r.editing == s.editing
    ensures reply.Ok? ==>
              && |r.patients| == |s.patients| + 1
              && r.patients[..|s.patients|] == s.patients
              && r.patients[|s.patients|] == reply.value
              && !r.showForm && r.error.None?
    ensures reply.Failed? ==>
              && r.patients == s.patients && r.showForm == s.showForm
              && r.error.Some? && r.error.value != ""
    ensures reply.Failed? && Truthy(reply.serverError) ==> r.error == reply.serverError
    ensures reply.Failed? && !Truthy(reply.serverError) ==> r.error == Some(AddFailedMessage)
  {
    match reply
    case Ok(created) => s.(patients := s.patients + [created], showForm := false, error := None, formLoading := false)
    case Failed(_, _) => s.(error := Some(FailureMessage(reply, AddFailedMessage)), formLoading := false)
  }

  /** A create whose id is new keeps the ids unique. */
  lemma {:induction false} AddKeepsIdsUnique(s: DashboardState, created: Patient)
    requires UniqueIds(s.patients) && created.id !in Ids(s.patients)
    ensures UniqueIds(AddPatient(s, Ok(created)).patients)
    ensures Ids(AddPatient(s, Ok(created)).patients) == Ids(s.patients) + {created.id}
  {
    var r := s.patients + [created];
    assert forall p :: p in r <==> p in s.patients || p == created;
    forall i | 0 <= i < |s.patients| ensures s.patients[i].id != created.id {
      assert s.patients[i] in s.patients;
    }
  }

  /** Only an edit in progress issues the update call, against that
      patient's id. */
  function UpdateRequest(s: DashboardState): (r: Option<Api.Call>)
    ensures r.Some? <==> s.editing.Some?
    ensures r.Some? ==> Api.EndpointOf(r.value) == Api.Endpoint(Api.PUT, Api.PatientPath(s.editing.value.id))
  {
    if s.editing.Some? then Some(Api.Update(s.editing.value.id)) else None
  }

  function UpdatePatient(s: DashboardState, reply: Reply<Patient>): (r: DashboardState)
    ensures s.editing.None? ==> r == s
    ensures s.editing.Some? && reply.Ok? ==>
              && |r.patients| == |s.patients|
              && (forall i :: 0 <= i < |s.patients| ==>
                    r.patients[i] == if s.patients[i].id == s.editing.value.id then reply.value else s.patients[i])
              && r.editing.None? && !r.showForm && r.error.None? && !r.formLoading
    ensures s.editing.Some? && reply.Failed? ==>
              && r.patients == s.patients && r.editing == s.editing && !r.formLoading
              && r.error.Some? && r.error.value != ""
              && r.showForm == s.showForm
    ensures s.editing.Some? && reply.Failed? && Truthy(reply.serverError) ==> r.error == reply.serverError
    ensures s.editing.Some? && reply.Failed? && !Truthy(reply.serverError) ==> r.error == Some(UpdateFailedMessage)
    ensures r.loading == s.loading
  {
    match s.editing
    case None => s
    case Some(target) =>
      match reply
      case Ok(updated) =>
        s.(patients := ReplaceById(s.patients, target.id, updated), editing := None,
           showForm := false, error := None, formLoading := false)
      case Failed(_, _) => s.(error := Some(FailureMessage(reply, UpdateFailedMessage)), formLoading := false)
  }

  /** Delete issues its call only after confirmation. */
  function DeleteRequest(id: int, confirmed: bool): (r: Option<Api.Call>)
    ensures r.Some? <==> confirmed
    ensures r.Some? ==> Api.EndpointOf(r.value) == Api.Endpoint(Api.DELETE, Api.PatientPath(id))
  {
    if confirmed then Some(Api.Remove(id)) else None
  }

  function DeletePatient(s: DashboardState, id: int, confirmed: bool, reply: Reply<()>): (r: DashboardState)
    ensures !confirmed ==> r == s
    ensures confirmed && reply.Ok? ==>
              && r.patients == RemoveById(s.patients, id)
              && r.error.None?
    ensures confirmed && reply.Failed? ==>
              && r.patients == s.patients
              && r.error.Some? && r.error.value != ""
    ensures confirmed && reply.Failed? && Truthy(reply.serverError) ==> r.error == reply.serverError
    ensures confirmed && reply.Failed? && !Truthy(reply.serverError) ==> r.error == Some(DeleteFailedMessage)
    ensures r.loading == s.loading && r.showForm == s.showForm && r.editing == s.editing
            && r.formLoading == s.formLoading
  {
    if !confirmed then s
    else
      match reply
      case Ok(_) => s.(patients := RemoveById(s.patients, id), error := None)
      case Failed(_, _) => s.(error := Some(FailureMessage(reply, DeleteFailedMessage)))
  }

  function EditPatient(s: DashboardState, p: Patient): (r: DashboardState)
    ensures r.editing == Some(p) && r.showForm
    ensures r.patients == s.patients && r.error == s.error
    ensures r.loading == s.loading && r.formLoading == s.formLoading
  {
    s.(editing := Some(p), showForm := true)
  }

  function CancelForm(s: DashboardState): (r: DashboardState)
    ensures r.editing.None? && !r.showForm
    ensures r.patients == s.patients && r.error == s.error
    ensures r.loading == s.loading && r.formLoading == s.formLoading
  {
    s.(showForm := false, editing := None)
  }

  /** The "Add Patient" button: the form opens in create mode only when no
      edit is pending. */
  function OpenForm(s: DashboardState): (r: DashboardState)
    ensures r.showForm && r.editing == s.editing && r.patients == s.patients
    ensures r.error == s.error && r.loading == s.loading && r.formLoading == s.formLoading
  {
    s.(showForm := true)
  }

  /** Cancelling after opening an edit returns the flags to "no form, no
      edit" whatever they were before. */
  lemma EditThenCancel(s: DashboardState, p: Patient)
    ensures CancelForm(EditPatient(s, p)) == CancelForm(s)
  {
  }

  /** Any failed mutation, and any declined delete, leaves the list as it
      was. */
  lemma FailuresKeepList(s: DashboardState, id: int, confirmed: bool,
                         created: Reply<Patient>, updated: Reply<Patient>, deleted: Reply<()>)
    ensures created.Failed? ==> AddPatient(s, created).patients == s.patients
    ensures updated.Failed? ==> UpdatePatient(s, updated).patients == s.patients
    ensures deleted.Failed? ==> DeletePatient(s, id, confirmed, deleted).patients == s.patients
  {
  }

  /** Each successful mutation preserves the mirror of the server's store,
      so any run of them does, given the server's contract: create assigns
      a fresh id, update returns the record under the id it was sent. */
  lemma {:induction false} SuccessfulMutationsKeepMirror(s: DashboardState, store: map<int, Patient>, created: Patient, updated: Patient, id: int)
    requires Mirrors(s.patients, store)
    ensures created.id !in store ==>
              Mirrors(AddPatient(s, Ok(created)).patients, store[created.id := created])
    ensures s.editing.Some? && s.editing.value.id == updated.id && updated.id in store ==>
              Mirrors(UpdatePatient(s, Ok(updated)).patients, store[updated.id := updated])
    ensures Mirrors(DeletePatient(s, id, true, Ok(())).patients, store - {id})
  {
    if created.id !in store {
      AppendKeepsMirror(s.patients, store, created);
    }
    if s.editing.Some? && s.editing.value.id == updated.id && updated.id in store {
      ReplaceKeepsMirror(s.patients, store, updated);
    }
    RemoveKeepsMirror(s.patients, store, id);
  }

  /** The id-keyed store a server listing describes. */
  function StoreOf(ps: seq<Patient>): map<int, Patient> {
    if ps == [] then map[]
    else StoreOf(ps[..|ps| - 1])[ps[|ps| - 1].id := ps[|ps| - 1]]
  }

  /** A successful load, of a listing with one entry per id, leaves the
      list mirroring the store that listing describes; a failed load keeps
      whatever mirror held before. */
  lemma {:induction false} LoadEstablishesMirror(s: DashboardState, reply: Reply<seq<Patient>>, store: map<int, Patient>)
    ensures reply.Ok? && UniqueIds(reply.value) ==>
              Mirrors(LoadPatients(s, reply).patients, StoreOf(reply.value))
    ensures reply.Failed? && Mirrors(s.patients, store) ==>
              Mirrors(LoadPatients(s, reply).patients, store)
  {
    if reply.Ok? && UniqueIds(reply.value) {
      ListingMirrorsStore(reply.value);
    }
  }

  /** The first load after mount: from the initial state, success shows the
      listing (mirroring the store it describes when its ids are unique)
      with no error; failure leaves the list empty and shows the fixed
      message. Either way the spinner stops and the form stays closed. */
  lemma FirstLoad(reply: Reply<seq<Patient>>)
    ensures var r := LoadPatients(Initial, reply);
            && !r.loading && !r.showForm && r.editing.None? && !r.formLoading
            && (reply.Ok? ==> r.patients == reply.value && r.error.None?)
            && (reply.Ok? && UniqueIds(reply.value) ==> Mirrors(r.patients, StoreOf(reply.value)))
            && (reply.Failed? ==> r.patients == [] && r.error == Some(LoadFailedMessage))
  {
    LoadEstablishesMirror(Initial, reply, map[]);
  }

  lemma {:induction false} ListingMirrorsStore(ps: seq<Patient>)
    requires UniqueIds(ps)
    ensures Mirrors(ps, StoreOf(ps))
    decreases |ps|
  {
    if ps != [] {
      var init, last := ps[..|ps| - 1], ps[|ps| - 1];
      assert UniqueIds(init) by {
        forall i, j | 0 <= i < j < |init| ensures init[i].id != init[j].id {
          assert init[i] == ps[i] && init[j] == ps[j];
        }
      }
      ListingMirrorsStore(init);
      assert last.id !in StoreOf(init) by {
        forall p | p in init ensures p.id != last.id {
          var k :| 0 <= k < |init| && init[k] == p;
          assert ps[k] == p;
        }
      }
      AppendKeepsMirror(init, StoreOf(init), last);
      assert init + [last] == ps;
    }
  }

  // ---------------------------------------------------------------------
  // Statistics

  datatype Stats = Stats(total: nat, male: nat, female: nat, other: nat)

  function CountGender(ps: seq<Patient>, g: Gender): nat {
    if ps == [] then 0 else (if ps[0].gender == g then 1 else 0) + CountGender(ps[1..], g)
  }

  function ComputeStats(ps: seq<Patient>): Stats {
    Stats(|ps|, CountGender(ps, Male), CountGender(ps, Female), CountGender(ps, Other))
  }

  /** Every patient falls in exactly one of the three gender counts. */
  lemma {:induction false} StatsPartition(ps: seq<Patient>)
    ensures var st := ComputeStats(ps); st.male + st.female + st.other == st.total
  {
    if ps != [] {
      StatsPartition(ps[1..]);
    }
  }
}

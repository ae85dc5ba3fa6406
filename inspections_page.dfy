/** app/coordinator/inspections/page.tsx: the move-out intention and inspection lists and inspection creation. */
module InspectionsPage {
  import opened Wrappers
  import opened Strings
  import opened Seqs
  import opened Types
  import opened Database

  const SignInPrompt: string := "Please sign in to create inspections"
  const CreatedText: string := "Inspection created successfully"
  const CreateFailed: string := "Error creating inspection"

  function SubmittedAt(i: IntentionRow): int {
    i.submittedAt
  }

  function InspectionCreatedAt(i: InspectionRow): int {
    i.createdAt
  }

  /**
   * `fetchPendingIntentions`: despite the name, every intention, latest submitted first. Each one
   * is listed with a Create Inspection button, whatever its sign-off status.
   */
  function ListedIntentions(rows: seq<IntentionRow>): (r: seq<IntentionRow>)
    ensures multiset(r) == multiset(rows)
    ensures forall i, j :: 0 <= i < j < |r| ==> r[i].submittedAt >= r[j].submittedAt
  {
    var sorted := SortDesc(rows, SubmittedAt);
    assert forall i, j :: 0 <= i < j < |sorted| ==> SubmittedAt(sorted[i]) >= SubmittedAt(sorted[j]);
    sorted
  }

  /** An approved or rejected intention is still offered for inspection, as is a pending one. */
  lemma EveryIntentionOffered(rows: seq<IntentionRow>, x: IntentionRow)
    requires x in rows
    ensures x in ListedIntentions(rows)
  {
    assert x in multiset(rows);
  }

  /** `fetchInspections`: every inspection, newest first. */
  function ListedInspections(rows: seq<InspectionRow>): (r: seq<InspectionRow>)
    ensures multiset(r) == multiset(rows)
    ensures forall i, j :: 0 <= i < j < |r| ==> r[i].createdAt >= r[j].createdAt
  {
    var sorted := SortDesc(rows, InspectionCreatedAt);
    assert forall i, j :: 0 <= i < j < |sorted| ==> InspectionCreatedAt(sorted[i]) >= InspectionCreatedAt(sorted[j]);
    sorted
  }

  /** The detail page of an inspection. */
  function DetailPath(id: RowId): (p: string)
    ensures StartsWith(p, "/coordinator/inspections/")
    ensures p[|"/coordinator/inspections/"|..] == NatToString(id)
  {
    var prefix := "/coordinator/inspections/";
    var p := prefix + NatToString(id);
    assert p[..|prefix|] == prefix;
    assert p[|prefix|..] == NatToString(id);
    p
  }

  /** Each inspection has a detail page of its own. */
  lemma DetailPathsDistinct(id: RowId, other: RowId)
    requires id != other
    ensures DetailPath(id) != DetailPath(other)
  {
    if DetailPath(id) == DetailPath(other) {
      NatToStringInjective(id, other);
    }
  }

  /** The row action's text: a FINAL inspection is only viewed, a DRAFT one edited. */
  function ActionLabel(s: InspectionStatus): (text: string)
    ensures text == "View" <==> s == Final
    ensures text == "Edit" <==> s == Draft
  {
    match s
    case Final => "View"
    case Draft => assert "Edit" != "View" by { assert "Edit"[0] != "View"[0]; } "Edit"
  }

  /** The message for a thrown insert error: its text, or the default when that is empty. */
  function FailureText(msg: string): (r: string)
    ensures r != ""
    ensures msg != "" ==> r == msg
  {
    if msg != "" then msg else CreateFailed
  }

  class InspectionsPage {
    var alertText: Option<string>
    /** The path handed to `router.push`, if any. */
    var navigatedTo: Option<string>

    constructor ()
      ensures alertText.None? && navigatedTo.None?
    {
      alertText, navigatedTo := None, None;
    }

    /**
     * `handleCreateInspection`. `configured` says whether a client exists, `user` is the session's
     * user; `insertFault` and `updateFault` are the store's errors for the two writes. The source
     * receives the intention's id as well and does not use it.
     */
    method HandleCreateInspection(db: Db, configured: bool, user: Option<string>, intentionId: RowId,
                                  tenancyId: RowId, roomId: RowId, createdAt: nat,
                                  insertFault: Option<string>, updateFault: Option<string>)
      returns (created: Option<InspectionRow>)
      requires db.Valid()
      modifies this`alertText, this`navigatedTo, db`inspections, db`tenancies, db`nextId
      ensures db.Valid()
      ensures created.Some? <==> configured && user.Some? && insertFault.None?
      ensures created.None? ==>
                db.inspections == old(db.inspections) && db.tenancies == old(db.tenancies) && navigatedTo == old(navigatedTo)
      ensures !configured ==> alertText == old(alertText)
      ensures configured && user.None? ==> alertText == Some(SignInPrompt)
      ensures configured && user.Some? && insertFault.Some? ==> alertText == Some(FailureText(insertFault.value))
      ensures created.Some? ==>
                && created.value == InspectionRow(old(db.nextId), tenancyId, roomId, user.value, Draft, createdAt)
                && db.inspections == old(db.inspections) + [created.value]
                && alertText == Some(CreatedText)
                && navigatedTo == Some(DetailPath(created.value.id))
                && db.tenancies == if updateFault.None? then SetTenancyStatus(old(db.tenancies), tenancyId, MoveOutInspectionDraft)
                                   else old(db.tenancies)
    {
      created := None;
      if !configured {
        return;
      }
      if user.None? {
        alertText := Some(SignInPrompt);
        return;
      }
      if insertFault.Some? {
        alertText := Some(FailureText(insertFault.value));
        return;
      }
      var id := db.NewId();
      var row := InspectionRow(id, tenancyId, roomId, user.value, Draft, createdAt);
      db.inspections := db.inspections + [row];
      if updateFault.None? {
        db.tenancies := SetTenancyStatus(db.tenancies, tenancyId, MoveOutInspectionDraft);
      }
      alertText := Some(CreatedText);
      navigatedTo := Some(DetailPath(id));
      created := Some(row);
    }
  }

  /**
   * The status update does change a tenancy that is not yet MOVE_OUT_INSPECTION_DRAFT, so when it
   * fails the store differs from the success case, while the page reports success all the same.
   */
  lemma {:induction false} StatusUpdateChangesTenancy(rows: seq<TenancyRow>, tenancyId: RowId, k: nat)
    requires k < |rows| && rows[k].id == tenancyId && rows[k].status != MoveOutInspectionDraft
    ensures SetTenancyStatus(rows, tenancyId, MoveOutInspectionDraft) != rows
  {
    assert SetTenancyStatus(rows, tenancyId, MoveOutInspectionDraft)[k].status == MoveOutInspectionDraft;
  }
}

/** app/coordinator/move-out-reviews/page.tsx: the coordinator's sign-off of move-out intentions. */
module MoveOutReviewsPage {
  import opened Wrappers
  import opened Strings
  import opened Database

  /** A tenant's name and email as the join returns them. */
  datatype TenantInfo = TenantInfo(name: string, email: string)

  /** One row of the joined query: the intention, its tenancy, room, house and the house's coordinators. */
  datatype FetchedItem = FetchedItem(intention: IntentionRow, tenancy: FetchedTenancy)
  datatype FetchedTenancy = FetchedTenancy(id: RowId, tenant: TenantInfo, room: FetchedRoom)
  datatype FetchedRoom = FetchedRoom(labelText: string, house: FetchedHouse)
  datatype FetchedHouse = FetchedHouse(name: string, coordinatorIds: seq<string>)

  /** One intention as the page lists it. */
  datatype ReviewItem = ReviewItem(intention: IntentionRow, tenancy: TenancyView)
  datatype TenancyView = TenancyView(id: RowId, tenant: TenantInfo, roomLabel: string, houseName: string)

  /** The projection of one joined row. */
  function Project(item: FetchedItem): (v: ReviewItem)
    ensures v.intention == item.intention
    ensures v.tenancy.id == item.tenancy.id && v.tenancy.tenant == item.tenancy.tenant
    ensures v.tenancy.roomLabel == item.tenancy.room.labelText && v.tenancy.houseName == item.tenancy.room.house.name
  {
    ReviewItem(item.intention, TenancyView(item.tenancy.id, item.tenancy.tenant, item.tenancy.room.labelText, item.tenancy.room.house.name))
  }

  /** `transformedData`: `(data || []).map(...)`, one projected item per fetched row, in order. */
  function Transform(data: Option<seq<FetchedItem>>): (r: seq<ReviewItem>)
    ensures data.None? ==> r == []
    ensures data.Some? ==> |r| == |data.value| && forall i :: 0 <= i < |r| ==> r[i] == Project(data.value[i])
  {
    match data
    case None => []
    case Some(items) => seq(|items|, i requires 0 <= i < |items| => Project(items[i]))
  }

  /** Two fetched rows project alike exactly when they differ at most in the house's coordinator list. */
  lemma ProjectForgetsOnlyCoordinators(a: FetchedItem, b: FetchedItem)
    ensures Project(a) == Project(b) <==>
              a.(tenancy := a.tenancy.(room := a.tenancy.room.(house := a.tenancy.room.house.(coordinatorIds := [])))) ==
              b.(tenancy := b.tenancy.(room := b.tenancy.room.(house := b.tenancy.room.house.(coordinatorIds := []))))
  {
  }

  /** A coordinator's decision. */
  datatype Decision = Approve | Reject

  function DecisionStatus(d: Decision): SignOffStatus {
    match d
    case Approve => Approved
    case Reject => Rejected
  }

  function MissingNotesText(d: Decision): string {
    match d
    case Approve => "Please add coordinator notes before approving"
    case Reject => "Please add coordinator notes explaining the rejection"
  }

  function SuccessText(d: Decision): string {
    match d
    case Approve => "Move-out intention approved successfully!"
    case Reject => "Move-out intention rejected"
  }

  function FailureText(d: Decision): string {
    match d
    case Approve => "Error approving move-out intention"
    case Reject => "Error rejecting move-out intention"
  }

  /**
   * `update({ sign_off_status, coordinator_signed_off_by, coordinator_signed_off_at, coordinator_notes }).eq('id', id)`.
   */
  function SignOffRows(rows: seq<IntentionRow>, id: RowId, status: SignOffStatus, reviewer: string, at: string, notes: string): (r: seq<IntentionRow>)
    ensures |r| == |rows|
    ensures forall i :: 0 <= i < |rows| ==> r[i].id == rows[i].id
    ensures forall i :: 0 <= i < |rows| && rows[i].id != id ==> r[i] == rows[i]
    ensures forall i :: 0 <= i < |rows| && rows[i].id == id ==>
              r[i] == rows[i].(signOffStatus := status, signedOffBy := Some(reviewer), signedOffAt := Some(at), coordinatorNotes := Some(notes))
  {
    seq(|rows|, i requires 0 <= i < |rows| =>
      if rows[i].id == id
      then rows[i].(signOffStatus := status, signedOffBy := Some(reviewer), signedOffAt := Some(at), coordinatorNotes := Some(notes))
      else rows[i])
  }

  /** A sign-off keeps each intention's id, tenancy, date, notes and photos: only the review fields move. */
  lemma SignOffKeepsSubmission(rows: seq<IntentionRow>, id: RowId, status: SignOffStatus, reviewer: string, at: string, notes: string, i: nat)
    requires i < |rows|
    ensures var r := SignOffRows(rows, id, status, reviewer, at, notes)[i];
            && r.id == rows[i].id && r.tenancyId == rows[i].tenancyId
            && r.plannedMoveOutDate == rows[i].plannedMoveOutDate && r.notes == rows[i].notes
            && r.keyAreaPhotos == rows[i].keyAreaPhotos && r.damagePhotos == rows[i].damagePhotos
            && r.createdAt == rows[i].createdAt
  {
  }

  /** Signing off twice with the same values is the same as once. */
  lemma SignOffIdempotent(rows: seq<IntentionRow>, id: RowId, status: SignOffStatus, reviewer: string, at: string, notes: string)
    ensures SignOffRows(SignOffRows(rows, id, status, reviewer, at, notes), id, status, reviewer, at, notes) == SignOffRows(rows, id, status, reviewer, at, notes)
  {
  }

  /** The review controls are shown only for PENDING intentions. */
  predicate ShowReviewControls(item: ReviewItem) {
    item.intention.signOffStatus == Pending
  }

  /** The notes editor with Approve/Reject is open for the PENDING intention being reviewed. */
  predicate ShowReviewEditor(item: ReviewItem, reviewingId: Option<RowId>) {
    ShowReviewControls(item) && reviewingId == Some(item.intention.id)
  }

  class ReviewsPage {
    var intentions: seq<ReviewItem>
    var reviewingId: Option<RowId>
    var reviewNotes: string
    var alertText: Option<string>

    constructor ()
      ensures intentions == [] && reviewingId.None? && reviewNotes == "" && alertText.None?
    {
      intentions, reviewingId, reviewNotes, alertText := [], None, "", None;
    }

    /** "Review & Sign Off" opens the editor for one intention. */
    method StartReview(id: RowId)
      modifies this`reviewingId
      ensures reviewingId == Some(id)
    {
      reviewingId := Some(id);
    }

    /** The notes textarea's `onChange`. */
    method EditNotes(text: string)
      modifies this`reviewNotes
      ensures reviewNotes == text
    {
      reviewNotes := text;
    }

    /** "Cancel" closes the editor and clears the notes. */
    method CancelReview()
      modifies this`reviewingId, this`reviewNotes
      ensures reviewingId.None? && reviewNotes == ""
    {
      reviewingId, reviewNotes := None, "";
    }

    /**
     * `handleApprove` and `handleReject`: `user` is the session's user, `now` the ISO timestamp,
     * `fault` the store's error. The tenancy table is not among what this may change.
     */
    method HandleDecision(db: Db, decision: Decision, intentionId: RowId, user: Option<string>, now: string, fault: Option<string>)
      requires db.Valid()
      modifies this`reviewingId, this`reviewNotes, this`alertText, db`intentions
      ensures db.Valid()
      ensures IsBlank(old(reviewNotes)) ==>
                db.intentions == old(db.intentions) && alertText == Some(MissingNotesText(decision))
                && reviewingId == old(reviewingId) && reviewNotes == old(reviewNotes)
      ensures !IsBlank(old(reviewNotes)) && user.None? ==>
                db.intentions == old(db.intentions) && alertText == old(alertText)
                && reviewingId == old(reviewingId) && reviewNotes == old(reviewNotes)
      ensures !IsBlank(old(reviewNotes)) && user.Some? && fault.Some? ==>
                db.intentions == old(db.intentions) && alertText == Some(FailureText(decision))
                && reviewingId == old(reviewingId) && reviewNotes == old(reviewNotes)
      ensures !IsBlank(old(reviewNotes)) && user.Some? && fault.None? ==>
                && db.intentions == SignOffRows(old(db.intentions), intentionId, DecisionStatus(decision), user.value, now, old(reviewNotes))
                && alertText == Some(SuccessText(decision))
                && reviewingId.None? && reviewNotes == ""
    {
      TrimEmptyIffBlank(reviewNotes);
      if Trim(reviewNotes) == [] {
        alertText := Some(MissingNotesText(decision));
        return;
      }
      if user.None? {
        return;
      }
      if fault.Some? {
        alertText := Some(FailureText(decision));
        return;
      }
      db.intentions := SignOffRows(db.intentions, intentionId, DecisionStatus(decision), user.value, now, reviewNotes);
      alertText := Some(SuccessText(decision));
      reviewingId, reviewNotes := None, "";
    }
  }

  /** After a successful review the intention shows no review controls any more. */
  lemma ReviewedItemLeavesPending(rows: seq<IntentionRow>, id: RowId, d: Decision, reviewer: string, at: string, notes: string, i: nat)
    requires i < |rows| && rows[i].id == id
    ensures SignOffRows(rows, id, DecisionStatus(d), reviewer, at, notes)[i].signOffStatus != Pending
    ensures SignOffRows(rows, id, DecisionStatus(d), reviewer, at, notes)[i].coordinatorNotes == Some(notes)
  {
  }

  /** The joined rows re-fetched after a sign-off of the intentions `rows` they were built on. */
  function Refetched(items: seq<FetchedItem>, rows: seq<IntentionRow>, id: RowId, d: Decision, reviewer: string, at: string, notes: string): seq<FetchedItem>
    requires |rows| == |items|
  {
    var signed := SignOffRows(rows, id, DecisionStatus(d), reviewer, at, notes);
    seq(|items|, i requires 0 <= i < |items| => items[i].(intention := signed[i]))
  }

  /**
   * Reloading the list after a decision shows the decided intention without review controls and
   * with the notes, under the same tenancy, and every other item exactly as before.
   */
  lemma ReloadShowsDecision(items: seq<FetchedItem>, rows: seq<IntentionRow>, id: RowId, d: Decision,
                            reviewer: string, at: string, notes: string, i: nat)
    requires |rows| == |items| && i < |items|
    requires forall k :: 0 <= k < |items| ==> items[k].intention == rows[k]
    ensures var before := Transform(Some(items));
            var after := Transform(Some(Refetched(items, rows, id, d, reviewer, at, notes)));
            && |after| == |before|
            && (before[i].intention.id != id ==> after[i] == before[i])
            && (before[i].intention.id == id ==>
                  && !ShowReviewControls(after[i]) && after[i].intention.coordinatorNotes == Some(notes)
                  && after[i].tenancy == before[i].tenancy && after[i].intention.id == id)
  {
    var r := Refetched(items, rows, id, d, reviewer, at, notes);
    assert Transform(Some(r))[i] == Project(r[i]);
    assert Transform(Some(items))[i] == Project(items[i]);
  }
}

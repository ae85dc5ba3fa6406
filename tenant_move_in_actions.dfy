/** app/tenant/move-in/actions.ts: the incoming tenant's tenancy, the previous tenant's evidence and key receipt. */
module TenantMoveInActions {
  import opened Wrappers
  import opened Strings
  import opened Seqs
  import opened Types
  import opened Database

  const NotAuthenticated: string := "Not authenticated"

  /** The status names of `.in('status', [...])`; "PENDING" names no tenancy status. */
  const PendingStatusNames: seq<string> := ["PENDING", "OCCUPIED", "MOVE_IN_PENDING_SIGNATURE"]

  /** No tenancy status is called PENDING, so that list entry never matches. */
  lemma {:induction false} PendingMatchesNoStatus(s: TenancyStatus)
    ensures StatusName(s) != "PENDING"
  {
    match s
    case Occupied => assert StatusName(s)[0] != "PENDING"[0];
    case MoveOutIntended => assert StatusName(s)[0] == 'M';
    case MoveOutInspectionDraft => assert StatusName(s)[0] == 'M';
    case MoveOutInspectionFinal => assert StatusName(s)[0] == 'M';
    case MoveInPendingSignature => assert StatusName(s)[0] == 'M';
    case Ended => assert StatusName(s)[0] == 'E';
  }

  /** A tenancy counts as the incoming one exactly when it is OCCUPIED or MOVE_IN_PENDING_SIGNATURE. */
  lemma IncomingStatuses(s: TenancyStatus)
    ensures StatusName(s) in PendingStatusNames <==> s == Occupied || s == MoveInPendingSignature
  {
    PendingMatchesNoStatus(s);
    if StatusName(s) == "OCCUPIED" {
      StatusNameInjective(s, Occupied);
    }
    if StatusName(s) == "MOVE_IN_PENDING_SIGNATURE" {
      StatusNameInjective(s, MoveInPendingSignature);
    }
  }

  predicate IsIncomingFor(t: TenancyRow, user: string) {
    t.tenantUserId == user && StatusName(t.status) in PendingStatusNames
  }

  function CreatedAt(t: TenancyRow): int {
    t.createdAt
  }

  /**
   * `getTenantPendingTenancy`: the caller's most recently created tenancy in one of the listed
   * statuses (`order('created_at', desc).limit(1).single()`); none is an error of `.single()`.
   */
  function GetTenantPendingTenancy(rows: seq<TenancyRow>, user: Option<string>, readFault: Option<string>): (r: Answer<TenancyRow>)
    ensures user.None? ==> r == Answer(None, Some(NotAuthenticated))
    ensures user.Some? ==> (r.data.Some? <==> r.error.None?)
    ensures user.Some? && readFault.Some? ==> r == Answer(None, readFault)
    ensures user.Some? && readFault.None? ==>
              (r.data.None? <==> forall t :: t in rows ==> !IsIncomingFor(t, user.value))
    ensures r.data.Some? ==>
              && user.Some? && r.data.value in rows && IsIncomingFor(r.data.value, user.value)
              && forall t :: t in rows && IsIncomingFor(t, user.value) ==> t.createdAt <= r.data.value.createdAt
  {
    if user.None? then Answer(None, Some(NotAuthenticated))
    else if readFault.Some? then Answer(None, readFault)
    else
      var candidates := Filter(rows, t => IsIncomingFor(t, user.value));
      if candidates == [] then Answer(None, Some(SingleRowError))
      else
        var ordered := SortDesc(candidates, CreatedAt);
        SortDescHeadIsMax(candidates, CreatedAt);
        match Single(ordered[..1])
        case Ok(t) => Answer(Some(t), None)
        case Err(msg) => Answer(None, Some(msg))
  }

  /** The order of `.order('end_date', { ascending: false })`: NULL first, then the latest date. */
  predicate EndsNoLater(a: Option<string>, b: Option<string>) {
    b.None? || (a.Some? && StrLe(a.value, b.value))
  }

  lemma EndsNoLaterTotal(a: Option<string>, b: Option<string>)
    ensures EndsNoLater(a, b) || EndsNoLater(b, a)
  {
    if a.Some? && b.Some? {
      StrLeTotal(a.value, b.value);
    }
  }

  lemma EndsNoLaterTrans(a: Option<string>, b: Option<string>, c: Option<string>)
    requires EndsNoLater(a, b) && EndsNoLater(b, c)
    ensures EndsNoLater(a, c)
  {
    if a.Some? && b.Some? && c.Some? {
      StrLeTrans(a.value, b.value, c.value);
    }
  }

  /** The tenancy that comes first in that order, if any; ties keep the earliest row. */
  function LatestEnded(rows: seq<TenancyRow>): (r: Option<TenancyRow>)
    ensures r.None? <==> rows == []
    ensures r.Some? ==> r.value in rows && forall t :: t in rows ==> EndsNoLater(t.endDate, r.value.endDate)
  {
    if rows == [] then None
    else
      var rest := LatestEnded(rows[1..]);
      if rest.None? then
        EndsNoLaterTotal(rows[0].endDate, rows[0].endDate);
        Some(rows[0])
      else if EndsNoLater(rest.value.endDate, rows[0].endDate) then
        assert forall t :: t in rows[1..] ==> EndsNoLater(t.endDate, rows[0].endDate) by {
          forall t | t in rows[1..] ensures EndsNoLater(t.endDate, rows[0].endDate) {
            EndsNoLaterTrans(t.endDate, rest.value.endDate, rows[0].endDate);
          }
        }
        EndsNoLaterTotal(rows[0].endDate, rows[0].endDate);
        assert rows == [rows[0]] + rows[1..];
        Some(rows[0])
      else
        EndsNoLaterTotal(rows[0].endDate, rest.value.endDate);
        rest
  }

  /** The columns the evidence query selects from the previous move-out intention. */
  datatype PreviousMoveOut = PreviousMoveOut(
    id: RowId,
    keyAreaPhotos: seq<string>,
    damagePhotos: seq<string>,
    notes: Option<string>,
    damageDescription: Option<string>)

  function Evidence(i: IntentionRow): PreviousMoveOut {
    PreviousMoveOut(i.id, i.keyAreaPhotos, i.damagePhotos, i.notes, i.damageDescription)
  }

  predicate EndedInRoom(t: TenancyRow, roomId: RowId) {
    t.roomId == roomId && t.status == Ended
  }

  /** `.eq('tenancy_id', id)` on the intentions. */
  function IntentionsOf(intentions: seq<IntentionRow>, id: RowId): (r: seq<IntentionRow>)
    ensures forall i :: i in r <==> i in intentions && i.tenancyId == id
  {
    Filter(intentions, (i: IntentionRow) => i.tenancyId == id)
  }

  /** The room's previous tenancy: the ENDED tenancy of that room that ended last. */
  function PreviousTenancy(rows: seq<TenancyRow>, roomId: RowId): (r: Option<TenancyRow>)
    ensures r.None? <==> forall t :: t in rows ==> !EndedInRoom(t, roomId)
    ensures r.Some? ==>
              && r.value in rows && EndedInRoom(r.value, roomId)
              && forall t :: t in rows && EndedInRoom(t, roomId) ==> EndsNoLater(t.endDate, r.value.endDate)
  {
    var ended := Filter(rows, t => EndedInRoom(t, roomId));
    assert ended == [] ==> forall t :: t in rows ==> !EndedInRoom(t, roomId);
    assert ended != [] ==> ended[0] in ended;
    LatestEnded(ended)
  }

  /**
   * `getPreviousTenantMoveOutPhotos`. `tenancyFault` and `intentionFault` are store errors of the
   * two reads. No previous tenancy, a failed read, or several intentions for it all give no data
   * and no error.
   */
  function GetPreviousTenantMoveOutPhotos(tenancies: seq<TenancyRow>, intentions: seq<IntentionRow>, roomId: RowId,
                                          user: Option<string>, tenancyFault: Option<string>, intentionFault: Option<string>)
    : (r: Answer<PreviousMoveOut>)
    ensures user.None? ==> r == Answer(None, Some(NotAuthenticated))
    ensures user.Some? ==> r.error.None?
    ensures user.Some? && (tenancyFault.Some? || PreviousTenancy(tenancies, roomId).None? || intentionFault.Some?) ==> r.data.None?
    ensures r.data.Some? ==>
              && PreviousTenancy(tenancies, roomId).Some?
              && exists i :: i in intentions && i.tenancyId == PreviousTenancy(tenancies, roomId).value.id && r.data.value == Evidence(i)
  {
    if user.None? then Answer(None, Some(NotAuthenticated))
    else if tenancyFault.Some? then Answer(None, None)
    else
      match PreviousTenancy(tenancies, roomId)
      case None => Answer(None, None)
      case Some(previous) =>
        if intentionFault.Some? then Answer(None, None)
        else
          var own := IntentionsOf(intentions, previous.id);
          match MaybeSingle(own)
          case Err(_) => Answer(None, None)
          case Ok(found) =>
            if found.Some? then
              assert found.value in own;
              Answer(Some(Evidence(found.value)), None)
            else Answer(None, None)
  }

  /** Evidence comes from the intention of the right tenancy when that tenancy has exactly one. */
  lemma {:induction false} SingleIntentionGivesEvidence(tenancies: seq<TenancyRow>, intentions: seq<IntentionRow>,
                                                        roomId: RowId, user: string, k: nat)
    requires PreviousTenancy(tenancies, roomId).Some?
    requires k < |intentions| && intentions[k].tenancyId == PreviousTenancy(tenancies, roomId).value.id
    requires forall j :: 0 <= j < |intentions| && j != k ==> intentions[j].tenancyId != intentions[k].tenancyId
    ensures GetPreviousTenantMoveOutPhotos(tenancies, intentions, roomId, Some(user), None, None)
            == Answer(Some(Evidence(intentions[k])), None)
  {
    OnlyOneOwn(intentions, intentions[k].tenancyId, k);
  }

  lemma {:induction false} OnlyOneOwn(intentions: seq<IntentionRow>, id: RowId, k: nat)
    requires k < |intentions| && intentions[k].tenancyId == id
    requires forall j :: 0 <= j < |intentions| && j != k ==> intentions[j].tenancyId != id
    ensures IntentionsOf(intentions, id) == [intentions[k]]
  {
    if k == 0 {
      NoneOwn(intentions[1..], id);
    } else {
      OnlyOneOwn(intentions[1..], id, k - 1);
    }
  }

  lemma {:induction false} NoneOwn(intentions: seq<IntentionRow>, id: RowId)
    requires forall j :: 0 <= j < |intentions| ==> intentions[j].tenancyId != id
    ensures IntentionsOf(intentions, id) == []
  {
    if intentions != [] {
      NoneOwn(intentions[1..], id);
    }
  }

  /** `update({ keys_received: true, keys_received_at: now }).eq('id', id).eq('tenant_user_id', user)`. */
  function KeysRows(rows: seq<TenancyRow>, id: RowId, user: string, now: string): (r: seq<TenancyRow>)
    ensures |r| == |rows|
    ensures forall i :: 0 <= i < |rows| && !(rows[i].id == id && rows[i].tenantUserId == user) ==> r[i] == rows[i]
    ensures forall i :: 0 <= i < |rows| && rows[i].id == id && rows[i].tenantUserId == user ==>
              r[i].keysReceived && r[i].keysReceivedAt == Some(now)
              && r[i] == rows[i].(keysReceived := true, keysReceivedAt := Some(now))
  {
    seq(|rows|, i requires 0 <= i < |rows| =>
      if rows[i].id == id && rows[i].tenantUserId == user
      then rows[i].(keysReceived := true, keysReceivedAt := Some(now)) else rows[i])
  }

  /** The `{ success, error }` pair of `confirmKeysReceived`. */
  datatype KeysOutcome = KeysOutcome(success: bool, error: Option<string>)

  /** `confirmKeysReceived`: `now` is the ISO timestamp and `fault` the store's error. */
  method ConfirmKeysReceived(db: Db, tenancyId: RowId, user: Option<string>, now: string, fault: Option<string>)
    returns (r: KeysOutcome)
    requires db.Valid()
    modifies db`tenancies
    ensures db.Valid()
    ensures user.None? ==> r == KeysOutcome(false, Some(NotAuthenticated)) && db.tenancies == old(db.tenancies)
    ensures user.Some? && fault.Some? ==> r == KeysOutcome(false, fault) && db.tenancies == old(db.tenancies)
    ensures user.Some? && fault.None? ==>
              r == KeysOutcome(true, None) && db.tenancies == KeysRows(old(db.tenancies), tenancyId, user.value, now)
  {
    if user.None? {
      return KeysOutcome(false, Some(NotAuthenticated));
    }
    if fault.Some? {
      return KeysOutcome(false, fault);
    }
    db.tenancies := KeysRows(db.tenancies, tenancyId, user.value, now);
    r := KeysOutcome(true, None);
  }

  /** Another tenant's tenancy, or another id, keeps its key fields. */
  lemma KeysOnlyOwnRow(rows: seq<TenancyRow>, id: RowId, user: string, now: string, i: nat)
    requires i < |rows| && (rows[i].id != id || rows[i].tenantUserId != user)
    ensures KeysRows(rows, id, user, now)[i] == rows[i]
  {
  }

  /** Success does not mean a row matched: with no tenancy of that id for the caller, nothing changes. */
  lemma {:induction false} NoMatchStillSucceeds(rows: seq<TenancyRow>, id: RowId, user: string, now: string)
    requires forall i :: 0 <= i < |rows| ==> rows[i].id != id || rows[i].tenantUserId != user
    ensures KeysRows(rows, id, user, now) == rows
  {
    assert forall i :: 0 <= i < |rows| ==> KeysRows(rows, id, user, now)[i] == rows[i];
  }
}

/** The shared vocabulary of lib/types.ts: roles, statuses, room slots and capacities, checklist keys. */
module Types {
  import opened Wrappers

  datatype UserRole = Admin | Coordinator | Tenant

  function RoleName(r: UserRole): string {
    match r
    case Admin => "ADMIN"
    case Coordinator => "COORDINATOR"
    case Tenant => "TENANT"
  }

  /** Reads a role column; any text other than the three names is not a role. */
  function ParseRole(s: string): (r: Option<UserRole>)
    ensures r.Some? ==> RoleName(r.value) == s
    ensures (exists u :: RoleName(u) == s) ==> r.Some?
  {
    if s == "ADMIN" then Some(Admin)
    else if s == "COORDINATOR" then Some(Coordinator)
    else if s == "TENANT" then Some(Tenant)
    else None
  }

  datatype TenancyStatus =
    | Occupied
    | MoveOutIntended
    | MoveOutInspectionDraft
    | MoveOutInspectionFinal
    | MoveInPendingSignature
    | Ended

  const AllTenancyStatuses: seq<TenancyStatus> :=
    [Occupied, MoveOutIntended, MoveOutInspectionDraft, MoveOutInspectionFinal, MoveInPendingSignature, Ended]

  function StatusName(s: TenancyStatus): string {
    match s
    case Occupied => "OCCUPIED"
    case MoveOutIntended => "MOVE_OUT_INTENDED"
    case MoveOutInspectionDraft => "MOVE_OUT_INSPECTION_DRAFT"
    case MoveOutInspectionFinal => "MOVE_OUT_INSPECTION_FINAL"
    case MoveInPendingSignature => "MOVE_IN_PENDING_SIGNATURE"
    case Ended => "ENDED"
  }

  /** Reads a status column: exactly the six names are statuses, and each reads back as itself. */
  function ParseStatus(s: string): (r: Option<TenancyStatus>)
    ensures r.Some? ==> StatusName(r.value) == s
    ensures (exists t :: StatusName(t) == s) ==> r.Some?
  {
    if s == "OCCUPIED" then Some(Occupied)
    else if s == "MOVE_OUT_INTENDED" then Some(MoveOutIntended)
    else if s == "MOVE_OUT_INSPECTION_DRAFT" then Some(MoveOutInspectionDraft)
    else if s == "MOVE_OUT_INSPECTION_FINAL" then Some(MoveOutInspectionFinal)
    else if s == "MOVE_IN_PENDING_SIGNATURE" then Some(MoveInPendingSignature)
    else if s == "ENDED" then Some(Ended)
    else None
  }

  /** There are exactly six tenancy statuses, listed once each. */
  lemma TenancyStatusesAreSix()
    ensures |AllTenancyStatuses| == 6
    ensures forall s: TenancyStatus :: s in AllTenancyStatuses
    ensures forall i, j :: 0 <= i < j < 6 ==> AllTenancyStatuses[i] != AllTenancyStatuses[j]
  {
    forall s: TenancyStatus ensures s in AllTenancyStatuses {
      match s
      case Occupied => assert AllTenancyStatuses[0] == s;
      case MoveOutIntended => assert AllTenancyStatuses[1] == s;
      case MoveOutInspectionDraft => assert AllTenancyStatuses[2] == s;
      case MoveOutInspectionFinal => assert AllTenancyStatuses[3] == s;
      case MoveInPendingSignature => assert AllTenancyStatuses[4] == s;
      case Ended => assert AllTenancyStatuses[5] == s;
    }
  }

  /** Status names are pairwise distinct, so a stored name determines the status. */
  lemma {:induction false} StatusNameInjective(s: TenancyStatus, t: TenancyStatus)
    ensures StatusName(s) == StatusName(t) ==> s == t
  {
    if StatusName(s) == StatusName(t) {
      assert ParseStatus(StatusName(s)) == Some(s);
      assert ParseStatus(StatusName(t)) == Some(t);
    }
  }

  datatype InspectionStatus = Draft | Final

  function InspectionStatusName(s: InspectionStatus): string {
    match s
    case Draft => "DRAFT"
    case Final => "FINAL"
  }

  datatype Slot = A | B

  /** `RoomSlot`: A, B or none (`null`). */
  type RoomSlot = Option<Slot>

  /** `Room.capacity` is 1 or 2. */
  type Capacity = c: int | c == 1 || c == 2 witness 1

  datatype ChecklistKey =
    | RentPaid
    | Cleaned
    | NoDamage
    | UtilitiesSettled
    | CoordinatorSatisfied
    | KeysReturned
    | BankDetails

  function KeyName(k: ChecklistKey): string {
    match k
    case RentPaid => "rent_paid"
    case Cleaned => "cleaned"
    case NoDamage => "no_damage"
    case UtilitiesSettled => "utilities_settled"
    case CoordinatorSatisfied => "coordinator_satisfied"
    case KeysReturned => "keys_returned"
    case BankDetails => "bank_details"
  }

  datatype ChecklistEntry = ChecklistEntry(key: ChecklistKey, labelText: string)

  /** `CHECKLIST_ITEMS`, in its fixed order. */
  const ChecklistItems: seq<ChecklistEntry> := [
    ChecklistEntry(RentPaid, "Rent paid up to move-out date"),
    ChecklistEntry(Cleaned, "Bedroom and common areas cleaned"),
    ChecklistEntry(NoDamage, "No damage/stain caused"),
    ChecklistEntry(UtilitiesSettled, "All utilities settled/arranged"),
    ChecklistEntry(CoordinatorSatisfied, "Coordinator satisfied with cleaning"),
    ChecklistEntry(KeysReturned, "Keys returned"),
    ChecklistEntry(BankDetails, "Bank details provided for bond refund (or N/A if no bond)")
  ]

  /** `ChecklistKey`: a text is a checklist key exactly when it is the key of one of the entries. */
  function ParseChecklistKey(s: string): (r: Option<ChecklistKey>)
    ensures r.Some? ==> KeyName(r.value) == s
    ensures r.Some? <==> exists i :: 0 <= i < |ChecklistItems| && KeyName(ChecklistItems[i].key) == s
  {
    FindKeyFrom(s, 0)
  }

  /** Looks `s` up among the entries from position `i` on. */
  function FindKeyFrom(s: string, i: nat): (r: Option<ChecklistKey>)
    requires i <= |ChecklistItems|
    ensures r.Some? ==> KeyName(r.value) == s
    ensures r.Some? <==> exists j :: i <= j < |ChecklistItems| && KeyName(ChecklistItems[j].key) == s
    decreases |ChecklistItems| - i
  {
    if i == |ChecklistItems| then None
    else if KeyName(ChecklistItems[i].key) == s then Some(ChecklistItems[i].key)
    else FindKeyFrom(s, i + 1)
  }

  /** The position of a key in `CHECKLIST_ITEMS`. */
  function KeyIndex(k: ChecklistKey): (i: nat)
    ensures i < |ChecklistItems| && ChecklistItems[i].key == k
  {
    match k
    case RentPaid => 0
    case Cleaned => 1
    case NoDamage => 2
    case UtilitiesSettled => 3
    case CoordinatorSatisfied => 4
    case KeysReturned => 5
    case BankDetails => 6
  }

  /** The checklist has seven entries whose keys are pairwise distinct, so every key sits at one place. */
  lemma ChecklistItemsShape()
    ensures |ChecklistItems| == 7
    ensures forall i, j :: 0 <= i < j < |ChecklistItems| ==> ChecklistItems[i].key != ChecklistItems[j].key
    ensures forall i :: 0 <= i < |ChecklistItems| ==> KeyIndex(ChecklistItems[i].key) == i
  {
  }

  /** Key names are pairwise distinct. */
  lemma {:induction false} KeyNameInjective(k: ChecklistKey, l: ChecklistKey)
    ensures KeyName(k) == KeyName(l) ==> k == l
  {
  }
}

/**
 * The hosted relational store and object store, replaced by an in-memory `Db`.
 * Each table is a sequence of rows in insertion order; `nextId` supplies fresh row ids.
 * Every remote write in the modules that use `Db` takes a `fault: Option<string>` input:
 * `Some(msg)` means the store answered with that error message and wrote nothing.
 */
module Database {
  import opened Wrappers
  import opened Types

  type RowId = nat

  datatype TenancyRow = TenancyRow(
    id: RowId,
    roomId: RowId,
    slot: RoomSlot,
    tenantUserId: string,
    startDate: string,
    endDate: Option<string>,
    status: TenancyStatus,
    rentalPrice: Option<real>,
    createdAt: nat,
    keysReceived: bool,
    keysReceivedAt: Option<string>)

  datatype SignOffStatus = Pending | Approved | Rejected

  datatype IntentionRow = IntentionRow(
    id: RowId,
    tenancyId: RowId,
    plannedMoveOutDate: string,
    notes: Option<string>,
    keyAreaPhotos: seq<string>,
    damagePhotos: seq<string>,
    damageDescription: Option<string>,
    signOffStatus: SignOffStatus,
    coordinatorNotes: Option<string>,
    signedOffBy: Option<string>,
    signedOffAt: Option<string>,
    submittedAt: nat,
    createdAt: nat)

  datatype InspectionRow = InspectionRow(
    id: RowId,
    tenancyId: RowId,
    roomId: RowId,
    createdBy: string,
    status: InspectionStatus,
    createdAt: nat)

  /** A house; `city` and the fields after it are written only by the dashboard house actions. */
  datatype HouseRow = HouseRow(
    id: RowId,
    name: Option<string>,
    address: Option<string>,
    active: bool,
    city: Option<string>,
    state: Option<string>,
    postalCode: Option<string>,
    country: Option<string>,
    totalRooms: int,
    description: Option<string>,
    createdBy: Option<string>)

  datatype RoomRow = RoomRow(id: RowId, houseId: RowId, labelText: string, capacity: Capacity, active: bool)

  datatype ProfileRow = ProfileRow(id: string, email: string, name: string, role: UserRole)

  /** An account of the authentication provider. */
  datatype AuthUser = AuthUser(id: string, email: string)

  /** An object in a storage bucket. */
  datatype StoredObject = StoredObject(bucket: string, path: string)

  /** The `{ data, error }` pair a read returns; None stands for `null` or `undefined`. */
  datatype Answer<T> = Answer(data: Option<T>, error: Option<string>)

  /** The answer of `.single()`: exactly one row, or the store's error. */
  const SingleRowError: string := "JSON object requested, multiple (or no) rows returned"

  function Single<T>(rows: seq<T>): (r: Result<T, string>)
    ensures r.Ok? <==> |rows| == 1
    ensures r.Ok? ==> r.value == rows[0]
  {
    if |rows| == 1 then Ok(rows[0]) else Err(SingleRowError)
  }

  /** The answer of `.maybeSingle()`: no row, one row, or the store's error when there are several. */
  function MaybeSingle<T>(rows: seq<T>): (r: Result<Option<T>, string>)
    ensures r == Ok(None) <==> rows == []
    ensures r.Ok? && r.value.Some? <==> |rows| == 1
    ensures r.Ok? && r.value.Some? ==> r.value.value == rows[0]
  {
    if rows == [] then Ok(None) else if |rows| == 1 then Ok(Some(rows[0])) else Err(SingleRowError)
  }

  class Db {
    var tenancies: seq<TenancyRow>
    var intentions: seq<IntentionRow>
    var inspections: seq<InspectionRow>
    var houses: seq<HouseRow>
    var rooms: seq<RoomRow>
    var profiles: seq<ProfileRow>
    var authUsers: seq<AuthUser>
    var objects: seq<StoredObject>
    var nextId: RowId

    /**
     * Row ids are below `nextId`, so a fresh id names no existing row; and every ENDED
     * tenancy carries an end date.
     */
    ghost predicate Valid()
      reads this`tenancies, this`intentions, this`inspections, this`houses, this`rooms, this`nextId
    {
      TenanciesValid() && IntentionsValid() && InspectionsValid() && HousesValid() && RoomsValid()
    }

    ghost predicate TenanciesValid()
      reads this`tenancies, this`nextId
    {
      && (forall i :: 0 <= i < |tenancies| ==> tenancies[i].id < nextId)
      && (forall i :: 0 <= i < |tenancies| ==> tenancies[i].status == Ended ==> tenancies[i].endDate.Some?)
    }

    ghost predicate IntentionsValid()
      reads this`intentions, this`nextId
    {
      forall i :: 0 <= i < |intentions| ==> intentions[i].id < nextId
    }

    ghost predicate InspectionsValid()
      reads this`inspections, this`nextId
    {
      forall i :: 0 <= i < |inspections| ==> inspections[i].id < nextId
    }

    ghost predicate HousesValid()
      reads this`houses, this`nextId
    {
      forall i :: 0 <= i < |houses| ==> houses[i].id < nextId
    }

    ghost predicate RoomsValid()
      reads this`rooms, this`nextId
    {
      forall i :: 0 <= i < |rooms| ==> rooms[i].id < nextId
    }

    constructor ()
      ensures Valid()
      ensures tenancies == [] && intentions == [] && inspections == [] && houses == []
      ensures rooms == [] && profiles == [] && authUsers == [] && objects == [] && nextId == 0
    {
      tenancies, intentions, inspections, houses := [], [], [], [];
      rooms, profiles, authUsers, objects := [], [], [], [];
      nextId := 0;
    }

    /** The id the store gives the next inserted row. */
    method NewId() returns (id: RowId)
      requires Valid()
      modifies this`nextId
      ensures Valid()
      ensures id == old(nextId) && nextId == id + 1
    {
      id := nextId;
      nextId := nextId + 1;
    }
  }

  /** `update({ status }).eq('id', id)` on the tenancy table. */
  function SetTenancyStatus(rows: seq<TenancyRow>, id: RowId, status: TenancyStatus): (r: seq<TenancyRow>)
    ensures |r| == |rows|
    ensures forall i :: 0 <= i < |rows| ==> r[i] == if rows[i].id == id then rows[i].(status := status) else rows[i]
  {
    seq(|rows|, i requires 0 <= i < |rows| => if rows[i].id == id then rows[i].(status := status) else rows[i])
  }

  /**
   * The row an insert of just a name and an address creates: the other columns take their
   * defaults (active, no location details, no room total, no creator).
   */
  function NewHouse(id: RowId, name: string, address: string): HouseRow {
    HouseRow(id, Some(name), Some(address), true, None, None, None, None, 0, None, None)
  }
}

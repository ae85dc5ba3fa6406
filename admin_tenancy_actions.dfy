/** app/admin/tenancies/actions.ts: the service-role actions that create, end and list tenancies. */
module AdminTenancyActions {
  import opened Wrappers
  import opened Types
  import opened Seqs
  import opened Database

  const ServiceKeyMissing: string := "Service role key not configured"

  /** The argument of `createTenancy`; an absent optional field is None. */
  datatype CreateTenancyInput = CreateTenancyInput(
    roomId: RowId,
    tenantUserId: string,
    startDate: string,
    endDate: Option<string>,
    slot: RoomSlot,
    rentalPrice: Option<real>)

  /** `InsertData`: the record sent to the tenancy table. */
  datatype InsertData = InsertData(
    roomId: RowId,
    tenantUserId: string,
    startDate: string,
    status: TenancyStatus,
    slot: RoomSlot,
    endDate: Option<string>,
    rentalPrice: Option<real>)

  /** Builds `insertData` field by field: slot and end date only when truthy, the price whenever defined. */
  method BuildInsertData(input: CreateTenancyInput) returns (d: InsertData)
    ensures d.status == Occupied
    ensures d.roomId == input.roomId && d.tenantUserId == input.tenantUserId && d.startDate == input.startDate
    ensures d.slot == input.slot
    ensures d.endDate.Some? <==> input.endDate.Some? && input.endDate.value != ""
    ensures d.endDate.Some? ==> d.endDate == input.endDate
    ensures d.rentalPrice == input.rentalPrice
  {
    d := InsertData(input.roomId, input.tenantUserId, input.startDate, Occupied, None, None, None);
    if input.slot.Some? {
      d := d.(slot := input.slot);
    }
    if input.endDate.Some? && input.endDate.value != "" {
      d := d.(endDate := input.endDate);
    }
    if input.rentalPrice.Some? {
      d := d.(rentalPrice := input.rentalPrice);
    }
  }

  /** The columns of a tenancy row that an insert record sets. */
  function InsertOf(t: TenancyRow): InsertData {
    InsertData(t.roomId, t.tenantUserId, t.startDate, t.status, t.slot, t.endDate, t.rentalPrice)
  }

  /**
   * The row the store creates from an insert record: the record's columns, the id and time the
   * store assigns, and the keys not yet received (the column defaults).
   */
  function RowFromInsert(d: InsertData, id: RowId, createdAt: nat): (t: TenancyRow)
    ensures InsertOf(t) == d
    ensures t.id == id && t.createdAt == createdAt && !t.keysReceived && t.keysReceivedAt.None?
  {
    TenancyRow(id, d.roomId, d.slot, d.tenantUserId, d.startDate, d.endDate, d.status,
               d.rentalPrice, createdAt, false, None)
  }

  /**
   * `createTenancy`. `serviceKey` says whether the service role key is configured;
   * `createdAt` is the store's clock; `fault` is the store's answer to the insert.
   */
  method CreateTenancy(db: Db, serviceKey: bool, input: CreateTenancyInput, createdAt: nat, fault: Option<string>)
    returns (r: Result<TenancyRow, string>)
    requires db.Valid()
    modifies db`tenancies, db`nextId
    ensures db.Valid()
    ensures !serviceKey ==> r == Err(ServiceKeyMissing)
    ensures serviceKey && fault.Some? ==> r == Err(fault.value)
    ensures r.Err? ==> db.tenancies == old(db.tenancies)
    ensures r.Ok? <==> serviceKey && fault.None?
    ensures r.Ok? ==>
              && db.tenancies == old(db.tenancies) + [r.value]
              && r.value.id == old(db.nextId)
              && r.value.status == Occupied
              && r.value.roomId == input.roomId && r.value.tenantUserId == input.tenantUserId
              && r.value.startDate == input.startDate
              && r.value.slot == input.slot && r.value.rentalPrice == input.rentalPrice
              && (r.value.endDate.Some? <==> input.endDate.Some? && input.endDate.value != "")
              && (r.value.endDate.Some? ==> r.value.endDate == input.endDate)
    ensures r.Ok? ==>
              r.value == RowFromInsert(InsertData(input.roomId, input.tenantUserId, input.startDate, Occupied, input.slot,
                                                  if input.endDate.Some? && input.endDate.value != "" then input.endDate else None,
                                                  input.rentalPrice),
                                       old(db.nextId), createdAt)
  {
    if !serviceKey {
      return Err(ServiceKeyMissing);
    }
    var d := BuildInsertData(input);
    if fault.Some? {
      return Err(fault.value);
    }
    var id := db.NewId();
    var row := RowFromInsert(d, id, createdAt);
    db.tenancies := db.tenancies + [row];
    return Ok(row);
  }

  /** The tenancy table after `update({ status: 'ENDED', end_date: today }).eq('id', id)`. */
  function EndRows(rows: seq<TenancyRow>, id: RowId, today: string): (r: seq<TenancyRow>)
    ensures |r| == |rows|
    ensures forall i :: 0 <= i < |rows| && rows[i].id == id ==>
              r[i] == rows[i].(status := Ended, endDate := Some(today))
    ensures forall i :: 0 <= i < |rows| && rows[i].id != id ==> r[i] == rows[i]
  {
    seq(|rows|, i requires 0 <= i < |rows| =>
      if rows[i].id == id then rows[i].(status := Ended, endDate := Some(today)) else rows[i])
  }

  /** `endTenancy`: ends the row with that id whatever its status; `today` is the UTC date as YYYY-MM-DD. */
  method EndTenancy(db: Db, serviceKey: bool, tenancyId: RowId, today: string, fault: Option<string>)
    returns (r: Result<seq<TenancyRow>, string>)
    requires db.Valid()
    modifies db`tenancies
    ensures db.Valid()
    ensures !serviceKey ==> r == Err(ServiceKeyMissing)
    ensures serviceKey && fault.Some? ==> r == Err(fault.value)
    ensures r.Err? ==> db.tenancies == old(db.tenancies)
    ensures r.Ok? <==> serviceKey && fault.None?
    ensures r.Ok? ==> db.tenancies == EndRows(old(db.tenancies), tenancyId, today)
    ensures r.Ok? ==> r.value == Filter(db.tenancies, (t: TenancyRow) => t.id == tenancyId)
  {
    if !serviceKey {
      return Err(ServiceKeyMissing);
    }
    if fault.Some? {
      return Err(fault.value);
    }
    db.tenancies := EndRows(db.tenancies, tenancyId, today);
    return Ok(Filter(db.tenancies, (t: TenancyRow) => t.id == tenancyId));
  }

  /** Ending a tenancy keeps every ENDED row dated, whatever the rows were before. */
  lemma EndRowsKeepsEndedDated(rows: seq<TenancyRow>, id: RowId, today: string)
    requires forall i :: 0 <= i < |rows| ==> rows[i].status == Ended ==> rows[i].endDate.Some?
    ensures forall i :: 0 <= i < |rows| ==> EndRows(rows, id, today)[i].status == Ended ==> EndRows(rows, id, today)[i].endDate.Some?
  {
  }

  /** Ending a tenancy changes only the status and end date of the rows with that id. */
  lemma EndRowsChangesNothingElse(rows: seq<TenancyRow>, id: RowId, today: string, i: nat)
    requires i < |rows|
    ensures EndRows(rows, id, today)[i].id == rows[i].id
    ensures EndRows(rows, id, today)[i].(status := rows[i].status, endDate := rows[i].endDate) == rows[i]
    ensures rows[i].id == id ==> EndRows(rows, id, today)[i].status == Ended
  {
  }

  function CreatedAt(t: TenancyRow): int {
    t.createdAt
  }

  /** `fetchTenanciesAdmin`: every tenancy, newest created first. */
  function FetchTenanciesAdmin(rows: seq<TenancyRow>, serviceKey: bool, fault: Option<string>): (r: Result<seq<TenancyRow>, string>)
    ensures !serviceKey ==> r == Err(ServiceKeyMissing)
    ensures serviceKey && fault.Some? ==> r == Err(fault.value)
    ensures r.Ok? <==> serviceKey && fault.None?
    ensures r.Ok? ==> multiset(r.value) == multiset(rows)
    ensures r.Ok? ==> forall i, j :: 0 <= i < j < |r.value| ==> r.value[i].createdAt >= r.value[j].createdAt
  {
    if !serviceKey then Err(ServiceKeyMissing)
    else if fault.Some? then Err(fault.value)
    else
      var sorted := SortDesc(rows, CreatedAt);
      assert forall i, j :: 0 <= i < j < |sorted| ==> CreatedAt(sorted[i]) >= CreatedAt(sorted[j]);
      Ok(sorted)
  }
}

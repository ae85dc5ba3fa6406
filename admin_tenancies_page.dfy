/** app/admin/tenancies/page.tsx: the tenancy form, the End Tenancy action and the status badge. */
module AdminTenanciesPage {
  import opened Wrappers
  import opened Strings
  import opened Types
  import opened Database
  import opened AdminTenancyActions

  /** `formData`; an empty select or input is None or "". */
  datatype TenancyForm = TenancyForm(
    roomId: Option<RowId>,
    slot: RoomSlot,
    tenantUserId: string,
    startDate: string,
    endDate: string,
    rentalPrice: string)

  const EmptyForm: TenancyForm := TenancyForm(None, None, "", "", "", "")

  /** `rooms.find(r => r.id === id)`: the first room with that id. */
  function FindRoom(rooms: seq<RoomRow>, id: RowId): (r: Option<RoomRow>)
    ensures r.Some? ==> r.value in rooms && r.value.id == id
    ensures r.None? ==> forall i :: 0 <= i < |rooms| ==> rooms[i].id != id
    ensures r.Some? ==> exists k :: 0 <= k < |rooms| && rooms[k] == r.value && forall j :: 0 <= j < k ==> rooms[j].id != id
  {
    if rooms == [] then None
    else if rooms[0].id == id then Some(rooms[0])
    else
      var r := FindRoom(rooms[1..], id);
      assert r.Some? ==> exists k :: 0 <= k < |rooms| - 1 && rooms[1..][k] == r.value && forall j :: 0 <= j < k ==> rooms[1..][j].id != id;
      if r.Some? then
        var k :| 0 <= k < |rooms| - 1 && rooms[1..][k] == r.value && forall j :: 0 <= j < k ==> rooms[1..][j].id != id;
        assert rooms[k + 1] == r.value;
        r
      else r
  }

  /** Whether the room selected in the form holds two tenants. */
  predicate SelectedRoomIsDouble(form: TenancyForm, rooms: seq<RoomRow>)
    requires form.roomId.Some?
  {
    var room := FindRoom(rooms, form.roomId.value);
    room.Some? && room.value.capacity == 2
  }

  /**
   * Builds `tenancyData` field by field. `parsedPrice` is `parseFloat(formData.rental_price)`,
   * which is not modelled.
   */
  method BuildRequest(form: TenancyForm, rooms: seq<RoomRow>, parsedPrice: real) returns (req: CreateTenancyInput)
    requires form.roomId.Some?
    ensures req.roomId == form.roomId.value && req.tenantUserId == form.tenantUserId && req.startDate == form.startDate
    ensures req.slot.Some? <==> SelectedRoomIsDouble(form, rooms) && form.slot.Some?
    ensures req.slot.Some? ==> req.slot == form.slot
    ensures req.endDate.Some? <==> form.endDate != ""
    ensures req.endDate.Some? ==> req.endDate.value == form.endDate
    ensures req.rentalPrice.Some? <==> form.rentalPrice != ""
    ensures req.rentalPrice.Some? ==> req.rentalPrice.value == parsedPrice
  {
    req := CreateTenancyInput(form.roomId.value, form.tenantUserId, form.startDate, None, None, None);
    var selectedRoom := FindRoom(rooms, form.roomId.value);
    if selectedRoom.Some? && selectedRoom.value.capacity == 2 && form.slot.Some? {
      req := req.(slot := form.slot);
    }
    if form.endDate != "" {
      req := req.(endDate := Some(form.endDate));
    }
    if form.rentalPrice != "" {
      req := req.(rentalPrice := Some(parsedPrice));
    }
  }

  /**
   * The record a submitted form asks `createTenancy` to insert: the slot only for a double room
   * with a slot picked, the end date and price only when their fields are filled in.
   */
  function RequestedRecord(form: TenancyForm, rooms: seq<RoomRow>, parsedPrice: real): InsertData
    requires form.roomId.Some?
  {
    InsertData(form.roomId.value, form.tenantUserId, form.startDate, Occupied,
               if SelectedRoomIsDouble(form, rooms) then form.slot else None,
               if form.endDate != "" then Some(form.endDate) else None,
               if form.rentalPrice != "" then Some(parsedPrice) else None)
  }

  datatype Badge = Green | Grey | Yellow

  /** The badge colour of a status. */
  function StatusBadge(s: TenancyStatus): Badge {
    if s == Occupied then Green else if s == Ended then Grey else Yellow
  }

  /** `tenancy.status.replace(/_/g, ' ')`. */
  function StatusLabel(s: TenancyStatus): (text: string)
    ensures |text| == |StatusName(s)|
    ensures forall i :: 0 <= i < |text| ==> text[i] == if StatusName(s)[i] == '_' then ' ' else StatusName(s)[i]
    ensures forall i :: 0 <= i < |text| ==> text[i] != '_'
  {
    ReplaceChar(StatusName(s), '_', ' ')
  }

  /** No two statuses share a label, so the badge text still tells the status apart. */
  lemma StatusLabelsDistinct(s: TenancyStatus, t: TenancyStatus)
    requires s != t
    ensures StatusLabel(s) != StatusLabel(t)
  {
    var ls, lt := StatusLabel(s), StatusLabel(t);
    if ls == lt {
      assert |StatusName(s)| == |StatusName(t)|;
      forall i | 0 <= i < |StatusName(s)| ensures StatusName(s)[i] == StatusName(t)[i] {
        assert ls[i] == lt[i];
        assert StatusName(s)[i] != ' ' && StatusName(t)[i] != ' ';
      }
      assert StatusName(s) == StatusName(t);
      StatusNameInjective(s, t);
    }
  }

  /** The End Tenancy button is offered exactly for tenancies that are not ENDED. */
  predicate ShowEndButton(s: TenancyStatus) {
    s != Ended
  }

  /** The End Tenancy button shows exactly on the rows whose badge is not grey; only OCCUPIED is green. */
  lemma EndButtonFollowsBadge(s: TenancyStatus)
    ensures ShowEndButton(s) <==> StatusBadge(s) != Grey
    ensures StatusBadge(s) == Green <==> s == Occupied
  {
  }

  /** Once a tenancy is ended its row turns grey and loses the button; the other rows keep theirs. */
  lemma EndedRowHidesButton(rows: seq<TenancyRow>, id: RowId, today: string, i: nat)
    requires i < |rows|
    ensures rows[i].id == id ==>
              !ShowEndButton(EndRows(rows, id, today)[i].status) && StatusBadge(EndRows(rows, id, today)[i].status) == Grey
    ensures rows[i].id != id ==> ShowEndButton(EndRows(rows, id, today)[i].status) == ShowEndButton(rows[i].status)
  {
  }

  class TenanciesPage {
    var form: TenancyForm
    var showForm: bool
    /** The rooms the page loaded. */
    var rooms: seq<RoomRow>
    /** The text of the last `alert`, if any. */
    var alertText: Option<string>

    constructor (rooms: seq<RoomRow>)
      ensures form == EmptyForm && !showForm && this.rooms == rooms && alertText.None?
    {
      form := EmptyForm;
      showForm := false;
      this.rooms := rooms;
      alertText := None;
    }

    /** The "Add Tenancy" / "Cancel" button: shows or hides the form and leaves its contents alone. */
    method ToggleForm()
      modifies this`showForm
      ensures showForm == !old(showForm)
    {
      showForm := !showForm;
    }

    /**
     * `handleSubmit`. The browser's `required` attributes guarantee a room, a tenant and a start date.
     * An error result with an empty message is not truthy, so the page then counts it as success.
     */
    method HandleSubmit(db: Db, serviceKey: bool, parsedPrice: real, createdAt: nat, fault: Option<string>)
      returns (result: Result<TenancyRow, string>)
      requires db.Valid()
      requires form.roomId.Some? && form.tenantUserId != "" && form.startDate != ""
      modifies this`form, this`showForm, this`alertText, db`tenancies, db`nextId
      ensures db.Valid()
      ensures result.Ok? <==> serviceKey && fault.None?
      ensures result.Ok? ==> db.tenancies == old(db.tenancies) + [result.value]
      ensures result.Ok? ==> result.value == RowFromInsert(RequestedRecord(old(form), rooms, parsedPrice), old(db.nextId), createdAt)
      ensures result.Err? ==> db.tenancies == old(db.tenancies)
      ensures (result.Ok? || result.error == "") ==>
                form == EmptyForm && !showForm && alertText == Some("Tenancy created successfully")
      ensures result.Err? && result.error != "" ==>
                form == old(form) && showForm == old(showForm) && alertText == Some(result.error)
    {
      var req := BuildRequest(form, rooms, parsedPrice);
      result := CreateTenancy(db, serviceKey, req, createdAt, fault);
      if result.Err? && result.error != "" {
        alertText := Some(result.error);
        return;
      }
      form := EmptyForm;
      showForm := false;
      alertText := Some("Tenancy created successfully");
    }

    /** `handleEndTenancy`: `confirmed` is the answer to the `confirm` dialog, `configured` whether a client exists. */
    method HandleEndTenancy(db: Db, confirmed: bool, configured: bool, tenancyId: RowId, today: string, fault: Option<string>)
      requires db.Valid()
      modifies this`alertText, db`tenancies
      ensures db.Valid()
      ensures !confirmed || !configured ==> db.tenancies == old(db.tenancies) && alertText == old(alertText)
      ensures confirmed && configured && fault.Some? ==>
                db.tenancies == old(db.tenancies) && alertText == Some("Error ending tenancy")
      ensures confirmed && configured && fault.None? ==>
                db.tenancies == EndRows(old(db.tenancies), tenancyId, today)
                && alertText == Some("Tenancy ended successfully")
    {
      if !confirmed || !configured {
        return;
      }
      if fault.Some? {
        alertText := Some("Error ending tenancy");
        return;
      }
      db.tenancies := EndRows(db.tenancies, tenancyId, today);
      alertText := Some("Tenancy ended successfully");
    }
  }
}

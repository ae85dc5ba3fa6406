/** app/dashboard/houses/actions.ts: the server actions that create, update and delete a house. */
module DashboardHouseActions {
  import opened Wrappers
  import opened Strings
  import opened Seqs
  import opened Database

  /** The submitted form's text fields; `formData.get(key)` is `None` for a field that is absent. */
  type FormData = map<string, string>

  function Get(form: FormData, key: string): Option<string> {
    if key in form then Some(form[key]) else None
  }

  /** `formData.get('country') as string || 'USA'`: the empty text and a missing field both give the default. */
  function Country(form: FormData): (c: string)
    ensures c != ""
    ensures c == "USA" <==> Get(form, "country") in {None, Some(""), Some("USA")}
    ensures Get(form, "country").Some? && Get(form, "country").value != "" ==> c == Get(form, "country").value
  {
    match Get(form, "country")
    case Some(text) => if text != "" then text else "USA"
    case None => "USA"
  }

  /** `parseInt(formData.get('total_rooms') as string) || 0`; a missing field is read as the text "null". */
  function TotalRooms(form: FormData): (n: int)
    ensures ParseInt(Get(form, "total_rooms").GetOr("null")).Some? ==> n == ParseInt(Get(form, "total_rooms").GetOr("null")).value
    ensures ParseInt(Get(form, "total_rooms").GetOr("null")).None? ==> n == 0
    ensures Get(form, "total_rooms").None? ==> n == 0
    ensures "total_rooms" in form && (forall i :: 0 <= i < |form["total_rooms"]| ==> !IsDigit(form["total_rooms"][i])) ==> n == 0
  {
    ParseIntNaN();
    var text := Get(form, "total_rooms").GetOr("null");
    assert "total_rooms" in form ==> text == form["total_rooms"];
    match ParseInt(text)
    case Some(n) => n
    case None => 0
  }

  /** A room total typed as `String(n)` is stored as `n`; a missing one as 0. */
  lemma TotalRoomsReadsNumber(form: FormData, n: nat)
    ensures Get(form, "total_rooms") == Some(NatToString(n)) ==> TotalRooms(form) == n
    ensures Get(form, "total_rooms").None? ==> TotalRooms(form) == 0
  {
    ParseIntOfNatToString(n);
    ParseIntNaN();
  }

  /** The `house` object both actions build: the columns an owner edits. */
  datatype HouseRecord = HouseRecord(
    name: Option<string>,
    address: Option<string>,
    city: Option<string>,
    state: Option<string>,
    postalCode: Option<string>,
    country: string,
    totalRooms: int,
    description: Option<string>)

  function RecordOf(form: FormData): (h: HouseRecord)
    ensures h.name == Get(form, "name") && h.address == Get(form, "address") && h.city == Get(form, "city")
    ensures h.state == Get(form, "state") && h.postalCode == Get(form, "postal_code")
    ensures h.description == Get(form, "description")
    ensures h.country == Country(form) && h.totalRooms == TotalRooms(form)
  {
    HouseRecord(Get(form, "name"), Get(form, "address"), Get(form, "city"), Get(form, "state"),
                Get(form, "postal_code"), Country(form), TotalRooms(form), Get(form, "description"))
  }

  /** The row `insert(house)` creates: active by default and created by `owner`. */
  function CreatedRow(id: RowId, h: HouseRecord, owner: string): HouseRow {
    HouseRow(id, h.name, h.address, true, h.city, h.state, h.postalCode, Some(h.country), h.totalRooms, h.description, Some(owner))
  }

  /** One house row with the record's columns written over it. */
  function Overwrite(row: HouseRow, h: HouseRecord): HouseRow {
    row.(name := h.name, address := h.address, city := h.city, state := h.state, postalCode := h.postalCode,
         country := Some(h.country), totalRooms := h.totalRooms, description := h.description)
  }

  /** `update(house).eq('id', id)`: the record's columns change on that house; its id, flag and creator stay. */
  function UpdatedRows(rows: seq<HouseRow>, id: RowId, h: HouseRecord): (r: seq<HouseRow>)
    ensures |r| == |rows|
    ensures forall i :: 0 <= i < |rows| && rows[i].id != id ==> r[i] == rows[i]
    ensures forall i :: 0 <= i < |rows| && rows[i].id == id ==> r[i] == Overwrite(rows[i], h)
    ensures forall i :: 0 <= i < |rows| ==>
              r[i].id == rows[i].id && r[i].active == rows[i].active && r[i].createdBy == rows[i].createdBy
  {
    seq(|rows|, i requires 0 <= i < |rows| => if rows[i].id == id then Overwrite(rows[i], h) else rows[i])
  }

  /** `delete().eq('id', id)`. */
  function DeletedRows(rows: seq<HouseRow>, id: RowId): (r: seq<HouseRow>)
    ensures |r| <= |rows|
    ensures forall x :: x in r <==> x in rows && x.id != id
  {
    Filter(rows, (x: HouseRow) => x.id != id)
  }

  /** Updating a house and creating it from the same form agree on every edited column; only the creator differs. */
  lemma UpdateMatchesCreate(row: HouseRow, form: FormData, owner: string)
    requires row.active
    ensures Overwrite(row, RecordOf(form)) == CreatedRow(row.id, RecordOf(form), owner).(createdBy := row.createdBy)
  {
  }

  const LoginPath: string := "/auth/login"
  const HousesPath: string := "/dashboard/houses"

  /** How an action ends: Next.js's `redirect` or a thrown `Error` whose message is the store's. */
  datatype ActionEnd = Redirected(path: string) | Raised(message: string)

  /**
   * `createHouse`: with no signed-in user it redirects to the login page and writes nothing;
   * otherwise it inserts the form's house, created by that user, and redirects to the list.
   */
  method CreateHouse(db: Db, user: Option<string>, form: FormData, fault: Option<string>) returns (end: ActionEnd)
    requires db.Valid()
    modifies db`houses, db`nextId
    ensures db.Valid()
    ensures user.None? ==> end == Redirected(LoginPath)
    ensures user.Some? && fault.Some? ==> end == Raised(fault.value)
    ensures user.Some? && fault.None? ==> end == Redirected(HousesPath)
    ensures user.Some? && fault.None? ==>
              db.houses == old(db.houses) + [CreatedRow(old(db.nextId), RecordOf(form), user.value)]
              && db.nextId == old(db.nextId) + 1
    ensures !(user.Some? && fault.None?) ==> db.houses == old(db.houses) && db.nextId == old(db.nextId)
  {
    if user.None? {
      return Redirected(LoginPath);
    }
    var house := RecordOf(form);
    if fault.Some? {
      return Raised(fault.value);
    }
    var id := db.NewId();
    db.houses := db.houses + [CreatedRow(id, house, user.value)];
    end := Redirected(HousesPath);
  }

  /** `updateHouse(id, formData)`: overwrites the edited columns of that house, never its creator. */
  method UpdateHouse(db: Db, id: RowId, form: FormData, fault: Option<string>) returns (end: ActionEnd)
    requires db.Valid()
    modifies db`houses
    ensures db.Valid()
    ensures end == if fault.Some? then Raised(fault.value) else Redirected(HousesPath)
    ensures db.houses == if fault.Some? then old(db.houses) else UpdatedRows(old(db.houses), id, RecordOf(form))
  {
    var house := RecordOf(form);
    if fault.Some? {
      return Raised(fault.value);
    }
    db.houses := UpdatedRows(db.houses, id, house);
    end := Redirected(HousesPath);
  }

  /** `deleteHouse(id)`. */
  method DeleteHouse(db: Db, id: RowId, fault: Option<string>) returns (end: ActionEnd)
    requires db.Valid()
    modifies db`houses
    ensures db.Valid()
    ensures end == if fault.Some? then Raised(fault.value) else Redirected(HousesPath)
    ensures db.houses == if fault.Some? then old(db.houses) else DeletedRows(old(db.houses), id)
  {
    if fault.Some? {
      return Raised(fault.value);
    }
    var rows := DeletedRows(db.houses, id);
    forall i | 0 <= i < |rows| ensures rows[i].id < db.nextId {
      assert rows[i] in rows;
    }
    db.houses := rows;
    end := Redirected(HousesPath);
  }

  /** After a delete no house carries that id. */
  lemma DeletedHouseIsGone(rows: seq<HouseRow>, id: RowId)
    ensures forall i :: 0 <= i < |DeletedRows(rows, id)| ==> DeletedRows(rows, id)[i].id != id
  {
    var r := DeletedRows(rows, id);
    forall i | 0 <= i < |r| ensures r[i].id != id {
      assert r[i] in r;
    }
  }
}

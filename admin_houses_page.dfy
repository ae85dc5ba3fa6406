/** app/admin/houses/page.tsx: the admin's house list with its add/edit form and active toggle. */
module AdminHousesPage {
  import opened Wrappers
  import opened Database

  /** `formData`: the name and address inputs. */
  datatype HouseForm = HouseForm(name: string, address: string)

  const EmptyForm: HouseForm := HouseForm("", "")

  const SaveFailed: string := "Error saving house. Please try again."

  /** `update(formData).eq('id', id)`: the houses with that id take the form's name and address. */
  function EditHouseRows(rows: seq<HouseRow>, id: RowId, form: HouseForm): (r: seq<HouseRow>)
    ensures |r| == |rows|
    ensures forall i :: 0 <= i < |rows| ==> r[i].id == rows[i].id
    ensures forall i :: 0 <= i < |rows| && rows[i].id != id ==> r[i] == rows[i]
    ensures forall i :: 0 <= i < |rows| && rows[i].id == id ==>
              r[i] == rows[i].(name := Some(form.name), address := Some(form.address))
  {
    seq(|rows|, i requires 0 <= i < |rows| =>
      if rows[i].id == id then rows[i].(name := Some(form.name), address := Some(form.address)) else rows[i])
  }

  /** `update({ active }).eq('id', id)`: only the houses with that id change, and only their flag. */
  function SetActive(rows: seq<HouseRow>, id: RowId, active: bool): (r: seq<HouseRow>)
    ensures |r| == |rows|
    ensures forall i :: 0 <= i < |rows| ==> r[i].id == rows[i].id
    ensures forall i :: 0 <= i < |rows| && rows[i].id != id ==> r[i] == rows[i]
    ensures forall i :: 0 <= i < |rows| && rows[i].id == id ==> r[i] == rows[i].(active := active)
  {
    seq(|rows|, i requires 0 <= i < |rows| => if rows[i].id == id then rows[i].(active := active) else rows[i])
  }

  /** Toggling a house whose flag the page showed correctly, and toggling it back, restores the table. */
  lemma ToggleTwiceRestores(rows: seq<HouseRow>, id: RowId, active: bool)
    requires forall i :: 0 <= i < |rows| && rows[i].id == id ==> rows[i].active == active
    ensures SetActive(SetActive(rows, id, !active), id, active) == rows
  {
    var r := SetActive(SetActive(rows, id, !active), id, active);
    forall i | 0 <= i < |rows| ensures r[i] == rows[i] {
      if rows[i].id == id {
        assert r[i] == rows[i].(active := active);
      }
    }
  }

  /** `handleEdit`'s prefill: the house's name and its address, or "" when it has none. */
  function FormOf(house: HouseRow): (f: HouseForm)
    ensures house.name.Some? ==> f.name == house.name.value
    ensures house.address.Some? ==> f.address == house.address.value
    ensures house.address.None? ==> f.address == ""
  {
    HouseForm(house.name.GetOr(""), house.address.GetOr(""))
  }

  /**
   * Saving the prefilled form unchanged leaves the house as it was, except that a missing
   * address becomes the empty text.
   */
  lemma UnchangedEditKeepsHouse(rows: seq<HouseRow>, i: nat)
    requires i < |rows| && rows[i].name.Some?
    ensures EditHouseRows(rows, rows[i].id, FormOf(rows[i]))[i] == rows[i].(address := Some(rows[i].address.GetOr("")))
  {
  }

  class HousesPage {
    var form: HouseForm
    var editingId: Option<RowId>
    var showForm: bool
    var alertText: Option<string>

    constructor ()
      ensures form == EmptyForm && editingId.None? && !showForm && alertText.None?
    {
      form, editingId, showForm, alertText := EmptyForm, None, false, None;
    }

    /** The "Add House" / "Cancel" button above the list. */
    method ToggleForm()
      modifies this`showForm
      ensures showForm == !old(showForm)
    {
      showForm := !showForm;
    }

    /** The name and address inputs. */
    method EditForm(name: string, address: string)
      modifies this`form
      ensures form == HouseForm(name, address)
    {
      form := HouseForm(name, address);
    }

    /**
     * `handleSubmit`: with `editingId` set the form's name and address overwrite that house,
     * otherwise a new house is inserted. Success resets and hides the form; a store error keeps
     * it and raises the alert. `configured` says whether a client exists.
     */
    method HandleSubmit(db: Db, configured: bool, fault: Option<string>) returns (saved: bool)
      requires db.Valid()
      modifies this`form, this`editingId, this`showForm, this`alertText, db`houses, db`nextId
      ensures db.Valid()
      ensures saved <==> configured && fault.None?
      ensures !saved ==> db.houses == old(db.houses) && db.nextId == old(db.nextId)
      ensures !saved ==> form == old(form) && editingId == old(editingId) && showForm == old(showForm)
      ensures !saved ==> alertText == if configured then Some(SaveFailed) else old(alertText)
      ensures saved && old(editingId).Some? ==>
                db.houses == EditHouseRows(old(db.houses), old(editingId).value, old(form)) && db.nextId == old(db.nextId)
      ensures saved && old(editingId).None? ==>
                db.houses == old(db.houses) + [NewHouse(old(db.nextId), old(form).name, old(form).address)]
                && db.nextId == old(db.nextId) + 1
      ensures saved ==> form == EmptyForm && editingId.None? && !showForm && alertText == old(alertText)
    {
      if !configured {
        return false;
      }
      if fault.Some? {
        alertText := Some(SaveFailed);
        return false;
      }
      if editingId.Some? {
        db.houses := EditHouseRows(db.houses, editingId.value, form);
      } else {
        var id := db.NewId();
        db.houses := db.houses + [NewHouse(id, form.name, form.address)];
      }
      form, editingId, showForm := EmptyForm, None, false;
      saved := true;
    }

    /** `handleToggleActive(id, active)`: writes the opposite of the flag the list showed; a store error is only logged. */
    method HandleToggleActive(db: Db, configured: bool, id: RowId, active: bool, fault: Option<string>)
      requires db.Valid()
      modifies db`houses
      ensures db.Valid()
      ensures db.houses == if configured && fault.None? then SetActive(old(db.houses), id, !active) else old(db.houses)
    {
      if configured && fault.None? {
        db.houses := SetActive(db.houses, id, !active);
      }
    }

    /** `handleEdit(house)`: prefills the form, remembers the house and shows the form. */
    method HandleEdit(house: HouseRow)
      modifies this`form, this`editingId, this`showForm
      ensures form == FormOf(house) && editingId == Some(house.id) && showForm
    {
      form, editingId, showForm := FormOf(house), Some(house.id), true;
    }

    /** `handleCancelEdit`. */
    method HandleCancelEdit()
      modifies this`form, this`editingId, this`showForm
      ensures form == EmptyForm && editingId.None? && !showForm
    {
      form, editingId, showForm := EmptyForm, None, false;
    }
  }
}

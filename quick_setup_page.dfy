/** app/admin/houses/quick-setup/page.tsx: the three-step wizard that creates a house and its rooms. */
module QuickSetupPage {
  import opened Wrappers
  import opened Strings
  import opened Seqs
  import opened Types
  import opened Database

  /** A room being drafted; `tempId` only tells drafts apart on the page. */
  datatype RoomDraft = RoomDraft(labelText: string, capacity: Capacity, tempId: string)

  const InitialRooms: seq<RoomDraft> := [RoomDraft("", 1, "1")]

  /** `updateRoom`'s field and value: the label input or the capacity select. */
  datatype RoomUpdate = SetLabel(text: string) | SetCapacity(capacity: Capacity)

  function Apply(r: RoomDraft, u: RoomUpdate): RoomDraft {
    match u
    case SetLabel(text) => r.(labelText := text)
    case SetCapacity(c) => r.(capacity := c)
  }

  /** `rooms.map(r => r.tempId === tempId ? { ...r, [field]: value } : r)`. */
  function UpdateRooms(rooms: seq<RoomDraft>, tempId: string, u: RoomUpdate): (r: seq<RoomDraft>)
    ensures |r| == |rooms|
    ensures forall i :: 0 <= i < |rooms| ==> r[i].tempId == rooms[i].tempId
    ensures forall i :: 0 <= i < |rooms| && rooms[i].tempId != tempId ==> r[i] == rooms[i]
    ensures forall i :: 0 <= i < |rooms| && rooms[i].tempId == tempId ==>
              && (u.SetLabel? ==> r[i].labelText == u.text && r[i].capacity == rooms[i].capacity)
              && (u.SetCapacity? ==> r[i].capacity == u.capacity && r[i].labelText == rooms[i].labelText)
  {
    seq(|rooms|, i requires 0 <= i < |rooms| => if rooms[i].tempId == tempId then Apply(rooms[i], u) else rooms[i])
  }

  /** `rooms.filter(r => r.tempId !== tempId)`. */
  function WithoutTempId(rooms: seq<RoomDraft>, tempId: string): (r: seq<RoomDraft>)
    ensures forall x :: x in r <==> x in rooms && x.tempId != tempId
  {
    Filter(rooms, (x: RoomDraft) => x.tempId != tempId)
  }

  /** No two drafts share a tempId. */
  predicate DistinctTempIds(rooms: seq<RoomDraft>) {
    forall i, j :: 0 <= i < j < |rooms| ==> rooms[i].tempId != rooms[j].tempId
  }

  /** With distinct tempIds, removing one tempId drops at most one draft. */
  lemma {:induction false} RemoveDropsAtMostOne(rooms: seq<RoomDraft>, tempId: string)
    requires DistinctTempIds(rooms)
    ensures |WithoutTempId(rooms, tempId)| >= |rooms| - 1
  {
    if rooms != [] {
      var rest := rooms[1..];
      assert WithoutTempId(rooms, tempId) == (if rooms[0].tempId != tempId then [rooms[0]] else []) + WithoutTempId(rest, tempId);
      if rooms[0].tempId == tempId {
        forall k | 0 <= k < |rest| ensures rest[k].tempId != tempId {
          assert rooms[k + 1] == rest[k];
        }
        FilterKeepsAll(rest, (x: RoomDraft) => x.tempId != tempId);
      } else {
        assert DistinctTempIds(rest) by {
          forall i, j | 0 <= i < j < |rest| ensures rest[i].tempId != rest[j].tempId {
            assert rooms[i + 1] == rest[i] && rooms[j + 1] == rest[j];
          }
        }
        RemoveDropsAtMostOne(rest, tempId);
      }
    }
  }

  /** With distinct tempIds the guarded removal never empties the list. */
  lemma RemoveNeverEmpties(rooms: seq<RoomDraft>, tempId: string)
    requires DistinctTempIds(rooms) && |rooms| > 1
    ensures WithoutTempId(rooms, tempId) != []
  {
    RemoveDropsAtMostOne(rooms, tempId);
  }

  /**
   * The guard counts drafts, not distinct tempIds: two drafts added in the same millisecond share
   * a tempId, and removing it then empties the list.
   */
  lemma SharedTempIdEmptiesList()
    ensures var rooms := [RoomDraft("", 1, "7"), RoomDraft("", 1, "7")];
            |rooms| > 1 && WithoutTempId(rooms, "7") == []
  {
    var rooms := [RoomDraft("", 1, "7"), RoomDraft("", 1, "7")];
    assert rooms[1..][1..] == [];
  }

  /** The label of the `k`-th numbered room. */
  function RoomLabel(k: nat): string {
    "Room " + NatToString(k)
  }

  /** The tempId of the `i`-th room of a batch added at clock value `now`. */
  function BatchTempId(now: nat, i: nat): string {
    NatToString(now) + "-" + NatToString(i)
  }

  /**
   * `addMultipleRooms`' loop: `count` drafts labelled "Room n+1" … "Room n+count", capacity 1,
   * where `n` is the current number of drafts. The source reads `Date.now()` on every iteration;
   * the model reads it once as `now`, so the batch's tempIds differ by their index alone, which
   * is also what keeps them distinct when the clock does not move within the loop.
   */
  method NumberedRooms(n: nat, count: int, now: nat) returns (newRooms: seq<RoomDraft>)
    ensures |newRooms| == if count > 0 then count else 0
    ensures forall i :: 0 <= i < |newRooms| ==>
              newRooms[i] == RoomDraft(RoomLabel(n + i + 1), 1, BatchTempId(now, i))
  {
    newRooms := [];
    var i := 0;
    while i < count
      invariant 0 <= i <= (if count > 0 then count else 0)
      invariant |newRooms| == i
      invariant forall k :: 0 <= k < i ==> newRooms[k] == RoomDraft(RoomLabel(n + k + 1), 1, BatchTempId(now, k))
    {
      newRooms := newRooms + [RoomDraft(RoomLabel(n + i + 1), 1, BatchTempId(now, i))];
      i := i + 1;
    }
  }

  /** A batch's labels and tempIds are pairwise distinct. */
  lemma NumberedRoomsDistinct(n: nat, now: nat, i: nat, j: nat)
    requires i != j
    ensures RoomLabel(n + i + 1) != RoomLabel(n + j + 1)
    ensures BatchTempId(now, i) != BatchTempId(now, j)
  {
    var p := "Room ";
    if RoomLabel(n + i + 1) == RoomLabel(n + j + 1) {
      assert RoomLabel(n + i + 1)[|p|..] == NatToString(n + i + 1);
      assert RoomLabel(n + j + 1)[|p|..] == NatToString(n + j + 1);
      NatToStringInjective(n + i + 1, n + j + 1);
    }
    var t := NatToString(now) + "-";
    if BatchTempId(now, i) == BatchTempId(now, j) {
      assert BatchTempId(now, i) == t + NatToString(i);
      assert BatchTempId(now, j) == t + NatToString(j);
      assert BatchTempId(now, i)[|t|..] == NatToString(i);
      assert BatchTempId(now, j)[|t|..] == NatToString(j);
      NatToStringInjective(i, j);
    }
  }

  /** Whether a draft's label survives `r.label.trim() !== ''`: it is not all white space. */
  predicate HasLabel(r: RoomDraft) {
    !IsBlank(r.labelText)
  }

  /** `HasLabel` is the source's trim test. */
  lemma HasLabelIsTrimTest(r: RoomDraft)
    ensures HasLabel(r) <==> Trim(r.labelText) != []
  {
    TrimEmptyIffBlank(r.labelText);
  }

  /** The drafts that become rooms: the labelled ones, in order. */
  function NamedRooms(rooms: seq<RoomDraft>): (r: seq<RoomDraft>)
    ensures |r| <= |rooms|
    ensures forall x :: x in r <==> x in rooms && HasLabel(x)
  {
    Filter(rooms, HasLabel)
  }

  /** The rows `roomsToInsert` asks for, with ids `firstId`, `firstId + 1`, ... from the store. */
  function RoomRowsFrom(firstId: RowId, houseId: RowId, drafts: seq<RoomDraft>): (r: seq<RoomRow>)
    ensures |r| == |drafts|
    ensures forall k :: 0 <= k < |drafts| ==>
              r[k].houseId == houseId && r[k].labelText == drafts[k].labelText && r[k].capacity == drafts[k].capacity
  {
    seq(|drafts|, k requires 0 <= k < |drafts| => RoomRow(firstId + k, houseId, drafts[k].labelText, drafts[k].capacity, true))
  }

  const SetupFailed: string := "Error creating house and rooms. Please try again."

  function FailureText(msg: string): (r: string)
    ensures r != ""
    ensures msg != "" ==> r == msg
  {
    if msg != "" then msg else SetupFailed
  }

  function SuccessText(name: string, count: nat): string {
    "Successfully created \"" + name + "\" with " + NatToString(count) + " room(s)!"
  }

  function RoomsPath(houseId: RowId): string {
    "/admin/houses/" + NatToString(houseId) + "/rooms"
  }

  class QuickSetup {
    var step: int
    var loading: bool
    var houseName: string
    var houseAddress: string
    var rooms: seq<RoomDraft>
    var alertText: Option<string>
    var navigatedTo: Option<string>

    /**
     * The wizard's gating: the steps are 1 to 3, step 2 and later have a house name that is not
     * blank, and step 3 has at least one labelled room.
     */
    ghost predicate Valid()
      reads this`step, this`houseName, this`rooms
    {
      && 1 <= step <= 3
      && (step >= 2 ==> !IsBlank(houseName))
      && (step == 3 ==> NamedRooms(rooms) != [])
    }

    constructor ()
      ensures Valid()
      ensures step == 1 && !loading && houseName == "" && houseAddress == "" && rooms == InitialRooms
      ensures alertText.None? && navigatedTo.None?
    {
      step, loading := 1, false;
      houseName, houseAddress := "", "";
      rooms := InitialRooms;
      alertText, navigatedTo := None, None;
    }

    /** The name and address inputs, shown on step 1. */
    method EditHouse(name: string, address: string)
      requires Valid() && step == 1
      modifies this`houseName, this`houseAddress
      ensures Valid()
      ensures houseName == name && houseAddress == address
    {
      houseName, houseAddress := name, address;
    }

    /** "Next": step 1 needs a name that is not blank, step 2 a labelled room; otherwise the button is disabled. */
    method Next()
      requires Valid()
      modifies this`step
      ensures Valid()
      ensures old(step) == 1 ==> step == (if !IsBlank(houseName) then 2 else 1)
      ensures old(step) == 2 ==> step == (if NamedRooms(rooms) != [] then 3 else 2)
      ensures old(step) == 3 ==> step == 3
    {
      TrimEmptyIffBlank(houseName);
      if step == 1 && Trim(houseName) != [] {
        step := 2;
      } else if step == 2 && |Filter(rooms, HasLabel)| != 0 {
        step := 3;
      }
    }

    /** "Back" from step 2 or 3; disabled while saving. */
    method Back()
      requires Valid() && !loading
      modifies this`step
      ensures Valid()
      ensures step == if old(step) > 1 then old(step) - 1 else 1
    {
      if step > 1 {
        step := step - 1;
      }
    }

    /** `addRoom`: appends a blank draft of capacity 1 whose tempId is `Date.now()`. */
    method AddRoom(now: nat)
      requires Valid() && step == 2
      modifies this`rooms
      ensures Valid()
      ensures rooms == old(rooms) + [RoomDraft("", 1, NatToString(now))]
    {
      rooms := rooms + [RoomDraft("", 1, NatToString(now))];
    }

    /** `removeRoom`: drops the drafts with that tempId, but only while there is more than one draft. */
    method RemoveRoom(tempId: string)
      requires Valid() && step == 2
      modifies this`rooms
      ensures Valid()
      ensures rooms == if |old(rooms)| > 1 then WithoutTempId(old(rooms), tempId) else old(rooms)
    {
      if |rooms| > 1 {
        rooms := WithoutTempId(rooms, tempId);
      }
    }

    /** `updateRoom`. */
    method UpdateRoom(tempId: string, u: RoomUpdate)
      requires Valid() && step == 2
      modifies this`rooms
      ensures Valid()
      ensures rooms == UpdateRooms(old(rooms), tempId, u)
    {
      rooms := UpdateRooms(rooms, tempId, u);
    }

    /** `addMultipleRooms(count)`: the "+3" and "+5" buttons. */
    method AddMultipleRooms(count: int, now: nat)
      requires Valid() && step == 2
      modifies this`rooms
      ensures Valid()
      ensures |rooms| == |old(rooms)| + (if count > 0 then count else 0)
      ensures rooms[..|old(rooms)|] == old(rooms)
      ensures forall i :: 0 <= i < |rooms| - |old(rooms)| ==>
                rooms[|old(rooms)| + i] == RoomDraft(RoomLabel(|old(rooms)| + i + 1), 1, BatchTempId(now, i))
    {
      var newRooms := NumberedRooms(|rooms|, count, now);
      rooms := rooms + newRooms;
    }

    /**
     * `handleSubmit`, on step 3, whose button is disabled while saving. `configured` says whether a client exists; `houseFault` and
     * `roomsFault` are the store's errors for the two inserts.
     */
    method HandleSubmit(db: Db, configured: bool, houseFault: Option<string>, roomsFault: Option<string>)
      returns (outcome: Option<SetupOutcome>)
      requires Valid() && step == 3 && !loading && db.Valid()
      modifies this`loading, this`alertText, this`navigatedTo, db`houses, db`rooms, db`nextId
      ensures Valid() && db.Valid() && !loading
      ensures outcome.None? <==> !configured
      ensures outcome.None? ==> SnapshotOf(db) == old(SnapshotOf(db)) && alertText == old(alertText) && navigatedTo == old(navigatedTo)
      ensures outcome.Some? ==>
                && SetupEffect(old(SnapshotOf(db)), SnapshotOf(db), houseName, houseAddress, NamedRooms(rooms), houseFault, roomsFault, outcome.value)
                && alertText == Some(AlertFor(outcome.value, houseName))
                && navigatedTo == (if outcome.value.Created? then Some(RoomsPath(outcome.value.houseId)) else old(navigatedTo))
    {
      if !configured {
        return None;
      }
      loading := true;
      var o := CreateHouseAndRooms(db, houseName, houseAddress, NamedRooms(rooms), houseFault, roomsFault);
      alertText := Some(AlertFor(o, houseName));
      if o.Created? {
        navigatedTo := Some(RoomsPath(o.houseId));
      }
      loading := false;
      outcome := Some(o);
    }
  }

  /** How a setup ended. */
  datatype SetupOutcome = HouseFailed(message: string) | RoomsFailed(message: string) | Created(houseId: RowId, roomCount: nat)

  function AlertFor(o: SetupOutcome, name: string): string {
    match o
    case HouseFailed(msg) => FailureText(msg)
    case RoomsFailed(msg) => FailureText(msg)
    case Created(_, n) => SuccessText(name, n)
  }

  /** The part of the store the wizard changes. */
  datatype Snapshot = Snapshot(houses: seq<HouseRow>, rooms: seq<RoomRow>, nextId: RowId)

  function SnapshotOf(db: Db): Snapshot
    reads db`houses, db`rooms, db`nextId
  {
    Snapshot(db.houses, db.rooms, db.nextId)
  }

  /**
   * The two inserts: a failed house insert writes nothing; otherwise the house is added, and the
   * labelled drafts become its rooms unless that insert fails, which leaves the house without rooms.
   */
  ghost predicate SetupEffect(before: Snapshot, after: Snapshot, name: string, address: string, drafts: seq<RoomDraft>,
                              houseFault: Option<string>, roomsFault: Option<string>, o: SetupOutcome)
  {
    if houseFault.Some? then o == HouseFailed(houseFault.value) && after == before
    else
      && after.houses == before.houses + [NewHouse(before.nextId, name, address)]
      && if |drafts| > 0 && roomsFault.Some? then
           o == RoomsFailed(roomsFault.value) && after.rooms == before.rooms && after.nextId == before.nextId + 1
         else
           && o == Created(before.nextId, |drafts|)
           && after.rooms == before.rooms + RoomRowsFrom(before.nextId + 1, before.nextId, drafts)
           && after.nextId == before.nextId + 1 + |drafts|
  }

  /** The store side of `handleSubmit`. */
  method CreateHouseAndRooms(db: Db, name: string, address: string, drafts: seq<RoomDraft>,
                             houseFault: Option<string>, roomsFault: Option<string>)
    returns (o: SetupOutcome)
    requires db.Valid()
    modifies db`houses, db`rooms, db`nextId
    ensures db.Valid()
    ensures SetupEffect(old(SnapshotOf(db)), SnapshotOf(db), name, address, drafts, houseFault, roomsFault, o)
  {
    if houseFault.Some? {
      return HouseFailed(houseFault.value);
    }
    var houseId := db.NewId();
    db.houses := db.houses + [NewHouse(houseId, name, address)];
    if |drafts| > 0 {
      if roomsFault.Some? {
        return RoomsFailed(roomsFault.value);
      }
      InsertRooms(db, houseId, drafts);
    }
    o := Created(houseId, |drafts|);
  }

  /** A created house has exactly the labelled drafts as rooms, each pointing at it, and the alert counts them. */
  lemma CreatedHouseHasNamedRooms(before: Snapshot, after: Snapshot, name: string, address: string, rooms: seq<RoomDraft>,
                                  roomsFault: Option<string>, o: SetupOutcome)
    requires SetupEffect(before, after, name, address, NamedRooms(rooms), None, roomsFault, o)
    requires o.Created?
    ensures |after.rooms| == |before.rooms| + |NamedRooms(rooms)| && o.roomCount == |NamedRooms(rooms)|
    ensures forall k :: |before.rooms| <= k < |after.rooms| ==>
              after.rooms[k].houseId == o.houseId && !IsBlank(after.rooms[k].labelText)
  {
    var named := NamedRooms(rooms);
    forall k | |before.rooms| <= k < |after.rooms|
      ensures after.rooms[k].houseId == o.houseId && !IsBlank(after.rooms[k].labelText)
    {
      var j := k - |before.rooms|;
      assert after.rooms[k] == RoomRowsFrom(before.nextId + 1, before.nextId, named)[j];
      assert named[j] in named;
    }
  }

  /** One bulk `insert(roomsToInsert)`: the store gives the new rows consecutive fresh ids. */
  method InsertRooms(db: Db, houseId: RowId, drafts: seq<RoomDraft>)
    requires db.Valid()
    modifies db`rooms, db`nextId
    ensures db.Valid()
    ensures db.rooms == old(db.rooms) + RoomRowsFrom(old(db.nextId), houseId, drafts)
    ensures db.nextId == old(db.nextId) + |drafts|
  {
    var newRows := RoomRowsFrom(db.nextId, houseId, drafts);
    assert forall k :: 0 <= k < |newRows| ==> newRows[k].id == db.nextId + k;
    db.rooms := db.rooms + newRows;
    db.nextId := db.nextId + |drafts|;
  }

  /**
   * On step 3 the wizard's gating leaves at least one labelled draft, so the room insert always
   * runs: the setup counts as created exactly when that insert succeeds, and then with at least
   * one new room.
   */
  lemma SubmitAlwaysHasRooms(w: QuickSetup, before: Snapshot, after: Snapshot, roomsFault: Option<string>, o: SetupOutcome)
    requires w.Valid() && w.step == 3
    requires SetupEffect(before, after, w.houseName, w.houseAddress, NamedRooms(w.rooms), None, roomsFault, o)
    ensures o.Created? <==> roomsFault.None?
    ensures o.Created? ==> o.roomCount > 0 && |after.rooms| > |before.rooms|
  {
  }
}

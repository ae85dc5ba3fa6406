/** app/tenant/move-out/page.tsx: photo uploads and the move-out intention submission. */
module TenantMoveOutPage {
  import opened Wrappers
  import opened Strings
  import opened Types
  import opened Database
  import opened TenantMoveOutActions

  const PhotoBucket: string := "move-out-photos"
  const SignInPrompt: string := "Please sign in to submit move-out intention"
  const NoActiveTenancy: string := "No active tenancy found. Please contact your administrator."
  const SubmitSucceeded: string := "Move-out intention submitted successfully! Coordinators and admins have been notified."
  const SubmitFailed: string := "Error submitting move-out intention. Please try again."

  /**
   * `file.name.split('.').pop()`: the text after the last ".", or the whole name when it has none.
   */
  function FileExtension(name: string): (ext: string)
    ensures LastIndexOf(name, '.').None? ==> ext == name
    ensures LastIndexOf(name, '.').Some? ==> ext == name[LastIndexOf(name, '.').value + 1..]
    ensures forall i :: 0 <= i < |ext| ==> ext[i] != '.' || LastIndexOf(name, '.').None?
  {
    match LastIndexOf(name, '.')
    case None => name
    case Some(k) => name[k + 1..]
  }

  /**
   * The storage path `<tenancyId>/<timestamp>-<random>.<ext>`; `timestamp` is `Date.now()` and
   * `random` the base-36 fragment of `Math.random()`.
   */
  function PhotoPath(tenancyId: RowId, timestamp: nat, random: string, fileName: string): string {
    NatToString(tenancyId) + "/" + NatToString(timestamp) + "-" + random + "." + FileExtension(fileName)
  }

  /** A photo's path lies in its tenancy's folder and ends with the file's own extension. */
  lemma PhotoPathShape(tenancyId: RowId, timestamp: nat, random: string, fileName: string)
    ensures var p := PhotoPath(tenancyId, timestamp, random, fileName);
            var folder := NatToString(tenancyId) + "/";
            var ext := FileExtension(fileName);
            && StartsWith(p, folder)
            && |p| > |ext| && p[|p| - |ext| - 1..] == "." + ext
  {
    var p := PhotoPath(tenancyId, timestamp, random, fileName);
    var folder := NatToString(tenancyId) + "/";
    var ext := FileExtension(fileName);
    var mid := NatToString(timestamp) + "-" + random;
    assert p == folder + mid + "." + ext;
    assert p[..|folder|] == folder;
    assert p[|p| - |ext| - 1..] == "." + ext;
  }

  /** `getPublicUrl(path)`: the object's address under the project's public storage root. */
  function PublicUrl(projectUrl: string, bucket: string, path: string): string {
    projectUrl + "/storage/v1/object/public/" + bucket + "/" + path
  }

  /** The clock and random values one upload draws, and whether the store accepted it. */
  datatype UploadAttempt = UploadAttempt(timestamp: nat, random: string, stored: bool)

  /** The paths of the accepted uploads, in file order. */
  function UploadedPaths(tenancyId: RowId, files: seq<string>, attempts: seq<UploadAttempt>): (r: seq<string>)
    requires |attempts| == |files|
    decreases |files|
  {
    if files == [] then []
    else
      var n := |files| - 1;
      UploadedPaths(tenancyId, files[..n], attempts[..n])
        + (if attempts[n].stored then [PhotoPath(tenancyId, attempts[n].timestamp, attempts[n].random, files[n])] else [])
  }

  function StoredCount(attempts: seq<UploadAttempt>): nat {
    if attempts == [] then 0 else StoredCount(attempts[..|attempts| - 1]) + (if attempts[|attempts| - 1].stored then 1 else 0)
  }

  /** There is one path per accepted upload, so never more paths than files; each path comes from an accepted file. */
  lemma {:induction false} UploadedPathsAreAccepted(tenancyId: RowId, files: seq<string>, attempts: seq<UploadAttempt>)
    requires |attempts| == |files|
    ensures |UploadedPaths(tenancyId, files, attempts)| == StoredCount(attempts) <= |files|
    ensures forall p :: p in UploadedPaths(tenancyId, files, attempts) ==>
              exists j :: 0 <= j < |files| && attempts[j].stored && p == PhotoPath(tenancyId, attempts[j].timestamp, attempts[j].random, files[j])
  {
    if files != [] {
      var n := |files| - 1;
      UploadedPathsAreAccepted(tenancyId, files[..n], attempts[..n]);
      forall p | p in UploadedPaths(tenancyId, files, attempts)
        ensures exists j :: 0 <= j < |files| && attempts[j].stored && p == PhotoPath(tenancyId, attempts[j].timestamp, attempts[j].random, files[j])
      {
        if p in UploadedPaths(tenancyId, files[..n], attempts[..n]) {
          var j :| 0 <= j < n && attempts[..n][j].stored && p == PhotoPath(tenancyId, attempts[..n][j].timestamp, attempts[..n][j].random, files[..n][j]);
          assert attempts[j] == attempts[..n][j] && files[j] == files[..n][j];
        } else {
          assert attempts[n].stored && p == PhotoPath(tenancyId, attempts[n].timestamp, attempts[n].random, files[n]);
        }
      }
    }
  }

  /** When every upload is accepted, every file gets a path. */
  lemma {:induction false} AllAcceptedAllUploaded(tenancyId: RowId, files: seq<string>, attempts: seq<UploadAttempt>)
    requires |attempts| == |files|
    requires forall j :: 0 <= j < |attempts| ==> attempts[j].stored
    ensures |UploadedPaths(tenancyId, files, attempts)| == |files|
  {
    if files != [] {
      var n := |files| - 1;
      AllAcceptedAllUploaded(tenancyId, files[..n], attempts[..n]);
    }
  }

  /** The public URLs of the given paths. */
  function UrlsOf(projectUrl: string, paths: seq<string>): (r: seq<string>)
    ensures |r| == |paths|
    ensures forall k :: 0 <= k < |paths| ==> r[k] == PublicUrl(projectUrl, PhotoBucket, paths[k])
  {
    seq(|paths|, k requires 0 <= k < |paths| => PublicUrl(projectUrl, PhotoBucket, paths[k]))
  }

  /** The stored objects the given paths name in the photo bucket. */
  function ObjectsOf(paths: seq<string>): (r: seq<StoredObject>)
    ensures |r| == |paths|
    ensures forall k :: 0 <= k < |paths| ==> r[k] == StoredObject(PhotoBucket, paths[k])
  {
    seq(|paths|, k requires 0 <= k < |paths| => StoredObject(PhotoBucket, paths[k]))
  }

  /**
   * One `for (const photo of ...)` loop of `handleSubmit`: each file is uploaded in turn and the
   * public URL of each accepted upload is pushed.
   */
  method UploadAll(db: Db, projectUrl: string, tenancyId: RowId, files: seq<string>, attempts: seq<UploadAttempt>)
    returns (urls: seq<string>)
    requires |attempts| == |files|
    requires db.Valid()
    modifies db`objects
    ensures db.Valid()
    ensures urls == UrlsOf(projectUrl, UploadedPaths(tenancyId, files, attempts))
    ensures db.objects == old(db.objects) + ObjectsOf(UploadedPaths(tenancyId, files, attempts))
  {
    urls := [];
    ghost var start := db.objects;
    var i := 0;
    while i < |files|
      invariant 0 <= i <= |files|
      invariant urls == UrlsOf(projectUrl, UploadedPaths(tenancyId, files[..i], attempts[..i]))
      invariant db.objects == start + ObjectsOf(UploadedPaths(tenancyId, files[..i], attempts[..i]))
    {
      assert files[..i + 1][..i] == files[..i];
      assert attempts[..i + 1][..i] == attempts[..i];
      ghost var paths := UploadedPaths(tenancyId, files[..i], attempts[..i]);
      var a := attempts[i];
      if a.stored {
        var path := PhotoPath(tenancyId, a.timestamp, a.random, files[i]);
        assert UploadedPaths(tenancyId, files[..i + 1], attempts[..i + 1]) == paths + [path];
        assert UrlsOf(projectUrl, paths + [path]) == UrlsOf(projectUrl, paths) + [PublicUrl(projectUrl, PhotoBucket, path)];
        assert ObjectsOf(paths + [path]) == ObjectsOf(paths) + [StoredObject(PhotoBucket, path)];
        db.objects := db.objects + [StoredObject(PhotoBucket, path)];
        urls := urls + [PublicUrl(projectUrl, PhotoBucket, path)];
      } else {
        assert UploadedPaths(tenancyId, files[..i + 1], attempts[..i + 1]) == paths;
      }
      i := i + 1;
    }
    assert files[..i] == files;
    assert attempts[..i] == attempts;
  }

  /** The intention row `handleSubmit` inserts; both timestamps take the store's default, the insert time. */
  function NewIntention(id: RowId, tenancyId: RowId, plannedDate: string, notes: string,
                        keyUrls: seq<string>, damageUrls: seq<string>, createdAt: nat): (row: IntentionRow)
    ensures row.signOffStatus == Pending && row.tenancyId == tenancyId && row.plannedMoveOutDate == plannedDate
    ensures row.notes.None? <==> notes == ""
    ensures row.notes.Some? ==> row.notes.value == notes
    ensures row.keyAreaPhotos == keyUrls && row.damagePhotos == damageUrls
    ensures row.signedOffBy.None? && row.signedOffAt.None? && row.coordinatorNotes.None?
    ensures row.submittedAt == createdAt && row.createdAt == createdAt
  {
    IntentionRow(id, tenancyId, plannedDate, if notes == "" then None else Some(notes),
                 keyUrls, damageUrls, None, Pending, None, None, None, createdAt, createdAt)
  }

  /** The message shown for a thrown store error: its text, or the default when that is empty. */
  function FailureText(msg: string): (r: string)
    ensures r != ""
    ensures msg != "" ==> r == msg
  {
    if msg != "" then msg else SubmitFailed
  }

  class MoveOutPage {
    var loading: bool
    var submitted: bool
    var uploadingPhotos: bool
    var plannedMoveOutDate: string
    var notes: string
    /** The chosen files, by name. */
    var keyAreaPhotos: seq<string>
    var damagePhotos: seq<string>
    var alertText: Option<string>

    constructor ()
      ensures !loading && !submitted && !uploadingPhotos
      ensures plannedMoveOutDate == "" && notes == "" && keyAreaPhotos == [] && damagePhotos == [] && alertText.None?
    {
      loading, submitted, uploadingPhotos := false, false, false;
      plannedMoveOutDate, notes := "", "";
      keyAreaPhotos, damagePhotos := [], [];
      alertText := None;
    }

    /** `handleKeyAreaPhotoChange`: a new selection replaces the old one; no selection keeps it. */
    method ChooseKeyAreaPhotos(files: Option<seq<string>>)
      modifies this`keyAreaPhotos
      ensures keyAreaPhotos == if files.Some? then files.value else old(keyAreaPhotos)
    {
      if files.Some? {
        keyAreaPhotos := files.value;
      }
    }

    /** `handleDamagePhotoChange`. */
    method ChooseDamagePhotos(files: Option<seq<string>>)
      modifies this`damagePhotos
      ensures damagePhotos == if files.Some? then files.value else old(damagePhotos)
    {
      if files.Some? {
        damagePhotos := files.value;
      }
    }

    /** The date and notes inputs' `onChange` handlers. */
    method EditForm(date: string, text: string)
      modifies this`plannedMoveOutDate, this`notes
      ensures plannedMoveOutDate == date && notes == text
    {
      plannedMoveOutDate, notes := date, text;
    }

    /** The submission this page's current form makes, with the inputs of the outside world. */
    function SubmissionOf(user: Option<string>, readFault: Option<string>, projectUrl: string,
                          keyAttempts: seq<UploadAttempt>, damageAttempts: seq<UploadAttempt>,
                          createdAt: nat, insertFault: Option<string>, updateFault: Option<string>): (s: Submission)
      reads this
      ensures s.plannedDate == plannedMoveOutDate && s.notes == notes
      ensures s.keyFiles == keyAreaPhotos && s.damageFiles == damagePhotos
    {
      Submission(user, readFault, projectUrl, plannedMoveOutDate, notes, keyAreaPhotos, keyAttempts,
                 damagePhotos, damageAttempts, createdAt, insertFault, updateFault)
    }

    /**
     * `handleSubmit`: the store changes as `SubmitEffect` says, the outcome's alert is shown,
     * `submitted` is set only by a full success and both busy flags end false.
     */
    method HandleSubmit(db: Db, user: Option<string>, readFault: Option<string>, projectUrl: string,
                        keyAttempts: seq<UploadAttempt>, damageAttempts: seq<UploadAttempt>,
                        createdAt: nat, insertFault: Option<string>, updateFault: Option<string>)
      returns (outcome: Outcome)
      requires db.Valid()
      requires |keyAttempts| == |keyAreaPhotos| && |damageAttempts| == |damagePhotos|
      modifies this`loading, this`uploadingPhotos, this`submitted, this`alertText
      modifies db`objects, db`intentions, db`tenancies, db`nextId
      ensures db.Valid()
      ensures SubmitEffect(old(SubmissionOf(user, readFault, projectUrl, keyAttempts, damageAttempts, createdAt, insertFault, updateFault)),
                           old(SnapshotOf(db)), SnapshotOf(db), outcome)
      ensures !loading && !uploadingPhotos
      ensures alertText == Some(AlertFor(outcome))
      ensures submitted == (old(submitted) || outcome == Submitted)
    {
      var request := SubmissionOf(user, readFault, projectUrl, keyAttempts, damageAttempts, createdAt, insertFault, updateFault);
      loading := true;
      uploadingPhotos := true;
      outcome := Submit(db, request);
      if outcome == Submitted {
        submitted := true;
      }
      alertText := Some(AlertFor(outcome));
      loading, uploadingPhotos := false, false;
    }
  }

  /** The inputs of one submission: the form, the session, and what the store and the uploads answer. */
  datatype Submission = Submission(
    user: Option<string>,
    readFault: Option<string>,
    projectUrl: string,
    plannedDate: string,
    notes: string,
    keyFiles: seq<string>,
    keyAttempts: seq<UploadAttempt>,
    damageFiles: seq<string>,
    damageAttempts: seq<UploadAttempt>,
    createdAt: nat,
    insertFault: Option<string>,
    updateFault: Option<string>)
  {
    predicate WellFormed() {
      |keyAttempts| == |keyFiles| && |damageAttempts| == |damageFiles|
    }
  }

  /** The part of the store a submission can change. */
  datatype Snapshot = Snapshot(objects: seq<StoredObject>, intentions: seq<IntentionRow>, tenancies: seq<TenancyRow>, nextId: RowId)

  function SnapshotOf(db: Db): (s: Snapshot)
    reads db
    ensures s.objects == db.objects && s.intentions == db.intentions && s.tenancies == db.tenancies && s.nextId == db.nextId
  {
    Snapshot(db.objects, db.intentions, db.tenancies, db.nextId)
  }

  /** How a submission ended. */
  datatype Outcome = SignedOut | NoTenancy | InsertFailed(message: string) | UpdateFailed(message: string) | Submitted

  /** The `alert` each outcome shows. */
  function AlertFor(o: Outcome): string {
    match o
    case SignedOut => SignInPrompt
    case NoTenancy => NoActiveTenancy
    case InsertFailed(msg) => FailureText(msg)
    case UpdateFailed(msg) => FailureText(msg)
    case Submitted => SubmitSucceeded
  }

  /**
   * What `handleSubmit` does to the store: nothing without a user or an active tenancy; otherwise
   * the accepted uploads are stored, and the two writes happen as `Recorded` says.
   */
  ghost predicate SubmitEffect(s: Submission, before: Snapshot, after: Snapshot, outcome: Outcome)
    requires s.WellFormed()
  {
    if s.user.None? then outcome == SignedOut && after == before
    else
      match FindActiveTenancy(before.tenancies, s.user.value, s.readFault)
      case Err(_) => outcome == NoTenancy && after == before
      case Ok(t) =>
        var keyPaths := UploadedPaths(t.id, s.keyFiles, s.keyAttempts);
        var damagePaths := UploadedPaths(t.id, s.damageFiles, s.damageAttempts);
        && after.objects == before.objects + ObjectsOf(keyPaths) + ObjectsOf(damagePaths)
        && Recorded(before, after,
                    NewIntention(before.nextId, t.id, s.plannedDate, s.notes,
                                 UrlsOf(s.projectUrl, keyPaths), UrlsOf(s.projectUrl, damagePaths), s.createdAt),
                    s.insertFault, s.updateFault, outcome)
  }

  /**
   * The effect of the two writes: a failed insert writes nothing; a successful one appends `row`,
   * after which a failed update leaves the tenancies alone and a successful one marks the
   * tenancy MOVE_OUT_INTENDED.
   */
  ghost predicate Recorded(before: Snapshot, after: Snapshot, row: IntentionRow,
                           insertFault: Option<string>, updateFault: Option<string>, outcome: Outcome)
  {
    if insertFault.Some? then
      && outcome == InsertFailed(insertFault.value)
      && after.intentions == before.intentions && after.tenancies == before.tenancies && after.nextId == before.nextId
    else
      && after.intentions == before.intentions + [row]
      && after.nextId == before.nextId + 1
      && if updateFault.Some? then outcome == UpdateFailed(updateFault.value) && after.tenancies == before.tenancies
         else outcome == Submitted && after.tenancies == SetTenancyStatus(before.tenancies, row.tenancyId, MoveOutIntended)
  }

  /** `handleSubmit` on the store: the lookup, the uploads, then the intention insert and the status update. */
  method Submit(db: Db, s: Submission) returns (outcome: Outcome)
    requires db.Valid() && s.WellFormed()
    modifies db`objects, db`intentions, db`tenancies, db`nextId
    ensures db.Valid()
    ensures SubmitEffect(s, old(SnapshotOf(db)), SnapshotOf(db), outcome)
  {
    if s.user.None? {
      return SignedOut;
    }
    var found := FindActiveTenancy(db.tenancies, s.user.value, s.readFault);
    if found.Err? {
      return NoTenancy;
    }
    var tenancyId := found.value.id;
    var keyUrls := UploadAll(db, s.projectUrl, tenancyId, s.keyFiles, s.keyAttempts);
    var damageUrls := UploadAll(db, s.projectUrl, tenancyId, s.damageFiles, s.damageAttempts);
    outcome := RecordIntention(db, tenancyId, s.plannedDate, s.notes, keyUrls, damageUrls, s.createdAt, s.insertFault, s.updateFault);
  }

  /** Steps 4 and 5 of `handleSubmit`: the intention insert, then the tenancy status update. */
  method RecordIntention(db: Db, tenancyId: RowId, plannedDate: string, notes: string,
                         keyUrls: seq<string>, damageUrls: seq<string>, createdAt: nat,
                         insertFault: Option<string>, updateFault: Option<string>)
    returns (outcome: Outcome)
    requires db.Valid()
    modifies db`intentions, db`tenancies, db`nextId
    ensures db.Valid() && db.objects == old(db.objects)
    ensures Recorded(old(SnapshotOf(db)), SnapshotOf(db),
                     NewIntention(old(db.nextId), tenancyId, plannedDate, notes, keyUrls, damageUrls, createdAt),
                     insertFault, updateFault, outcome)
  {
    if insertFault.Some? {
      return InsertFailed(insertFault.value);
    }
    var id := db.NewId();
    db.intentions := db.intentions + [NewIntention(id, tenancyId, plannedDate, notes, keyUrls, damageUrls, createdAt)];
    if updateFault.Some? {
      return UpdateFailed(updateFault.value);
    }
    db.tenancies := SetTenancyStatus(db.tenancies, tenancyId, MoveOutIntended);
    outcome := Submitted;
  }

  /** Without a signed-in user, or without exactly one OCCUPIED tenancy of theirs, nothing is uploaded or written. */
  lemma NothingWrittenWithoutActiveTenancy(s: Submission, before: Snapshot, after: Snapshot, outcome: Outcome)
    requires s.WellFormed() && SubmitEffect(s, before, after, outcome)
    requires s.user.None? || s.readFault.Some? || |ActiveTenancies(before.tenancies, s.user.value)| != 1
    ensures after == before
    ensures outcome == SignedOut || outcome == NoTenancy
  {
  }

  /**
   * The tenancy table changes only on a full success, and then the caller's active tenancy, and
   * only it, becomes MOVE_OUT_INTENDED, next to a new PENDING intention for it.
   */
  lemma StatusChangesOnlyOnSuccess(s: Submission, before: Snapshot, after: Snapshot, outcome: Outcome)
    requires s.WellFormed() && SubmitEffect(s, before, after, outcome)
    ensures after.tenancies != before.tenancies ==> outcome == Submitted
    ensures outcome == Submitted ==>
              && s.user.Some? && s.insertFault.None? && s.updateFault.None?
              && exists k :: 0 <= k < |before.tenancies| && IsActiveFor(before.tenancies[k], s.user.value)
                             && after.tenancies == SetTenancyStatus(before.tenancies, before.tenancies[k].id, MoveOutIntended)
                             && |after.intentions| == |before.intentions| + 1
                             && after.intentions[|before.intentions|].tenancyId == before.tenancies[k].id
                             && after.intentions[|before.intentions|].signOffStatus == Pending
  {
    if outcome == Submitted {
      var t := FindActiveTenancy(before.tenancies, s.user.value, s.readFault).value;
      var k :| 0 <= k < |before.tenancies| && before.tenancies[k] == t;
      assert IsActiveFor(before.tenancies[k], s.user.value);
    }
  }

  /** A failed intention insert leaves the intentions and the tenancies as they were. */
  lemma FailedInsertWritesNoRow(s: Submission, before: Snapshot, after: Snapshot, outcome: Outcome)
    requires s.WellFormed() && SubmitEffect(s, before, after, outcome)
    requires s.insertFault.Some?
    ensures after.intentions == before.intentions && after.tenancies == before.tenancies
    ensures outcome != Submitted
  {
  }

  /** Each stored URL list is no longer than its file list. */
  lemma {:induction false} UrlListsBounded(s: Submission, before: Snapshot, after: Snapshot, outcome: Outcome)
    requires s.WellFormed() && SubmitEffect(s, before, after, outcome)
    requires |after.intentions| == |before.intentions| + 1
    ensures |after.intentions[|before.intentions|].keyAreaPhotos| <= |s.keyFiles|
    ensures |after.intentions[|before.intentions|].damagePhotos| <= |s.damageFiles|
  {
    var t := FindActiveTenancy(before.tenancies, s.user.value, s.readFault).value;
    UploadedPathsAreAccepted(t.id, s.keyFiles, s.keyAttempts);
    UploadedPathsAreAccepted(t.id, s.damageFiles, s.damageAttempts);
  }
}

/** The contributor registry of the person service: guest creation, login
    by email, renaming, deletion, and the bulk approval of one person's
    pending recordings. Each operation is a pure function from the store
    snapshot to the new snapshot and the result, and a method on the live
    store that performs it. */
module PersonRegistry {
  import opened Common
  import opened Text
  import opened PersonModel
  import opened RecordingModel
  import opened Query
  import opened Database

  // ------------------------------------------------------------ createGuest

  /** `{ user, existed }`. */
  datatype GuestResult = GuestResult(user: Person, existed: bool)

  /** `createGuest({ email, gender })` at time `now`, with `newId` the id a
      new document would get. */
  function CreateGuest(db: Db, email: string, gender: string, newId: Id, now: int): (Db, Result<GuestResult>)
  {
    var e := Normalize(email);
    var existing := PersonByEmail(db.persons, e);
    if existing.Some? then (db, Ok(GuestResult(existing.value, true)))
    else
      var created := PersonModel.Create(newId, e, gender, Some("User"), now);
      if created.Err? then (db, Err(created.error))
      else (db.(persons := db.persons + [created.value]), Ok(GuestResult(created.value, false)))
  }

  method CreateGuestInStore(store: Store, email: string, gender: string, now: int) returns (res: Result<GuestResult>)
    modifies store
    ensures (store.Snapshot(), res) == CreateGuest(old(store.Snapshot()), email, gender, old(store.nextId), now)
    ensures store.nextId == old(store.nextId) + (if res.Ok? && !res.value.existed then 1 else 0)
  {
    var e := Normalize(email);
    var existing := PersonByEmail(store.persons, e);
    if existing.Some? {
      return Ok(GuestResult(existing.value, true));
    }
    var created := PersonModel.Create(store.nextId, e, gender, Some("User"), now);
    if created.Err? {
      return Err(created.error);
    }
    store.persons := store.persons + [created.value];
    store.nextId := store.nextId + 1;
    res := Ok(GuestResult(created.value, false));
  }

  /** An existing email (after trimming and lower-casing) returns that person
      with `existed` set and creates nothing; otherwise exactly one person is
      appended, with the normalised email, role User and no name. */
  lemma CreateGuestOutcome(db: Db, email: string, gender: string, newId: Id, now: int)
    ensures var (after, r) := CreateGuest(db, email, gender, newId, now);
            && (r.Ok? && r.value.existed <==> exists i :: 0 <= i < |db.persons| && db.persons[i].email == Normalize(email))
            && (r.Ok? && r.value.existed ==> after == db && r.value.user in db.persons && r.value.user.email == Normalize(email))
            && (r.Ok? && !r.value.existed ==>
                  && after == db.(persons := db.persons + [r.value.user])
                  && r.value.user.id == newId && r.value.user.email == Normalize(email)
                  && r.value.user.role == User && r.value.user.name.None? && r.value.user.createdAt == now)
            && (r.Err? ==> after == db && r.error == ValidationFailed)
  {
    var e := Normalize(email);
    NormalizeIdempotent(email);
    var existing := PersonByEmail(db.persons, e);
    if existing.Some? {
      assert CreateGuest(db, email, gender, newId, now) == (db, Ok(GuestResult(existing.value, true)));
    } else {
      var created := PersonModel.Create(newId, e, gender, Some("User"), now);
      if created.Err? {
        assert CreateGuest(db, email, gender, newId, now) == (db, Err(created.error));
      } else {
        assert CreateGuest(db, email, gender, newId, now)
               == (db.(persons := db.persons + [created.value]), Ok(GuestResult(created.value, false)));
      }
    }
  }

  /** Guest creation keeps the store valid: the new email is normalised and
      not yet taken, and the new id is fresh. */
  lemma CreateGuestKeepsValid(db: Db, email: string, gender: string, newId: Id, now: int)
    requires ValidDb(db) && IdsBelow(db, newId)
    ensures var after := CreateGuest(db, email, gender, newId, now).0;
            ValidDb(after) && IdsBelow(after, newId + 1)
  {
    var e := Normalize(email);
    NormalizeIdempotent(email);
    var existing := PersonByEmail(db.persons, e);
    var created := PersonModel.Create(newId, e, gender, Some("User"), now);
    if existing.None? && created.Ok? {
      var p := created.value;
      assert CreateGuest(db, email, gender, newId, now).0 == db.(persons := db.persons + [p]);
      assert IdsBelow(db, newId + 1);
      AddPersonKeepsValid(db, p, newId + 1);
    } else {
      assert CreateGuest(db, email, gender, newId, now).0 == db;
    }
  }

  /** `createGuest` is idempotent on the normalised email: once it has
      succeeded, a second call with any spelling of the same email (other
      case, surrounding white space) returns the same person, flags it as
      existing and changes nothing. */
  lemma CreateGuestIdempotent(db: Db, email: string, gender: string, newId: Id, now: int,
                              email2: string, gender2: string, newId2: Id, now2: int)
    requires ValidDb(db) && IdsBelow(db, newId)
    requires CreateGuest(db, email, gender, newId, now).1.Ok?
    requires Normalize(email2) == Normalize(email)
    ensures var (db1, r1) := CreateGuest(db, email, gender, newId, now);
            CreateGuest(db1, email2, gender2, newId2, now2) == (db1, Ok(GuestResult(r1.value.user, true)))
  {
    var (db1, r1) := CreateGuest(db, email, gender, newId, now);
    CreateGuestOutcome(db, email, gender, newId, now);
    CreateGuestKeepsValid(db, email, gender, newId, now);
    var u := r1.value.user;
    PersonByOwnEmail(db1.persons, u);
    NormalizeIdempotent(email2);
  }

  // -------------------------------------------------------------- loginUser

  /** `loginUser(email)`: `!email` rejects a missing or empty email. */
  function LoginUser(db: Db, email: Option<string>): (r: Result<Person>)
    ensures r.Err? <==> email.None? || email.value == "" || PersonByEmail(db.persons, Normalize(email.value)).None?
    ensures r.Err? ==> r.error == (if email.None? || email.value == "" then EmailRequired else UserNotFound)
    ensures r.Ok? ==> r.value in db.persons && r.value.email == Normalize(email.value)
  {
    if email.None? || email.value == "" then Err(EmailRequired)
    else
      var user := PersonByEmail(db.persons, Normalize(email.value));
      if user.None? then Err(UserNotFound) else Ok(user.value)
  }

  /** Logging in with the email a guest was created with (in any spelling
      that normalises the same) finds that guest. */
  lemma LoginFindsGuest(db: Db, email: string, gender: string, newId: Id, now: int, login: string)
    requires ValidDb(db) && IdsBelow(db, newId)
    requires CreateGuest(db, email, gender, newId, now).1.Ok?
    requires login != "" && Normalize(login) == Normalize(email)
    ensures var (db1, r1) := CreateGuest(db, email, gender, newId, now);
            LoginUser(db1, Some(login)) == Ok(r1.value.user)
  {
    var (db1, r1) := CreateGuest(db, email, gender, newId, now);
    CreateGuestIdempotent(db, email, gender, newId, now, login, gender, newId, now);
  }

  // --------------------------------------------------------- updateUserName

  /** What the scan of the other users for a clashing name ends with. */
  datatype NameScan = Clash | NoClash | Crash

  /** `allUsers.find(user => user.name.toLowerCase() === key)` over the users
      other than `self`, as written: a user without a name makes
      `user.name.toLowerCase()` throw, unless a clash was found before it. */
  function ScanNamesAsWritten(ps: seq<Person>, self: Id, key: string): (r: NameScan)
  {
    if ps == [] then NoClash
    else if ps[0].id == self then ScanNamesAsWritten(ps[1..], self, key)
    else if ps[0].name.None? then Crash
    else if ToLower(ps[0].name.value) == key then Clash
    else ScanNamesAsWritten(ps[1..], self, key)
  }

  /** Another user's name equals `key` once lower-cased. */
  predicate NameTakenBy(p: Person, self: Id, key: string)
  {
    p.id != self && p.name.Some? && ToLower(p.name.value) == key
  }

  /** The scan the function evidently intends: users without a name cannot
      clash and are passed over. */
  function ScanNames(ps: seq<Person>, self: Id, key: string): (r: NameScan)
    ensures r != Crash
    ensures r == Clash <==> exists i :: 0 <= i < |ps| && NameTakenBy(ps[i], self, key)
  {
    if ps == [] then NoClash
    else if NameTakenBy(ps[0], self, key) then Clash
    else
      var r := ScanNames(ps[1..], self, key);
      assert forall i :: 1 <= i < |ps| ==> ps[i] == ps[1..][i - 1];
      r
  }

  /** `findByIdAndUpdate(id, { name })` on persons. */
  function SetName(ps: seq<Person>, id: Id, name: string): (r: seq<Person>)
    ensures |r| == |ps|
  {
    seq(|ps|, i requires 0 <= i < |ps| => if ps[i].id == id then ps[i].(name := Some(name)) else ps[i])
  }

  /** `updateUserName(id, newName)` as written. */
  function UpdateUserNameAsWritten(db: Db, id: Id, newName: Option<string>): (Db, Result<Person>)
  {
    if newName.None? || newName.value == "" || IsBlank(newName.value) then (db, Err(NameRequired))
    else
      var trimmed := Trim(newName.value);
      var scan := ScanNamesAsWritten(db.persons, id, ToLower(trimmed));
      if scan == Crash then (db, Err(TypeError))
      else if scan == Clash then (db, Err(NameTaken))
      else
        var p := PersonById(db.persons, id);
        if p.None? then (db, Err(UserNotFound))
        else (db.(persons := SetName(db.persons, id, trimmed)), Ok(p.value.(name := Some(trimmed))))
  }

  /** `updateUserName(id, newName)` with the scan passing over unnamed users. */
  function UpdateUserName(db: Db, id: Id, newName: Option<string>): (Db, Result<Person>)
  {
    if newName.None? || newName.value == "" || IsBlank(newName.value) then (db, Err(NameRequired))
    else
      var trimmed := Trim(newName.value);
      if ScanNames(db.persons, id, ToLower(trimmed)) == Clash then (db, Err(NameTaken))
      else
        var p := PersonById(db.persons, id);
        if p.None? then (db, Err(UserNotFound))
        else (db.(persons := SetName(db.persons, id, trimmed)), Ok(p.value.(name := Some(trimmed))))
  }

  method UpdateUserNameInStore(store: Store, id: Id, newName: Option<string>) returns (res: Result<Person>)
    requires store.Indexed()
    modifies store
    ensures (store.Snapshot(), res) == UpdateUserName(old(store.Snapshot()), id, newName)
    ensures store.nextId == old(store.nextId)
  {
    ghost var db := store.Snapshot();
    if newName.None? || newName.value == "" || IsBlank(newName.value) {
      return Err(NameRequired);
    }
    var trimmed := Trim(newName.value);
    if ScanNames(store.persons, id, ToLower(trimmed)) == Clash {
      return Err(NameTaken);
    }
    var i := PersonIndex(store.persons, id);
    if i.None? {
      return Err(UserNotFound);
    }
    var updated := store.persons[i.value].(name := Some(trimmed));
    assert store.persons[i.value := updated] == SetName(store.persons, id, trimmed);
    assert UpdateUserName(db, id, newName) == (db.(persons := SetName(db.persons, id, trimmed)), Ok(updated));
    store.persons := store.persons[i.value := updated];
    res := Ok(updated);
  }

  /** Renaming rejects a missing or blank name, then a trimmed name that
      equals another user's name ignoring case, then an unknown id; on
      success only that person's name changes, to the trimmed name. */
  lemma UpdateUserNameOutcome(db: Db, id: Id, newName: Option<string>)
    requires UniquePersonIds(db.persons)
    ensures var (after, r) := UpdateUserName(db, id, newName);
            && (r.Err? ==> after == db)
            && (r == Err(NameRequired) <==> newName.None? || IsBlank(newName.value))
            && (r == Err(NameTaken) <==>
                  && !(newName.None? || IsBlank(newName.value))
                  && exists i :: 0 <= i < |db.persons| && NameTakenBy(db.persons[i], id, ToLower(Trim(newName.value))))
            && (r.Ok? ==>
                  && PersonById(db.persons, id).Some?
                  && PersonById(after.persons, id) == Some(PersonById(db.persons, id).value.(name := Some(Trim(newName.value))))
                  && r.value.name == Some(Trim(newName.value))
                  && after.sentences == db.sentences && after.recordings == db.recordings
                  && forall x :: x != id ==> PersonById(after.persons, x) == PersonById(db.persons, x))
  {
    if newName.None? || newName.value == "" || IsBlank(newName.value) {
      assert UpdateUserName(db, id, newName) == (db, Err(NameRequired));
    } else {
      var t := Trim(newName.value);
      var p := PersonById(db.persons, id);
      if ScanNames(db.persons, id, ToLower(t)) == Clash {
        assert UpdateUserName(db, id, newName) == (db, Err(NameTaken));
      } else if p.None? {
        assert UpdateUserName(db, id, newName) == (db, Err(UserNotFound));
      } else {
        var after := db.(persons := SetName(db.persons, id, t));
        assert UpdateUserName(db, id, newName) == (after, Ok(p.value.(name := Some(t))));
        forall x ensures PersonById(after.persons, x)
                         == if x == id then Some(p.value.(name := Some(t))) else PersonById(db.persons, x) {
          NameWriteLookup(db.persons, id, t, x);
        }
      }
    }
  }

  /** After a name write, a lookup of the written id sees the new name and a
      lookup of any other id sees what it saw before. */
  lemma NameWriteLookup(ps: seq<Person>, id: Id, name: string, x: Id)
    ensures PersonById(SetName(ps, id, name), x)
            == if x == id && PersonById(ps, x).Some?
               then Some(PersonById(ps, x).value.(name := Some(name)))
               else PersonById(ps, x)
  {
    SetNameKeepsKeys(ps, id, name);
    SameIdsSamePersonIndex(SetName(ps, id, name), ps, x);
  }

  /** A name write keeps every person's id and email. */
  lemma SetNameKeepsKeys(ps: seq<Person>, id: Id, name: string)
    ensures forall i :: 0 <= i < |ps| ==> SetName(ps, id, name)[i].id == ps[i].id && SetName(ps, id, name)[i].email == ps[i].email
  {
  }

  /** Renaming writes at most the persons' names. */
  lemma UpdateUserNameKeepsKeys(db: Db, id: Id, newName: Option<string>)
    ensures var r := UpdateUserName(db, id, newName).0;
            && r == db.(persons := r.persons) && |r.persons| == |db.persons|
            && (forall i :: 0 <= i < |r.persons| ==> r.persons[i].id == db.persons[i].id && r.persons[i].email == db.persons[i].email)
  {
    var r := UpdateUserName(db, id, newName).0;
    if r != db {
      SetNameKeepsKeys(db.persons, id, Trim(newName.value));
    }
  }

  /** Renaming keeps the store valid: names are not constrained. */
  lemma UpdateUserNameKeepsValid(db: Db, id: Id, newName: Option<string>, n: Id)
    requires ValidDb(db) && IdsBelow(db, n)
    ensures ValidDb(UpdateUserName(db, id, newName).0) && IdsBelow(UpdateUserName(db, id, newName).0, n)
  {
    UpdateUserNameKeepsKeys(db, id, newName);
    SamePersonKeysKeepValid(db, UpdateUserName(db, id, newName).0.persons, n);
  }

  /** The as-written scan crashes whenever a user without a name comes
      before every clashing user, and otherwise agrees with the intended
      scan. */
  lemma {:induction false} ScanAsWrittenCrashes(ps: seq<Person>, self: Id, key: string)
    ensures ScanNamesAsWritten(ps, self, key) != Crash ==> ScanNamesAsWritten(ps, self, key) == ScanNames(ps, self, key)
    ensures ScanNamesAsWritten(ps, self, key) == Crash <==>
              exists i :: 0 <= i < |ps| && ps[i].id != self && ps[i].name.None?
                          && forall j :: 0 <= j < i ==> !NameTakenBy(ps[j], self, key)
  {
    if ps != [] {
      ScanAsWrittenCrashes(ps[1..], self, key);
      assert forall i :: 1 <= i < |ps| ==> ps[i] == ps[1..][i - 1];
      if ScanNamesAsWritten(ps, self, key) == Crash && ps[0].id == self {
        var i :| 0 <= i < |ps[1..]| && ps[1..][i].id != self && ps[1..][i].name.None?
                 && forall j :: 0 <= j < i ==> !NameTakenBy(ps[1..][j], self, key);
        assert forall j :: 0 <= j < i + 1 ==> !NameTakenBy(ps[j], self, key);
      }
      if ScanNamesAsWritten(ps, self, key) == Crash && ps[0].id != self && ps[0].name.Some? {
        var i :| 0 <= i < |ps[1..]| && ps[1..][i].id != self && ps[1..][i].name.None?
                 && forall j :: 0 <= j < i ==> !NameTakenBy(ps[1..][j], self, key);
        assert forall j :: 0 <= j < i + 1 ==> !NameTakenBy(ps[j], self, key);
      }
    }
  }

  /** A store with a named user and a guest (guests never get a name):
      renaming the named user to a fresh name crashes as written, while the
      intended behaviour renames it. */
  lemma RenameBesideGuestCrashes()
    ensures var named := Person(1, "a@x", Female, User, Some("ann"), 0);
            var guest := Person(2, "g@x", Male, User, None, 0);
            var db := Db([named, guest], [], []);
            && UpdateUserNameAsWritten(db, 1, Some("bo")) == (db, Err(TypeError))
            && UpdateUserName(db, 1, Some("bo")).1 == Ok(named.(name := Some("bo")))
  {
    var named := Person(1, "a@x", Female, User, Some("ann"), 0);
    var guest := Person(2, "g@x", Male, User, None, 0);
    var db := Db([named, guest], [], []);
    var bo := "bo";
    TrimOfTrimmed(bo);
    assert ToLower(bo) == bo;
    assert ToLower("ann")[0] == 'a';
    assert !NameTakenBy(named, 1, bo) && !NameTakenBy(guest, 1, bo);
    assert ScanNamesAsWritten(db.persons[1..], 1, bo) == Crash;
    assert ScanNamesAsWritten(db.persons, 1, bo) == Crash;
    assert ScanNames(db.persons[1..], 1, bo) == NoClash;
    assert ScanNames(db.persons, 1, bo) == NoClash;
    assert !IsBlank(bo);
  }

  // ------------------------------------------------------------- deleteUser

  /** `deleteUser(id)`: `findByIdAndDelete`; nothing else is removed, so the
      person's recordings and sentences stay and refer to a missing person. */
  function DeleteUser(db: Db, id: Id): (Db, Result<Person>)
  {
    var i := PersonIndex(db.persons, id);
    if i.None? then (db, Err(UserNotFound))
    else (db.(persons := db.persons[..i.value] + db.persons[i.value + 1..]), Ok(db.persons[i.value]))
  }

  method DeleteUserInStore(store: Store, id: Id) returns (res: Result<Person>)
    modifies store
    ensures (store.Snapshot(), res) == DeleteUser(old(store.Snapshot()), id)
    ensures store.nextId == old(store.nextId)
  {
    var i := PersonIndex(store.persons, id);
    if i.None? {
      return Err(UserNotFound);
    }
    res := Ok(store.persons[i.value]);
    store.persons := store.persons[..i.value] + store.persons[i.value + 1..];
  }

  /** Deleting fails on an unknown id and changes nothing; otherwise exactly
      that person is gone, every other person is still found, in the same
      order, and no recording or sentence changes. */
  lemma DeleteUserOutcome(db: Db, id: Id)
    requires UniquePersonIds(db.persons)
    ensures var (after, r) := DeleteUser(db, id);
            && (r.Err? <==> PersonById(db.persons, id).None?)
            && (r.Err? ==> after == db && r.error == UserNotFound)
            && (r.Ok? ==> r.value == PersonById(db.persons, id).value
                          && |after.persons| == |db.persons| - 1
                          && PersonById(after.persons, id).None?
                          && (forall x :: x != id ==> PersonById(after.persons, x) == PersonById(db.persons, x))
                          && after.sentences == db.sentences && after.recordings == db.recordings)
  {
    var (after, r) := DeleteUser(db, id);
    if r.Ok? {
      var i := PersonIndex(db.persons, id).value;
      forall x ensures PersonById(after.persons, x) == if x == id then None else PersonById(db.persons, x) {
        RemoveLookup(db.persons, i, x);
      }
    }
  }

  /** Removing the document at position `i` from a collection with unique ids. */
  lemma {:induction false} RemoveLookup(ps: seq<Person>, i: nat, x: Id)
    requires UniquePersonIds(ps) && i < |ps|
    ensures PersonById(ps[..i] + ps[i + 1..], x) == if x == ps[i].id then None else PersonById(ps, x)
  {
    var rest := ps[..i] + ps[i + 1..];
    if x == ps[i].id {
      assert forall k :: 0 <= k < |rest| ==> rest[k] == (if k < i then ps[k] else ps[k + 1]);
    } else if i == 0 {
      assert rest == ps[1..];
    } else {
      assert rest[1..] == ps[1..][..i - 1] + ps[1..][i..];
      RemoveLookup(ps[1..], i - 1, x);
    }
  }

  lemma DeleteUserKeepsValid(db: Db, id: Id, n: Id)
    requires ValidDb(db) && IdsBelow(db, n)
    ensures ValidDb(DeleteUser(db, id).0) && IdsBelow(DeleteUser(db, id).0, n)
  {
    var i := PersonIndex(db.persons, id);
    if i.Some? {
      assert DeleteUser(db, id).0 == db.(persons := db.persons[..i.value] + db.persons[i.value + 1..]);
      RemovePersonKeepsValid(db, i.value, n);
    } else {
      assert DeleteUser(db, id).0 == db;
    }
  }

  // ------------------------------------------------ approveRecordingsByEmail

  /** The recordings `updateMany` selects: this person's, pending, recorded
      inside the window. */
  predicate Selected(r: Recording, personId: Id, w: Window)
  {
    r.personId == personId && r.isApproved == Pending && InWindow(r.recordedAt, w)
  }

  /** `updateMany(query, { $set: { isApproved: 1 } })`. */
  function ApprovePending(rs: seq<Recording>, personId: Id, w: Window): (r: seq<Recording>)
    ensures |r| == |rs|
    ensures forall i :: 0 <= i < |rs| ==>
              r[i] == if Selected(rs[i], personId, w) then rs[i].(isApproved := Approved) else rs[i]
  {
    seq(|rs|, i requires 0 <= i < |rs| => if Selected(rs[i], personId, w) then rs[i].(isApproved := Approved) else rs[i])
  }

  /** The number of recordings `updateMany` matches. */
  function CountSelected(rs: seq<Recording>, personId: Id, w: Window): (n: nat)
    ensures n <= |rs|
  {
    if rs == [] then 0
    else (if Selected(rs[0], personId, w) then 1 else 0) + CountSelected(rs[1..], personId, w)
  }

  /** `approveRecordingsByEmail(email, { fromDate, toDate })`: the query
      value `email.toLowerCase()` is cast through the email path's `trim` and
      `lowercase` setters, so the lookup key is the normalised email; the
      result is the matched count. */
  function ApproveRecordingsByEmail(db: Db, email: Option<string>, w: Window): (Db, Result<nat>)
  {
    if email.None? || email.value == "" then (db, Err(EmailRequired))
    else
      var user := PersonByEmail(db.persons, Normalize(email.value));
      if user.None? then (db, Err(UserNotFound))
      else (db.(recordings := ApprovePending(db.recordings, user.value.id, w)),
            Ok(CountSelected(db.recordings, user.value.id, w)))
  }

  method ApproveRecordingsByEmailInStore(store: Store, email: Option<string>, w: Window) returns (res: Result<nat>)
    modifies store
    ensures (store.Snapshot(), res) == ApproveRecordingsByEmail(old(store.Snapshot()), email, w)
    ensures store.nextId == old(store.nextId)
  {
    if email.None? || email.value == "" {
      return Err(EmailRequired);
    }
    var user := PersonByEmail(store.persons, Normalize(email.value));
    if user.None? {
      return Err(UserNotFound);
    }
    var before := store.recordings;
    store.recordings := ApprovePending(store.recordings, user.value.id, w);
    res := Ok(CountSelected(before, user.value.id, w));
  }

  /** Bulk approval: a missing or empty email, or one no person has once
      trimmed and lower-cased, fails and changes nothing. Otherwise exactly that person's
      pending recordings inside the window become approved, the count is
      their number, and no other document changes. */
  lemma ApproveRecordingsByEmailOutcome(db: Db, email: Option<string>, w: Window)
    ensures var (after, r) := ApproveRecordingsByEmail(db, email, w);
            && (r.Err? ==> after == db)
            && (r == Err(EmailRequired) <==> email.None? || email.value == "")
            && (r == Err(UserNotFound) <==> email.Some? && email.value != ""
                                             && forall i :: 0 <= i < |db.persons| ==> db.persons[i].email != Normalize(email.value))
            && (r.Ok? ==>
                  var pid := PersonByEmail(db.persons, Normalize(email.value)).value.id;
                  && after.persons == db.persons && after.sentences == db.sentences
                  && |after.recordings| == |db.recordings|
                  && (forall i :: 0 <= i < |db.recordings| ==>
                        && after.recordings[i].id == db.recordings[i].id
                        && after.recordings[i].isApproved
                           == (if Selected(db.recordings[i], pid, w) then Approved else db.recordings[i].isApproved))
                  && r.value == CountSelected(db.recordings, pid, w)
                  && CountSelected(after.recordings, pid, w) == 0)
  {
    var (after, r) := ApproveRecordingsByEmail(db, email, w);
    if r.Ok? {
      var pid := PersonByEmail(db.persons, Normalize(email.value)).value.id;
      NoneLeftPending(db.recordings, pid, w);
    }
  }

  /** After the bulk approval no recording is left that it would select. */
  lemma {:induction false} NoneLeftPending(rs: seq<Recording>, pid: Id, w: Window)
    ensures CountSelected(ApprovePending(rs, pid, w), pid, w) == 0
  {
    if rs != [] {
      assert ApprovePending(rs, pid, w)[1..] == ApprovePending(rs[1..], pid, w);
      NoneLeftPending(rs[1..], pid, w);
    }
  }

  /** Any spelling of a stored person's email, padded with white space or
      in another case, selects that person: the approval succeeds and counts
      their pending recordings in the window. */
  lemma AnySpellingApproves(db: Db, p: Person, email: string, w: Window)
    requires ValidDb(db) && p in db.persons && Normalize(email) == p.email
    ensures ApproveRecordingsByEmail(db, Some(email), w).1 == Ok(CountSelected(db.recordings, p.id, w))
  {
    PersonByOwnEmail(db.persons, p);
    assert email != "" by {
      var i :| 0 <= i < |db.persons| && db.persons[i] == p;
      assert PersonModel.Valid(db.persons[i]);
    }
  }
}

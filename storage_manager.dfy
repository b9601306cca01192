/**
 * The storage manager: a process-wide selector between the two backends
 * that starts uninitialized, installs one backend on `Initialize`, and on
 * `SwitchStorage` moves to the other kind, copying the notes over.
 */
module StorageManager {
  import opened Notes
  import opened Wrappers
  import opened Media
  import opened JsonFileBackend
  import opened SharedPrefsBackend
  import opened StorageInterface

  datatype StorageType = SharedPrefs | JsonFile

  /** The kind a switch moves to. */
  function Other(t: StorageType): (r: StorageType)
    ensures r != t
  {
    if t == SharedPrefs then JsonFile else SharedPrefs
  }

  /** Switching twice returns to the kind one started from. */
  lemma OtherInvolutive(t: StorageType)
    ensures Other(Other(t)) == t
  {
  }

  /** The kind of backend behind a handle. */
  function KindOf(s: Storage): StorageType
  {
    match s
    case Prefs(_) => SharedPrefs
    case File(_) => JsonFile
  }

  /** The label a backend reports identifies its kind. */
  lemma LabelDeterminesKind(a: Storage, b: Storage)
    ensures a.GetStorageType() == b.GetStorageType() <==> KindOf(a) == KindOf(b)
  {
    assert |"SharedPreferences"| != |"JSON File"|;
  }

  /**
   * The notes among the first `i` of `notes` whose migration save succeeded,
   * in their original order.
   */
  function Migrated(notes: seq<Note>, outcome: nat -> Outcome, i: nat): seq<Note>
    requires i <= |notes|
  {
    if i == 0 then []
    else Migrated(notes, outcome, i - 1) + (if outcome(i - 1).Succeeds? then [notes[i - 1]] else [])
  }

  /** When every save succeeds, all notes are migrated, in order. */
  lemma {:induction false} MigratedAllSucceeded(notes: seq<Note>, outcome: nat -> Outcome, i: nat)
    requires i <= |notes|
    requires forall j :: 0 <= j < i ==> outcome(j).Succeeds?
    ensures Migrated(notes, outcome, i) == notes[..i]
  {
    if i > 0 {
      MigratedAllSucceeded(notes, outcome, i - 1);
      assert notes[..i] == notes[..i - 1] + [notes[i - 1]];
    }
  }

  /** A migration keeps at most the notes it was given. */
  lemma {:induction false} MigratedLength(notes: seq<Note>, outcome: nat -> Outcome, i: nat)
    requires i <= |notes|
    ensures |Migrated(notes, outcome, i)| <= i
    ensures forall n :: n in Migrated(notes, outcome, i) ==> n in notes[..i]
  {
    if i > 0 {
      MigratedLength(notes, outcome, i - 1);
      assert notes[..i] == notes[..i - 1] + [notes[i - 1]];
    }
  }

  /** Builds the backend for kind `t` on `context`; the file backend's `init` runs. */
  method CreateStorage(context: Context, t: StorageType) returns (s: Storage)
    modifies context`filesDir
    ensures KindOf(s) == t && s.Ctx() == context && fresh(s.Backend())
    ensures t == SharedPrefs || FileName in old(context.filesDir) ==> context.filesDir == old(context.filesDir)
    ensures t == JsonFile && FileName !in old(context.filesDir) ==>
              context.filesDir == old(context.filesDir)[FileName := Text(ToJson([]))] && s.GetAllNotes() == []
  {
    match t
    case SharedPrefs =>
      var p := new SharedPrefsStorage(context);
      s := Prefs(p);
    case JsonFile =>
      var f := new JsonFileStorage(context);
      s := File(f);
  }

  /**
   * None of the first `n` saves leaves a torn file behind: the destination is
   * the preference store, whose edits are all-or-nothing, or no save is
   * interrupted while overwriting the file.
   */
  predicate NoTornWrite(storage: Storage, saveOutcome: nat -> Outcome, n: nat)
  {
    storage.Prefs? || forall j :: 0 <= j < n ==> !saveOutcome(j).FailsDuringWrite?
  }

  /** One save extends the migrated prefix by the note if it succeeded, and by nothing otherwise. */
  lemma MigratedStep(notes: seq<Note>, outcome: nat -> Outcome, i: nat,
                     before: seq<Note>, was: seq<Note>, now: seq<Note>)
    requires i < |notes|
    requires was == before + Migrated(notes, outcome, i)
    requires now == if outcome(i).Succeeds? then was + [notes[i]] else was
    ensures now == before + Migrated(notes, outcome, i + 1)
  {
    if outcome(i).Succeeds? {
      assert (before + Migrated(notes, outcome, i)) + [notes[i]] == before + (Migrated(notes, outcome, i) + [notes[i]]);
    } else {
      assert Migrated(notes, outcome, i) + [] == Migrated(notes, outcome, i);
    }
  }

  /**
   * The migration loop: saves each of `notes` into `storage` in order,
   * ignoring the results. Unless an interrupted file overwrite leaves a
   * residue, the collection grows by exactly the notes whose save succeeded.
   */
  method SaveEach(storage: Storage, notes: seq<Note>, saveOutcome: nat -> Outcome)
    modifies storage.Ctx()
    ensures storage.KeepsRest(old(storage.Ctx().filesDir), old(storage.Ctx().notesAppPrefs),
                              storage.Ctx().filesDir, storage.Ctx().notesAppPrefs)
    ensures NoTornWrite(storage, saveOutcome, |notes|) ==>
              storage.GetAllNotes() == old(storage.GetAllNotes()) + Migrated(notes, saveOutcome, |notes|)
  {
    ghost var before := storage.GetAllNotes();
    ghost var c := storage.Ctx();
    ghost var files0, prefs0 := c.filesDir, c.notesAppPrefs;
    for i := 0 to |notes|
      invariant storage.KeepsRest(files0, prefs0, c.filesDir, c.notesAppPrefs)
      invariant NoTornWrite(storage, saveOutcome, i) ==> storage.GetAllNotes() == before + Migrated(notes, saveOutcome, i)
    {
      SaveNext(storage, notes, saveOutcome, i, before, files0, prefs0);
    }
  }

  /** One pass of the migration loop: saves `notes[i]`, ignoring the result. */
  method SaveNext(storage: Storage, notes: seq<Note>, saveOutcome: nat -> Outcome, i: nat,
                  ghost before: seq<Note>, ghost files0: map<string, FileBody>, ghost prefs0: map<string, Json>)
    requires i < |notes|
    requires storage.KeepsRest(files0, prefs0, storage.Ctx().filesDir, storage.Ctx().notesAppPrefs)
    requires NoTornWrite(storage, saveOutcome, i) ==> storage.GetAllNotes() == before + Migrated(notes, saveOutcome, i)
    modifies storage.Ctx()
    ensures storage.KeepsRest(files0, prefs0, storage.Ctx().filesDir, storage.Ctx().notesAppPrefs)
    ensures NoTornWrite(storage, saveOutcome, i + 1) ==>
              storage.GetAllNotes() == before + Migrated(notes, saveOutcome, i + 1)
  {
    ghost var was := storage.GetAllNotes();
    var _ := storage.SaveNote(notes[i], saveOutcome(i));
    if NoTornWrite(storage, saveOutcome, i + 1) {
      MigratedStep(notes, saveOutcome, i, before, was, storage.GetAllNotes());
    }
  }

  /**
   * The copying half of a switch: builds the backend of kind `t` on
   * `context`, clears it, and saves `notes` into it one by one, ignoring
   * every result. Only that backend's notes file or notes key changes.
   */
  method Migrate(context: Context, t: StorageType, notes: seq<Note>, clearOutcome: Outcome, saveOutcome: nat -> Outcome)
    returns (storage: Storage)
    modifies context
    ensures KindOf(storage) == t && storage.Ctx() == context && fresh(storage.Backend())
    ensures storage.KeepsRest(old(context.filesDir), old(context.notesAppPrefs), context.filesDir, context.notesAppPrefs)
    ensures clearOutcome.Succeeds? && NoTornWrite(storage, saveOutcome, |notes|) ==>
              storage.GetAllNotes() == Migrated(notes, saveOutcome, |notes|)
  {
    storage := CreateStorage(context, t);
    var _ := storage.DeleteAllNotes(clearOutcome);
    SaveEach(storage, notes, saveOutcome);
  }

  class StorageManager {
    var currentStorageType: StorageType
    /** `None` until initialized (Kotlin's `lateinit`). */
    var currentStorage: Option<Storage>

    /** The recorded kind and the installed backend agree. */
    ghost predicate Valid()
      reads this
    {
      currentStorage.Some? ==> KindOf(currentStorage.value) == currentStorageType
    }

    /** The singleton's state at process start. */
    constructor ()
      ensures Valid()
      ensures currentStorageType == SharedPrefs && currentStorage == None
    {
      currentStorageType := SharedPrefs;
      currentStorage := None;
    }

    /** Installs a backend of kind `storageType` (by default the preference store). */
    method Initialize(context: Context, storageType: StorageType := SharedPrefs)
      modifies this, context`filesDir
      ensures Valid()
      ensures currentStorageType == storageType && currentStorage.Some?
      ensures currentStorage.value.Ctx() == context && fresh(currentStorage.value.Backend())
      ensures storageType == SharedPrefs || FileName in old(context.filesDir) ==>
                context.filesDir == old(context.filesDir)
      ensures storageType == JsonFile && FileName !in old(context.filesDir) ==>
                context.filesDir == old(context.filesDir)[FileName := Text(ToJson([]))] &&
                currentStorage.value.GetAllNotes() == []
    {
      currentStorageType := storageType;
      var s := CreateStorage(context, storageType);
      currentStorage := Some(s);
    }

    /**
     * Reads every note from the active backend, switches to the other kind,
     * builds its backend on `context`, clears it and saves the notes into it
     * one by one, ignoring every result. `clearOutcome` and `saveOutcome(i)`
     * say how the clear and the i-th save fare on the medium.
     */
    method SwitchStorage(context: Context, clearOutcome: Outcome, saveOutcome: nat -> Outcome)
      requires Valid() && currentStorage.Some?
      modifies this, context
      ensures Valid() && currentStorage.Some?
      ensures currentStorageType == Other(old(currentStorageType))
      ensures currentStorage.value.Ctx() == context && fresh(currentStorage.value.Backend())
      ensures old(currentStorage.value).GetAllNotes() == old(currentStorage.value.GetAllNotes())
      ensures var prev := old(currentStorage.value);
              prev.Prefs? ==> prev.Ctx().notesAppPrefs == old(prev.Ctx().notesAppPrefs)
      ensures var prev := old(currentStorage.value);
              prev.File? ==> prev.Ctx().filesDir == old(prev.Ctx().filesDir)
      ensures currentStorage.value.KeepsRest(old(context.filesDir), old(context.notesAppPrefs),
                                             context.filesDir, context.notesAppPrefs)
      ensures var notes := old(currentStorage.value.GetAllNotes());
              clearOutcome.Succeeds? && NoTornWrite(currentStorage.value, saveOutcome, |notes|) ==>
                currentStorage.value.GetAllNotes() == Migrated(notes, saveOutcome, |notes|)
      ensures var notes := old(currentStorage.value.GetAllNotes());
              clearOutcome.Succeeds? && (forall j :: 0 <= j < |notes| ==> saveOutcome(j).Succeeds?) ==>
                currentStorage.value.GetAllNotes() == notes
    {
      var notes := currentStorage.value.GetAllNotes();
      ghost var previous := currentStorage.value;

      currentStorageType := Other(currentStorageType);

      var storage := Migrate(context, currentStorageType, notes, clearOutcome, saveOutcome);
      currentStorage := Some(storage);
      if forall j :: 0 <= j < |notes| ==> saveOutcome(j).Succeeds? {
        MigratedAllSucceeded(notes, saveOutcome, |notes|);
        assert notes[..|notes|] == notes;
      }
    }

    /** The active backend, or the "not initialized" error before `Initialize`. */
    method GetStorage() returns (r: Result<Storage>)
      ensures r.Success? <==> currentStorage.Some?
      ensures r.Success? ==> r.value == currentStorage.value
      ensures r.Failure? ==> r.error == "StorageManager not initialized. Call initialize() first."
    {
      if currentStorage.None? {
        return Failure("StorageManager not initialized. Call initialize() first.");
      }
      r := Success(currentStorage.value);
    }

    /** The active backend's label, which always matches the recorded kind. */
    function GetCurrentStorageType(): (r: string)
      reads this
      requires Valid() && currentStorage.Some?
      ensures r == if currentStorageType == SharedPrefs then "SharedPreferences" else "JSON File"
    {
      currentStorage.value.GetStorageType()
    }
  }
}

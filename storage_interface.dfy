/**
 * The storage contract shared by the two backends. A handle is one of exactly
 * two implementations; each operation dispatches to it and promises the same
 * effect on the persisted collection, whichever medium holds it.
 */
module StorageInterface {
  import opened Notes
  import opened Media
  import opened StorageContract
  import opened JsonFileBackend
  import opened SharedPrefsBackend

  /** The two maps agree everywhere except perhaps at `key`. */
  predicate SameBut<V(==)>(m0: map<string, V>, m1: map<string, V>, key: string)
  {
    m1 - {key} == m0 - {key}
  }

  datatype Storage = Prefs(prefs: SharedPrefsStorage) | File(file: JsonFileStorage)
  {
    /** The context whose medium this backend uses. */
    function Ctx(): Context
    {
      match this
      case Prefs(p) => p.context
      case File(f) => f.context
    }

    /** The backend object behind the handle. */
    function Backend(): object
    {
      match this
      case Prefs(p) => p
      case File(f) => f
    }

    /**
     * Between two states of the context, nothing changed but this backend's
     * notes file or notes key: the other medium is untouched, and so is every
     * other file or preference of its own medium.
     */
    predicate KeepsRest(files0: map<string, FileBody>, prefs0: map<string, Json>,
                        files1: map<string, FileBody>, prefs1: map<string, Json>)
    {
      match this
      case Prefs(_) => files1 == files0 && SameBut(prefs0, prefs1, NotesKey)
      case File(_) => prefs1 == prefs0 && SameBut(files0, files1, FileName)
    }

    /** The persisted collection: empty when the medium is absent, empty or unreadable. */
    function GetAllNotes(): (r: seq<Note>)
      reads Ctx()
      ensures Prefs? ==> r == ReadNotesKey(Ctx().notesAppPrefs)
      ensures File? ==> r == ReadNotesFile(Ctx().filesDir)
    {
      match this
      case Prefs(p) => p.GetAllNotes()
      case File(f) => f.GetAllNotes()
    }

    /** The label of the medium; the two backends have different labels. */
    function GetStorageType(): (r: string)
      ensures r == if Prefs? then "SharedPreferences" else "JSON File"
    {
      match this
      case Prefs(p) => p.GetStorageType()
      case File(f) => f.GetStorageType()
    }

    /**
     * Appends `note`; true exactly when the write completed. A failed write
     * leaves the collection as it was, except that an interrupted file
     * overwrite may leave its residue. The other medium is never touched.
     */
    method SaveNote(note: Note, outcome: Outcome) returns (ok: bool)
      modifies Ctx()
      ensures ok <==> outcome.Succeeds?
      ensures ok ==> GetAllNotes() == old(GetAllNotes()) + [note]
      ensures !ok && (Prefs? || outcome.FailsBeforeWrite?) ==> GetAllNotes() == old(GetAllNotes())
      ensures KeepsRest(old(Ctx().filesDir), old(Ctx().notesAppPrefs), Ctx().filesDir, Ctx().notesAppPrefs)
    {
      match this
      case Prefs(p) => ok := p.SaveNote(note, outcome);
      case File(f) => ok := f.SaveNote(note, outcome);
    }

    /**
     * Removes every note with id `noteId`; true exactly when one had it and
     * the rewrite completed. A non-matching id writes nothing.
     */
    method DeleteNote(noteId: string, outcome: Outcome) returns (ok: bool)
      modifies Ctx()
      ensures ok <==> HasId(old(GetAllNotes()), noteId) && outcome.Succeeds?
      ensures ok ==> GetAllNotes() == WithoutId(old(GetAllNotes()), noteId)
      ensures !ok && (Prefs? || outcome.FailsBeforeWrite?) ==> GetAllNotes() == old(GetAllNotes())
      ensures !HasId(old(GetAllNotes()), noteId) ==>
                Ctx().filesDir == old(Ctx().filesDir) && Ctx().notesAppPrefs == old(Ctx().notesAppPrefs)
      ensures KeepsRest(old(Ctx().filesDir), old(Ctx().notesAppPrefs), Ctx().filesDir, Ctx().notesAppPrefs)
    {
      match this
      case Prefs(p) => ok := p.DeleteNote(noteId, outcome);
      case File(f) => ok := f.DeleteNote(noteId, outcome);
    }

    /** Empties the collection; true exactly when the write completed. */
    method DeleteAllNotes(outcome: Outcome) returns (ok: bool)
      modifies Ctx()
      ensures ok <==> outcome.Succeeds?
      ensures ok ==> GetAllNotes() == []
      ensures !ok && (Prefs? || outcome.FailsBeforeWrite?) ==> GetAllNotes() == old(GetAllNotes())
      ensures KeepsRest(old(Ctx().filesDir), old(Ctx().notesAppPrefs), Ctx().filesDir, Ctx().notesAppPrefs)
    {
      match this
      case Prefs(p) => ok := p.DeleteAllNotes(outcome);
      case File(f) => ok := f.DeleteAllNotes(outcome);
    }
  }
}

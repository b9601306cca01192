/**
 * The file backend: the whole collection is one Gson document in the file
 * "notes.json" of the app's private files directory, rewritten in full by
 * every change.
 */
module JsonFileBackend {
  import opened Notes
  import opened Wrappers
  import opened Media
  import opened StorageContract

  const FileName: string := "notes.json"

  /** The notes `getAllNotes` reads from a files directory. */
  function ReadNotesFile(files: map<string, FileBody>): seq<Note>
  {
    if FileName !in files then []
    else match files[FileName]
      case ZeroLength => []
      case Text(json) =>
        match FromJson(json)
        case Some(notes) => notes
        case None => []
  }

  /**
   * The files directory after an attempt to overwrite the notes file with
   * `notes`. `writeText` is not atomic, so a failure while writing leaves
   * whatever residue the interrupted write produced.
   */
  function WriteNotesFile(files: map<string, FileBody>, notes: seq<Note>, outcome: Outcome): map<string, FileBody>
  {
    match outcome
    case Succeeds => files[FileName := Text(ToJson(notes))]
    case FailsBeforeWrite => files
    case FailsDuringWrite(residue) => files[FileName := residue]
  }

  /** A completed write is read back as exactly the list written. */
  lemma ReadAfterWrite(files: map<string, FileBody>, notes: seq<Note>)
    ensures ReadNotesFile(WriteNotesFile(files, notes, Succeeds)) == notes
  {
  }

  /** A missing, zero-length or unparsable file reads as the empty collection. */
  lemma ReadUnreadable(files: map<string, FileBody>)
    requires FileName !in files || files[FileName] == ZeroLength || files[FileName] == Text(Garbled)
    ensures ReadNotesFile(files) == []
  {
  }

  /** No other file of the directory is created, removed or changed by a write. */
  lemma WriteTouchesOnlyNotesFile(files: map<string, FileBody>, notes: seq<Note>, outcome: Outcome, name: string)
    requires name != FileName
    ensures name in WriteNotesFile(files, notes, outcome) <==> name in files
    ensures name in files ==> WriteNotesFile(files, notes, outcome)[name] == files[name]
  {
  }

  /** Saving into an unreadable file replaces its contents with just the new note. */
  lemma SaveOnUnreadableFile(files: map<string, FileBody>, note: Note)
    requires FileName in files && files[FileName] == Text(Garbled)
    ensures ReadNotesFile(WriteNotesFile(files, ReadNotesFile(files) + [note], Succeeds)) == [note]
  {
  }

  /** Deleting everything twice leaves the directory as deleting once does. */
  lemma DeleteAllIdempotent(files: map<string, FileBody>)
    ensures var once := WriteNotesFile(files, [], Succeeds);
            WriteNotesFile(once, [], Succeeds) == once && ReadNotesFile(once) == []
  {
  }

  class JsonFileStorage {
    const context: Context

    /** The `init` block: a missing file is created and given the empty list. */
    constructor (context: Context)
      modifies context`filesDir
      ensures this.context == context
      ensures FileName in context.filesDir
      ensures FileName in old(context.filesDir) ==> context.filesDir == old(context.filesDir)
      ensures FileName !in old(context.filesDir) ==>
                context.filesDir == old(context.filesDir)[FileName := Text(ToJson([]))] &&
                GetAllNotes() == []
    {
      this.context := context;
      new;
      if FileName !in context.filesDir {
        context.filesDir := context.filesDir[FileName := ZeroLength];
        var _ := SaveAllNotes([], Succeeds);
      }
    }

    /**
     * The persisted collection; the empty list when the file is missing,
     * zero-length or cannot be parsed. It never fails.
     */
    function GetAllNotes(): (r: seq<Note>)
      reads context
      ensures (FileName !in context.filesDir || context.filesDir[FileName] in {ZeroLength, Text(Garbled)}) ==> r == []
      ensures forall notes :: FileName in context.filesDir && context.filesDir[FileName] == Text(Encoded(notes)) ==> r == notes
    {
      ReadNotesFile(context.filesDir)
    }

    /** Appends `note` (duplicates allowed) and rewrites the file; false on a fault. */
    method SaveNote(note: Note, outcome: Outcome) returns (ok: bool)
      modifies context`filesDir
      ensures ok <==> outcome.Succeeds?
      ensures context.filesDir == WriteNotesFile(old(context.filesDir), old(GetAllNotes()) + [note], outcome)
      ensures ok ==> GetAllNotes() == old(GetAllNotes()) + [note]
      ensures outcome.FailsBeforeWrite? ==> context.filesDir == old(context.filesDir)
    {
      var notes := GetAllNotes();
      notes := notes + [note];
      ok := SaveAllNotes(notes, outcome);
    }

    /**
     * Removes every note with id `noteId`. The file is rewritten only when
     * some note matched; the result is true exactly when one matched and the
     * rewrite completed.
     */
    method DeleteNote(noteId: string, outcome: Outcome) returns (ok: bool)
      modifies context`filesDir
      ensures ok <==> HasId(old(GetAllNotes()), noteId) && outcome.Succeeds?
      ensures !HasId(old(GetAllNotes()), noteId) ==> context.filesDir == old(context.filesDir)
      ensures HasId(old(GetAllNotes()), noteId) ==>
                context.filesDir == WriteNotesFile(old(context.filesDir), WithoutId(old(GetAllNotes()), noteId), outcome)
      ensures ok ==> GetAllNotes() == WithoutId(old(GetAllNotes()), noteId)
      ensures ok || !HasId(old(GetAllNotes()), noteId) ==> !HasId(GetAllNotes(), noteId)
    {
      var notes := GetAllNotes();
      var kept, removed := RemoveAll(notes, noteId);
      ok := false;
      if removed {
        var completed := SaveAllNotes(kept, outcome);
        ok := completed;
      }
    }

    /** Overwrites the file with the empty list; false on a fault. */
    method DeleteAllNotes(outcome: Outcome) returns (ok: bool)
      modifies context`filesDir
      ensures ok <==> outcome.Succeeds?
      ensures context.filesDir == WriteNotesFile(old(context.filesDir), [], outcome)
      ensures ok ==> GetAllNotes() == []
    {
      ok := SaveAllNotes([], outcome);
    }

    /** The backend's display label. */
    function GetStorageType(): (r: string)
      ensures r == "JSON File"
    {
      "JSON File"
    }

    /** Serializes `notes` and overwrites the file; `completed` is false when it throws. */
    method SaveAllNotes(notes: seq<Note>, outcome: Outcome) returns (completed: bool)
      modifies context`filesDir
      ensures completed <==> outcome.Succeeds?
      ensures context.filesDir == WriteNotesFile(old(context.filesDir), notes, outcome)
    {
      match outcome
      case Succeeds =>
        var json := ToJson(notes);
        context.filesDir := context.filesDir[FileName := Text(json)];
        completed := true;
      case FailsBeforeWrite =>
        completed := false;
      case FailsDuringWrite(residue) =>
        context.filesDir := context.filesDir[FileName := residue];
        completed := false;
    }
  }
}

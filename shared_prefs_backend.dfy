/**
 * The preference-store backend: the whole collection is one Gson string
 * under the key "notes_list" of the "NotesAppPrefs" preferences, replaced in
 * full by every change. A preferences edit is applied as a whole or not at
 * all, and its commit is modelled as immediate.
 */
module SharedPrefsBackend {
  import opened Notes
  import opened Wrappers
  import opened Media
  import opened StorageContract

  const NotesKey: string := "notes_list"

  /** The notes `getAllNotes` reads from the preferences. */
  function ReadNotesKey(prefs: map<string, Json>): seq<Note>
  {
    if NotesKey !in prefs then []
    else match FromJson(prefs[NotesKey])
      case Some(notes) => notes
      case None => []
  }

  /** The preferences after an attempted `putString` of `notes` under the key. */
  function PutNotes(prefs: map<string, Json>, notes: seq<Note>, outcome: Outcome): map<string, Json>
  {
    if outcome.Succeeds? then prefs[NotesKey := ToJson(notes)] else prefs
  }

  /** The preferences after an attempted `remove` of the key. */
  function RemoveNotes(prefs: map<string, Json>, outcome: Outcome): map<string, Json>
  {
    if outcome.Succeeds? then prefs - {NotesKey} else prefs
  }

  /** A completed put is read back as exactly the list put. */
  lemma ReadAfterPut(prefs: map<string, Json>, notes: seq<Note>)
    ensures ReadNotesKey(PutNotes(prefs, notes, Succeeds)) == notes
  {
  }

  /** An absent or unparsable value reads as the empty collection. */
  lemma ReadUnreadable(prefs: map<string, Json>)
    requires NotesKey !in prefs || prefs[NotesKey] == Garbled
    ensures ReadNotesKey(prefs) == []
  {
  }

  /** No other preference is created, removed or changed by a put or a remove. */
  lemma EditsTouchOnlyNotesKey(prefs: map<string, Json>, notes: seq<Note>, outcome: Outcome, key: string)
    requires key != NotesKey
    ensures key in PutNotes(prefs, notes, outcome) <==> key in prefs
    ensures key in RemoveNotes(prefs, outcome) <==> key in prefs
    ensures key in prefs ==> PutNotes(prefs, notes, outcome)[key] == prefs[key] &&
                             RemoveNotes(prefs, outcome)[key] == prefs[key]
  {
  }

  /**
   * After the key is removed the collection reads as empty, removing it again
   * changes nothing, and no id is found for a later delete to remove.
   */
  lemma AfterRemoveNotes(prefs: map<string, Json>, id: string)
    ensures var gone := RemoveNotes(prefs, Succeeds);
            NotesKey !in gone && ReadNotesKey(gone) == [] &&
            RemoveNotes(gone, Succeeds) == gone && !HasId(ReadNotesKey(gone), id)
  {
  }

  class SharedPrefsStorage {
    const context: Context

    constructor (context: Context)
      ensures this.context == context
    {
      this.context := context;
    }

    /** The persisted collection; the empty list when the key is absent or its value cannot be parsed. */
    function GetAllNotes(): (r: seq<Note>)
      reads context
      ensures (NotesKey !in context.notesAppPrefs || context.notesAppPrefs[NotesKey] == Garbled) ==> r == []
      ensures forall notes :: NotesKey in context.notesAppPrefs && context.notesAppPrefs[NotesKey] == Encoded(notes) ==> r == notes
    {
      ReadNotesKey(context.notesAppPrefs)
    }

    /** Appends `note` (duplicates allowed) and puts the whole list back; false on a fault. */
    method SaveNote(note: Note, outcome: Outcome) returns (ok: bool)
      modifies context`notesAppPrefs
      ensures ok <==> outcome.Succeeds?
      ensures context.notesAppPrefs == PutNotes(old(context.notesAppPrefs), old(GetAllNotes()) + [note], outcome)
      ensures ok ==> GetAllNotes() == old(GetAllNotes()) + [note]
      ensures !ok ==> context.notesAppPrefs == old(context.notesAppPrefs)
    {
      var notes := GetAllNotes();
      notes := notes + [note];
      ok := SaveAllNotes(notes, outcome);
    }

    /**
     * Removes every note with id `noteId`, writing only when some note
     * matched; true exactly when one matched and the put completed.
     */
    method DeleteNote(noteId: string, outcome: Outcome) returns (ok: bool)
      modifies context`notesAppPrefs
      ensures ok <==> HasId(old(GetAllNotes()), noteId) && outcome.Succeeds?
      ensures ok ==> context.notesAppPrefs == PutNotes(old(context.notesAppPrefs), WithoutId(old(GetAllNotes()), noteId), outcome)
      ensures !ok ==> context.notesAppPrefs == old(context.notesAppPrefs)
      ensures ok ==> GetAllNotes() == WithoutId(old(GetAllNotes()), noteId)
      ensures ok || !HasId(old(GetAllNotes()), noteId) ==> !HasId(GetAllNotes(), noteId)
    {
      var notes := GetAllNotes();
      var kept, removed := RemoveAll(notes, noteId);
      ok := false;
      if removed {
        var completed := SaveAllNotes(kept, outcome);
        ok := completed;
      }
    }

    /** Removes the key rather than storing an empty list; false on a fault. */
    method DeleteAllNotes(outcome: Outcome) returns (ok: bool)
      modifies context`notesAppPrefs
      ensures ok <==> outcome.Succeeds?
      ensures context.notesAppPrefs == RemoveNotes(old(context.notesAppPrefs), outcome)
      ensures ok ==> NotesKey !in context.notesAppPrefs && GetAllNotes() == []
    {
      if outcome.Succeeds? {
        context.notesAppPrefs := context.notesAppPrefs - {NotesKey};
        ok := true;
      } else {
        ok := false;
      }
    }

    /** The backend's display label. */
    function GetStorageType(): (r: string)
      ensures r == "SharedPreferences"
    {
      "SharedPreferences"
    }

    /** Serializes `notes` and puts it under the key; `completed` is false when it throws. */
    method SaveAllNotes(notes: seq<Note>, outcome: Outcome) returns (completed: bool)
      modifies context`notesAppPrefs
      ensures completed <==> outcome.Succeeds?
      ensures context.notesAppPrefs == PutNotes(old(context.notesAppPrefs), notes, outcome)
    {
      if outcome.Succeeds? {
        var json := ToJson(notes);
        context.notesAppPrefs := context.notesAppPrefs[NotesKey := json];
        completed := true;
      } else {
        completed := false;
      }
    }
  }
}

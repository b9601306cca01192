# NotesApp storage layer in Dafny

This project models the persistence layer of the NotesApp Android application:

- the `Note` record and its display helpers;
- the storage contract (`StorageInterface`: save, get all, delete one, delete all, label);
- its two backends:
  - `JsonFileStorage` keeps the whole collection as one Gson document in `notes.json`;
  - `SharedPrefsStorage` keeps it as one Gson string under the key `notes_list` of the `NotesAppPrefs` preferences;
- the `StorageManager` singleton, which installs one backend and switches to the other, migrating the notes.

Both backends read the whole collection, change it in memory and write the whole collection back.

Modules (`Notes`, the two backend modules, `StorageInterface` and `StorageManager` follow the source files; `Media`, `StorageContract` and `Wrappers` are shared model pieces):

- `Notes` (`notes.dfy`): the `Note` datatype, `GetDisplayTitle`, `GetContentPreview`.
- `Media` (`media.dfy`): stand-ins for Gson and for the Android context.
  - `Json` is either `Encoded(notes)`, which Gson parses back to the same list, or `Garbled`, which Gson cannot parse.
  - A file is either zero-length or holds some `Json` text.
  - `Context` is a shared object holding two maps: the app's files directory and its `NotesAppPrefs` preferences. Backends are re-created on every switch, and this lets a re-created backend still see the data on its medium. One `Context` object stands for the app's whole storage: on Android every context of the app shares the same files directory and preferences, so all backends and all switches are meant to use the same `Context` object, and frame facts about a second, separate `Context` have no counterpart in the app.
  - `Outcome` is what one attempted write does: it completes, it throws before writing, or it throws partway through an in-place file overwrite and leaves a residue.
- `Wrappers` (`wrappers.dfy`): `Option` and `Result`.
- `StorageContract` (`storage_contract.dfy`): the effect of delete-by-id on a sequence (`WithoutId`, `HasId`), its lemmas, and `RemoveAll`, a loop that models Kotlin's `removeAll`.
- `JsonFileBackend`, `SharedPrefsBackend`: the two backend classes over the shared `Context`. Each has map-level read and write functions and lemmas about them.
- `StorageInterface`: the common contract. The handle type has exactly two cases, one per backend, and each operation dispatches on it.
- `StorageManager`: the storage kinds, the manager class, and the migration.

Inputs from outside the program are taken as parameters:

- the `Context` (the media);
- each write's `Outcome` (write faults; reads are modelled as never failing, see "## Left out");
- for migration, one outcome for the clear and a function from the index of each save to its outcome.

Points where the code guarantees less than one might expect:

- The file backend overwrites in place, so a failed write can leave a torn file. The model does not promise that a failed save leaves the collection unchanged.
- Note ids are not assumed unique. Saving never deduplicates, and ids come from the clock.

## Model

| member | source | states |
|---|---|---|
| `Notes.NoteEquality` | app/src/main/java/com/example/notesapp/Note.kt:9-14 | two notes are equal exactly when id, title, content and timestamp are all equal |
| `Notes.Note.GetDisplayTitle` | app/src/main/java/com/example/notesapp/Note.kt:19-21 | the display title is the title itself |
| `Notes.Note.GetContentPreview` | app/src/main/java/com/example/notesapp/Note.kt:26-32 | content of at most `maxLength` characters is returned unchanged; longer content gives its first `maxLength` characters followed by "...", so the length is `maxLength + 3`; a negative length (which throws) is excluded and the default is 50 |
| `Notes.PreviewStartsWithContent` | app/src/main/java/com/example/notesapp/Note.kt:26-32 | every preview begins with `content[..min(|content|, maxLength)]` and is at most `maxLength + 3` long |
| `Notes.PreviewIdempotent` | app/src/main/java/com/example/notesapp/Note.kt:26-32 | the preview of a preview is the same preview |
| `Media.ToJson` | app/src/main/java/com/example/notesapp/JsonFileStorage.kt:81-84 | what Gson writes for a list parses back to exactly that list |
| `StorageContract.WithoutId` | app/src/main/java/com/example/notesapp/JsonFileStorage.kt:55-56 | removal by id never lengthens the list and leaves no note with that id |
| `StorageContract.WithoutIdConcat` | app/src/main/java/com/example/notesapp/JsonFileStorage.kt:56 | removal commutes with concatenation, so the surviving notes keep their relative order |
| `StorageContract.WithoutIdCount` | app/src/main/java/com/example/notesapp/SharedPrefsStorage.kt:49 | every note with the id is gone and every other note keeps its number of occurrences |
| `StorageContract.WithoutIdUnchangedIff` | app/src/main/java/com/example/notesapp/JsonFileStorage.kt:56-60 | removal leaves the list as it was if and only if no note had the id |
| `StorageContract.WithoutIdHasNoId` | app/src/main/java/com/example/notesapp/SharedPrefsStorage.kt:46-53 | after removal no note has the id, so a second delete of that id finds nothing |
| `StorageContract.WithoutIdIdempotent` | app/src/main/java/com/example/notesapp/JsonFileStorage.kt:53-65 | removing the same id twice removes nothing more |
| `StorageContract.RemoveAll` | app/src/main/java/com/example/notesapp/JsonFileStorage.kt:55-56 | the kept list is the input without the notes having the id, in order, and the flag is true if and only if some note had the id |
| `JsonFileBackend.ReadAfterWrite` | app/src/main/java/com/example/notesapp/JsonFileStorage.kt:38-51 | a completed rewrite of the file is read back as exactly the list written |
| `JsonFileBackend.ReadUnreadable` | app/src/main/java/com/example/notesapp/JsonFileStorage.kt:38-51 | a missing, zero-length or unparsable file reads as the empty list |
| `JsonFileBackend.WriteTouchesOnlyNotesFile` | app/src/main/java/com/example/notesapp/JsonFileStorage.kt:81-84 | a write, complete or not, leaves every other file of the directory unchanged |
| `JsonFileBackend.SaveOnUnreadableFile` | app/src/main/java/com/example/notesapp/JsonFileStorage.kt:26-31 | saving into an unparsable file leaves it holding exactly the new note |
| `JsonFileBackend.DeleteAllIdempotent` | app/src/main/java/com/example/notesapp/JsonFileStorage.kt:67-75 | deleting all twice leaves the directory as deleting once does, reading as empty |
| `JsonFileBackend.JsonFileStorage.constructor` | app/src/main/java/com/example/notesapp/JsonFileStorage.kt:18-24 | afterwards the file exists; an existing file is not touched; a missing one is created holding the empty list, so the fresh backend reads `[]` |
| `JsonFileBackend.JsonFileStorage.GetAllNotes` | app/src/main/java/com/example/notesapp/JsonFileStorage.kt:38-51 | the stored list when the file parses; `[]` when it is missing, zero-length or unparsable; never an error |
| `JsonFileBackend.JsonFileStorage.SaveNote` | app/src/main/java/com/example/notesapp/JsonFileStorage.kt:26-36 | true exactly when the write completes, and then the collection is the old one plus the note at the end, with no deduplication; a fault gives false and leaves the file as the fault left it |
| `JsonFileBackend.JsonFileStorage.DeleteNote` | app/src/main/java/com/example/notesapp/JsonFileStorage.kt:53-65 | true exactly when some note had the id and the rewrite completed; the collection is then the old one without those notes, in order; no match means nothing is written; afterwards no note has the id unless the rewrite failed |
| `JsonFileBackend.JsonFileStorage.DeleteAllNotes` | app/src/main/java/com/example/notesapp/JsonFileStorage.kt:67-75 | writes the empty list; true exactly when the write completes, and then the collection is empty |
| `JsonFileBackend.JsonFileStorage.GetStorageType` | app/src/main/java/com/example/notesapp/JsonFileStorage.kt:77-79 | the label is always "JSON File" |
| `JsonFileBackend.JsonFileStorage.SaveAllNotes` | app/src/main/java/com/example/notesapp/JsonFileStorage.kt:81-84 | a completed write replaces the file with the serialized list; a fault before writing changes nothing; a fault while writing leaves its residue |
| `SharedPrefsBackend.ReadAfterPut` | app/src/main/java/com/example/notesapp/SharedPrefsStorage.kt:31-44 | a completed put is read back as exactly the list put |
| `SharedPrefsBackend.ReadUnreadable` | app/src/main/java/com/example/notesapp/SharedPrefsStorage.kt:31-44 | an absent key or an unparsable value reads as the empty list |
| `SharedPrefsBackend.EditsTouchOnlyNotesKey` | app/src/main/java/com/example/notesapp/SharedPrefsStorage.kt:74-77 | puts and removes of the notes key leave every other preference unchanged |
| `SharedPrefsBackend.AfterRemoveNotes` | app/src/main/java/com/example/notesapp/SharedPrefsStorage.kt:60-68 | after the key is removed the collection is empty, a second removal changes nothing, and no id remains for a delete to find |
| `SharedPrefsBackend.SharedPrefsStorage.constructor` | app/src/main/java/com/example/notesapp/SharedPrefsStorage.kt:12-17 | the backend uses the given context and writes nothing on construction |
| `SharedPrefsBackend.SharedPrefsStorage.GetAllNotes` | app/src/main/java/com/example/notesapp/SharedPrefsStorage.kt:31-44 | the stored list when the value parses; `[]` when the key is absent or the value is unparsable |
| `SharedPrefsBackend.SharedPrefsStorage.SaveNote` | app/src/main/java/com/example/notesapp/SharedPrefsStorage.kt:19-29 | true exactly when the put completes, and then the collection is the old one plus the note at the end; false leaves the preferences unchanged |
| `SharedPrefsBackend.SharedPrefsStorage.DeleteNote` | app/src/main/java/com/example/notesapp/SharedPrefsStorage.kt:46-58 | true exactly when some note had the id and the put completed; the collection is then the old one without those notes, in order; otherwise nothing is written |
| `SharedPrefsBackend.SharedPrefsStorage.DeleteAllNotes` | app/src/main/java/com/example/notesapp/SharedPrefsStorage.kt:60-68 | removes the key rather than writing an empty list; true exactly when the edit completes, and then the collection reads as empty |
| `SharedPrefsBackend.SharedPrefsStorage.GetStorageType` | app/src/main/java/com/example/notesapp/SharedPrefsStorage.kt:70-72 | the label is always "SharedPreferences" |
| `SharedPrefsBackend.SharedPrefsStorage.SaveAllNotes` | app/src/main/java/com/example/notesapp/SharedPrefsStorage.kt:74-77 | a completed put stores the serialized list under "notes_list"; a fault changes nothing |
| `StorageInterface.Storage.GetAllNotes` | app/src/main/java/com/example/notesapp/StorageInterface.kt:9 | the handle reads the collection from its own medium only |
| `StorageInterface.Storage.GetStorageType` | app/src/main/java/com/example/notesapp/StorageInterface.kt:12 | the label is fixed by the backend kind |
| `StorageInterface.Storage.SaveNote` | app/src/main/java/com/example/notesapp/StorageInterface.kt:8 | for either backend: true exactly when the write completes, and then the note is appended; a failure that tears no file leaves the collection unchanged; only the notes file or notes key may change: the other medium and every other file or preference are untouched |
| `StorageInterface.Storage.DeleteNote` | app/src/main/java/com/example/notesapp/StorageInterface.kt:10 | for either backend: true exactly when the id was present and the rewrite completed, and then the notes with the id are removed; a missing id writes nothing; a failure that tears no file leaves the collection unchanged; only the notes file or notes key may change: the other medium and every other file or preference are untouched |
| `StorageInterface.Storage.DeleteAllNotes` | app/src/main/java/com/example/notesapp/StorageInterface.kt:11 | for either backend: true exactly when the write completes, and then the collection is empty; a failure that tears no file leaves the collection unchanged; only the notes file or notes key may change |
| `StorageManager.Other` | app/src/main/java/com/example/notesapp/StorageManager.kt:32-36 | a switch always moves to a different kind |
| `StorageManager.OtherInvolutive` | app/src/main/java/com/example/notesapp/StorageManager.kt:32-36 | two switches restore the original kind |
| `StorageManager.LabelDeterminesKind` | app/src/main/java/com/example/notesapp/StorageManager.kt:56-58 | two backends report the same label if and only if they are of the same kind, so restoring the kind restores the label |
| `StorageManager.MigratedAllSucceeded` | app/src/main/java/com/example/notesapp/StorageManager.kt:45-46 | when every save succeeds, the migrated notes are all the notes, in order |
| `StorageManager.MigratedLength` | app/src/main/java/com/example/notesapp/StorageManager.kt:46 | migration never invents notes: it yields at most the notes it was given, each taken from them |
| `StorageManager.CreateStorage` | app/src/main/java/com/example/notesapp/StorageManager.kt:39-42 | builds a fresh backend of the requested kind on the given context; only a file backend whose file is missing writes anything: the directory becomes the old one with `notes.json` holding the empty list, every other file unchanged |
| `StorageManager.SaveEach` | app/src/main/java/com/example/notesapp/StorageManager.kt:46 | saves each note in order, ignoring results; unless a file write is torn, the collection grows by exactly the notes whose save succeeded; only the notes file or notes key may change |
| `StorageManager.SaveNext` | app/src/main/java/com/example/notesapp/StorageManager.kt:46 | one pass of the copy loop: after saving note `i`, the collection is the starting one plus the notes among the first `i + 1` whose save succeeded, unless a file write is torn; only the notes file or notes key may change |
| `StorageManager.Migrate` | app/src/main/java/com/example/notesapp/StorageManager.kt:39-46 | builds a fresh backend of the requested kind, clears it and copies the notes in; with a completed clear and no torn file it holds exactly the notes whose save succeeded, in order, whatever it held before; nothing on the context changes but that backend's notes file or notes key |
| `StorageManager.StorageManager.constructor` | app/src/main/java/com/example/notesapp/StorageManager.kt:16-17 | the singleton starts with kind SharedPrefs and no backend installed |
| `StorageManager.StorageManager.Initialize` | app/src/main/java/com/example/notesapp/StorageManager.kt:19-25 | records the requested kind (SharedPrefs by default) and installs a fresh backend of that same kind; the preferences are never written, and the files directory changes only when a file backend finds `notes.json` missing, which then holds the empty list |
| `StorageManager.StorageManager.SwitchStorage` | app/src/main/java/com/example/notesapp/StorageManager.kt:27-47 | toggles the kind and installs a fresh backend of it, even if copying fails; the old medium (the whole preferences map or files directory it lives in) is left exactly as it was; on the destination context only the new backend's notes file or notes key may change; with a completed clear and all saves completed, the new collection equals the old one in order with the original notes, whatever stale data the destination held; with a completed clear and no torn file, it holds exactly the notes whose save succeeded |
| `StorageManager.StorageManager.GetStorage` | app/src/main/java/com/example/notesapp/StorageManager.kt:49-54 | returns the installed backend, or the "not initialized" error before `Initialize` |
| `StorageManager.StorageManager.GetCurrentStorageType` | app/src/main/java/com/example/notesapp/StorageManager.kt:56-58 | the active backend's label, which always matches the recorded kind |

## Left out

- The three activities (list, add/edit, delete screens). They are user interface. Their input trimming and edit-as-delete-then-save are callers of the contract.
- Gson itself. Serialization is modelled as a lossless round-trip (`Encoded`), and any parse exception as `Garbled`. Documents that Gson maps to `null` instead of throwing (the text `null`, a whitespace-only file, an empty preference string) are not modelled.
- Real file and preference I/O. Every write takes effect at once, and the asynchronous commit of `apply()` is not modelled. A preference value stored with a non-string type counts as unparsable.
- `JsonFileBackend.JsonFileStorage.GetAllNotes`, `JsonFileBackend.JsonFileStorage.SaveNote`, `StorageManager.StorageManager.SwitchStorage`: reading `notes.json` is modelled as never failing. In the source an exception from `readText` is caught and reads as `[]`. A save that follows then reports success while the file keeps only the new note, and a switch away from the file backend then migrates nothing. The model's read is a function of the directory alone, so it does not capture these outcomes.
- `JsonFileBackend.JsonFileStorage.constructor`: does not model faults while the `init` block creates the file. Those exceptions are outside any `try` in the source and would propagate out of `initialize` or `switchStorage`.
- `StorageInterface.Storage.SaveNote`, `StorageInterface.Storage.DeleteNote`, `StorageInterface.Storage.DeleteAllNotes`: these state the contract common to both backends. When a file overwrite is interrupted they do not say what the collection becomes. The file backend's own contracts state the residue exactly.
- `StorageManager.StorageManager.SwitchStorage`: when the clear fails, or a save tears the destination file, it states only the new kind, the new backend and the untouched old medium, not the destination's contents.
- `StorageManager.StorageManager.SwitchStorage`, `StorageManager.StorageManager.GetCurrentStorageType`: both require an initialized manager. Before `initialize` the source reads the `lateinit` backend and throws `UninitializedPropertyAccessException`, which nothing catches and which is a caller bug. `GetStorage` instead models its explicit check as a `Failure`.
- Generating a note's id and timestamp from the clock (`System.currentTimeMillis()`). Both are constructor parameters. Ids are not unique in the code, so uniqueness is not assumed.
- Text lengths. Kotlin counts UTF-16 code units, while the model counts Dafny characters. `maxLength` is unbounded here, where Kotlin's is a 32-bit `Int`.
- `printStackTrace` logging and the `Serializable` marker. They carry no behaviour.
- Concurrency. The app is single-threaded.

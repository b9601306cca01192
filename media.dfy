/**
 * The persistence media the backends use, reduced to values: what Gson
 * produces and parses, the app's private files directory and its
 * "NotesAppPrefs" preferences file, and the outcome of one attempted write.
 */
module Media {
  import opened Notes
  import opened Wrappers

  /**
   * A serialized note list: either text that Gson produced from a list (and
   * parses back to that same list) or text it cannot parse.
   */
  datatype Json = Encoded(notes: seq<Note>) | Garbled

  /** Gson's `toJson` of a list of notes. */
  function ToJson(notes: seq<Note>): (j: Json)
    ensures FromJson(j) == Some(notes)
  {
    Encoded(notes)
  }

  /** Gson's `fromJson`: `None` models the parse exception. */
  function FromJson(j: Json): Option<seq<Note>>
  {
    match j
    case Encoded(notes) => Some(notes)
    case Garbled => None
  }

  /** What an existing file holds: nothing (length 0) or some text. */
  datatype FileBody = ZeroLength | Text(json: Json)

  /**
   * What happens to one attempted rewrite of a medium: it completes, it
   * throws before anything is written (serialization), or it throws while
   * the file is being overwritten in place, leaving `residue` behind.
   */
  datatype Outcome = Succeeds | FailsBeforeWrite | FailsDuringWrite(residue: FileBody)

  /**
   * The Android context as far as storage goes: the files of the app's
   * private directory by name, and the entries of its "NotesAppPrefs"
   * preferences by key. Both outlive any backend instance.
   */
  class Context {
    var filesDir: map<string, FileBody>
    var notesAppPrefs: map<string, Json>

    constructor (filesDir: map<string, FileBody>, notesAppPrefs: map<string, Json>)
      ensures this.filesDir == filesDir && this.notesAppPrefs == notesAppPrefs
    {
      this.filesDir := filesDir;
      this.notesAppPrefs := notesAppPrefs;
    }
  }
}

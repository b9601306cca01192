/** The Note record: an immutable value with two display helpers. */
module Notes {
  /** Kotlin's `Long`, the type of a note's timestamp. */
  newtype int64 = x: int | -0x8000_0000_0000_0000 <= x < 0x8000_0000_0000_0000

  /**
   * A note. Being a datatype, two notes are equal exactly when all four
   * fields are equal, as for a Kotlin data class. The id and timestamp are
   * taken as given: their generation from the clock is not modelled.
   */
  datatype Note = Note(id: string, title: string, content: string, timestamp: int64)
  {
    /** The title shown in note lists. */
    function GetDisplayTitle(): (r: string)
      ensures r == title
    {
      title
    }

    /**
     * The content cut to `maxLength` characters with "..." appended when it is
     * longer than that. A negative length makes `substring` throw, hence `nat`.
     */
    function GetContentPreview(maxLength: nat := 50): (r: string)
      ensures |content| <= maxLength ==> r == content
      ensures |content| > maxLength ==>
                |r| == maxLength + 3 && r[..maxLength] == content[..maxLength] && r[maxLength..] == "..."
    {
      if |content| > maxLength then content[..maxLength] + "..." else content
    }
  }

  function Min(a: int, b: int): int { if a <= b then a else b }

  /** Whatever the length, the preview begins with as much of the content as fits. */
  lemma PreviewStartsWithContent(n: Note, maxLength: nat)
    ensures var k := Min(|n.content|, maxLength);
            |n.GetContentPreview(maxLength)| >= k &&
            n.GetContentPreview(maxLength)[..k] == n.content[..k]
    ensures |n.GetContentPreview(maxLength)| <= maxLength + 3
  {
  }

  /** Taking the preview of a preview changes nothing more. */
  lemma PreviewIdempotent(n: Note, maxLength: nat)
    ensures var p := n.GetContentPreview(maxLength);
            n.(content := p).GetContentPreview(maxLength) == p
  {
    var p := n.GetContentPreview(maxLength);
    if |n.content| > maxLength {
      assert p[..maxLength] + "..." == p;
    }
  }

  /** Notes compare field by field. */
  lemma NoteEquality(a: Note, b: Note)
    ensures a == b <==>
            a.id == b.id && a.title == b.title && a.content == b.content && a.timestamp == b.timestamp
  {
  }
}

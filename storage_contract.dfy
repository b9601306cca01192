/**
 * What the storage contract's operations do to the persisted collection,
 * stated on sequences: saving appends, deleting removes every note with the
 * id, deleting all empties it. Both backends are specified by these.
 */
module StorageContract {
  import opened Notes

  /** Some note in `notes` has id `id`. */
  predicate HasId(notes: seq<Note>, id: string)
  {
    exists i :: 0 <= i < |notes| && notes[i].id == id
  }

  /** `notes` without the notes whose id is `id`, the rest kept in order. */
  function WithoutId(notes: seq<Note>, id: string): (r: seq<Note>)
    ensures |r| <= |notes|
    ensures forall i :: 0 <= i < |r| ==> r[i].id != id
    decreases |notes|
  {
    if notes == [] then []
    else (if notes[0].id == id then [] else [notes[0]]) + WithoutId(notes[1..], id)
  }

  /** Removing by id commutes with concatenation, so relative order is kept. */
  lemma {:induction false} WithoutIdConcat(a: seq<Note>, b: seq<Note>, id: string)
    ensures WithoutId(a + b, id) == WithoutId(a, id) + WithoutId(b, id)
    decreases |a|
  {
    if a == [] {
      assert a + b == b;
    } else {
      assert (a + b)[0] == a[0];
      assert (a + b)[1..] == a[1..] + b;
      WithoutIdConcat(a[1..], b, id);
    }
  }

  /** Every note with the id disappears; every other note keeps its multiplicity. */
  lemma {:induction false} WithoutIdCount(notes: seq<Note>, id: string, n: Note)
    ensures multiset(WithoutId(notes, id))[n] == if n.id == id then 0 else multiset(notes)[n]
    decreases |notes|
  {
    if notes != [] {
      WithoutIdCount(notes[1..], id, n);
      assert notes == [notes[0]] + notes[1..];
    }
  }

  /** The collection is left as it was exactly when no note had the id. */
  lemma {:induction false} WithoutIdUnchangedIff(notes: seq<Note>, id: string)
    ensures WithoutId(notes, id) == notes <==> !HasId(notes, id)
    decreases |notes|
  {
    if notes != [] {
      var rest := notes[1..];
      WithoutIdUnchangedIff(rest, id);
      if notes[0].id == id {
        assert |WithoutId(notes, id)| < |notes|;
        assert HasId(notes, id);
      } else {
        assert HasId(notes, id) <==> HasId(rest, id) by {
          if HasId(notes, id) {
            var i :| 0 <= i < |notes| && notes[i].id == id;
            assert rest[i - 1].id == id;
          }
          if HasId(rest, id) {
            var i :| 0 <= i < |rest| && rest[i].id == id;
            assert notes[i + 1].id == id;
          }
        }
        assert WithoutId(notes, id) == [notes[0]] + WithoutId(rest, id);
        assert notes == [notes[0]] + rest;
        if WithoutId(notes, id) == notes {
          assert WithoutId(rest, id) == WithoutId(notes, id)[1..];
        }
      }
    }
  }

  /** After removal no note has the id, so a second removal finds nothing. */
  lemma WithoutIdHasNoId(notes: seq<Note>, id: string)
    ensures !HasId(WithoutId(notes, id), id)
  {
  }

  /** Removing twice removes nothing more. */
  lemma WithoutIdIdempotent(notes: seq<Note>, id: string)
    ensures WithoutId(WithoutId(notes, id), id) == WithoutId(notes, id)
  {
    WithoutIdUnchangedIff(WithoutId(notes, id), id);
  }

  /**
   * Kotlin's `removeAll { it.id == noteId }` on a mutable copy of the list:
   * drops every matching note and reports whether any was dropped.
   */
  method RemoveAll(notes: seq<Note>, noteId: string) returns (kept: seq<Note>, removed: bool)
    ensures kept == WithoutId(notes, noteId)
    ensures removed <==> HasId(notes, noteId)
  {
    kept, removed := [], false;
    var i := 0;
    while i < |notes|
      invariant 0 <= i <= |notes|
      invariant kept == WithoutId(notes[..i], noteId)
      invariant removed <==> HasId(notes[..i], noteId)
    {
      assert notes[..i + 1] == notes[..i] + [notes[i]];
      WithoutIdConcat(notes[..i], [notes[i]], noteId);
      if notes[i].id == noteId {
        removed := true;
      } else {
        kept := kept + [notes[i]];
      }
      i := i + 1;
    }
    assert notes[..i] == notes;
  }
}

/**
 * The dashboard page of Dashboard.tsx: the search filter over the note
 * list, the lookup of the selected note, and the handlers that set the
 * selection, the editor content and the query. The list is the page's
 * fixed set of notes.
 */
module Dashboard {
  import opened Wrappers
  import opened Text
  import opened Seqs
  import opened NoteCard

  /** The client's search rule: the lower-cased query in the title, the content or a tag. */
  predicate Shown(n: CardNote, query: string)
  {
    MatchesQuery(n.title, n.content, n.tags, query)
  }

  /** `filteredNotes`: the matching notes, in list order. */
  function FilterNotes(notes: seq<CardNote>, query: string): (r: seq<CardNote>)
    ensures Subsequence(r, notes)
    ensures forall n :: n in r ==> Shown(n, query)
    ensures forall n :: n in notes && Shown(n, query) ==> n in r
    ensures forall n :: multiset(r)[n] == if Shown(n, query) then multiset(notes)[n] else 0
  {
    var r := Filter(notes, (n: CardNote) => Shown(n, query));
    assert forall n :: n in notes && Shown(n, query) ==> n in r by {
      forall n | n in notes && Shown(n, query) ensures n in r {
        assert multiset(r)[n] == multiset(notes)[n];
      }
    }
    r
  }

  /** An empty query keeps every note. */
  lemma EmptyQueryKeepsAll(notes: seq<CardNote>)
    ensures FilterNotes(notes, "") == notes
  {
    forall n | n in notes ensures Shown(n, "") {
      EmptyQueryMatches(n.title, n.content, n.tags);
    }
    FilterAll(notes, (n: CardNote) => Shown(n, ""));
  }

  /** `notes.find(n => n.id === id)`: the first note with that id. */
  function FindNote(notes: seq<CardNote>, id: string): (r: Option<CardNote>)
    ensures r.None? <==> forall i :: 0 <= i < |notes| ==> notes[i].id != id
    ensures r.Some? ==> r.value.id == id
    ensures r.Some? ==> exists i :: 0 <= i < |notes| && notes[i] == r.value &&
                                    forall j :: 0 <= j < i ==> notes[j].id != id
  {
    if notes == [] then None
    else if notes[0].id == id then Some(notes[0])
    else
      var r := FindNote(notes[1..], id);
      assert r.Some? ==> exists i :: 0 <= i < |notes| && notes[i] == r.value &&
                                     forall j :: 0 <= j < i ==> notes[j].id != id by {
        if r.Some? {
          var i :| 0 <= i < |notes[1..]| && notes[1..][i] == r.value &&
                   forall j :: 0 <= j < i ==> notes[1..][j].id != id;
          assert notes[i + 1] == r.value;
          forall j | 0 <= j < i + 1 ensures notes[j].id != id {
            if j > 0 { assert notes[j] == notes[1..][j - 1]; }
          }
        }
      }
      r
  }

  /** `selectedNoteId ? find(...) : null`: an empty id selects nothing. */
  function SelectedNote(notes: seq<CardNote>, selectedId: Option<string>): (r: Option<CardNote>)
    ensures selectedId.None? || selectedId == Some("") ==> r.None?
    ensures selectedId.Some? && selectedId.value != "" ==> r == FindNote(notes, selectedId.value)
    ensures r.Some? ==> r.value in notes && Some(r.value.id) == selectedId
  {
    if selectedId.None? || selectedId.value == "" then None else FindNote(notes, selectedId.value)
  }

  const NoMatches := "No notes match your search"
  const NoNotesYet := "No notes yet. Create your first note!"

  /** The message of the empty list: it depends only on whether a query was typed. */
  function EmptyListMessage(query: string): (m: string)
    ensures query != "" <==> m == NoMatches
    ensures query == "" <==> m == NoNotesYet
  {
    if query != "" then NoMatches else NoNotesYet
  }

  class DashboardPage {
    const notes: seq<CardNote>
    var selectedNoteId: Option<string>
    var searchQuery: string
    var currentNoteContent: string

    constructor (notes: seq<CardNote>)
      ensures this.notes == notes
      ensures selectedNoteId.None? && searchQuery == "" && currentNoteContent == ""
    {
      this.notes := notes;
      selectedNoteId := None;
      searchQuery := "";
      currentNoteContent := "";
    }

    /** The list the page renders. */
    function FilteredNotes(): (r: seq<CardNote>)
      reads this
      ensures Subsequence(r, notes)
      ensures forall n :: n in notes ==> (n in r <==> Shown(n, searchQuery))
      ensures forall n :: multiset(r)[n] == if Shown(n, searchQuery) then multiset(notes)[n] else 0
    {
      FilterNotes(notes, searchQuery)
    }

    /** The note open in the editor, if any. */
    function Selected(): (r: Option<CardNote>)
      reads this
      ensures r.Some? ==> r.value in notes && selectedNoteId == Some(r.value.id)
      ensures selectedNoteId.None? || selectedNoteId == Some("") ==> r.None?
      ensures selectedNoteId.Some? && selectedNoteId.value != "" ==> r == FindNote(notes, selectedNoteId.value)
    {
      SelectedNote(notes, selectedNoteId)
    }

    /** `handleCreateNote()`: nothing selected and an empty editor. */
    method HandleCreateNote()
      modifies this
      ensures selectedNoteId.None? && currentNoteContent == "" && Selected().None?
      ensures searchQuery == old(searchQuery)
    {
      selectedNoteId := None;
      currentNoteContent := "";
    }

    /**
     * `handleNoteSelect(id)`: select the id; when a note has it, load its
     * content into the editor, otherwise keep the editor as it was.
     */
    method HandleNoteSelect(id: string)
      modifies this
      ensures selectedNoteId == Some(id) && searchQuery == old(searchQuery)
      ensures FindNote(notes, id).Some? ==> currentNoteContent == FindNote(notes, id).value.content
      ensures FindNote(notes, id).None? ==> currentNoteContent == old(currentNoteContent)
      ensures id != "" && FindNote(notes, id).Some? ==>
        Selected() == FindNote(notes, id) && currentNoteContent == Selected().value.content
    {
      selectedNoteId := Some(id);
      var note := FindNote(notes, id);
      if note.Some? {
        currentNoteContent := note.value.content;
      }
    }

    /** `handleNoteContentChange(content)`. */
    method HandleNoteContentChange(content: string)
      modifies this
      ensures currentNoteContent == content
      ensures selectedNoteId == old(selectedNoteId) && searchQuery == old(searchQuery)
    {
      currentNoteContent := content;
    }

    /** The search box's change handler. */
    method HandleSearchChange(query: string)
      modifies this
      ensures searchQuery == query
      ensures selectedNoteId == old(selectedNoteId) && currentNoteContent == old(currentNoteContent)
    {
      searchQuery := query;
    }
  }
}

/**
 * The in-memory note store of server/storage.ts (`MemStorage`): two
 * JavaScript Maps keyed by id, one of users and one of notes.
 *
 * `randomUUID()` becomes an `id` argument that the caller guarantees is
 * not yet in use, and `new Date()` becomes a `now` argument that never
 * runs behind the store's ghost `clock`.
 */
module Storage {
  import opened Wrappers
  import opened Text
  import opened Seqs
  import opened JsMap
  import opened Schema

  // ------------------------------------------------------ record rules

  /** The record `createNote` stores: defaults applied, both timestamps `now`. */
  function NewNote(ins: InsertNote, id: string, now: int): (n: Note)
    ensures n.id == id && n.createdAt == now && n.updatedAt == now
    ensures n.title == ins.title && n.content == ins.content
    ensures ins.tags.Given? ==> n.tags == Some(ins.tags.value)
    ensures !ins.tags.Given? ==> n.tags == Some([])
    ensures n.isVoiceGenerated == Some(ins.isVoiceGenerated == Given(true))
    ensures n.originalTranscript.Some? <==> ins.originalTranscript.Given? && ins.originalTranscript.value != ""
    ensures n.originalTranscript.Some? ==> n.originalTranscript.value == ins.originalTranscript.value
  {
    Note(
      id,
      ins.title,
      ins.content,
      Some(if ins.tags.Given? then ins.tags.value else []),
      Some(ins.isVoiceGenerated.Given? && ins.isVoiceGenerated.value),
      if ins.originalTranscript.Given? && ins.originalTranscript.value != "" then Some(ins.originalTranscript.value) else None,
      now,
      now)
  }

  /** A patch field that is left out keeps the old value; `null` clears it. */
  function Merge<T>(old_: Option<T>, field: Nullable<T>): Option<T>
  {
    match field
    case Omitted => old_
    case Null => None
    case Given(v) => Some(v)
  }

  /** `{...existing, ...updates, updatedAt: now}`. */
  function ApplyPatch(n: Note, p: NotePatch, now: int): (r: Note)
    ensures r.id == n.id && r.createdAt == n.createdAt && r.updatedAt == now
    ensures r.title == (if p.title.Some? then p.title.value else n.title)
    ensures r.content == (if p.content.Some? then p.content.value else n.content)
    ensures p.tags.Omitted? ==> r.tags == n.tags
    ensures p.tags.Null? ==> r.tags.None?
    ensures p.tags.Given? ==> r.tags == Some(p.tags.value)
    ensures p.isVoiceGenerated.Omitted? ==> r.isVoiceGenerated == n.isVoiceGenerated
    ensures p.isVoiceGenerated.Null? ==> r.isVoiceGenerated.None?
    ensures p.isVoiceGenerated.Given? ==> r.isVoiceGenerated == Some(p.isVoiceGenerated.value)
    ensures p.originalTranscript.Omitted? ==> r.originalTranscript == n.originalTranscript
    ensures p.originalTranscript.Null? ==> r.originalTranscript.None?
    ensures p.originalTranscript.Given? ==> r.originalTranscript == Some(p.originalTranscript.value)
  {
    n.(title := if p.title.Some? then p.title.value else n.title,
       content := if p.content.Some? then p.content.value else n.content,
       tags := Merge(n.tags, p.tags),
       isVoiceGenerated := Merge(n.isVoiceGenerated, p.isVoiceGenerated),
       originalTranscript := Merge(n.originalTranscript, p.originalTranscript),
       updatedAt := now)
  }

  /** The empty patch only refreshes the timestamp. */
  lemma EmptyPatchOnlyTouches(n: Note, now: int)
    ensures ApplyPatch(n, EmptyPatch, now) == n.(updatedAt := now)
  {
  }

  /** Applying the same patch twice is the same as applying it once, at the later time. */
  lemma PatchIdempotent(n: Note, p: NotePatch, t1: int, t2: int)
    ensures ApplyPatch(ApplyPatch(n, p, t1), p, t2) == ApplyPatch(n, p, t2)
  {
  }

  /** The tags a search looks at: `note.tags?.some(...)` sees none when tags are null. */
  function SearchableTags(n: Note): seq<string>
  {
    if n.tags.Some? then n.tags.value else []
  }

  /** The `searchNotes` filter. */
  predicate NoteMatches(n: Note, query: string)
  {
    MatchesQuery(n.title, n.content, SearchableTags(n), query)
  }

  // ------------------------------------------------------------- sorting

  /** Ordered by `updatedAt`, most recent first. */
  predicate SortedByRecency(s: seq<Note>)
  {
    forall i, j :: 0 <= i < j < |s| ==> s[i].updatedAt >= s[j].updatedAt
  }

  /** Insert `n` before the first note that is not more recent than it. */
  function InsertByRecency(n: Note, s: seq<Note>): (r: seq<Note>)
    requires SortedByRecency(s)
    ensures SortedByRecency(r)
    ensures multiset(r) == multiset(s) + multiset{n}
    ensures |r| == |s| + 1
    ensures r[0] == n || (s != [] && r[0] == s[0])
  {
    if s == [] || s[0].updatedAt <= n.updatedAt then [n] + s
    else
      var rest := InsertByRecency(n, s[1..]);
      assert s == [s[0]] + s[1..];
      assert rest[0].updatedAt <= s[0].updatedAt;
      [s[0]] + rest
  }

  /**
   * `Array.prototype.sort` with comparator `b.updatedAt - a.updatedAt`: an
   * insertion sort, stable like the JavaScript one (on equal timestamps the
   * earlier element stays first).
   */
  function SortByRecency(s: seq<Note>): (r: seq<Note>)
    ensures SortedByRecency(r)
    ensures multiset(r) == multiset(s)
    ensures |r| == |s|
  {
    if s == [] then []
    else
      assert s == [s[0]] + s[1..];
      InsertByRecency(s[0], SortByRecency(s[1..]))
  }

  /** The first user in `us` with the given username (`Array.prototype.find`). */
  function FindByUsername(us: seq<User>, username: string): (r: Option<User>)
    ensures r.Some? ==> r.value in us && r.value.username == username
    ensures r.None? <==> forall i :: 0 <= i < |us| ==> us[i].username != username
    ensures r.Some? ==> exists i :: 0 <= i < |us| && us[i] == r.value &&
                                    forall j :: 0 <= j < i ==> us[j].username != username
  {
    if us == [] then None
    else if us[0].username == username then Some(us[0])
    else
      var r := FindByUsername(us[1..], username);
      assert r.Some? ==> exists i :: 0 <= i < |us| && us[i] == r.value &&
                                     forall j :: 0 <= j < i ==> us[j].username != username by {
        if r.Some? {
          var i :| 0 <= i < |us[1..]| && us[1..][i] == r.value &&
                   forall j :: 0 <= j < i ==> us[1..][j].username != username;
          assert us[i + 1] == r.value;
          forall j | 0 <= j < i + 1 ensures us[j].username != username {
            if j > 0 { assert us[j] == us[1..][j - 1]; }
          }
        }
      }
      r
  }

  // ----------------------------------------------------------- the store

  class MemStorage {
    var users: JsMap<User>
    var notes: JsMap<Note>
    /** The latest instant the store has been given. */
    ghost var clock: int

    /**
     * Every record is stored under its own id; every note was updated no
     * earlier than it was created and no later than the clock.
     */
    ghost predicate Valid()
      reads this
    {
      && users.Valid() && notes.Valid()
      && (forall id :: id in users.entries ==> users.entries[id].id == id)
      && (forall id :: id in notes.entries ==>
            notes.entries[id].id == id &&
            notes.entries[id].createdAt <= notes.entries[id].updatedAt <= clock)
    }

    constructor ()
      ensures Valid()
      ensures users == Empty() && notes == Empty()
    {
      users := Empty();
      notes := Empty();
      clock := 0;
    }

    /** `getUser(id)`. */
    function GetUser(id: string): (r: Option<User>)
      reads this
      requires Valid()
      ensures r.Some? <==> id in users.entries
      ensures r.Some? ==> r.value == users.entries[id] && r.value.id == id
    {
      users.Get(id)
    }

    /** `getUserByUsername(username)`: the first user, in insertion order, with that name. */
    function GetUserByUsername(username: string): (r: Option<User>)
      reads this
      requires Valid()
      ensures r.Some? ==> r.value.username == username &&
                          r.value.id in users.entries && users.entries[r.value.id] == r.value
      ensures r.None? <==> forall id :: id in users.entries ==> users.entries[id].username != username
      ensures r.Some? ==> exists i :: 0 <= i < |users.keys| && users.keys[i] == r.value.id &&
                            forall j :: 0 <= j < i ==> users.entries[users.keys[j]].username != username
      ensures users.keys != [] && users.entries[users.keys[0]].username == username ==>
                r == Some(users.entries[users.keys[0]])
    {
      var vs := users.Values();
      var r := FindByUsername(vs, username);
      assert users.keys != [] ==> vs[0] == users.entries[users.keys[0]];
      assert r.Some? ==> r.value.id in users.entries && users.entries[r.value.id] == r.value &&
                         exists i :: 0 <= i < |users.keys| && users.keys[i] == r.value.id &&
                           forall j :: 0 <= j < i ==> users.entries[users.keys[j]].username != username by {
        if r.Some? {
          var i :| 0 <= i < |vs| && vs[i] == r.value && forall j :: 0 <= j < i ==> vs[j].username != username;
          var keys, entries := users.keys, users.entries;
          assert entries[keys[i]] == r.value;
          assert keys[i] == r.value.id;
          forall j | 0 <= j < i ensures entries[keys[j]].username != username {
            assert vs[j] == entries[keys[j]];
          }
        }
      }
      assert r.None? ==> forall id :: id in users.entries ==> users.entries[id].username != username by {
        if r.None? {
          forall id | id in users.entries ensures users.entries[id].username != username {
            var i :| 0 <= i < |users.keys| && users.keys[i] == id;
            assert vs[i] == users.entries[id];
          }
        }
      }
      r
    }

    /** `createUser(insertUser)`: duplicate usernames are not rejected. */
    method CreateUser(ins: InsertUser, id: string) returns (u: User)
      requires Valid() && id !in users.entries
      modifies this
      ensures Valid()
      ensures u == User(id, ins.username, ins.password)
      ensures users == old(users).Set(id, u)
      ensures notes == old(notes) && clock == old(clock)
    {
      u := User(id, ins.username, ins.password);
      users := users.Set(id, u);
    }

    /** `getNotes()`: every stored note, most recently updated first. */
    function GetNotes(): (r: seq<Note>)
      reads this
      requires Valid()
      ensures SortedByRecency(r)
      ensures multiset(r) == multiset(notes.Values())
      ensures forall id :: id in notes.entries ==> notes.entries[id] in r
      ensures forall n :: n in r ==> n.id in notes.entries && notes.entries[n.id] == n
    {
      var r := SortByRecency(notes.Values());
      assert forall n :: n in r <==> n in notes.Values() by {
        forall n ensures n in r <==> n in notes.Values() {
          assert n in r <==> n in multiset(r);
        }
      }
      r
    }

    /** `getNote(id)`. */
    function GetNote(id: string): (r: Option<Note>)
      reads this
      requires Valid()
      ensures r.Some? <==> id in notes.entries
      ensures r.Some? ==> r.value == notes.entries[id] && r.value.id == id
    {
      notes.Get(id)
    }

    /** `createNote(insertNote)`: a fresh id, defaults applied, `createdAt == updatedAt == now`. */
    method CreateNote(ins: InsertNote, id: string, now: int) returns (note: Note)
      requires Valid() && id !in notes.entries && now >= clock
      modifies this
      ensures Valid()
      ensures note == NewNote(ins, id, now)
      ensures notes == old(notes).Set(id, note)
      ensures notes.entries == old(notes.entries)[id := note]
      ensures users == old(users) && clock == now
    {
      note := NewNote(ins, id, now);
      notes := notes.Set(id, note);
      clock := now;
    }

    /** `updateNote(id, updates)`: merge over the existing note, or `undefined` when absent. */
    method UpdateNote(id: string, updates: NotePatch, now: int) returns (r: Option<Note>)
      requires Valid() && now >= clock
      modifies this
      ensures Valid()
      ensures r.Some? <==> id in old(notes.entries)
      ensures r.None? ==> notes == old(notes)
      ensures r.Some? ==> r.value == ApplyPatch(old(notes.entries[id]), updates, now)
      ensures r.Some? ==> notes == old(notes).Set(id, r.value)
      ensures r.Some? ==> notes.entries == old(notes.entries)[id := r.value] && notes.keys == old(notes.keys)
      ensures users == old(users)
    {
      var existing := notes.Get(id);
      if existing.None? {
        return None;
      }
      var updated := ApplyPatch(existing.value, updates, now);
      notes := notes.Set(id, updated);
      clock := now;
      r := Some(updated);
    }

    /** `deleteNote(id)`: whether a note was there to remove. */
    method DeleteNote(id: string) returns (existed: bool)
      requires Valid()
      modifies this
      ensures Valid()
      ensures existed <==> id in old(notes.entries)
      ensures notes == old(notes).Delete(id)
      ensures id !in notes.entries
      ensures users == old(users) && clock == old(clock)
    {
      existed := id in notes.entries;
      notes := notes.Delete(id);
    }

    /**
     * `searchNotes(query)`: exactly the stored notes whose lower-cased
     * title, content or some tag contains the lower-cased query, most
     * recently updated first.
     */
    function SearchNotes(query: string): (r: seq<Note>)
      reads this
      requires Valid()
      ensures SortedByRecency(r)
      ensures forall n :: n in r ==> NoteMatches(n, query) && n.id in notes.entries && notes.entries[n.id] == n
      ensures forall id :: id in notes.entries && NoteMatches(notes.entries[id], query) ==> notes.entries[id] in r
      ensures forall n :: multiset(r)[n] == if NoteMatches(n, query) then multiset(notes.Values())[n] else 0
    {
      var matching := Filter(notes.Values(), (n: Note) => NoteMatches(n, query));
      var r := SortByRecency(matching);
      assert forall n :: n in r <==> n in matching by {
        forall n ensures n in r <==> n in matching {
          assert n in r <==> n in multiset(r);
        }
      }
      assert forall n :: n in matching <==> n in notes.Values() && NoteMatches(n, query) by {
        forall n ensures n in matching <==> n in notes.Values() && NoteMatches(n, query) {
          assert n in matching <==> n in multiset(matching);
          assert n in notes.Values() <==> n in multiset(notes.Values());
        }
      }
      r
    }
  }

  /** An empty query lists every note, in the same order as `getNotes`. */
  lemma EmptySearchListsAll(s: MemStorage)
    requires s.Valid()
    ensures s.SearchNotes("") == s.GetNotes()
  {
    forall n | n in s.notes.Values() ensures NoteMatches(n, "") {
      EmptyQueryMatches(n.title, n.content, SearchableTags(n));
    }
    FilterAll(s.notes.Values(), (n: Note) => NoteMatches(n, ""));
  }

  /** Deleting is final: the note is gone and a second delete reports nothing removed. */
  method DeleteTwice(s: MemStorage, id: string) returns (first: bool, second: bool)
    requires s.Valid()
    modifies s
    ensures s.Valid()
    ensures first <==> id in old(s.notes.entries)
    ensures !second && s.GetNote(id).None?
  {
    first := s.DeleteNote(id);
    second := s.DeleteNote(id);
  }

  /**
   * Two users may share a username: both are stored, and a lookup by that
   * name returns the one created first.
   */
  method DuplicateUsernames(username: string, p1: string, p2: string)
    returns (a: User, b: User, found: Option<User>)
    ensures a.username == username && b.username == username && a.id != b.id
    ensures found == Some(a)
  {
    var s := new MemStorage();
    a := s.CreateUser(InsertUser(username, p1), "user-1");
    ghost var keys1 := s.users.keys;
    assert keys1 == ["user-1"];
    b := s.CreateUser(InsertUser(username, p2), "user-2");
    assert s.users.keys == keys1 + ["user-2"];
    assert s.users.keys[0] == "user-1";
    assert s.users.entries[s.users.keys[0]] == a;
    found := s.GetUserByUsername(username);
  }
}

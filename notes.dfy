/**
 * The notes screen: a newest-first list of notes kept in one JSON file
 * under the app's document directory, and a read-aloud toggle driven by the
 * platform's speech service.
 *
 * The platform file system is a map from paths to entries whose operations
 * may fail (the caller says which, through a `Faults` value); the speech
 * service is the log of `stop` and `speak` commands issued to it, and its
 * start, done and error callbacks are methods the platform calls.
 */
module Notes {
  import opened Wrappers
  import opened Sequences
  import opened Text
  import Security

  /** A note; `id` and `date` come from the clock when the note is made. */
  datatype Note = Note(id: string, text: string, date: string)

  // ---------------------------------------------------------------------
  // The file system and the notes file

  /** A file's contents: a serialised notes array, or text that does not parse as one. */
  datatype Blob = Encoded(notes: seq<Note>) | Garbage(raw: string)

  /** JSON.stringify of a notes array. */
  function Stringify(notes: seq<Note>): Blob
  {
    Encoded(notes)
  }

  /** JSON.parse of a file's contents, None when it throws. */
  function Parse(content: Blob): Option<seq<Note>>
  {
    match content
    case Encoded(notes) => Some(notes)
    case Garbage(_) => None
  }

  datatype Entry = Directory | File(content: Blob)

  function NotesDir(documentDirectory: string): string
  {
    documentDirectory + "notes/"
  }

  function NotesFile(documentDirectory: string): string
  {
    NotesDir(documentDirectory) + "chemistry_notes.json"
  }

  /** The directory and the file are different paths. */
  lemma NotesPathsDiffer(documentDirectory: string)
    ensures NotesDir(documentDirectory) != NotesFile(documentDirectory)
  {
    assert |NotesDir(documentDirectory)| < |NotesFile(documentDirectory)|;
  }

  /** Whatever the document directory, the notes file path passes the path check. */
  lemma NotesFilePassesValidator(documentDirectory: string)
    ensures Security.ValidateFilePath(NotesFile(documentDirectory))
  {
    var path := NotesFile(documentDirectory);
    assert path[|documentDirectory| + 5] == '/';
  }

  predicate IsDirectoryIn(entries: map<string, Entry>, path: string)
  {
    path in entries && entries[path].Directory?
  }

  /** The notes a snapshot of the file system holds at `path`, if it holds a parsable file there. */
  function StoredNotes(entries: map<string, Entry>, path: string): Option<seq<Note>>
  {
    if path in entries && entries[path].File? then Parse(entries[path].content) else None
  }

  /** Which platform calls fail during one operation. */
  datatype Faults = Faults(mkdirFails: bool, readFails: bool, writeFails: bool)

  /** The directory is there after `ensureDirExists`: it was, or it could be made. */
  predicate DirReady(entries: map<string, Entry>, dir: string, mkdirFails: bool)
  {
    IsDirectoryIn(entries, dir) || (!mkdirFails && dir !in entries)
  }

  /** The file system after `ensureDirExists`. */
  function WithDir(entries: map<string, Entry>, dir: string, mkdirFails: bool): (r: map<string, Entry>)
    ensures DirReady(entries, dir, mkdirFails) <==> IsDirectoryIn(r, dir)
    ensures forall p :: p != dir ==> (p in r <==> p in entries) && (p in r ==> r[p] == entries[p])
  {
    if !IsDirectoryIn(entries, dir) && !mkdirFails && dir !in entries then entries[dir := Directory] else entries
  }

  /** A save writes the file: the directory is ready, the write works, and the path is not a directory. */
  predicate SaveSucceeds(entries: map<string, Entry>, dir: string, file: string, f: Faults)
  {
    DirReady(entries, dir, f.mkdirFails) && !f.writeFails && !IsDirectoryIn(entries, file)
  }

  /** What `loadNotes` returns: the stored notes, or the empty list after any failure or without a file. */
  function LoadResult(entries: map<string, Entry>, dir: string, file: string, f: Faults): (r: seq<Note>)
    ensures DirReady(entries, dir, f.mkdirFails) && !f.readFails && StoredNotes(entries, file).Some?
      ==> r == StoredNotes(entries, file).value
    ensures !DirReady(entries, dir, f.mkdirFails) || f.readFails || StoredNotes(entries, file).None? ==> r == []
    ensures r != [] ==> StoredNotes(entries, file) == Some(r)
  {
    if DirReady(entries, dir, f.mkdirFails) && !f.readFails && StoredNotes(entries, file).Some?
    then StoredNotes(entries, file).value
    else []
  }

  /**
   * The round trip: after a successful save of `notes`, a load whose read
   * succeeds returns exactly `notes`.
   */
  lemma SaveThenLoad(entries: map<string, Entry>, dir: string, file: string, notes: seq<Note>, save: Faults, load: Faults)
    requires dir != file && SaveSucceeds(entries, dir, file, save) && !load.readFails
    ensures LoadResult(WithDir(entries, dir, save.mkdirFails)[file := File(Stringify(notes))], dir, file, load) == notes
  {
    var after := WithDir(entries, dir, save.mkdirFails)[file := File(Stringify(notes))];
    assert IsDirectoryIn(after, dir);
  }

  /** The platform file system (expo-file-system). */
  class FileSystem {
    const documentDirectory: string
    var entries: map<string, Entry>

    constructor (documentDirectory: string, entries: map<string, Entry>)
      ensures this.documentDirectory == documentDirectory && this.entries == entries
    {
      this.documentDirectory := documentDirectory;
      this.entries := entries;
    }

    /** `getInfoAsync(path).isDirectory` */
    predicate IsDirectory(path: string)
      reads this
    {
      IsDirectoryIn(entries, path)
    }

    /** `getInfoAsync(path).exists` */
    predicate Exists(path: string)
      reads this
    {
      path in entries
    }

    /** `makeDirectoryAsync`: fails when asked to, or when a file is in the way. */
    method MakeDirectory(path: string, fails: bool) returns (ok: bool)
      modifies this
      ensures ok == (!fails && !(path in old(entries) && old(entries)[path].File?))
      ensures entries == if ok then old(entries)[path := Directory] else old(entries)
    {
      ok := !fails && !(path in entries && entries[path].File?);
      if ok {
        entries := entries[path := Directory];
      }
    }

    /** `readAsStringAsync`: the file's contents, None when it throws. */
    method ReadAsString(path: string, fails: bool) returns (content: Option<Blob>)
      ensures content.Some? <==> !fails && path in entries && entries[path].File?
      ensures content.Some? ==> content.value == entries[path].content
    {
      if !fails && path in entries && entries[path].File? {
        content := Some(entries[path].content);
      } else {
        content := None;
      }
    }

    /** `writeAsStringAsync`: replaces the whole file; fails when asked to, or on a directory. */
    method WriteAsString(path: string, content: Blob, fails: bool) returns (ok: bool)
      modifies this
      ensures ok == (!fails && !IsDirectoryIn(old(entries), path))
      ensures entries == if ok then old(entries)[path := File(content)] else old(entries)
    {
      ok := !fails && !IsDirectory(path);
      if ok {
        entries := entries[path := File(content)];
      }
    }
  }

  // ---------------------------------------------------------------------
  // List operations

  /** The list without the notes whose id is `id`. */
  function WithoutId(notes: seq<Note>, id: string): (r: seq<Note>)
    ensures forall n :: n in r <==> n in notes && n.id != id
    ensures forall n :: multiset(r)[n] == if n.id != id then multiset(notes)[n] else 0
  {
    FilterCounts(notes, (n: Note) => n.id != id);
    Filter(notes, (n: Note) => n.id != id)
  }

  /** Deleting keeps the remaining notes in their order. */
  lemma WithoutIdKeepsOrder(notes: seq<Note>, id: string)
    ensures IsSubsequence(WithoutId(notes, id), notes)
  {
    FilterIsSubsequence(notes, (n: Note) => n.id != id);
  }

  /** Deleting an id no note has leaves the list as it was. */
  lemma WithoutAbsentId(notes: seq<Note>, id: string)
    requires forall n :: n in notes ==> n.id != id
    ensures WithoutId(notes, id) == notes
  {
    FilterKeepsAll(notes, (n: Note) => n.id != id);
  }

  // ---------------------------------------------------------------------
  // The screen

  /** A command issued to the speech service. */
  datatype SpeechCommand = Stop | Speak(text: string, noteId: string)

  /** The read-aloud state the two state fields encode. */
  datatype Session = Idle | Speaking(noteId: string)

  class NotesScreen {
    const fs: FileSystem
    var notes: seq<Note>
    var newNoteText: string
    var speaking: bool
    var currentlyReadingId: Option<string>
    /** Commands issued to the speech service, oldest first. */
    var speech: seq<SpeechCommand>
    /** Titles of the alerts shown, oldest first. */
    var alerts: seq<string>
    /** The value of `speaking` captured by the effect currently installed on it. */
    var effectSpeaking: bool

    /** Both state fields always change together. */
    ghost predicate Valid()
      reads this
    {
      speaking <==> currentlyReadingId.Some?
    }

    function CurrentSession(): Session
      reads this
      requires Valid()
    {
      if speaking then Speaking(currentlyReadingId.value) else Idle
    }

    /** Whether a note's card shows "Stop Reading". */
    predicate IsReading(note: Note)
      reads this
    {
      speaking && currentlyReadingId == Some(note.id)
    }

    function Dir(): string
    {
      NotesDir(fs.documentDirectory)
    }

    function Path(): string
    {
      NotesFile(fs.documentDirectory)
    }

    /** The file holds exactly the list on screen. */
    ghost predicate Persisted()
      reads this, fs
    {
      StoredNotes(fs.entries, Path()) == Some(notes)
    }

    constructor (fs: FileSystem)
      ensures this.fs == fs && Valid() && CurrentSession() == Idle
      ensures notes == [] && newNoteText == "" && speech == [] && alerts == [] && !effectSpeaking
    {
      this.fs := fs;
      notes := [];
      newNoteText := "";
      speaking := false;
      currentlyReadingId := None;
      speech := [];
      alerts := [];
      effectSpeaking := false;
    }

    /** `ensureDirExists`; `ok` is false when it throws. */
    method EnsureDirExists(f: Faults) returns (ok: bool)
      modifies fs
      ensures ok == DirReady(old(fs.entries), Dir(), f.mkdirFails)
      ensures fs.entries == WithDir(old(fs.entries), Dir(), f.mkdirFails)
    {
      if !fs.IsDirectory(Dir()) {
        ok := fs.MakeDirectory(Dir(), f.mkdirFails);
      } else {
        ok := true;
      }
    }

    /** `loadNotes`: the stored list, or the empty list when anything fails; the file is left as it is. */
    method LoadNotes(f: Faults) returns (loaded: seq<Note>)
      modifies fs
      ensures loaded == LoadResult(old(fs.entries), Dir(), Path(), f)
      ensures fs.entries == WithDir(old(fs.entries), Dir(), f.mkdirFails)
      ensures StoredNotes(fs.entries, Path()) == StoredNotes(old(fs.entries), Path())
    {
      NotesPathsDiffer(fs.documentDirectory);
      var ok := EnsureDirExists(f);
      if !ok {
        return [];
      }
      if !fs.Exists(Path()) {
        return [];
      }
      var content := fs.ReadAsString(Path(), f.readFails);
      if content.None? {
        return [];
      }
      var parsed := Parse(content.value);
      if parsed.None? {
        return [];
      }
      loaded := parsed.value;
    }

    /**
     * `saveNotes`: overwrites the file with the whole list. A failure is
     * caught and reported with an alert, and the file keeps its old contents.
     */
    method SaveNotes(list: seq<Note>, f: Faults) returns (saved: bool)
      modifies fs, this`alerts
      ensures saved == SaveSucceeds(old(fs.entries), Dir(), Path(), f)
      ensures fs.entries == if saved then WithDir(old(fs.entries), Dir(), f.mkdirFails)[Path() := File(Stringify(list))]
        else WithDir(old(fs.entries), Dir(), f.mkdirFails)
      ensures saved ==> StoredNotes(fs.entries, Path()) == Some(list)
      ensures !saved ==> StoredNotes(fs.entries, Path()) == StoredNotes(old(fs.entries), Path())
      ensures alerts == old(alerts) + if saved then [] else ["Save Error"]
    {
      NotesPathsDiffer(fs.documentDirectory);
      saved := EnsureDirExists(f);
      if saved {
        saved := fs.WriteAsString(Path(), Stringify(list), f.writeFails);
      }
      if !saved {
        alerts := alerts + ["Save Error"];
      }
    }

    /** Puts a note at the head of the list and saves the new list. */
    method PrependAndSave(note: Note, f: Faults) returns (saved: bool)
      modifies this, fs
      ensures notes == [note] + old(notes)
      ensures saved == SaveSucceeds(old(fs.entries), Dir(), Path(), f)
      ensures fs.entries == if saved then WithDir(old(fs.entries), Dir(), f.mkdirFails)[Path() := File(Stringify(notes))]
        else WithDir(old(fs.entries), Dir(), f.mkdirFails)
      ensures saved ==> Persisted()
      ensures !saved ==> StoredNotes(fs.entries, Path()) == StoredNotes(old(fs.entries), Path())
      ensures alerts == old(alerts) + if saved then [] else ["Save Error"]
      ensures newNoteText == old(newNoteText) && speaking == old(speaking)
      ensures currentlyReadingId == old(currentlyReadingId)
      ensures speech == old(speech) && effectSpeaking == old(effectSpeaking)
    {
      var updatedNotes := [note] + notes;
      notes := updatedNotes;
      saved := SaveNotes(updatedNotes, f);
    }

    /** The screen mounts and shows what was stored. */
    method Mount(f: Faults)
      modifies this, fs
      ensures notes == LoadResult(old(fs.entries), Dir(), Path(), f)
      ensures fs.entries == WithDir(old(fs.entries), Dir(), f.mkdirFails)
      ensures newNoteText == old(newNoteText) && speaking == old(speaking)
      ensures currentlyReadingId == old(currentlyReadingId) && speech == old(speech)
      ensures alerts == old(alerts) && effectSpeaking == old(effectSpeaking)
    {
      var loaded := LoadNotes(f);
      notes := loaded;
    }

    /** The text input changes. */
    method SetNewNoteText(text: string)
      modifies this`newNoteText
      ensures newNoteText == text
    {
      newNoteText := text;
    }

    /**
     * `addNote`: input that trims to nothing is refused with an alert and
     * nothing changes. Otherwise the trimmed text becomes a note at the head
     * of the list, the list is saved, the input is cleared and the note is
     * reported saved, even when the save failed (the list is not rolled back).
     */
    method AddNote(id: string, date: string, f: Faults) returns (added: bool, saved: bool)
      requires Valid()
      modifies this, fs
      ensures Valid()
      ensures added <==> !AllWhiteSpace(old(newNoteText))
      ensures !added ==> (!saved && notes == old(notes) && newNoteText == old(newNoteText)
        && fs.entries == old(fs.entries) && alerts == old(alerts) + ["Empty Note"])
      ensures added ==> notes == [Note(id, Trim(old(newNoteText)), date)] + old(notes) && newNoteText == ""
      ensures added ==> saved == SaveSucceeds(old(fs.entries), Dir(), Path(), f)
      ensures added ==> fs.entries == if saved then WithDir(old(fs.entries), Dir(), f.mkdirFails)[Path() := File(Stringify(notes))]
        else WithDir(old(fs.entries), Dir(), f.mkdirFails)
      ensures saved ==> Persisted()
      ensures added && !saved ==> StoredNotes(fs.entries, Path()) == StoredNotes(old(fs.entries), Path())
      ensures added ==> alerts == old(alerts) + (if saved then [] else ["Save Error"]) + ["Note Saved!"]
      ensures speaking == old(speaking) && currentlyReadingId == old(currentlyReadingId)
      ensures speech == old(speech) && effectSpeaking == old(effectSpeaking)
    {
      var text := Trim(newNoteText);
      TrimEmptyIff(newNoteText);
      if text == "" {
        alerts := alerts + ["Empty Note"];
        return false, false;
      }
      saved := PrependAndSave(Note(id, text, date), f);
      newNoteText := "";
      alerts := alerts + ["Note Saved!"];
      added := true;
    }

    /**
     * `deleteNote`: drops every note with the id, saves the list, and stops
     * the reading if it was this note being read.
     */
    method DeleteNote(id: string, f: Faults) returns (saved: bool)
      requires Valid()
      modifies this, fs
      ensures Valid()
      ensures notes == WithoutId(old(notes), id) && newNoteText == old(newNoteText)
      ensures saved == SaveSucceeds(old(fs.entries), Dir(), Path(), f)
      ensures fs.entries == if saved then WithDir(old(fs.entries), Dir(), f.mkdirFails)[Path() := File(Stringify(notes))]
        else WithDir(old(fs.entries), Dir(), f.mkdirFails)
      ensures saved ==> Persisted()
      ensures !saved ==> StoredNotes(fs.entries, Path()) == StoredNotes(old(fs.entries), Path())
      ensures old(currentlyReadingId) == Some(id) ==> speech == old(speech) + [Stop] && CurrentSession() == Idle
      ensures old(currentlyReadingId) != Some(id) ==>
        speech == old(speech) && speaking == old(speaking) && currentlyReadingId == old(currentlyReadingId)
      ensures alerts == old(alerts) + (if saved then [] else ["Save Error"]) + ["Note Deleted"]
      ensures effectSpeaking == old(effectSpeaking)
    {
      var updatedNotes := WithoutId(notes, id);
      notes := updatedNotes;
      saved := SaveNotes(updatedNotes, f);
      if currentlyReadingId == Some(id) {
        speech := speech + [Stop];
        speaking := false;
        currentlyReadingId := None;
      }
      alerts := alerts + ["Note Deleted"];
    }

    /**
     * `speakNote`, the read-aloud toggle. On the note being read it stops
     * and returns to idle. On any other note it stops the current reading
     * first, if there is one, then asks for the note to be spoken; the state
     * changes only when the service reports the start.
     */
    method SpeakNote(note: Note)
      requires Valid()
      modifies this`speech, this`speaking, this`currentlyReadingId
      ensures Valid()
      ensures old(IsReading(note)) ==> speech == old(speech) + [Stop] && CurrentSession() == Idle
      ensures !old(IsReading(note)) ==>
        speech == old(speech) + (if old(speaking) then [Stop] else []) + [Speak(note.text, note.id)]
        && CurrentSession() == old(CurrentSession())
    {
      if speaking && currentlyReadingId == Some(note.id) {
        speech := speech + [Stop];
        speaking := false;
        currentlyReadingId := None;
      } else {
        if speaking {
          speech := speech + [Stop];
        }
        speech := speech + [Speak(note.text, note.id)];
      }
    }

    /** `onStart` of the utterance issued as command `k`: that note is now being read. */
    method OnStart(k: nat)
      requires Valid() && k < |speech| && speech[k].Speak?
      modifies this`speaking, this`currentlyReadingId
      ensures Valid() && CurrentSession() == Speaking(speech[k].noteId)
    {
      speaking := true;
      currentlyReadingId := Some(speech[k].noteId);
    }

    /** `onDone` of the utterance issued as command `k`: back to idle, whichever note is being read. */
    method OnDone(k: nat)
      requires Valid() && k < |speech| && speech[k].Speak?
      modifies this`speaking, this`currentlyReadingId
      ensures Valid() && CurrentSession() == Idle
    {
      speaking := false;
      currentlyReadingId := None;
    }

    /** `onError` of the utterance issued as command `k`: back to idle, with an alert. */
    method OnError(k: nat)
      requires Valid() && k < |speech| && speech[k].Speak?
      modifies this`speaking, this`currentlyReadingId, this`alerts
      ensures Valid() && CurrentSession() == Idle
      ensures alerts == old(alerts) + ["TTS Error"]
    {
      speaking := false;
      currentlyReadingId := None;
      alerts := alerts + ["TTS Error"];
    }

    /**
     * React commits a render. When `speaking` has changed, the effect that
     * depends on it is replaced: the old one's cleanup stops the speech if
     * its captured value was true.
     */
    method Commit()
      modifies this`speech, this`effectSpeaking
      ensures effectSpeaking == speaking
      ensures speech == old(speech) + if old(effectSpeaking) && !speaking then [Stop] else []
    {
      if speaking != effectSpeaking {
        if effectSpeaking {
          speech := speech + [Stop];
        }
        effectSpeaking := speaking;
      }
    }

    /** The screen unmounts: the installed effect's cleanup stops the speech if it captured `speaking` as true. */
    method Unmount()
      modifies this`speech
      ensures speech == old(speech) + if effectSpeaking then [Stop] else []
    {
      if effectSpeaking {
        speech := speech + [Stop];
      }
    }
  }

  // ---------------------------------------------------------------------
  // Sequences of events

  /**
   * Reading a note and toggling it again, with React committing after every
   * handler: one `speak`, then two `stop`s (one from the toggle, one from the
   * cleanup of the effect that captured `speaking` as true), and the screen
   * is idle.
   */
  method ReadThenStop(screen: NotesScreen, note: Note)
    requires screen.Valid() && screen.CurrentSession() == Idle && screen.effectSpeaking == screen.speaking
    modifies screen
    ensures screen.Valid() && screen.CurrentSession() == Idle && screen.effectSpeaking == screen.speaking
    ensures screen.speech == old(screen.speech) + [Speak(note.text, note.id), Stop, Stop]
  {
    screen.SpeakNote(note);
    screen.Commit();
    var k := |screen.speech| - 1;
    screen.OnStart(k);
    screen.Commit();
    screen.SpeakNote(note);
    screen.Commit();
  }

  /**
   * Switching from note `a` to note `b`, with React committing after every
   * handler: the stop for `a` is issued before the speak for `b`. A late
   * `onDone` from `a`'s utterance, arriving after `b` has started, sets the
   * screen idle, and the commit that follows runs the cleanup of the effect
   * that captured `speaking` as true, which stops `b`'s reading as well.
   */
  method SwitchWithLateDone(screen: NotesScreen, a: Note, b: Note)
    requires screen.Valid() && screen.CurrentSession() == Idle && screen.effectSpeaking == screen.speaking
    requires a.id != b.id
    modifies screen
    ensures screen.Valid() && screen.CurrentSession() == Idle && screen.effectSpeaking == screen.speaking
    ensures screen.speech == old(screen.speech) + [Speak(a.text, a.id), Stop, Speak(b.text, b.id), Stop]
  {
    screen.SpeakNote(a);
    screen.Commit();
    var ka := |screen.speech| - 1;
    screen.OnStart(ka);
    screen.Commit();
    screen.SpeakNote(b);
    screen.Commit();
    var kb := |screen.speech| - 1;
    screen.OnStart(kb);
    screen.Commit();
    assert screen.CurrentSession() == Speaking(b.id);
    screen.OnDone(ka);
    screen.Commit();
  }

  /**
   * With every platform call succeeding and nothing in the way of the
   * directory or the file, adding a note and mounting another screen on the
   * same file system shows the same list.
   */
  method AddThenRemount(screen: NotesScreen, other: NotesScreen, id: string, date: string)
    requires screen.Valid() && other.fs == screen.fs && other != screen
    requires SaveSucceeds(screen.fs.entries, screen.Dir(), screen.Path(), Faults(false, false, false))
    modifies screen, screen.fs, other
    ensures screen.Valid()
    ensures !AllWhiteSpace(old(screen.newNoteText)) ==> screen.Persisted() && other.notes == screen.notes
  {
    var f := Faults(false, false, false);
    var before := screen.fs.entries;
    var added, saved := screen.AddNote(id, date, f);
    if added {
      NotesPathsDiffer(screen.fs.documentDirectory);
      SaveThenLoad(before, screen.Dir(), screen.Path(), screen.notes, f, f);
      other.Mount(f);
    }
  }
}

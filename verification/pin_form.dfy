/** The add/edit form of the sidebar: its fields are loaded from the pin being
    edited, the title is validated as non-blank, the tag list is cleaned on every
    change, and a submit hands a trimmed payload to the owner. */
module PinForm {
  import opened Common
  import opened ClientTypes

  const TITLE_REQUIRED: string := "Title is required and cannot be empty."

  /** `initialData`: the pin being edited, or a bare `{lat, lng}` pair. */
  datatype InitialData = PinData(pin: ClientPin) | Coords(at: LatLng)

  /** `!s.trim()`. */
  predicate Blank(s: string) {
    Trim(JsTrim, s) == []
  }

  // ---------------------------------------------------------------------------
  // Fields read from `initialData`

  /** `initialData.title || ''`: a coordinate pair has no title. */
  function InitialTitle(d: InitialData): string {
    match d
    case PinData(p) => OrElse(p.title, "")
    case Coords(_) => ""
  }

  function InitialNotes(d: InitialData): string {
    match d
    case PinData(p) => OrElse(p.notes, "")
    case Coords(_) => ""
  }

  /** `Array.isArray(initialData.tags) ? initialData.tags : []`: the tag objects of
      the pin, kept as objects. */
  function InitialTags(d: InitialData): seq<TagEntry> {
    match d
    case PinData(p) =>
      var tags := TagsOrEmpty(p);
      seq(|tags|, i requires 0 <= i < |tags| => TagObject(tags[i]))
    case Coords(_) => []
  }

  /** `initialData?.id`. */
  function InitialId(d: Option<InitialData>): Option<int> {
    match d
    case Some(PinData(p)) => p.id
    case _ => None
  }

  /** `initialData?.lat`: a pin object carries `latitude`, not `lat`. */
  function InitialLat(d: Option<InitialData>): Option<real> {
    match d
    case Some(Coords(c)) => Some(c.lat)
    case _ => None
  }

  function InitialLng(d: Option<InitialData>): Option<real> {
    match d
    case Some(Coords(c)) => Some(c.lng)
    case _ => None
  }

  // ---------------------------------------------------------------------------
  // Tag cleaning

  /** `typeof tag === 'string' ? tag.trim() : tag`. */
  function TrimEntry(e: TagEntry): TagEntry {
    match e
    case Text(s) => Text(Trim(JsTrim, s))
    case TagObject(_) => e
  }

  function TrimEntries(v: seq<TagEntry>): seq<TagEntry> {
    seq(|v|, i requires 0 <= i < |v| => TrimEntry(v[i]))
  }

  /** `tag && tag.length > 0`: a non-empty string. A tag object has no `length`, so
      the comparison is false for it. */
  predicate KeepEntry(e: TagEntry) {
    e.Text? && e.text != []
  }

  /** `handleTagsChange`: trim the strings, de-duplicate with a `Set` (first
      occurrence wins), then keep the non-empty strings. */
  function CleanTags(v: seq<TagEntry>): seq<TagEntry> {
    Filter(Dedupe(TrimEntries(v)), KeepEntry)
  }

  /** The cleaned list is the de-duplication of the non-empty trimmed strings, in
      order of first occurrence: filtering before or after the `Set` keeps the same
      entries, and none of them twice. */
  lemma CleanTagsIsDedupeOfKept(v: seq<TagEntry>)
    ensures CleanTags(v) == Dedupe(Filter(TrimEntries(v), KeepEntry))
    ensures NoDuplicates(CleanTags(v))
  {
    var t := TrimEntries(v);
    FilterDedupeCommute(t, KeepEntry);
    DedupeNoDuplicates(t);
    FilterPreservesNoDuplicates(Dedupe(t), KeepEntry);
  }

  /** An entry of the cleaned list is a trimmed entry of the input that is kept. */
  lemma CleanTagsMembership(v: seq<TagEntry>)
    ensures forall e :: e in CleanTags(v) <==> e in TrimEntries(v) && KeepEntry(e)
  {
    var t := TrimEntries(v);
    DedupeMembership(t);
    FilterMembership(Dedupe(t), KeepEntry);
  }

  /** The cleaned list holds only non-empty strings that are already trimmed:
      every tag object is dropped. */
  lemma CleanTagsTrimmed(v: seq<TagEntry>)
    ensures forall e :: e in CleanTags(v) ==>
      e.Text? && e.text != [] && Trim(JsTrim, e.text) == e.text
  {
    var t := TrimEntries(v);
    CleanTagsMembership(v);
    forall e | e in CleanTags(v)
      ensures e.Text? && e.text != [] && Trim(JsTrim, e.text) == e.text
    {
      assert e in t && KeepEntry(e);
      var i :| 0 <= i < |t| && t[i] == e;
      assert v[i].Text? && e.text == Trim(JsTrim, v[i].text);
      TrimIdempotent(JsTrim, v[i].text);
    }
  }

  /** A string is in the cleaned list exactly when it is non-empty and is what
      trimming makes of some string entry of the input. */
  lemma CleanTagsTexts(v: seq<TagEntry>, s: string)
    ensures Text(s) in CleanTags(v) <==>
      s != [] && exists i :: 0 <= i < |v| && v[i].Text? && TrimEntry(v[i]) == Text(s)
  {
    CleanTagsMembership(v);
    var t := TrimEntries(v);
    if Text(s) in t {
      var i :| 0 <= i < |t| && t[i] == Text(s);
      assert v[i].Text? && TrimEntry(v[i]) == Text(s);
    }
    if exists i :: 0 <= i < |v| && v[i].Text? && TrimEntry(v[i]) == Text(s) {
      var i :| 0 <= i < |v| && v[i].Text? && TrimEntry(v[i]) == Text(s);
      assert t[i] == Text(s);
    }
  }

  /** The survivors of the cleaning keep the order of their first occurrence among
      the trimmed entries. */
  lemma CleanTagsOrder(v: seq<TagEntry>, i: nat, j: nat)
    requires i < j < |CleanTags(v)|
    ensures CleanTags(v)[i] in TrimEntries(v) && CleanTags(v)[j] in TrimEntries(v)
    ensures FirstIndex(TrimEntries(v), CleanTags(v)[i]) < FirstIndex(TrimEntries(v), CleanTags(v)[j])
  {
    var f := Filter(TrimEntries(v), KeepEntry);
    CleanTagsIsDedupeOfKept(v);
    DedupeFirstOccurrenceOrder(f, i, j);
    FilterFirstIndex(TrimEntries(v), KeepEntry, CleanTags(v)[i], CleanTags(v)[j]);
  }

  /** Filtering keeps the relative order of the first occurrences of what it keeps. */
  lemma {:induction false} FilterFirstIndex<T>(s: seq<T>, keep: T -> bool, x: T, y: T)
    requires x in Filter(s, keep) && y in Filter(s, keep)
    requires FirstIndex(Filter(s, keep), x) < FirstIndex(Filter(s, keep), y)
    ensures x in s && y in s && FirstIndex(s, x) < FirstIndex(s, y)
  {
    FilterMembership(s, keep);
    var p := s[..|s| - 1];
    var z := s[|s| - 1];
    assert s == p + [z];
    var fp := Filter(p, keep);
    FilterMembership(p, keep);
    var f := Filter(s, keep);
    if x in fp && y in fp {
      FirstIndexOfPrefix(fp, z, x);
      FirstIndexOfPrefix(fp, z, y);
      if keep(z) {
        assert f == fp + [z];
      } else {
        assert f == fp;
      }
      FilterFirstIndex(p, keep, x, y);
      FirstIndexOfPrefix(p, z, x);
      FirstIndexOfPrefix(p, z, y);
    } else if x in fp {
      assert y !in p && y == z;
      FirstIndexOfPrefix(p, z, x);
      assert FirstIndex(s, y) == |p|;
    } else {
      assert false;
    }
  }

  // ---------------------------------------------------------------------------
  // Submit

  /** The data handed to `onSave`: trimmed title and notes, the selected tags as
      they are, and either the id (edit) or the coordinates (any other mode) of
      `initialData`. */
  function Payload(mode: SidebarMode, title: string, notes: string, tags: seq<TagEntry>,
                   initial: Option<InitialData>): SaveData
  {
    if mode == Edit then
      SaveData(Trim(JsTrim, title), Trim(JsTrim, notes), tags, InitialId(initial), None, None)
    else
      SaveData(Trim(JsTrim, title), Trim(JsTrim, notes), tags, None, InitialLat(initial), InitialLng(initial))
  }

  /** A payload built from a title that passes validation carries a non-empty title
      that trimming would not change, and trimmed notes. */
  lemma PayloadTrimmed(mode: SidebarMode, title: string, notes: string, tags: seq<TagEntry>,
                       initial: Option<InitialData>)
    requires !Blank(title)
    ensures var d := Payload(mode, title, notes, tags, initial);
      && d.title != [] && Trim(JsTrim, d.title) == d.title
      && Trim(JsTrim, d.notes) == d.notes
      && d.tags == tags
      && (mode == Edit ==> d.id == InitialId(initial) && d.lat.None? && d.lng.None?)
      && (mode != Edit ==> d.id.None? && d.lat == InitialLat(initial) && d.lng == InitialLng(initial))
  {
    var d := Payload(mode, title, notes, tags, initial);
    assert d.title == Trim(JsTrim, title) && d.notes == Trim(JsTrim, notes);
    TrimIdempotent(JsTrim, title);
    TrimIdempotent(JsTrim, notes);
  }

  /** `isSaving || !title.trim()`. */
  predicate SubmitDisabled(isSaving: bool, title: string) {
    isSaving || Blank(title)
  }

  // ---------------------------------------------------------------------------
  // The form

  class Form {
    var mode: SidebarMode
    var initialData: Option<InitialData>
    var title: string
    var notes: string
    var selectedTags: seq<TagEntry>
    /** `formErrors.title`; the empty string means no error. */
    var titleError: string

    /** Mounting the form runs the populate effect with the first props. */
    constructor (mode: SidebarMode, initialData: Option<InitialData>)
      ensures this.mode == mode && this.initialData == initialData
      ensures mode == Edit && initialData.Some? ==>
        title == InitialTitle(initialData.value) && notes == InitialNotes(initialData.value)
        && selectedTags == InitialTags(initialData.value)
      ensures !(mode == Edit && initialData.Some?) ==> title == "" && notes == "" && selectedTags == []
      ensures titleError == ""
    {
      this.mode := mode;
      this.initialData := initialData;
      if mode == Edit && initialData.Some? {
        title := InitialTitle(initialData.value);
        notes := InitialNotes(initialData.value);
        selectedTags := InitialTags(initialData.value);
      } else {
        title, notes, selectedTags := "", "", [];
      }
      titleError := "";
    }

    /** The populate effect, run when `mode` or `initialData` change: fields from the
        pin only in edit mode, empty otherwise; errors always cleared. */
    method Populate(mode: SidebarMode, initialData: Option<InitialData>)
      modifies this
      ensures this.mode == mode && this.initialData == initialData
      ensures mode == Edit && initialData.Some? ==>
        title == InitialTitle(initialData.value) && notes == InitialNotes(initialData.value)
        && selectedTags == InitialTags(initialData.value)
      ensures !(mode == Edit && initialData.Some?) ==> title == "" && notes == "" && selectedTags == []
      ensures titleError == ""
    {
      this.mode := mode;
      this.initialData := initialData;
      var t, n, g := "", "", [];
      if initialData.Some? {
        if mode == Edit {
          t := InitialTitle(initialData.value);
          n := InitialNotes(initialData.value);
          g := InitialTags(initialData.value);
        }
      }
      title, notes, selectedTags := t, n, g;
      titleError := "";
    }

    /** `validateForm`: valid exactly when the title is not blank; the title error
        is set to the required message or cleared accordingly. */
    method ValidateForm() returns (valid: bool)
      modifies this`titleError
      ensures valid <==> !Blank(title)
      ensures titleError == (if valid then "" else TITLE_REQUIRED)
    {
      var error := "";
      valid := true;
      if Blank(title) {
        error := TITLE_REQUIRED;
        valid := false;
      }
      titleError := error;
    }

    /** `handleTitleChange`: the new title is kept as typed; an existing error is
        cleared only when the new title is not blank. */
    method HandleTitleChange(value: string)
      modifies this`title, this`titleError
      ensures title == value
      ensures titleError == (if old(titleError) != "" && !Blank(value) then "" else old(titleError))
    {
      title := value;
      if titleError != "" && !Blank(value) {
        titleError := "";
      }
    }

    method HandleNotesChange(value: string)
      modifies this`notes
      ensures notes == value
    {
      notes := value;
    }

    /** `handleTagsChange`: the selection becomes the cleaned list. */
    method HandleTagsChange(newValue: seq<TagEntry>)
      modifies this`selectedTags
      ensures selectedTags == CleanTags(newValue)
    {
      selectedTags := CleanTags(newValue);
    }

    /** `handleSubmit`: nothing is handed over when validation fails; otherwise the
        payload of the current fields is. */
    method HandleSubmit() returns (saved: Option<SaveData>)
      modifies this`titleError
      ensures saved.Some? <==> !Blank(title)
      ensures saved.Some? ==> saved.value == Payload(mode, title, notes, selectedTags, initialData)
      ensures titleError == (if saved.Some? then "" else TITLE_REQUIRED)
    {
      var valid := ValidateForm();
      if !valid {
        return None;
      }
      return Some(Payload(mode, title, notes, selectedTags, initialData));
    }
  }

  /** Whenever the submit button is enabled, no save is in flight and a submit
      passes validation (see `HandleSubmit`), handing over a payload whose title is
      the trimmed, non-empty field and cannot be trimmed further. */
  lemma EnabledSubmitSaves(isSaving: bool, mode: SidebarMode, title: string, notes: string,
                           tags: seq<TagEntry>, initial: Option<InitialData>)
    requires !SubmitDisabled(isSaving, title)
    ensures !isSaving && !Blank(title)
    ensures var d := Payload(mode, title, notes, tags, initial);
      d.title == Trim(JsTrim, title) && d.title != [] && Trim(JsTrim, d.title) == d.title
  {
    PayloadTrimmed(mode, title, notes, tags, initial);
  }
}

/** `PinServiceImpl`: create, read, update, delete and proximity search over pins,
    with tag names resolved against the tag table. The two Spring Data repositories
    are in-memory fields of the service: `pinTable` in `findAll` order and
    `tagTable`, each with its identity counter. */
module PinService {
  import opened Common
  import opened Entities
  import opened PinDtos

  datatype ServiceError =
    | NotFound(id: int)           // ResourceNotFoundException
    | ConstraintViolation         // a NOT NULL column left null; the transaction rolls back

  datatype Result<T> = Ok(value: T) | Err(error: ServiceError)

  // ---------------------------------------------------------------------------
  // Tag-name processing

  /** `name.toLowerCase().trim()`. */
  function NormalizeTagName(s: string): string {
    Trim(JavaTrim, Lower(s))
  }

  predicate IsLowerCase(n: string) {
    forall k :: 0 <= k < |n| ==> LowerChar(n[k]) == n[k]
  }

  /** A name as `resolveTags` stores it: non-empty, lower-case, trimmed. */
  predicate IsNormalized(n: string) {
    n != [] && IsLowerCase(n) && !IsJavaTrimmable(n[0]) && !IsJavaTrimmable(n[|n| - 1])
  }

  function NonEmpty(s: string): bool {
    s != ""
  }

  /** `processedTagNames`: null entries skipped, each name lower-cased and trimmed,
      empty results dropped, and only the first occurrence of each kept. */
  function ProcessTagNames(names: Option<seq<Option<string>>>): seq<string> {
    if names.None? then [] else Dedupe(Filter(MapPresent(names.value, NormalizeTagName), NonEmpty))
  }

  lemma LowerIsLowerCase(s: string)
    ensures IsLowerCase(Lower(s))
  {
    forall k | 0 <= k < |s| ensures LowerChar(Lower(s)[k]) == Lower(s)[k] {
      LowerCharIdempotent(s[k]);
    }
  }

  lemma SliceOfLowerCase(l: string, n: string, i: nat)
    requires IsLowerCase(l) && SliceAt(l, n, i)
    ensures IsLowerCase(n)
  {
    forall k | 0 <= k < |n| ensures LowerChar(n[k]) == n[k] {
      assert n[k] == l[i + k];
    }
  }

  lemma TrimKeepsLowerCase(l: string)
    requires IsLowerCase(l) && Trim(JavaTrim, l) != ""
    ensures IsNormalized(Trim(JavaTrim, l))
  {
    var n := Trim(JavaTrim, l);
    var i :| 0 <= i && TrimmedAt(JavaTrim, l, n, i);
    SliceOfLowerCase(l, n, i);
  }

  lemma NormalizeIsNormalized(s: string)
    requires NormalizeTagName(s) != ""
    ensures IsNormalized(NormalizeTagName(s))
  {
    LowerIsLowerCase(s);
    TrimKeepsLowerCase(Lower(s));
  }

  /** No processed name occurs twice. */
  lemma ProcessedNamesDistinct(names: seq<Option<string>>)
    ensures NoDuplicates(ProcessTagNames(Some(names)))
  {
    DedupeNoDuplicates(Filter(MapPresent(names, NormalizeTagName), NonEmpty));
  }

  /** The processed names are exactly the non-empty normalised forms of the non-null
      input names. */
  lemma ProcessedNamesMembership(names: seq<Option<string>>)
    ensures forall n :: n in ProcessTagNames(Some(names)) <==>
      (n != "" && exists i :: 0 <= i < |names| && names[i].Some? && NormalizeTagName(names[i].value) == n)
  {
    var m := MapPresent(names, NormalizeTagName);
    var f := Filter(m, NonEmpty);
    DedupeMembership(f);
    FilterMembership(m, NonEmpty);
    MapPresentMembership(names, NormalizeTagName);
    forall n ensures n in ProcessTagNames(Some(names)) <==>
      (n != "" && exists i :: 0 <= i < |names| && names[i].Some? && NormalizeTagName(names[i].value) == n)
    {
      assert n in ProcessTagNames(Some(names)) <==> n in f;
      assert n in f <==> n in m && NonEmpty(n);
    }
  }

  /** Every processed name is non-empty, lower-case and trimmed. */
  lemma ProcessedNamesNormalized(names: seq<Option<string>>)
    ensures forall n :: n in ProcessTagNames(Some(names)) ==> IsNormalized(n)
  {
    ProcessedNamesMembership(names);
    forall n | n in ProcessTagNames(Some(names)) ensures IsNormalized(n) {
      var i :| 0 <= i < |names| && names[i].Some? && NormalizeTagName(names[i].value) == n;
      NormalizeIsNormalized(names[i].value);
    }
  }

  /** One step of the `processedTagNames` loop. */
  lemma ProcessStep(names: seq<Option<string>>, i: nat)
    requires i < |names|
    ensures ProcessTagNames(Some(names[..i + 1])) ==
      var p := ProcessTagNames(Some(names[..i]));
      match names[i]
      case None => p
      case Some(s) =>
        var n := NormalizeTagName(s);
        if n != "" && n !in p then p + [n] else p
  {
    var pre := names[..i];
    assert names[..i + 1][..i] == pre;
    var f := Filter(MapPresent(pre, NormalizeTagName), NonEmpty);
    DedupeMembership(f);
    match names[i]
    case None =>
    case Some(s) =>
      var n := NormalizeTagName(s);
      var nn := MapPresent(names[..i + 1], NormalizeTagName);
      assert nn == MapPresent(pre, NormalizeTagName) + [n];
      assert nn[..|nn| - 1] == MapPresent(pre, NormalizeTagName);
      if n != "" {
        assert Filter(nn, NonEmpty) == f + [n];
        assert (f + [n])[..|f|] == f;
      } else {
        assert Filter(nn, NonEmpty) == f;
      }
  }

  // ---------------------------------------------------------------------------
  // Lookup and proximity

  /** `findById`: the position of the pin with that id. */
  function IndexOfId(pins: seq<Pin>, id: int): (r: Option<nat>)
    reads pins
    ensures r.Some? ==> r.value < |pins| && pins[r.value].id == Some(id)
    ensures r.None? <==> forall i :: 0 <= i < |pins| ==> pins[i].id != Some(id)
  {
    if pins == [] then None
    else if pins[0].id == Some(id) then Some(0)
    else
      match IndexOfId(pins[1..], id)
      case None => None
      case Some(k) => Some(k + 1)
  }

  /** The pins within `radius` of the centre, in table order. */
  function NearbyPins(pins: seq<Pin>, lat: real, lng: real, radius: real,
                      distance: (real, real, real, real) -> real): seq<Pin>
    reads pins
    requires forall p :: p in pins ==> p.latitude.Some? && p.longitude.Some?
  {
    if pins == [] then []
    else
      var p := pins[|pins| - 1];
      NearbyPins(pins[..|pins| - 1], lat, lng, radius, distance)
        + (if distance(lat, lng, p.latitude.value, p.longitude.value) <= radius then [p] else [])
  }

  /** The proximity filter keeps exactly the pins whose distance is at most the radius,
      and it distributes over concatenation, so it keeps their relative order. */
  lemma {:induction false} NearbyPinsCharacterized(a: seq<Pin>, b: seq<Pin>, lat: real, lng: real, radius: real,
                                                  distance: (real, real, real, real) -> real)
    requires forall p :: p in a + b ==> p.latitude.Some? && p.longitude.Some?
    ensures NearbyPins(a + b, lat, lng, radius, distance)
      == NearbyPins(a, lat, lng, radius, distance) + NearbyPins(b, lat, lng, radius, distance)
    ensures forall p :: p in NearbyPins(b, lat, lng, radius, distance) <==>
      p in b && distance(lat, lng, p.latitude.value, p.longitude.value) <= radius
  {
    if b == [] {
      assert a + b == a;
    } else {
      var b' := b[..|b| - 1];
      assert (a + b)[..|a + b| - 1] == a + b';
      assert b == b' + [b[|b| - 1]];
      NearbyPinsCharacterized(a, b', lat, lng, radius, distance);
    }
  }

  /** The tag names of a pin, as a set. */
  function TagNames(p: Pin): set<Option<string>>
    reads p
  {
    set t | t in p.tags :: t.name
  }

  function NameSet(names: seq<string>): set<Option<string>> {
    set n | n in names :: Some(n)
  }

  /** The processed names that no stored tag matches. */
  function Missing(names: seq<string>, existingNames: set<string>): seq<string> {
    Filter(names, n => n !in existingNames)
  }

  lemma LowerOfLowerCase(n: string)
    requires IsLowerCase(n)
    ensures Lower(n) == n
  {
  }

  /** Every stored name is in normalised form. */
  predicate NamesNormalized(table: set<Tag>) {
    forall t :: t in table ==> t.name.Some? && IsNormalized(t.name.value)
  }

  /** The tags `findByNameInIgnoreCase(processed)` returns. */
  function Matching(table: set<Tag>, processed: seq<string>): set<Tag>
    requires NamesNormalized(table)
  {
    set t | t in table && Lower(t.name.value) in processed
  }

  /** The new tags carry exactly the unmatched processed names. */
  predicate NamedAfter(newTags: seq<Tag>, missing: seq<string>) {
    |newTags| == |missing| && forall k :: 0 <= k < |newTags| ==> newTags[k].name == Some(missing[k])
  }

  /** What `resolveTags` achieves, stated over the tag table before and after and
      the returned set: the stored tags it returns are exactly those whose name
      matches a processed name ignoring case; the table grows only by tags it
      returns, each named after a processed name that no stored tag matched; and the
      returned tags carry exactly the processed names. */
  predicate Resolution(before: set<Tag>, after: set<Tag>, tags: set<Tag>, processed: seq<string>) {
    && NamesNormalized(after) && before <= after && tags <= after
    && (forall t :: t in before ==> (t in tags <==> Lower(t.name.value) in processed))
    && (forall t :: t in after - before ==>
          t in tags && t.name.value in processed
          && forall u :: u in before ==> Lower(u.name.value) != t.name.value)
    && NameSet(processed) == set t | t in tags :: t.name
  }

  /** The names given to new tags are normalised, distinct, and clash with no stored
      name, not even ignoring case. */
  lemma NewTagNamesUnmatched(table: set<Tag>, processed: seq<string>, existingNames: set<string>, newTags: seq<Tag>)
    requires NamesNormalized(table)
    requires NoDuplicates(processed) && forall n :: n in processed ==> IsNormalized(n)
    requires existingNames == set t | t in Matching(table, processed) :: Lower(t.name.value)
    requires NamedAfter(newTags, Missing(processed, existingNames))
    ensures forall k :: 0 <= k < |newTags| ==> newTags[k].name.Some? && IsNormalized(newTags[k].name.value)
    ensures forall k, l :: 0 <= k < l < |newTags| ==> newTags[k].name != newTags[l].name
    ensures forall k, t :: 0 <= k < |newTags| && t in table ==>
      t.name != newTags[k].name && Lower(t.name.value) != newTags[k].name.value
    ensures forall k :: 0 <= k < |newTags| ==> newTags[k].name.value in processed
  {
    var missing := Missing(processed, existingNames);
    FilterMembership(processed, n => n !in existingNames);
    FilterPreservesNoDuplicates(processed, n => n !in existingNames);
    forall k | 0 <= k < |newTags| ensures newTags[k].name.value in processed && newTags[k].name.value !in existingNames {
      assert missing[k] in missing;
    }
    forall k, t | 0 <= k < |newTags| && t in table
      ensures t.name != newTags[k].name && Lower(t.name.value) != newTags[k].name.value
    {
      LowerOfLowerCase(t.name.value);
    }
  }

  /** Matched and created tags together carry exactly the processed names. */
  lemma ResolvedNamesCover(table: set<Tag>, processed: seq<string>, existingNames: set<string>, newTags: seq<Tag>)
    requires NamesNormalized(table)
    requires existingNames == set t | t in Matching(table, processed) :: Lower(t.name.value)
    requires NamedAfter(newTags, Missing(processed, existingNames))
    requires forall k :: 0 <= k < |newTags| ==> newTags[k].name.value in processed
    ensures NameSet(processed) ==
      set t | t in Matching(table, processed) + (set k | 0 <= k < |newTags| :: newTags[k]) :: t.name
  {
    var missing := Missing(processed, existingNames);
    var created := set k | 0 <= k < |newTags| :: newTags[k];
    var all := Matching(table, processed) + created;
    FilterMembership(processed, n => n !in existingNames);
    forall t | t in all ensures t.name in NameSet(processed) {
      if t in Matching(table, processed) {
        LowerOfLowerCase(t.name.value);
      }
    }
    forall n | n in processed ensures Some(n) in set t | t in all :: t.name {
      if n in existingNames {
        var t :| t in Matching(table, processed) && Lower(t.name.value) == n;
        LowerOfLowerCase(t.name.value);
      } else {
        assert n in missing;
        var k :| 0 <= k < |missing| && missing[k] == n;
        assert newTags[k] in created;
      }
    }
  }

  /** Matched stored tags plus one new tag per unmatched name form a resolution. */
  lemma ResolutionOfMatches(table: set<Tag>, processed: seq<string>, existingNames: set<string>, newTags: seq<Tag>)
    requires NamesNormalized(table)
    requires NoDuplicates(processed) && forall n :: n in processed ==> IsNormalized(n)
    requires existingNames == set t | t in Matching(table, processed) :: Lower(t.name.value)
    requires NamedAfter(newTags, Missing(processed, existingNames))
    requires forall k :: 0 <= k < |newTags| ==> newTags[k] !in table
    ensures var created := set k | 0 <= k < |newTags| :: newTags[k];
      Resolution(table, table + created, Matching(table, processed) + created, processed)
  {
    NewTagNamesUnmatched(table, processed, existingNames, newTags);
    ResolvedNamesCover(table, processed, existingNames, newTags);
    var created := set k | 0 <= k < |newTags| :: newTags[k];
    var after := table + created;
    var tags := Matching(table, processed) + created;
    assert NamesNormalized(after) by {
      forall t | t in after ensures t.name.Some? && IsNormalized(t.name.value) {
        if t !in table {
          var k :| 0 <= k < |newTags| && newTags[k] == t;
        }
      }
    }
    assert forall t :: t in table ==> (t in tags <==> Lower(t.name.value) in processed);
    forall t | t in after - table
      ensures t in tags && t.name.value in processed
      ensures forall u :: u in table ==> Lower(u.name.value) != t.name.value
    {
      var k :| 0 <= k < |newTags| && newTags[k] == t;
    }
  }

  /** Validity of the service depends only on the service's own fields, the pins in
      its table and the identities of its tags. */
  twostate lemma ValidKept(s: PinServiceImpl)
    requires old(s.Valid()) && unchanged(s)
    requires forall i :: 0 <= i < |s.pinTable| ==> unchanged(s.pinTable[i])
    requires forall t :: t in s.tagTable ==> old(t.id) == t.id
    ensures s.Valid()
  {
    forall i | 0 <= i < |s.pinTable| ensures s.PinStored(s.pinTable[i]) {
      assert old(s.PinStored(s.pinTable[i]));
    }
  }

  /** `set.contains(t)` on a `HashSet<Tag>`: some element is `equals` to `t`. */
  predicate ContainsTag(s: set<Tag>, t: Tag) {
    exists u :: u in s && u.Equals(t)
  }

  lemma ContainsTagAdd(s: set<Tag>, t: Tag, u: Tag)
    ensures ContainsTag(s + {t}, u) <==> ContainsTag(s, u) || u.Equals(t)
  {
    if u.Equals(t) {
      assert t in s + {t} && t.Equals(u);
    }
  }

  class PinServiceImpl {
    var pinTable: seq<Pin>
    var tagTable: set<Tag>
    var nextPinId: int
    var nextTagId: int

    predicate PinStored(p: Pin)
      reads this, p
    {
      && p.id.Some? && 0 < p.id.value < nextPinId
      && p.title.Some? && p.latitude.Some? && p.longitude.Some?
      && p.tags <= tagTable && p.TagsDistinct()
    }

    predicate TagStored(t: Tag)
      reads this, t`id
    {
      t.id.Some? && 0 < t.id.value < nextTagId && t.name.Some? && IsNormalized(t.name.value)
    }

    /** The tables' integrity: assigned, distinct identities; the NOT NULL columns of
        `pins` filled; tag names stored as `resolveTags` writes them and unique
        (`uk_tag_name`); every pin's tags stored. */
    predicate Valid()
      reads this, pinTable, tagTable`id
    {
      && 0 < nextPinId && 0 < nextTagId
      && (forall i :: 0 <= i < |pinTable| ==> PinStored(pinTable[i]))
      && (forall i, j :: 0 <= i < j < |pinTable| ==> pinTable[i].id != pinTable[j].id)
      && (forall t :: t in tagTable ==> TagStored(t))
      && (forall t, u :: t in tagTable && u in tagTable && t.name == u.name ==> t == u)
      && (forall t, u :: t in tagTable && u in tagTable && t.id == u.id ==> t == u)
    }

    constructor ()
      ensures Valid() && pinTable == [] && tagTable == {}
    {
      pinTable, tagTable, nextPinId, nextTagId := [], {}, 1, 1;
    }

    /** The `processedTagNames` loop. */
    static method ProcessNames(tagNames: seq<Option<string>>) returns (processed: seq<string>)
      ensures processed == ProcessTagNames(Some(tagNames))
    {
      processed := [];
      for i := 0 to |tagNames|
        invariant processed == ProcessTagNames(Some(tagNames[..i]))
      {
        ProcessStep(tagNames, i);
        if tagNames[i].Some? {
          var name := NormalizeTagName(tagNames[i].value);
          if name != "" && name !in processed {
            processed := processed + [name];
          }
        }
      }
      assert tagNames[..|tagNames|] == tagNames;
    }

    /** `findByNameInIgnoreCase(names)`. */
    function FindByNameInIgnoreCase(names: seq<string>): (r: set<Tag>)
      reads this
      requires NamesNormalized(tagTable)
      ensures r <= tagTable
    {
      Matching(tagTable, names)
    }

    /** The `newTags` loop: one new, unsaved `Tag` per name that has no stored match. */
    static method NewTagsFor(names: seq<string>, existingNames: set<string>) returns (newTags: seq<Tag>)
      ensures NamedAfter(newTags, Missing(names, existingNames))
      ensures forall k :: 0 <= k < |newTags| ==> fresh(newTags[k]) && newTags[k].id.None? && newTags[k].pins == {}
    {
      newTags := [];
      for i := 0 to |names|
        invariant |newTags| == |Missing(names[..i], existingNames)|
        invariant forall k :: 0 <= k < |newTags| ==>
          fresh(newTags[k]) && newTags[k].name == Some(Missing(names[..i], existingNames)[k])
          && newTags[k].id.None? && newTags[k].pins == {}
      {
        assert names[..i + 1][..i] == names[..i];
        if names[i] !in existingNames {
          var t := new Tag(Some(names[i]));
          newTags := newTags + [t];
        }
      }
      assert names[..|names|] == names;
    }

    /** Inserting one new tag row: it receives the next identity. */
    method InsertTag(t: Tag)
      requires Valid()
      requires t !in tagTable && t.name.Some? && IsNormalized(t.name.value)
      requires forall u :: u in tagTable ==> u.name != t.name
      modifies this`tagTable, this`nextTagId, t`id
      ensures Valid()
      ensures tagTable == old(tagTable) + {t}
    {
      t.id := Some(nextTagId);
      nextTagId := nextTagId + 1;
      tagTable := tagTable + {t};
      assert forall i :: 0 <= i < |pinTable| ==> PinStored(pinTable[i]) by {
        forall i | 0 <= i < |pinTable| ensures PinStored(pinTable[i]) {
          assert old(PinStored(pinTable[i]));
        }
      }
    }

    /** `tagRepository.saveAll(newTags)`: each new tag receives the next identity and
        joins the table. */
    method SaveAll(newTags: seq<Tag>)
      requires Valid()
      requires forall k :: 0 <= k < |newTags| ==> newTags[k] !in tagTable
      requires forall k :: 0 <= k < |newTags| ==> newTags[k].name.Some? && IsNormalized(newTags[k].name.value)
      requires forall k, l :: 0 <= k < l < |newTags| ==> newTags[k].name != newTags[l].name
      requires forall k, t :: 0 <= k < |newTags| && t in tagTable ==> t.name != newTags[k].name
      modifies this`tagTable, this`nextTagId, (set k | 0 <= k < |newTags| :: newTags[k])`id
      ensures Valid()
      ensures tagTable == old(tagTable) + set k | 0 <= k < |newTags| :: newTags[k]
    {
      var j := 0;
      while j < |newTags|
        invariant 0 <= j <= |newTags|
        invariant tagTable == old(tagTable) + set k | 0 <= k < j :: newTags[k]
        invariant Valid()
      {
        var t := newTags[j];
        assert forall u :: u in tagTable ==> u.name != t.name;
        InsertTag(t);
        j := j + 1;
      }
    }

    /** `resolveTags`: null or empty input resolves to no tags; otherwise the names
        are processed and resolved. */
    method ResolveTags(tagNames: Option<seq<Option<string>>>) returns (tags: set<Tag>)
      requires Valid()
      modifies this`tagTable, this`nextTagId
      ensures Valid() && Resolution(old(tagTable), tagTable, tags, ProcessTagNames(tagNames))
      ensures fresh(tagTable - old(tagTable))
    {
      tags := {};
      if tagNames.None? || |tagNames.value| == 0 {
        return;
      }
      var processed := ProcessNames(tagNames.value);
      if |processed| == 0 {
        return;
      }
      ProcessedNamesDistinct(tagNames.value);
      ProcessedNamesNormalized(tagNames.value);
      tags := ResolveProcessed(processed);
    }

    /** The body of `resolveTags` once some names survive processing: the stored tags
        whose name matches one ignoring case, plus one new, saved tag for each
        processed name that matches none. */
    method ResolveProcessed(processed: seq<string>) returns (tags: set<Tag>)
      requires Valid()
      requires NoDuplicates(processed) && forall n :: n in processed ==> IsNormalized(n)
      modifies this`tagTable, this`nextTagId
      ensures Valid() && Resolution(old(tagTable), tagTable, tags, processed)
      ensures fresh(tagTable - old(tagTable))
    {
      var existing := FindByNameInIgnoreCase(processed);
      tags := existing;
      var existingNames := set t | t in existing :: Lower(t.name.value);
      var newTags := NewTagsFor(processed, existingNames);
      NewTagNamesUnmatched(tagTable, processed, existingNames, newTags);
      ResolutionOfMatches(tagTable, processed, existingNames, newTags);
      if |newTags| > 0 {
        SaveAll(newTags);
      }
      var created := set k | 0 <= k < |newTags| :: newTags[k];
      tags := tags + created;
    }

    /** Identity within the tag table: two stored tags are `equals` only when they are
        the same entity, because stored names are unique. */
    lemma StoredTagsEqualIdentical()
      requires Valid()
      ensures forall t, u :: t in tagTable && u in tagTable && t.Equals(u) ==> t == u
    {
    }

    /** The `addTag` loop over a set of tags of which no two are `equals`: the pin
        ends up holding exactly those tags. */
    static method AttachAll(pin: Pin, tags: set<Tag>)
      requires forall t, u :: t in tags && u in tags && t.Equals(u) ==> t == u
      requires pin.tags <= tags && pin.TagsDistinct()
      modifies pin`tags, tags`pins
      ensures pin.tags == tags && pin.TagsDistinct()
    {
      var rest := tags - pin.tags;
      while rest != {}
        invariant rest <= tags
        invariant pin.tags == tags - rest && pin.TagsDistinct()
        decreases |rest|
      {
        var t :| t in rest;
        assert !pin.HasTag(t);
        pin.AddTag(t);
        rest := rest - {t};
      }
    }

    /** `pinRepository.save` of a new pin: it receives the next identity and is
        appended to the table. */
    method InsertPin(pin: Pin)
      requires Valid() && pin !in pinTable
      requires pin.title.Some? && pin.latitude.Some? && pin.longitude.Some?
      requires pin.tags <= tagTable && pin.TagsDistinct()
      modifies this`pinTable, this`nextPinId, pin`id
      ensures Valid()
      ensures pinTable == old(pinTable) + [pin] && pin.id == Some(old(nextPinId))
    {
      pin.id := Some(nextPinId);
      nextPinId := nextPinId + 1;
      pinTable := pinTable + [pin];
    }

    /** `new Pin()` and the setters `createPin` calls on it with the request's fields. */
    static method PinFields(dto: CreatePinDto) returns (pin: Pin)
      ensures fresh(pin) && pin.id.None? && pin.tags == {} && pin.TagsDistinct()
      ensures pin.title == dto.title && pin.notes == dto.notes && pin.userId.None?
      ensures pin.latitude == dto.latitude && pin.longitude == dto.longitude
    {
      pin := new Pin();
      pin.title := dto.title;
      pin.notes := dto.notes;
      pin.latitude := dto.latitude;
      pin.longitude := dto.longitude;
    }

    /** The first half of `createPin`: a transient pin carrying the request's fields
        and exactly the resolved tags. */
    method NewPin(dto: CreatePinDto) returns (pin: Pin)
      requires Valid()
      modifies this`tagTable, this`nextTagId, tagTable`pins
      ensures Valid() && fresh(pin) && pin.id.None?
      ensures pin.title == dto.title && pin.notes == dto.notes && pin.userId.None?
      ensures pin.latitude == dto.latitude && pin.longitude == dto.longitude
      ensures Resolution(old(tagTable), tagTable, pin.tags, ProcessTagNames(dto.tags)) && pin.TagsDistinct()
    {
      pin := PinFields(dto);
      var resolved := ResolveTags(dto.tags);
      StoredTagsEqualIdentical();
      label before:
      AttachAll(pin, resolved);
      ValidKept@before(this);
    }

    /** The successful path of `createPin`: the new pin, saved at the end of the
        table with the next identity, and its DTO. */
    method SaveNewPin(dto: CreatePinDto) returns (pin: Pin, d: PinDto)
      requires Valid()
      requires dto.title.Some? && dto.latitude.Some? && dto.longitude.Some?
      modifies this, tagTable`pins
      ensures Valid()
      ensures pinTable == old(pinTable) + [pin] && fresh(pin) && pin.id == Some(old(nextPinId))
      ensures pin.title == dto.title && pin.notes == dto.notes && pin.userId.None?
      ensures pin.latitude == dto.latitude && pin.longitude == dto.longitude
      ensures Resolution(old(tagTable), tagTable, pin.tags, ProcessTagNames(dto.tags))
      ensures DtoOf(pin, d)
    {
      pin := NewPin(dto);
      InsertPin(pin);
      label saved:
      var r := MapPinToPinDto(pin);
      d := r.value;
      ValidKept@saved(this);
    }

    /** `createPin`: a new pin with the request's fields and exactly the resolved
        tags, saved with the next identity at the end of the table. A null title,
        latitude or longitude violates a NOT NULL column: the transaction rolls back
        and nothing changes. */
    method CreatePin(dto: CreatePinDto) returns (r: Result<PinDto>)
      requires Valid()
      modifies this, tagTable`pins
      ensures Valid()
      ensures dto.title.None? || dto.latitude.None? || dto.longitude.None? ==>
        r == Err(ConstraintViolation) && pinTable == old(pinTable) && tagTable == old(tagTable)
      ensures dto.title.Some? && dto.latitude.Some? && dto.longitude.Some? ==>
        && r.Ok? && |pinTable| == |old(pinTable)| + 1 && pinTable[..|old(pinTable)|] == old(pinTable)
        && var p := pinTable[|old(pinTable)|];
        && fresh(p) && p.id == Some(old(nextPinId))
        && p.title == dto.title && p.notes == dto.notes && p.userId.None?
        && p.latitude == dto.latitude && p.longitude == dto.longitude
        && Resolution(old(tagTable), tagTable, p.tags, ProcessTagNames(dto.tags))
        && DtoOf(p, r.value)
    {
      if dto.title.None? || dto.latitude.None? || dto.longitude.None? {
        return Err(ConstraintViolation);
      }
      var pin, d := SaveNewPin(dto);
      assert pinTable[|old(pinTable)|] == pin;
      return Ok(d);
    }

    /** The pins of the table that carry `id`; at most one in a valid service. */
    function PinsWithId(id: int): set<Pin>
      reads this, pinTable
    {
      set p | p in pinTable && p.id == Some(id)
    }

    /** The `tagsToRemove` loop: the current tags that the resolved set does not
        contain. */
    static method TagsToRemove(current: set<Tag>, resolved: set<Tag>) returns (toRemove: set<Tag>)
      ensures toRemove == set t | t in current && !ContainsTag(resolved, t)
    {
      toRemove := {};
      var rest := current;
      while rest != {}
        invariant rest <= current
        invariant toRemove == set t | t in current - rest && !ContainsTag(resolved, t)
        decreases |rest|
      {
        var t :| t in rest;
        if !ContainsTag(resolved, t) {
          toRemove := toRemove + {t};
        }
        rest := rest - {t};
      }
    }

    /** The `removeTag` loop: the pin loses every tag `equals` to one removed. */
    static method DetachAll(pin: Pin, tags: set<Tag>)
      requires pin.TagsDistinct()
      modifies pin`tags, tags`pins
      ensures pin.TagsDistinct()
      ensures pin.tags == set u | u in old(pin.tags) && !ContainsTag(tags, u)
    {
      var rest := tags;
      while rest != {}
        invariant rest <= tags && pin.TagsDistinct()
        invariant pin.tags == set u | u in old(pin.tags) && !ContainsTag(tags - rest, u)
        decreases |rest|
      {
        var t :| t in rest;
        ghost var before := pin.tags;
        pin.RemoveTag(t);
        assert tags - (rest - {t}) == (tags - rest) + {t};
        forall u ensures u in pin.tags <==> u in old(pin.tags) && !ContainsTag(tags - (rest - {t}), u) {
          ContainsTagAdd(tags - rest, t, u);
        }
        rest := rest - {t};
      }
    }

    /** The setters of `updatePin`: title and notes of the pin at position `k`. */
    method EditFields(k: nat, title: string, notes: Option<string>)
      requires Valid() && k < |pinTable|
      modifies {pinTable[k]}`title, {pinTable[k]}`notes
      ensures Valid() && pinTable[k].title == Some(title) && pinTable[k].notes == notes
    {
      var pin := pinTable[k];
      pin.title := Some(title);
      pin.notes := notes;
      assert forall i :: 0 <= i < |pinTable| ==> PinStored(pinTable[i]) by {
        forall i | 0 <= i < |pinTable| ensures PinStored(pinTable[i]) {
          assert old(PinStored(pinTable[i]));
        }
      }
    }

    /** The tag replacement of `updatePin`: the current tags that the resolved set
        does not contain are removed, then every resolved tag is added; the pin at
        position `k` ends up holding exactly the resolved tags. */
    method ReplaceTags(k: nat, resolved: set<Tag>)
      requires Valid() && k < |pinTable| && resolved <= tagTable
      modifies {pinTable[k]}`tags, tagTable`pins
      ensures Valid() && pinTable[k].tags == resolved
    {
      var pin := pinTable[k];
      assert PinStored(pin);
      StoredTagsEqualIdentical();
      var toRemove := TagsToRemove(pin.tags, resolved);
      DetachAll(pin, toRemove);
      forall u | u in pin.tags ensures u in resolved {
        if !ContainsTag(resolved, u) {
          assert u in toRemove && u.Equals(u);
        }
      }
      AttachAll(pin, resolved);
      assert forall i :: 0 <= i < |pinTable| ==> PinStored(pinTable[i]) by {
        forall i | 0 <= i < |pinTable| ensures PinStored(pinTable[i]) {
          assert old(PinStored(pinTable[i]));
        }
      }
    }

    /** `updatePin` once the pin at position `k` is found and the title is present. */
    method ApplyUpdate(k: nat, dto: UpdatePinDto) returns (d: PinDto)
      requires Valid() && k < |pinTable| && dto.title.Some?
      modifies this`tagTable, this`nextTagId, {pinTable[k]}`title, {pinTable[k]}`notes, {pinTable[k]}`tags, tagTable`pins
      ensures Valid() && pinTable == old(pinTable)
      ensures var p := pinTable[k];
        && p.title == dto.title && p.notes == dto.notes
        && Resolution(old(tagTable), tagTable, p.tags, ProcessTagNames(dto.tags))
        && DtoOf(p, d)
    {
      EditFields(k, dto.title.value, dto.notes);
      var resolved := ResolveTags(dto.tags);
      ReplaceTags(k, resolved);
      label replaced:
      var r := MapPinToPinDto(pinTable[k]);
      ValidKept@replaced(this);
      d := r.value;
    }

    /** `updatePin`: an absent id is not found and nothing changes; otherwise title
        and notes are replaced, the coordinates and identity kept, and the tag set
        replaced by the resolved set. A null title violates a NOT NULL column: the
        transaction rolls back and nothing changes. */
    method UpdatePin(id: int, dto: UpdatePinDto) returns (r: Result<PinDto>)
      requires Valid()
      modifies this, PinsWithId(id)`title, PinsWithId(id)`notes, PinsWithId(id)`tags, tagTable`pins
      ensures Valid() && pinTable == old(pinTable)
      ensures old(IndexOfId(pinTable, id)).None? ==> r == Err(NotFound(id)) && tagTable == old(tagTable)
      ensures old(IndexOfId(pinTable, id)).Some? && dto.title.None? ==>
        && r == Err(ConstraintViolation) && tagTable == old(tagTable)
        && unchanged(pinTable[old(IndexOfId(pinTable, id)).value])
      ensures old(IndexOfId(pinTable, id)).Some? && dto.title.Some? ==>
        && r.Ok?
        && var p := pinTable[old(IndexOfId(pinTable, id)).value];
        && p.id == Some(id) && p.title == dto.title && p.notes == dto.notes
        && p.latitude == old(p.latitude) && p.longitude == old(p.longitude) && p.userId == old(p.userId)
        && Resolution(old(tagTable), tagTable, p.tags, ProcessTagNames(dto.tags))
        && DtoOf(p, r.value)
    {
      var k := IndexOfId(pinTable, id);
      if k.None? {
        return Err(NotFound(id));
      }
      if dto.title.None? {
        return Err(ConstraintViolation);
      }
      var d := ApplyUpdate(k.value, dto);
      return Ok(d);
    }

    /** `deletePin`: an absent id is not found; otherwise its pin leaves the table and
        the rest keep their order. */
    method DeletePin(id: int) returns (r: Result<()>)
      requires Valid()
      modifies this`pinTable
      ensures Valid()
      ensures old(IndexOfId(pinTable, id)).None? ==> r == Err(NotFound(id)) && pinTable == old(pinTable)
      ensures old(IndexOfId(pinTable, id)).Some? ==>
        && r == Ok(())
        && var k := old(IndexOfId(pinTable, id)).value;
        && pinTable == old(pinTable[..k] + pinTable[k + 1..])
      ensures forall i :: 0 <= i < |pinTable| ==> pinTable[i].id != Some(id)
    {
      var k := IndexOfId(pinTable, id);
      if k.None? {
        return Err(NotFound(id));
      }
      pinTable := pinTable[..k.value] + pinTable[k.value + 1..];
      return Ok(());
    }

    /** Every tag of every listed pin has a name. */
    static predicate TagsNamed(pins: seq<Pin>)
      reads pins
    {
      forall i, t :: 0 <= i < |pins| && t in pins[i].tags ==> t.name.Some?
    }

    /** The DTO loop of `getAllPins` and `findNearbyPins`: one DTO per pin, in order. */
    static method MapPins(pins: seq<Pin>) returns (dtos: seq<PinDto>)
      requires TagsNamed(pins)
      ensures |dtos| == |pins| && forall i :: 0 <= i < |pins| ==> DtoOf(pins[i], dtos[i])
    {
      dtos := [];
      for i := 0 to |pins|
        invariant |dtos| == i && forall j :: 0 <= j < i ==> DtoOf(pins[j], dtos[j])
      {
        var d := MapPinToPinDto(pins[i]);
        dtos := dtos + [d.value];
      }
    }

    lemma ValidTagsNamed()
      requires Valid()
      ensures TagsNamed(pinTable)
    {
      forall i, t | 0 <= i < |pinTable| && t in pinTable[i].tags ensures t.name.Some? {
        assert PinStored(pinTable[i]);
      }
    }

    /** `getAllPins`: every stored pin as a DTO, in table order. */
    method GetAllPins() returns (dtos: seq<PinDto>)
      requires Valid()
      ensures |dtos| == |pinTable| && forall i :: 0 <= i < |pinTable| ==> DtoOf(pinTable[i], dtos[i])
    {
      ValidTagsNamed();
      dtos := MapPins(pinTable);
    }

    /** `getPinById`: the DTO of the pin with that id, or nothing. */
    method GetPinById(id: int) returns (r: Option<PinDto>)
      requires Valid()
      ensures r.None? <==> forall i :: 0 <= i < |pinTable| ==> pinTable[i].id != Some(id)
      ensures r.Some? ==> exists i :: 0 <= i < |pinTable| && pinTable[i].id == Some(id) && DtoOf(pinTable[i], r.value)
    {
      var k := IndexOfId(pinTable, id);
      if k.None? {
        return None;
      }
      ValidTagsNamed();
      r := MapPinToPinDto(pinTable[k.value]);
    }

    /** `findNearbyPins`: the DTOs of the pins within `radius` of the centre, in table
        order, for the given distance function. */
    method FindNearbyPins(lat: real, lng: real, radius: real, distance: (real, real, real, real) -> real)
      returns (dtos: seq<PinDto>)
      requires Valid()
      ensures var near := NearbyPins(pinTable, lat, lng, radius, distance);
        |dtos| == |near| && forall i :: 0 <= i < |near| ==> DtoOf(near[i], dtos[i])
    {
      assert forall p :: p in pinTable ==> PinStored(p);
      var nearby: seq<Pin> := [];
      for i := 0 to |pinTable|
        invariant nearby == NearbyPins(pinTable[..i], lat, lng, radius, distance)
      {
        var p := pinTable[i];
        assert pinTable[..i + 1][..i] == pinTable[..i];
        if distance(lat, lng, p.latitude.value, p.longitude.value) <= radius {
          nearby := nearby + [p];
        }
      }
      assert pinTable[..|pinTable|] == pinTable;
      ValidTagsNamed();
      NearbyPinsCharacterized([], pinTable, lat, lng, radius, distance);
      assert TagsNamed(nearby) by {
        forall j, t | 0 <= j < |nearby| && t in nearby[j].tags ensures t.name.Some? {
          assert nearby[j] in nearby;
        }
      }
      dtos := MapPins(nearby);
    }
  }
}

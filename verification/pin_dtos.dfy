/** The transfer objects the pin service exchanges with its controller, and the
    relation between a stored pin and the `PinDto` built from it, including the
    case-insensitive ordering of its tags. */
module PinDtos {
  import opened Common
  import opened Entities

  datatype TagDto = TagDto(id: Option<int>, name: Option<string>)

  /** `PinDto` without the two timestamps, which the model leaves out. */
  datatype PinDto = PinDto(
    id: Option<int>,
    title: Option<string>,
    notes: Option<string>,
    latitude: Option<real>,
    longitude: Option<real>,
    userId: Option<int>,
    tags: seq<TagDto>)

  /** Request body of `POST /api/pins`; a null list and null entries are possible. */
  datatype CreatePinDto = CreatePinDto(
    title: Option<string>,
    notes: Option<string>,
    latitude: Option<real>,
    longitude: Option<real>,
    tags: Option<seq<Option<string>>>)

  /** Request body of `PUT /api/pins/{id}`: no coordinates. */
  datatype UpdatePinDto = UpdatePinDto(
    title: Option<string>,
    notes: Option<string>,
    tags: Option<seq<Option<string>>>)

  function TagDtoOf(t: Tag): TagDto
    reads t
  {
    TagDto(t.id, t.name)
  }

  // ---------------------------------------------------------------------------
  // Ordering of tag DTOs

  /** Lexicographic order on strings, a proper prefix first (`String.compareTo <= 0`). */
  predicate LexLe(a: string, b: string) {
    a == [] || (b != [] && (a[0] < b[0] || (a[0] == b[0] && LexLe(a[1..], b[1..]))))
  }

  lemma {:induction false} LexLeTotal(a: string, b: string)
    ensures LexLe(a, b) || LexLe(b, a)
  {
    if a != [] && b != [] && a[0] == b[0] {
      LexLeTotal(a[1..], b[1..]);
    }
  }

  /** The key `compareToIgnoreCase` compares: the name with ASCII letters lowered. */
  function NameKey(d: TagDto): string {
    Lower(d.name.GetOr(""))
  }

  /** `compareToIgnoreCase(a.name, b.name) <= 0`. */
  predicate NameLe(a: TagDto, b: TagDto) {
    LexLe(NameKey(a), NameKey(b))
  }

  predicate SortedByName(s: seq<TagDto>) {
    forall i :: 0 < i < |s| ==> NameLe(s[i - 1], s[i])
  }

  function InsertByName(x: TagDto, s: seq<TagDto>): (r: seq<TagDto>)
    requires SortedByName(s)
    ensures SortedByName(r)
    ensures multiset(r) == multiset(s) + multiset{x}
    ensures r[0] == x || (s != [] && r[0] == s[0])
  {
    if s == [] then [x]
    else if NameLe(x, s[0]) then [x] + s
    else
      LexLeTotal(NameKey(x), NameKey(s[0]));
      var rest := InsertByName(x, s[1..]);
      assert s == [s[0]] + s[1..];
      [s[0]] + rest
  }

  /** `tagDtos.sort(compareToIgnoreCase on names)`: an ordered permutation. */
  function SortByName(s: seq<TagDto>): (r: seq<TagDto>)
    ensures SortedByName(r)
    ensures multiset(r) == multiset(s)
  {
    if s == [] then []
    else
      assert s == s[..|s| - 1] + [s[|s| - 1]];
      InsertByName(s[|s| - 1], SortByName(s[..|s| - 1]))
  }

  // ---------------------------------------------------------------------------
  // Pin to DTO

  /** `d` is what `mapPinToPinDto(p)` returns: every scalar field copied, one tag entry
      per tag of the pin, ordered by name ignoring case. */
  predicate DtoOf(p: Pin, d: PinDto)
    reads p, p.tags
  {
    && d.id == p.id && d.title == p.title && d.notes == p.notes
    && d.latitude == p.latitude && d.longitude == p.longitude && d.userId == p.userId
    && |d.tags| == |p.tags|
    && (forall t :: t in p.tags ==> TagDtoOf(t) in d.tags)
    && (forall e :: e in d.tags ==> exists t :: t in p.tags && e == TagDtoOf(t))
    && SortedByName(d.tags)
  }

  /** `mapPinToPinDto`: null maps to null; otherwise the tag entities are copied into a
      list in the set's iteration order, which is then sorted. Tag names must be
      non-null, or the comparator throws. */
  method MapPinToPinDto(pin: Pin?) returns (r: Option<PinDto>)
    requires pin != null ==> forall t :: t in pin.tags ==> t.name.Some?
    ensures pin == null <==> r.None?
    ensures pin != null ==> DtoOf(pin, r.value)
  {
    if pin == null {
      return None;
    }
    var dtos: seq<TagDto> := [];
    var rest := pin.tags;
    while rest != {}
      invariant rest <= pin.tags
      invariant |dtos| + |rest| == |pin.tags|
      invariant forall t :: t in pin.tags && t !in rest ==> TagDtoOf(t) in dtos
      invariant forall e :: e in dtos ==> exists t :: t in pin.tags && t !in rest && e == TagDtoOf(t)
      decreases |rest|
    {
      var t :| t in rest;
      dtos := dtos + [TagDtoOf(t)];
      rest := rest - {t};
    }
    var sorted := SortByName(dtos);
    assert forall e :: e in sorted <==> e in dtos by {
      forall e ensures e in sorted <==> e in dtos {
        assert e in sorted <==> e in multiset(sorted);
        assert e in dtos <==> e in multiset(dtos);
      }
    }
    return Some(PinDto(pin.id, pin.title, pin.notes, pin.latitude, pin.longitude, pin.userId, sorted));
  }
}

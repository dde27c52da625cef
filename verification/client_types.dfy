/** The JSON shapes the browser client holds: pins and tags as the API returns them,
    the modes of the sidebar, and the payload the pin form hands to its owner. */
module ClientTypes {
  import opened Common

  /** A tag object inside a pin: `{id, name}`. */
  datatype ClientTag = ClientTag(id: Option<int>, name: Option<string>)

  /** A pin object as the client holds it. `tags` is `None` when the field is missing
      or is not an array. */
  datatype ClientPin = ClientPin(
    id: Option<int>,
    title: Option<string>,
    notes: Option<string>,
    latitude: Option<real>,
    longitude: Option<real>,
    tags: Option<seq<ClientTag>>)

  /** The four values of `sidebarMode`. */
  datatype SidebarMode = List | Add | Edit | View

  /** An entry of the form's selected-tags list: a typed string, or a tag object
      loaded from the pin being edited. */
  datatype TagEntry = Text(text: string) | TagObject(tag: ClientTag)

  /** What the pin form submits: `id` only in edit mode, `lat`/`lng` only in add
      mode (an absent key is `None`). */
  datatype SaveData = SaveData(
    title: string,
    notes: string,
    tags: seq<TagEntry>,
    id: Option<int>,
    lat: Option<real>,
    lng: Option<real>)

  /** What a click in a pin card or the detail panel asks of the coordinator:
      select a pin by id, edit a whole pin, delete a pin by id, or close the panel. */
  datatype Intent = SelectPin(id: Option<int>) | EditPin(pin: ClientPin) | DeletePin(id: Option<int>) | ClosePanel

  /** `Array.isArray(tags) ? tags : []`. */
  function TagsOrEmpty(p: ClientPin): seq<ClientTag> {
    p.tags.GetOr([])
  }

  /** `pins[k]` is the first pin carrying `id`. */
  predicate FirstWithId(pins: seq<ClientPin>, k: int, id: Option<int>) {
    0 <= k < |pins| && pins[k].id == id && forall j :: 0 <= j < k ==> pins[j].id != id
  }

  /** `pins.find(p => p.id === id)`: the first pin carrying `id`. */
  function FindPin(pins: seq<ClientPin>, id: Option<int>): (r: Option<ClientPin>)
    ensures r.Some? ==> exists k :: FirstWithId(pins, k, id) && pins[k] == r.value
    ensures r.None? <==> forall p :: p in pins ==> p.id != id
  {
    if pins == [] then None
    else if pins[0].id == id then
      assert FirstWithId(pins, 0, id);
      Some(pins[0])
    else
      var r := FindPin(pins[1..], id);
      assert forall p :: p in pins ==> p == pins[0] || p in pins[1..];
      if r.Some? then
        var k :| FirstWithId(pins[1..], k, id) && pins[1..][k] == r.value;
        assert FirstWithId(pins, k + 1, id);
        r
      else r
  }
}

/** The sidebar: in list mode a search box and the case-insensitive filter over the
    pins it lists; in the other modes the add/edit form or the detail panel, chosen
    from the mode the coordinator passes down. */
module PinSidebar {
  import opened Common
  import opened ClientTypes
  import PinForm

  const NO_PINS_MESSAGE: string := "No saved locations yet. Click the \"+\" button or click on the map to add one!"
  const NO_MATCH_MESSAGE: string := "No locations match your search."

  // ---------------------------------------------------------------------------
  // The filter

  /** The search term as the filter uses it: `searchTerm.toLowerCase().trim()`. */
  function NormalizedTerm(searchTerm: string): string {
    Trim(JsTrim, Lower(searchTerm))
  }

  /** `field?.toLowerCase().includes(term)`: a missing field never matches. */
  predicate FieldMatches(field: Option<string>, term: string) {
    field.Some? && Contains(Lower(field.value), term)
  }

  /** `pin.tags?.some(tag => tag.name?.toLowerCase().includes(term))`. */
  predicate TagMatches(tags: Option<seq<ClientTag>>, term: string) {
    tags.Some? && exists i :: 0 <= i < |tags.value| && FieldMatches(tags.value[i].name, term)
  }

  predicate PinMatches(pin: ClientPin, term: string) {
    FieldMatches(pin.title, term) || FieldMatches(pin.notes, term) || TagMatches(pin.tags, term)
  }

  /** `filteredPins`: nothing outside list mode; every listed pin for an empty or
      blank term; otherwise the listed pins that match, in order. */
  function FilteredPins(mode: SidebarMode, pinsToList: seq<ClientPin>, searchTerm: string): seq<ClientPin> {
    if mode != List then []
    else if searchTerm == "" then pinsToList
    else
      var term := NormalizedTerm(searchTerm);
      if term == "" then pinsToList
      else Filter(pinsToList, (p: ClientPin) => PinMatches(p, term))
  }

  /** Outside list mode nothing is listed; a blank term lists every pin as given. */
  lemma FilterDegenerateCases(mode: SidebarMode, pins: seq<ClientPin>, searchTerm: string)
    ensures mode != List ==> FilteredPins(mode, pins, searchTerm) == []
    ensures mode == List && NormalizedTerm(searchTerm) == "" ==> FilteredPins(mode, pins, searchTerm) == pins
  {
  }

  /** With a non-blank term the result is the order-preserving sublist of matching
      pins: a pin is kept exactly when the lowered, trimmed term occurs in its
      lowered title, its lowered notes or one of its lowered tag names, and
      splitting the list splits the result the same way. */
  lemma FilterSelectsMatches(pins: seq<ClientPin>, more: seq<ClientPin>, searchTerm: string)
    requires NormalizedTerm(searchTerm) != ""
    ensures var term := NormalizedTerm(searchTerm);
      forall p :: p in FilteredPins(List, pins, searchTerm) <==> p in pins && PinMatches(p, term)
    ensures FilteredPins(List, pins + more, searchTerm) ==
      FilteredPins(List, pins, searchTerm) + FilteredPins(List, more, searchTerm)
  {
    var term := NormalizedTerm(searchTerm);
    assert searchTerm != "";
    FilterMembership(pins, (p: ClientPin) => PinMatches(p, term));
    FilterAppend(pins, more, (p: ClientPin) => PinMatches(p, term));
  }

  /** A pin without title, notes and tags matches no term. */
  lemma MissingFieldsNeverMatch(pin: ClientPin, term: string)
    requires pin.title.None? && pin.notes.None? && pin.tags.None?
    ensures !PinMatches(pin, term)
  {
  }

  lemma {:induction false} LowerIdempotent(s: string)
    ensures Lower(Lower(s)) == Lower(s)
  {
    forall i | 0 <= i < |s|
      ensures Lower(Lower(s))[i] == Lower(s)[i]
    {
      LowerCharIdempotent(s[i]);
    }
  }

  /** The filter ignores the case of the search term. */
  lemma FilterIgnoresTermCase(mode: SidebarMode, pins: seq<ClientPin>, searchTerm: string)
    ensures FilteredPins(mode, pins, Lower(searchTerm)) == FilteredPins(mode, pins, searchTerm)
  {
    LowerIdempotent(searchTerm);
    assert NormalizedTerm(Lower(searchTerm)) == NormalizedTerm(searchTerm);
  }

  // ---------------------------------------------------------------------------
  // The mode dispatch

  /** The React key of the form: the pin id when it is truthy, `'edit-fallback'`
      otherwise, in edit mode; `'add'` in add mode. */
  datatype FormKey = IdKey(id: int) | NamedKey(name: string)

  datatype CardEntry = CardEntry(pin: ClientPin, isActive: bool)

  datatype ListContent = Spinner | EmptyMessage(text: string) | Cards(cards: seq<CardEntry>)

  datatype Panel =
    | FormPanel(
        key: FormKey,
        formMode: SidebarMode,
        initialData: Option<PinForm.InitialData>,
        initialCoords: Option<LatLng>)
    | DetailPanel(pin: Option<ClientPin>)
    | ListPanel(content: ListContent)

  /** The sidebar: the search toolbar (list mode only) above the main panel. */
  datatype SidebarView = SidebarView(toolbar: bool, main: Panel)

  /** The props the sidebar receives from the coordinator. */
  datatype SidebarProps = SidebarProps(
    mode: SidebarMode,
    pinData: Option<ClientPin>,
    newPinCoords: Option<LatLng>,
    pinsToList: seq<ClientPin>,
    activePinId: Option<int>,
    isLoadingList: bool)

  function FormKeyOf(mode: SidebarMode, pinData: Option<ClientPin>): FormKey {
    if mode == Edit then
      (if pinData.Some? && Truthy(pinData.value.id) then IdKey(pinData.value.id.value)
       else NamedKey("edit-fallback"))
    else NamedKey("add")
  }

  /** A card is highlighted when `pin.id === activePinId`. */
  function CardEntries(pins: seq<ClientPin>, activePinId: Option<int>): seq<CardEntry> {
    seq(|pins|, i requires 0 <= i < |pins| => CardEntry(pins[i], pins[i].id == activePinId))
  }

  function ListContentOf(props: SidebarProps, searchTerm: string): ListContent {
    var filtered := FilteredPins(props.mode, props.pinsToList, searchTerm);
    if props.isLoadingList then Spinner
    else if filtered == [] then
      EmptyMessage(if props.pinsToList == [] then NO_PINS_MESSAGE else NO_MATCH_MESSAGE)
    else Cards(CardEntries(filtered, props.activePinId))
  }

  /** `renderMainContent` and the toolbar condition. */
  function RenderSidebar(props: SidebarProps, searchTerm: string): SidebarView {
    var main :=
      match props.mode
      case Add | Edit =>
        FormPanel(
          FormKeyOf(props.mode, props.pinData),
          props.mode,
          if props.mode == Edit then
            (match props.pinData case Some(p) => Some(PinForm.PinData(p)) case None => None)
          else None,
          if props.mode == Add then props.newPinCoords else None)
      case View => DetailPanel(props.pinData)
      case List => ListPanel(ListContentOf(props, searchTerm));
    SidebarView(props.mode == List, main)
  }

  /** Add and edit show the form, edit with the selected pin as its initial data
      and add with the pending coordinates; view shows the detail panel of the
      selected pin; list shows the list under the search toolbar. */
  lemma DispatchByMode(props: SidebarProps, searchTerm: string)
    ensures var v := RenderSidebar(props, searchTerm);
      && (v.main.FormPanel? <==> props.mode == Add || props.mode == Edit)
      && (v.main.DetailPanel? <==> props.mode == View)
      && (v.main.ListPanel? <==> props.mode == List)
      && (v.toolbar <==> v.main.ListPanel?)
      && (v.main.FormPanel? ==>
            && v.main.formMode == props.mode
            && (v.main.initialData.Some? <==> props.mode == Edit && props.pinData.Some?)
            && (v.main.initialData.Some? ==> v.main.initialData.value == PinForm.PinData(props.pinData.value))
            && (v.main.initialCoords.Some? ==> props.mode == Add)
            && (props.mode == Add ==> v.main.initialCoords == props.newPinCoords))
      && (v.main.DetailPanel? ==> v.main.pin == props.pinData)
  {
  }

  /** Two different edit targets with truthy ids get different form keys, so the
      form is mounted afresh; add mode always shares the one key `'add'`. */
  lemma FormKeySeparatesPins(a: ClientPin, b: ClientPin)
    requires Truthy(a.id) && Truthy(b.id) && a.id != b.id
    ensures FormKeyOf(Edit, Some(a)) != FormKeyOf(Edit, Some(b))
    ensures FormKeyOf(Edit, Some(a)) != FormKeyOf(Add, Some(b))
  {
  }

  /** In the list, the empty-state message tells an empty collection apart from a
      search that matched nothing: the second only arises from a non-blank term
      that no listed pin matches. */
  lemma EmptyMessageDistinguishes(props: SidebarProps, searchTerm: string)
    requires props.mode == List && !props.isLoadingList
    ensures props.pinsToList == [] ==> ListContentOf(props, searchTerm) == EmptyMessage(NO_PINS_MESSAGE)
    ensures ListContentOf(props, searchTerm) == EmptyMessage(NO_MATCH_MESSAGE) ==>
      && props.pinsToList != []
      && NormalizedTerm(searchTerm) != ""
      && (forall p :: p in props.pinsToList ==> !PinMatches(p, NormalizedTerm(searchTerm)))
  {
    var filtered := FilteredPins(List, props.pinsToList, searchTerm);
    if filtered == [] && props.pinsToList != [] {
      assert searchTerm != "" && NormalizedTerm(searchTerm) != "";
      var term := NormalizedTerm(searchTerm);
      assert filtered == Filter(props.pinsToList, (p: ClientPin) => PinMatches(p, term));
      FilterMembership(props.pinsToList, (p: ClientPin) => PinMatches(p, term));
    }
  }

  /** The cards are the filtered pins in order, and exactly the card whose pin id
      equals the active id is highlighted. */
  lemma CardsHighlightActive(props: SidebarProps, searchTerm: string)
    requires ListContentOf(props, searchTerm).Cards?
    ensures var cards := ListContentOf(props, searchTerm).cards;
      && |cards| == |FilteredPins(props.mode, props.pinsToList, searchTerm)| > 0
      && (forall i :: 0 <= i < |cards| ==>
            && cards[i].pin == FilteredPins(props.mode, props.pinsToList, searchTerm)[i]
            && (cards[i].isActive <==> cards[i].pin.id == props.activePinId))
  {
  }
}

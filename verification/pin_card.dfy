/** The pin card of the sidebar list: a title with a fallback, at most three tag
    chips followed by a "+N" chip whose tooltip names the hidden tags, the first line
    of the notes, and three click targets. */
module PinCard {
  import opened Common
  import opened ClientTypes
  import opened TagColor

  const MAX_TAGS_TO_SHOW: nat := 3

  /** The "+N" chip and the tooltip over it. */
  datatype OverflowChip = OverflowChip(caption: string, tooltip: string)

  datatype CardView = CardView(
    title: string,
    chips: seq<Chip>,
    overflow: Option<OverflowChip>,
    notesPreview: Option<string>)

  /** The parts of a card the user can click. The edit and delete buttons stop the
      click from reaching the card body. */
  datatype CardTarget = Body | EditButton | DeleteButton

  function Min(a: nat, b: nat): nat {
    if a < b then a else b
  }

  /** The text before the first line feed (`split('\n')[0]`). */
  function FirstLine(s: string): (r: string)
    ensures |r| <= |s| && r == s[..|r|]
    ensures '\n' !in r
    ensures |r| < |s| ==> s[|r|] == '\n'
  {
    if s == [] || s[0] == '\n' then []
    else [s[0]] + FirstLine(s[1..])
  }

  /** The tooltip of the "+N" chip names the hidden tags with `t.name`, so a
      nameless tag contributes an empty string rather than 'untagged'. */
  function TagNames(tags: seq<ClientTag>): seq<string> {
    seq(|tags|, i requires 0 <= i < |tags| => tags[i].name.GetOr(""))
  }

  /** The chips for the first three tags, in order. */
  function CardChips(tags: seq<ClientTag>): seq<Chip> {
    seq(Min(|tags|, MAX_TAGS_TO_SHOW), i requires 0 <= i < Min(|tags|, MAX_TAGS_TO_SHOW) => TagChip(tags[i].name))
  }

  function Overflow(tags: seq<ClientTag>): Option<OverflowChip> {
    if |tags| > MAX_TAGS_TO_SHOW then
      Some(OverflowChip("+" + NatToString(|tags| - MAX_TAGS_TO_SHOW),
                        Join(TagNames(tags[MAX_TAGS_TO_SHOW..]), ", ")))
    else None
  }

  /** What the card renders for `pin`. */
  function RenderCard(pin: ClientPin): CardView {
    var tags := TagsOrEmpty(pin);
    CardView(
      OrElse(pin.title, "Untitled Pin"),
      CardChips(tags),
      Overflow(tags),
      if StrTruthy(pin.notes) then Some(FirstLine(pin.notes.value)) else None)
  }

  /** The three click handlers: the body selects by id, edit hands over the whole
      pin, delete hands over only the id. */
  function CardIntent(pin: ClientPin, target: CardTarget): (r: Intent)
    ensures r.SelectPin? || r.DeletePin? ==> r.id == pin.id
    ensures r.EditPin? ==> r.pin == pin
    ensures r != ClosePanel
  {
    match target
    case Body => SelectPin(pin.id)
    case EditButton => EditPin(pin)
    case DeleteButton => DeletePin(pin.id)
  }

  /** Every tag of the pin is accounted for exactly once: the first three as chips
      in order, the others counted by the "+N" label and named in its tooltip; a
      pin whose `tags` is not an array shows neither. */
  lemma CardTagsAccounted(pin: ClientPin)
    ensures var v, tags := RenderCard(pin), TagsOrEmpty(pin);
      && |v.chips| <= MAX_TAGS_TO_SHOW
      && (forall i :: 0 <= i < |v.chips| ==> v.chips[i] == TagChip(tags[i].name))
      && (v.overflow.Some? <==> |tags| > |v.chips|)
      && (v.overflow.Some? ==>
            && v.overflow.value.caption == "+" + NatToString(|tags| - |v.chips|)
            && v.overflow.value.tooltip == Join(TagNames(tags[|v.chips|..]), ", "))
      && (pin.tags.None? ==> v.chips == [] && v.overflow.None?)
  {
  }

  /** With a single hidden tag the "+1" tooltip is exactly that tag's name. */
  lemma OneHiddenTag(pin: ClientPin)
    requires pin.tags.Some? && |pin.tags.value| == MAX_TAGS_TO_SHOW + 1
    ensures RenderCard(pin).overflow ==
      Some(OverflowChip("+1", pin.tags.value[MAX_TAGS_TO_SHOW].name.GetOr("")))
  {
    var tags := pin.tags.value;
    assert NatToString(1) == "1";
    assert tags[MAX_TAGS_TO_SHOW..] == [tags[MAX_TAGS_TO_SHOW]];
    assert TagNames([tags[MAX_TAGS_TO_SHOW]]) == [tags[MAX_TAGS_TO_SHOW].name.GetOr("")];
    assert TagsOrEmpty(pin) == tags;
    assert Overflow(tags).value.caption == "+1";
    assert Overflow(tags).value.tooltip == tags[MAX_TAGS_TO_SHOW].name.GetOr("");
  }

  /** The title falls back to 'Untitled Pin', and the notes preview is shown only
      for non-empty notes and is their first line. */
  lemma CardFallbacks(pin: ClientPin)
    ensures var v := RenderCard(pin);
      && (StrTruthy(pin.title) ==> v.title == pin.title.value)
      && (!StrTruthy(pin.title) ==> v.title == "Untitled Pin")
      && (v.notesPreview.Some? <==> StrTruthy(pin.notes))
      && (v.notesPreview.Some? ==>
            && pin.notes.value[..|v.notesPreview.value|] == v.notesPreview.value
            && '\n' !in v.notesPreview.value)
  {
  }
}

/** The read-only detail panel of one pin: a placeholder when no pin is selected,
    otherwise the title and notes with their fallbacks, one chip per tag (or a
    "No tags." line), and the edit, delete and close buttons. */
module PinDetailView {
  import opened Common
  import opened ClientTypes
  import opened TagColor
  import PinCard

  datatype DetailView =
    | Placeholder
    | Details(
        title: string,
        notes: string,
        notesDimmed: bool,
        chips: seq<Chip>,
        noTagsLine: bool)

  datatype DetailTarget = EditButton | DeleteButton | CloseButton

  function AllChips(tags: seq<ClientTag>): seq<Chip> {
    seq(|tags|, i requires 0 <= i < |tags| => TagChip(tags[i].name))
  }

  /** What the panel renders for the selected pin, `None` standing for null. */
  function RenderDetail(pin: Option<ClientPin>): DetailView {
    match pin
    case None => Placeholder
    case Some(p) =>
      var tags := TagsOrEmpty(p);
      Details(
        OrElse(p.title, "Untitled Pin"),
        OrElse(p.notes, "No notes added."),
        !StrTruthy(p.notes),
        AllChips(tags),
        tags == [])
  }

  /** The panel's buttons: edit hands over the whole pin, delete only its id, and
      close returns to the list. */
  function DetailIntent(pin: ClientPin, target: DetailTarget): (r: Intent)
    ensures r.EditPin? ==> r.pin == pin
    ensures r.DeletePin? ==> r.id == pin.id
    ensures !r.SelectPin?
  {
    match target
    case EditButton => EditPin(pin)
    case DeleteButton => DeletePin(pin.id)
    case CloseButton => ClosePanel
  }

  /** The placeholder is shown exactly when there is no pin; otherwise every tag
      gets a chip in order, nameless ones labelled 'untagged', and the "No tags."
      line appears exactly when there are no chips. */
  lemma DetailShowsEveryTag(pin: Option<ClientPin>)
    ensures RenderDetail(pin).Placeholder? <==> pin.None?
    ensures pin.Some? ==>
      var v, tags := RenderDetail(pin), TagsOrEmpty(pin.value);
      && |v.chips| == |tags|
      && (forall i :: 0 <= i < |tags| ==> v.chips[i].caption == OrElse(tags[i].name, "untagged"))
      && (v.noTagsLine <==> v.chips == [])
  {
  }

  /** The card and the panel agree: the card's chips are the first chips of the
      panel, its title is the panel's title, and its notes preview is a prefix of
      the panel's notes. */
  lemma CardAgreesWithDetail(pin: ClientPin)
    ensures var card, detail := PinCard.RenderCard(pin), RenderDetail(Some(pin));
      && |card.chips| <= |detail.chips|
      && card.chips == detail.chips[..|card.chips|]
      && card.title == detail.title
      && (card.notesPreview.Some? ==>
            detail.notes[..|card.notesPreview.value|] == card.notesPreview.value)
  {
  }
}

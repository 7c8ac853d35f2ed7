/** The note card: the colour of its rating badge, when the badge appears,
    the rating widget it embeds and what it does when that widget reports a
    new rating. */
module NoteCard {
  import opened Common
  import opened RatingStars

  /** The parts of a note the card's logic looks at. */
  datatype Note = Note(id: string, title: string, averageRating: Option<real>, ratingsCount: int)

  /** The colour bands of the rating badge. */
  datatype BadgeColor = Gray | Green | Blue | Yellow | Red

  /** The band of `getRatingColor(rating)`: gray for no rating, then green
      from 4 up, blue in [3, 4), yellow in [2, 3) and red below 2. Exactly
      one band holds for every input. */
  function RatingColor(rating: Option<real>): (c: BadgeColor)
    ensures c == Gray <==> rating.None?
    ensures c == Green <==> rating.Some? && rating.value >= 4.0
    ensures c == Blue <==> rating.Some? && 3.0 <= rating.value < 4.0
    ensures c == Yellow <==> rating.Some? && 2.0 <= rating.value < 3.0
    ensures c == Red <==> rating.Some? && rating.value < 2.0
  {
    if rating.None? then Gray
    else if rating.value >= 4.0 then Green
    else if rating.value >= 3.0 then Blue
    else if rating.value >= 2.0 then Yellow
    else Red
  }

  /** The class names of each band. */
  function ColorClasses(c: BadgeColor): string {
    match c
    case Gray => "bg-gray-200 text-gray-700"
    case Green => "bg-green-100 text-green-800"
    case Blue => "bg-blue-100 text-blue-800"
    case Yellow => "bg-yellow-100 text-yellow-800"
    case Red => "bg-red-100 text-red-800"
  }

  /** `getRatingColor(rating)`. */
  function GetRatingColor(rating: Option<real>): string {
    ColorClasses(RatingColor(rating))
  }

  /** The class names tell the bands apart. */
  lemma ColorClassesDistinct(c: BadgeColor, c': BadgeColor)
    requires c != c'
    ensures ColorClasses(c) != ColorClasses(c')
  {
    assert ColorClasses(c)[5] != ColorClasses(c')[5];
  }

  /** `getRatingColor` returns each class string exactly for the ratings of
      its band. */
  lemma GetRatingColorClasses(rating: Option<real>)
    ensures GetRatingColor(rating) == "bg-gray-200 text-gray-700" <==> rating.None?
    ensures GetRatingColor(rating) == "bg-green-100 text-green-800" <==> rating.Some? && rating.value >= 4.0
    ensures GetRatingColor(rating) == "bg-blue-100 text-blue-800" <==> rating.Some? && 3.0 <= rating.value < 4.0
    ensures GetRatingColor(rating) == "bg-yellow-100 text-yellow-800" <==> rating.Some? && 2.0 <= rating.value < 3.0
    ensures GetRatingColor(rating) == "bg-red-100 text-red-800" <==> rating.Some? && rating.value < 2.0
  {
    var c := RatingColor(rating);
    forall c': BadgeColor | c' != c
      ensures ColorClasses(c') != ColorClasses(c)
    {
      ColorClassesDistinct(c', c);
    }
  }

  /** The order of the bands, from worst to best rating. */
  function Rank(c: BadgeColor): nat {
    match c
    case Gray => 0
    case Red => 0
    case Yellow => 1
    case Blue => 2
    case Green => 3
  }

  /** A higher rating never gets a lower band. */
  lemma RatingColorMonotone(a: real, b: real)
    requires a <= b
    ensures Rank(RatingColor(Some(a))) <= Rank(RatingColor(Some(b)))
  {
  }

  /** The rating badge of the card header: its band and the average it shows. */
  datatype Badge = Badge(color: BadgeColor, average: real)

  /** The badge is rendered exactly when the note has an average; it then
      shows that average, and its band is never the gray one meant for a
      missing rating. */
  function RatingBadge(note: Note): (b: Option<Badge>)
    ensures b.Some? <==> note.averageRating.Some?
    ensures b.Some? ==> b.value.average == note.averageRating.value && b.value.color != Gray
    ensures b.Some? ==> b.value.color == RatingColor(note.averageRating)
  {
    match note.averageRating
    case None => None
    case Some(average) => Some(Badge(RatingColor(Some(average)), average))
  }

  /** A note card and the rating widget in its footer. */
  class NoteCardState {
    const note: Note
    /** Whether the caller passed an `onDelete` callback. */
    const hasOnDelete: bool
    /** Accepted by the card but not passed on: the widget is interactive
        whatever it says. */
    const showRatingInteraction: bool
    const stars: RatingWidget
    var ratingUpdated: bool
    /** How often `onDelete` was called. */
    var deleteCalls: nat

    /** The widget is the card's: it rates this note, shows its average and
        count unchanged, always takes input, and reports back to the card. */
    predicate Wired() {
      && stars.props.noteId == note.id
      && stars.props.averageRating == note.averageRating
      && stars.props.ratingsCount == note.ratingsCount
      && stars.props.interactive
      && stars.props.hasOnRatingChange
    }

    constructor(note: Note, hasOnDelete: bool, showRatingInteraction: bool)
      ensures this.note == note && this.hasOnDelete == hasOnDelete
      ensures this.showRatingInteraction == showRatingInteraction
      ensures Wired() && fresh(stars)
      ensures stars.rating == None && stars.hoveredRating == None && !stars.isLoading && stars.calls == []
      ensures !ratingUpdated && deleteCalls == 0
    {
      this.note := note;
      this.hasOnDelete := hasOnDelete;
      this.showRatingInteraction := showRatingInteraction;
      stars := new RatingWidget(Props(note.id, note.averageRating, note.ratingsCount, true, true));
      ratingUpdated := false;
      deleteCalls := 0;
    }

    /** `handleRatingChange`: the card remembers that the rating changed and
        calls `onDelete`, used as a refresh, when one was passed. */
    method HandleRatingChange()
      modifies this`ratingUpdated, this`deleteCalls
      ensures ratingUpdated
      ensures deleteCalls == old(deleteCalls) + (if hasOnDelete then 1 else 0)
    {
      ratingUpdated := true;
      if hasOnDelete {
        deleteCalls := deleteCalls + 1;
      }
    }

    /** A click on star `star` of the card's widget, the server answering
        with `succeeded`: the card hears of it exactly when the widget was
        free, the device id was obtained and the rating was stored. */
    method ClickStar(star: int, storage: LocalStorage, suffix: string, succeeded: bool)
      requires Wired()
      modifies this`ratingUpdated, this`deleteCalls, stars, storage`items
      ensures var free := old(!stars.isLoading);
              var r := ObtainDeviceId(old(storage.items), suffix, storage.readable, storage.writable);
              var heard := free && r.0.Some? && succeeded;
              && ratingUpdated == (old(ratingUpdated) || heard)
              && deleteCalls == old(deleteCalls) + (if heard && hasOnDelete then 1 else 0)
              && stars.rating == (if heard then Some(star) else old(stars.rating))
              && stars.isLoading == old(stars.isLoading)
              && stars.hoveredRating == old(stars.hoveredRating)
              && storage.items == (if free then r.1 else old(storage.items))
              && stars.calls == old(stars.calls) +
                   (if free && r.0.Some? then [RateNote(note.id, r.0.value, star)] else [])
    {
      var notified := stars.Click(star, storage, suffix, succeeded);
      if notified {
        HandleRatingChange();
      }
    }
  }
}

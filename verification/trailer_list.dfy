/**
 * The admin trailer list (components/admin/trailer-list.tsx): a card per trailer whose
 * picture is the stored thumbnail or one derived from the YouTube id of the video URL,
 * and a delete button that asks for confirmation and shows "Deleting..." while its
 * trailer's removal is in flight.
 */
module TrailerList {
  import opened Wrappers
  import opened JsText
  import opened TrailerPlayer
  import opened Movies
  import opened AdminActions

  /** The fields of a trailer record the list reads; a null title or thumbnail is `None`. */
  datatype Trailer = Trailer(id: nat, title: Option<string>, videoUrl: string, thumbnailUrl: Option<string>)

  const ThumbnailBase := "https://img.youtube.com/vi/"
  const ThumbnailFile := "/mqdefault.jpg"
  const Placeholder := "/placeholder.svg?height=120&width=200"
  const EmptyMessage := "No trailers added yet. Add your first trailer above."
  const DeleteFailed := "Failed to delete trailer"

  /** `getYouTubeThumbnail`: the YouTube pattern is applied to any URL, with no test of the
      site name first. */
  function YouTubeThumbnail(url: string): (t: string)
    ensures YouTubeId(url).Some? <==> t != Placeholder
    ensures YouTubeId(url).Some? ==>
      |t| == |ThumbnailBase| + 11 + |ThumbnailFile| && t[|ThumbnailBase|..|ThumbnailBase| + 11] == YouTubeId(url).value
  {
    match YouTubeId(url)
    case Some(id) =>
      var t := ThumbnailBase + id + ThumbnailFile;
      assert t[|ThumbnailBase|..|ThumbnailBase| + 11] == id;
      assert t[1] != Placeholder[1];
      t
    case None => Placeholder
  }

  /** JavaScript's `text || fallback` on a nullable string. */
  function OrElse(text: Option<string>, fallback: string): (r: string)
    ensures text.Some? && text.value != "" ==> r == text.value
    ensures text.None? || text.value == "" ==> r == fallback
  {
    if text.Some? && text.value != "" then text.value else fallback
  }

  /** The picture of a card: a stored thumbnail wins over the derived one. */
  function ThumbnailSrc(t: Trailer): (src: string)
    ensures src != ""
    ensures t.thumbnailUrl.Some? && t.thumbnailUrl.value != "" ==> src == t.thumbnailUrl.value
    ensures t.thumbnailUrl.None? || t.thumbnailUrl.value == "" ==> src == YouTubeThumbnail(t.videoUrl)
  {
    var derived := YouTubeThumbnail(t.videoUrl);
    assert derived != "" by { assert |Placeholder| > 0; }
    OrElse(t.thumbnailUrl, derived)
  }

  /** The picture's alt text and the card's heading: the trailer's title when it is set,
      else a fixed, non-empty word ("Trailer thumbnail" and "Trailer"); never empty. */
  function TitleOr(t: Trailer, fallback: string): (text: string)
    requires fallback != ""
    ensures text != ""
    ensures t.title.Some? && t.title.value != "" ==> text == t.title.value
    ensures t.title.None? || t.title.value == "" ==> text == fallback
  {
    OrElse(t.title, fallback)
  }

  /** The delete button of a card while `loading` names the trailer being removed. */
  datatype Button = Button(text: string, disabled: bool)

  function DeleteButton(loading: Option<nat>, id: nat): (b: Button)
    ensures b.disabled <==> loading == Some(id)
    ensures b.text == (if b.disabled then "Deleting..." else "Delete")
  {
    if loading == Some(id) then Button("Deleting...", true) else Button("Delete", false)
  }

  datatype Card = Card(src: string, alt: string, heading: string, description: string, button: Button)

  /** What the list renders: the empty message, or one card per trailer in order. */
  datatype View = NoTrailers(message: string) | Grid(cards: seq<Card>)

  function CardOf(t: Trailer, loading: Option<nat>): Card {
    Card(ThumbnailSrc(t), TitleOr(t, "Trailer thumbnail"), TitleOr(t, "Trailer"), t.videoUrl, DeleteButton(loading, t.id))
  }

  function Render(trailers: seq<Trailer>, loading: Option<nat>): (v: View)
    ensures v.NoTrailers? <==> trailers == []
    ensures v.NoTrailers? ==> v.message == EmptyMessage
    ensures v.Grid? ==> |v.cards| == |trailers|
    ensures v.Grid? ==> forall i :: 0 <= i < |trailers| ==> v.cards[i] == CardOf(trailers[i], loading)
  {
    if trailers == [] then NoTrailers(EmptyMessage)
    else Grid(seq(|trailers|, i requires 0 <= i < |trailers| => CardOf(trailers[i], loading)))
  }

  /** What happens after the removal call: a refresh, or an alert. */
  datatype AfterDelete = NoCall | Refresh | Alert(message: string)

  /** The component's one piece of state: the id whose removal is in flight. */
  class TrailerListView {
    var loading: Option<nat>

    constructor ()
      ensures loading == None
    {
      loading := None;
    }

    /** The start of `handleDelete`: nothing happens unless the user confirms. */
    method BeginDelete(id: nat, confirmed: bool) returns (proceed: bool)
      modifies this
      ensures proceed == confirmed
      ensures confirmed ==> loading == Some(id)
      ensures !confirmed ==> loading == old(loading)
    {
      if !confirmed {
        return false;
      }
      loading := Some(id);
      proceed := true;
    }

    /** The end of `handleDelete`, once the removal has answered. */
    method FinishDelete(r: Result<()>) returns (next: AfterDelete)
      modifies this
      ensures loading == None
      ensures next == (if r.Ok? then Refresh else Alert(DeleteFailed))
    {
      loading := None;
      if r.Ok? {
        next := Refresh;
      } else {
        next := Alert(DeleteFailed);
      }
    }

    /** `handleDelete` as a whole, with the removal's database answer `fault`. */
    method HandleDelete(id: nat, confirmed: bool, fault: Option<string>, store: Store) returns (next: AfterDelete)
      requires store.Valid()
      modifies this, store
      ensures store.Valid()
      ensures !confirmed ==> next == NoCall && loading == old(loading)
      ensures !confirmed ==> store.trailers == old(store.trailers) && store.movies == old(store.movies)
      ensures confirmed ==> loading == None && store.movies == old(store.movies)
      ensures confirmed && fault.None? ==> next == Refresh && store.trailers == WithoutId(old(store.trailers), id)
      ensures confirmed && fault.Some? ==> next == Alert(DeleteFailed) && store.trailers == old(store.trailers)
    {
      var proceed := BeginDelete(id, confirmed);
      if !proceed {
        return NoCall;
      }
      var r := RemoveTrailer(id, fault, store);
      next := FinishDelete(r);
    }
  }

  // ---------------------------------------------------------------------------
  // Properties

  /** While a confirmed removal is in flight, exactly the cards of that trailer show a
      disabled "Deleting..." button; after it answers every button reads "Delete" again. */
  method DeleteButtons(trailers: seq<Trailer>, id: nat, r: Result<()>) returns (during: View, after: View, next: AfterDelete)
    requires trailers != []
    ensures during.Grid? && after.Grid? && |during.cards| == |after.cards| == |trailers|
    ensures forall i :: 0 <= i < |trailers| ==>
      (during.cards[i].button.disabled <==> trailers[i].id == id) &&
      (during.cards[i].button.text == "Deleting..." <==> trailers[i].id == id)
    ensures forall i :: 0 <= i < |trailers| ==> after.cards[i].button == Button("Delete", false)
    ensures next == (if r.Ok? then Refresh else Alert(DeleteFailed))
  {
    var view := new TrailerListView();
    var proceed := view.BeginDelete(id, true);
    during := Render(trailers, view.loading);
    next := view.FinishDelete(r);
    after := Render(trailers, view.loading);
  }

  /** The common YouTube links get the thumbnail of their id. */
  lemma YouTubeLinksThumbnail(id: string)
    requires IsVideoId(id)
    ensures YouTubeThumbnail("https://youtu.be/" + id) == ThumbnailBase + id + ThumbnailFile
    ensures YouTubeThumbnail("https://www.youtube.com/watch?v=" + id) == ThumbnailBase + id + ThumbnailFile
    ensures YouTubeThumbnail("https://www.youtube.com/embed/" + id) == ThumbnailBase + id + ThumbnailFile
  {
    ShortLinkId(id);
    WatchLinkId(id);
    EmbedLinkId(id);
  }

  /** The thumbnail and the player agree: a YouTube URL whose id is found shows that id's
      picture in the list and plays that id's embed on the movie page. */
  lemma ThumbnailMatchesPlayer(url: string)
    requires YouTubeId(url).Some?
    ensures YouTubeThumbnail(url) == ThumbnailBase + YouTubeId(url).value + ThumbnailFile
    ensures EmbedUrl(url) == YouTubeEmbedPrefix + YouTubeId(url).value
  {
    if Contains(url, "youtube.com/") {
      var s := IndexOfFrom(url, "youtube.com/", 0).value;
      assert url[s..s + 11] == url[s..s + 12][..11];
      ContainsAt(url, "youtube.com", s);
    } else {
      var s := IndexOfFrom(url, "youtu.be/", 0).value;
      assert url[s..s + 8] == url[s..s + 9][..8];
      ContainsAt(url, "youtu.be", s);
    }
  }

  /** A Vimeo link has no YouTube id, so its card shows the placeholder unless a thumbnail
      was stored, although the player plays it. */
  lemma VimeoLinkPlaceholder(digits: string)
    requires |digits| >= 1 && AllDigits(digits)
    ensures YouTubeThumbnail("https://vimeo.com/" + digits) == Placeholder
  {
    var url := "https://vimeo.com/" + digits;
    forall j | 0 <= j < |url| ensures url[j] != 'y' {
      if j >= 18 {
        assert url[j] == digits[j - 18];
        assert IsDigit(url[j]);
      }
    }
    YouTubeSkips(url, 0, |url|);
  }
}

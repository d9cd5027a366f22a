/**
  The photo section of the drawer: one card per photo, and the hidden file
  input whose change handler uploads the picked files one after the other.
 */
module PhotoGallery {
  import opened Wrappers
  import opened Js
  import opened Types
  import opened Backend

  /** What one card shows: the image (source and alt text) when the photo has
      a non-empty signed URL, else a loading placeholder; and the caption line. */
  datatype Card = Card(key: int, image: Option<(string, string)>, caption: string)

  const NoCaption: string := "Ohne Caption"
  const DefaultAlt: string := "Adresse"

  /** A card is keyed by its photo's id, shows an image exactly for a present,
      non-empty URL, and falls back to the placeholders only for a null caption. */
  function CardOf(p: GalleryPhoto): (c: Card)
    ensures c.key == p.photo.id
    ensures c.image.Some? <==> p.signedUrl.Some? && p.signedUrl.value != ""
    ensures c.image.Some? ==> c.image.value == (p.signedUrl.value, p.photo.caption.GetOr(DefaultAlt))
    ensures p.photo.caption.None? ==> c.caption == NoCaption
    ensures p.photo.caption.Some? ==> c.caption == p.photo.caption.value
  {
    var image :=
      if p.signedUrl.Some? && p.signedUrl.value != "" then Some((p.signedUrl.value, p.photo.caption.GetOr(DefaultAlt)))
      else None;
    Card(p.photo.id, image, p.photo.caption.GetOr(NoCaption))
  }

  function Cards(photos: seq<GalleryPhoto>): (r: seq<Card>)
    ensures |r| == |photos|
  {
    seq(|photos|, k requires 0 <= k < |photos| => CardOf(photos[k]))
  }

  /** One card per photo, in list order, keyed by the photo's id. A card shows
      an image exactly when its URL is present and non-empty; a null caption
      shows the placeholder text, any other caption (even empty) is shown as is. */
  lemma CardsShowPhotos(photos: seq<GalleryPhoto>)
    ensures forall k | 0 <= k < |photos| ::
      && Cards(photos)[k].key == photos[k].photo.id
      && (Cards(photos)[k].image.Some? <==> photos[k].signedUrl.Some? && photos[k].signedUrl.value != "")
      && (Cards(photos)[k].image.Some? ==> Cards(photos)[k].image.value.0 == photos[k].signedUrl.value)
      && (photos[k].photo.caption.None? ==> Cards(photos)[k].caption == NoCaption)
      && (photos[k].photo.caption.Some? ==> Cards(photos)[k].caption == photos[k].photo.caption.value)
  {
  }

  predicate IsRejected(o: Outcome) {
    o.Rejected?
  }

  /** How many uploads a change event starts when `onUpload` settles as
      `results`: up to and including the first rejection, else all of them. */
  function Attempted(results: seq<Outcome>): (n: nat)
    ensures n <= |results|
    ensures forall k | 0 <= k < n - 1 :: results[k].Resolved?
    ensures (exists k | 0 <= k < |results| :: results[k].Rejected?) <==> n > 0 && results[n - 1].Rejected?
    ensures (forall k | 0 <= k < |results| :: results[k].Resolved?) ==> n == |results|
  {
    var k := FindIndex(results, IsRejected);
    if k < |results| then k + 1 else |results|
  }

  class Gallery {
    var busy: bool
    /** The files held by the hidden input. */
    var picked: seq<File>

    constructor ()
      ensures !busy && picked == []
    {
      busy, picked := false, [];
    }

    function UploadDisabled(): bool
      reads this
    {
      busy
    }

    method Pick(files: seq<File>)
      modifies this`picked
      ensures picked == files
    {
      picked := files;
    }

    /** The change handler. `results[k]` is how the `onUpload` call for the
        k-th picked file settles. Files go up one at a time, in order; the
        first rejection ends the handler with the button still disabled and
        the input still holding the files. */
    method OnChange(results: seq<Outcome>) returns (uploaded: seq<File>)
      requires |results| == |picked|
      modifies this`busy, this`picked
      ensures old(picked) == [] ==> uploaded == [] && busy == old(busy) && picked == []
      ensures old(picked) != [] ==>
        && uploaded == old(picked)[..Attempted(results)]
        && ((forall k | 0 <= k < |results| :: results[k].Resolved?) ==> !UploadDisabled() && picked == [])
        && ((exists k | 0 <= k < |results| :: results[k].Rejected?) ==> UploadDisabled() && picked == old(picked))
    {
      uploaded := [];
      if |picked| == 0 {
        return;
      }
      busy := true;
      var i := 0;
      while i < |picked|
        invariant 0 <= i <= |picked| && picked == old(picked)
        invariant uploaded == picked[..i]
        invariant forall k | 0 <= k < i :: results[k].Resolved?
      {
        uploaded := uploaded + [picked[i]];
        if results[i].Rejected? {
          assert FindIndex(results, IsRejected) == i;
          return;
        }
        i := i + 1;
      }
      assert FindIndex(results, IsRejected) == |results|;
      busy := false;
      picked := [];
    }
  }
}

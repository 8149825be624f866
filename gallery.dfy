/** The image carousel of the car details page: the wrap-around index
    arithmetic of the previous/next buttons, the thumbnail picker, and the
    choice of URL for a main or thumbnail image. */
module Gallery {
  import opened Js

  // ------------------------------------------------------- index arithmetic

  /** The previous button: from the first image to the last, otherwise one
      back. */
  function PrevIndex(i: int, len: int): int
  {
    if i == 0 then len - 1 else i - 1
  }

  /** The next button: from the last image to the first, otherwise one on. */
  function NextIndex(i: int, len: int): int
  {
    if i == len - 1 then 0 else i + 1
  }

  /** Both buttons step around a ring of `len` images: they agree with
      arithmetic modulo `len` and never leave the range of the list. */
  lemma StepsAreModular(i: int, len: int)
    requires 0 <= i < len
    ensures NextIndex(i, len) == (i + 1) % len
    ensures PrevIndex(i, len) == (i - 1) % len
    ensures 0 <= NextIndex(i, len) < len && 0 <= PrevIndex(i, len) < len
  {
    if i == len - 1 {
      assert (i + 1) % len == 0 by {
        assert i + 1 == len;
      }
    } else {
      assert (i + 1) % len == i + 1;
    }
    if i == 0 {
      assert (i - 1) % len == len - 1 by {
        assert -1 == (-1) * len + (len - 1);
      }
    } else {
      assert (i - 1) % len == i - 1;
    }
  }

  /** Previous undoes next and next undoes previous. */
  lemma StepsAreInverse(i: int, len: int)
    requires 0 <= i < len
    ensures NextIndex(PrevIndex(i, len), len) == i
    ensures PrevIndex(NextIndex(i, len), len) == i
  {
  }

  /** The index after `k` presses of the next button. */
  function NextTimes(i: int, len: int, k: nat): int
  {
    if k == 0 then i else NextIndex(NextTimes(i, len, k - 1), len)
  }

  /** `k` presses of next move the index `k` places round the ring, so `len`
      presses come back to the start. */
  lemma {:induction false} NextTimesModular(i: int, len: int, k: nat)
    requires 0 <= i < len
    ensures NextTimes(i, len, k) == (i + k) % len
  {
    if k > 0 {
      NextTimesModular(i, len, k - 1);
      var j := NextTimes(i, len, k - 1);
      StepsAreModular(j, len);
      ModAddOne(i + k - 1, len);
    }
  }

  /** Adding one before or after reducing modulo `len` is the same. */
  lemma ModAddOne(n: int, len: int)
    requires len > 0
    ensures (n % len + 1) % len == (n + 1) % len
  {
    var q := n / len;
    assert n == q * len + n % len;
    assert n + 1 == q * len + (n % len + 1);
    ModShift(n % len + 1, q, len);
  }

  /** Multiples of `len` do not change a remainder. */
  lemma ModShift(m: int, q: int, len: int)
    requires len > 0
    ensures (q * len + m) % len == m % len
  {
    var r := m % len;
    assert m == (m / len) * len + r;
    assert q * len + m == (q + m / len) * len + r by {
      assert q * len + (m / len) * len == (q + m / len) * len;
    }
    ModUnique(q * len + m, q + m / len, r, len);
  }

  /** A remainder is the only one in range. */
  lemma ModUnique(a: int, k: int, r: int, len: int)
    requires len > 0 && 0 <= r < len && a == k * len + r
    ensures a % len == r
  {
    var k' := a / len;
    var r' := a % len;
    assert a == k' * len + r' && 0 <= r' < len;
    assert (k - k') * len == r' - r by {
      assert k * len - k' * len == (k - k') * len;
    }
    if k - k' >= 1 {
      MulAtLeast(k - k', len);
    } else if k - k' <= -1 {
      MulAtLeast(k' - k, len);
    }
  }

  lemma MulAtLeast(d: int, len: int)
    requires d >= 1 && len > 0
    ensures d * len >= len
  {
    assert d * len == (d - 1) * len + len;
    assert (d - 1) * len >= 0;
  }

  lemma FullTurn(i: int, len: int)
    requires 0 <= i < len
    ensures NextTimes(i, len, len) == i
  {
    NextTimesModular(i, len, len);
    ModUnique(i + len, 1, i, len);
  }

  // -------------------------------------------------------------- image URLs

  /** The fields of an image record the page reads. Each `Some` holds a value
      that is a string; `None` stands for a missing, null or non-string
      value. */
  datatype ImageRecord = ImageRecord(urlMain: Option<string>, urlThumb: Option<string>,
                                     storageBaseKey: Option<string>)

  datatype ImageKind = Main | Thumb

  /** `getImageUrl`: the URL for the kind when the record has one as a
      string, else the storage key, else the empty string. An empty string
      in the first field is kept; only a missing value falls through. */
  function GetImageUrl(img: ImageRecord, kind: ImageKind): string
  {
    var dynUrl := if kind == Main then img.urlMain else img.urlThumb;
    if dynUrl.Some? then dynUrl.value
    else if img.storageBaseKey.Some? then img.storageBaseKey.value
    else ""
  }

  /** The main and thumbnail URLs differ only where the record has its own
      URL of that kind. */
  lemma ImageUrlKinds(img: ImageRecord)
    requires img.urlMain.None? && img.urlThumb.None?
    ensures GetImageUrl(img, Main) == GetImageUrl(img, Thumb)
  {
  }

  /** A URL of one kind never depends on the URL of the other kind, and the
      storage key only matters to a record without its own URL of the kind. */
  lemma ImageUrlSources(img: ImageRecord, url: Option<string>, key: Option<string>)
    ensures GetImageUrl(img.(urlThumb := url), Main) == GetImageUrl(img, Main)
    ensures GetImageUrl(img.(urlMain := url), Thumb) == GetImageUrl(img, Thumb)
    ensures img.urlMain.Some? ==> GetImageUrl(img.(storageBaseKey := key), Main) == GetImageUrl(img, Main)
    ensures img.urlThumb.Some? ==> GetImageUrl(img.(storageBaseKey := key), Thumb) == GetImageUrl(img, Thumb)
  {
  }

  /** The URL is one of the strings the record holds, or "" for a record
      that holds none of the ones looked at; an empty own URL is not skipped. */
  lemma ImageUrlFromRecord(img: ImageRecord, kind: ImageKind)
    ensures var url := GetImageUrl(img, kind);
      Some(url) in [img.urlMain, img.urlThumb, img.storageBaseKey] ||
      (url == "" && img.storageBaseKey.None?)
    ensures kind == Main && img.urlMain == Some("") ==> GetImageUrl(img, kind) == ""
    ensures kind == Thumb && img.urlThumb == Some("") ==> GetImageUrl(img, kind) == ""
  {
  }

  // ---------------------------------------------------------------- carousel

  /** The carousel over the images of one loaded car. */
  class ImageGallery {
    const images: seq<ImageRecord>
    var currentImageIndex: int

    /** The index names an image. */
    ghost predicate Valid()
      reads this
    {
      0 <= currentImageIndex < |images|
    }

    /** The page opens on the first image. */
    constructor (images: seq<ImageRecord>)
      ensures this.images == images && currentImageIndex == 0
      ensures |images| > 0 ==> Valid() && MainPicture() == Some(GetImageUrl(images[0], Main))
    {
      this.images := images;
      currentImageIndex := 0;
    }

    /** The main picture: the current image's main URL, nothing when the
        index names no image. */
    function MainPicture(): Option<string>
      reads this
    {
      if 0 <= currentImageIndex < |images| then Some(GetImageUrl(images[currentImageIndex], Main)) else None
    }

    method HandlePreviousImage()
      modifies this
      ensures currentImageIndex == PrevIndex(old(currentImageIndex), |images|)
      ensures old(Valid()) ==> Valid() && currentImageIndex == (old(currentImageIndex) - 1) % |images|
      ensures old(Valid()) ==> MainPicture().Some?
    {
      if old(Valid()) {
        StepsAreModular(currentImageIndex, |images|);
      }
      currentImageIndex := if currentImageIndex == 0 then |images| - 1 else currentImageIndex - 1;
    }

    method HandleNextImage()
      modifies this
      ensures currentImageIndex == NextIndex(old(currentImageIndex), |images|)
      ensures old(Valid()) ==> Valid() && currentImageIndex == (old(currentImageIndex) + 1) % |images|
      ensures old(Valid()) ==> MainPicture().Some?
    {
      if old(Valid()) {
        StepsAreModular(currentImageIndex, |images|);
      }
      currentImageIndex := if currentImageIndex == |images| - 1 then 0 else currentImageIndex + 1;
    }

    /** A thumbnail press shows that image. */
    method SelectImage(index: nat)
      requires index < |images|
      modifies this
      ensures currentImageIndex == index && Valid()
      ensures MainPicture() == Some(GetImageUrl(images[index], Main))
    {
      currentImageIndex := index;
    }
  }
}

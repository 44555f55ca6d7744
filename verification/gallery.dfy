/**
 * The product image gallery: the main image followed by the product's other
 * images, duplicates removed (the order of a JavaScript `Set`, i.e. first
 * occurrence), and a strip of at most four thumbnails shown only when there
 * is more than one image.
 */
module Gallery {

  predicate Distinct(xs: seq<string>) {
    forall i, j :: 0 <= i < j < |xs| ==> xs[i] != xs[j]
  }

  /** Reference dedupe: the elements of `xs` at their first occurrence, in order. */
  function FirstOccurrences(xs: seq<string>): (r: seq<string>)
    ensures forall x :: x in r <==> x in xs
    ensures |r| <= |xs|
  {
    if |xs| == 0 then []
    else
      var init := xs[..|xs| - 1];
      var last := xs[|xs| - 1];
      assert xs == init + [last];
      FirstOccurrences(init) + (if last in init then [] else [last])
  }

  lemma {:induction false} FirstOccurrencesDistinct(xs: seq<string>)
    ensures Distinct(FirstOccurrences(xs))
  {
    if |xs| > 0 {
      FirstOccurrencesDistinct(xs[..|xs| - 1]);
    }
  }

  /** The index of the first occurrence of `x` in `xs`. */
  function FirstIndex(xs: seq<string>, x: string): (k: nat)
    requires x in xs
    ensures k < |xs| && xs[k] == x && x !in xs[..k]
  {
    if xs[0] == x then 0
    else
      var k := FirstIndex(xs[1..], x);
      assert xs[..k + 1] == [xs[0]] + xs[1..][..k];
      k + 1
  }

  lemma FirstIndexUnique(xs: seq<string>, x: string, k: nat)
    requires k < |xs| && xs[k] == x && x !in xs[..k]
    ensures FirstIndex(xs, x) == k
  {
  }

  lemma FirstIndexOfPrefix(xs: seq<string>, x: string)
    requires |xs| > 0 && x in xs[..|xs| - 1]
    ensures FirstIndex(xs, x) == FirstIndex(xs[..|xs| - 1], x)
  {
    var init := xs[..|xs| - 1];
    var k := FirstIndex(init, x);
    assert xs[..k] == init[..k];
    FirstIndexUnique(xs, x, k);
  }

  /** The kept elements come in the order of their first occurrences. */
  predicate InFirstOccurrenceOrder(r: seq<string>, xs: seq<string>)
    requires forall i :: 0 <= i < |r| ==> r[i] in xs
  {
    forall i, j :: 0 <= i < j < |r| ==> FirstIndex(xs, r[i]) < FirstIndex(xs, r[j])
  }

  lemma {:induction false} FirstOccurrencesOrdered(xs: seq<string>)
    ensures InFirstOccurrenceOrder(FirstOccurrences(xs), xs)
  {
    if |xs| > 0 {
      var init := xs[..|xs| - 1];
      var last := xs[|xs| - 1];
      var u := FirstOccurrences(init);
      FirstOccurrencesOrdered(init);
      assert xs == init + [last];
      forall i | 0 <= i < |u|
        ensures u[i] in xs && FirstIndex(xs, u[i]) == FirstIndex(init, u[i]) < |init|
      {
        assert u[i] in u;
        FirstIndexOfPrefix(xs, u[i]);
      }
      if last !in init {
        assert xs[..|xs| - 1] == init;
        FirstIndexUnique(xs, last, |xs| - 1);
      }
    }
  }

  /** `array.filter(x => x !== v)`. */
  function Without(xs: seq<string>, v: string): (r: seq<string>)
    ensures forall x :: x in r <==> x in xs && x != v
    ensures |r| <= |xs|
  {
    if |xs| == 0 then []
    else
      var rest := Without(xs[1..], v);
      assert xs == [xs[0]] + xs[1..];
      if xs[0] == v then rest else [xs[0]] + rest
  }

  /** Filtering keeps the survivors in their order. */
  lemma {:induction false} WithoutKeepsOrder(u: seq<string>, v: string, xs: seq<string>)
    requires forall i :: 0 <= i < |u| ==> u[i] in xs
    requires InFirstOccurrenceOrder(u, xs)
    ensures forall i :: 0 <= i < |Without(u, v)| ==> Without(u, v)[i] in xs
    ensures InFirstOccurrenceOrder(Without(u, v), xs)
  {
    if |u| > 0 {
      var tail := u[1..];
      WithoutKeepsOrder(tail, v, xs);
      var rest := Without(tail, v);
      if u[0] != v {
        assert Without(u, v) == [u[0]] + rest;
        forall j | 0 <= j < |rest|
          ensures FirstIndex(xs, u[0]) < FirstIndex(xs, rest[j])
        {
          assert rest[j] in tail;
          var m :| 0 <= m < |tail| && tail[m] == rest[j];
          assert u[m + 1] == rest[j];
        }
      }
    }
  }

  lemma {:induction false} WithoutDistinct(xs: seq<string>, v: string)
    requires Distinct(xs)
    ensures Distinct(Without(xs, v))
  {
    if |xs| > 0 {
      WithoutDistinct(xs[1..], v);
      if xs[0] != v {
        assert Without(xs, v) == [xs[0]] + Without(xs[1..], v);
        assert xs[0] !in xs[1..];
      }
    }
  }

  /** `allImages`: the main image, then the other images without duplicates and without the main image. */
  function AllImages(mainImage: string, images: seq<string>): (all: seq<string>)
  {
    [mainImage] + Without(FirstOccurrences(images), mainImage)
  }

  /**
   * The main image comes first and only there; the images are distinct;
   * every other image of the product appears, and nothing else does.
   */
  lemma AllImagesShape(mainImage: string, images: seq<string>)
    ensures var all := AllImages(mainImage, images);
            && |all| >= 1 && all[0] == mainImage
            && mainImage !in all[1..]
            && multiset(all)[mainImage] == 1
            && Distinct(all)
            && (forall x :: x in all[1..] <==> x in images && x != mainImage)
  {
    var u := FirstOccurrences(images);
    var others := Without(u, mainImage);
    var all := AllImages(mainImage, images);
    assert all[1..] == others;
    FirstOccurrencesDistinct(images);
    WithoutDistinct(u, mainImage);
    assert all == [mainImage] + others;
    assert multiset(all) == multiset{mainImage} + multiset(others);
  }

  /** After the main image, the images keep the order in which they first occur in `images`. */
  lemma OthersInFirstOccurrenceOrder(mainImage: string, images: seq<string>)
    ensures var others := AllImages(mainImage, images)[1..];
            (forall i :: 0 <= i < |others| ==> others[i] in images)
            && InFirstOccurrenceOrder(others, images)
  {
    var u := FirstOccurrences(images);
    var others := Without(u, mainImage);
    assert AllImages(mainImage, images)[1..] == others;
    FirstOccurrencesOrdered(images);
    assert forall i :: 0 <= i < |u| ==> u[i] in images;
    WithoutKeepsOrder(u, mainImage, images);
  }

  /**
   * The gallery builds `allImages` the way the component does: a `Set` fed
   * the images in order, then the main image filtered out.
   */
  method BuildAllImages(mainImage: string, images: seq<string>) returns (all: seq<string>)
    ensures all == AllImages(mainImage, images)
  {
    var seen: set<string> := {};
    var unique: seq<string> := [];
    var i := 0;
    while i < |images|
      invariant 0 <= i <= |images|
      invariant unique == FirstOccurrences(images[..i])
      invariant forall x :: x in seen <==> x in images[..i]
    {
      var img := images[i];
      assert images[..i + 1][..i] == images[..i];
      if img !in seen {
        seen := seen + {img};
        unique := unique + [img];
      }
      i := i + 1;
    }
    assert images[..|images|] == images;
    var others: seq<string> := [];
    var k := |unique|;
    while k > 0
      invariant 0 <= k <= |unique|
      invariant others == Without(unique[k..], mainImage)
    {
      k := k - 1;
      assert unique[k..] == [unique[k]] + unique[k + 1..];
      if unique[k] != mainImage {
        others := [unique[k]] + others;
      }
    }
    all := [mainImage] + others;
  }

  // ---------------------------------------------------------------------
  // Thumbnails and selection
  // ---------------------------------------------------------------------

  const MaxThumbnails := 4

  /** The thumbnail strip: absent for a single image, otherwise the first four images. */
  function Thumbnails(all: seq<string>): (t: seq<string>)
    ensures |all| <= 1 ==> t == []
    ensures |all| > 1 ==> 2 <= |t| <= MaxThumbnails && |t| <= |all| && t == all[..|t|]
    ensures |all| > 1 ==> |t| == if |all| < MaxThumbnails then |all| else MaxThumbnails
  {
    if |all| <= 1 then []
    else if |all| < MaxThumbnails then all
    else all[..MaxThumbnails]
  }

  /** The strip is shown exactly when the product has an image other than the main one. */
  lemma ThumbnailsShownIff(mainImage: string, images: seq<string>)
    ensures Thumbnails(AllImages(mainImage, images)) != [] <==> exists i :: 0 <= i < |images| && images[i] != mainImage
  {
    AllImagesShape(mainImage, images);
    var all := AllImages(mainImage, images);
    if exists i :: 0 <= i < |images| && images[i] != mainImage {
      var i :| 0 <= i < |images| && images[i] != mainImage;
      assert images[i] in all[1..];
    } else if |all| > 1 {
      assert all[1..][0] in images;
    }
  }

  /** The gallery's state: the image shown large, and the images. */
  datatype View = View(selected: string, all: seq<string>)

  /** The gallery opens on the main image, which is the first of its images. */
  function Open(mainImage: string, images: seq<string>): (v: View)
    ensures |v.all| >= 1 && v.selected == v.all[0] == mainImage
  {
    View(mainImage, AllImages(mainImage, images))
  }

  /** Clicking the k-th thumbnail shows that image; a click outside the strip is not possible. */
  function Click(v: View, k: nat): (v': View)
    requires k < |Thumbnails(v.all)|
    ensures v'.all == v.all && v'.selected in v.all
    ensures v'.selected == v.all[k]
  {
    View(Thumbnails(v.all)[k], v.all)
  }

  /** Exactly the thumbnail of the selected image is highlighted, since the images are distinct. */
  lemma OneThumbnailHighlighted(mainImage: string, images: seq<string>, k: nat)
    requires k < |Thumbnails(AllImages(mainImage, images))|
    ensures var v := Click(Open(mainImage, images), k);
            forall j :: 0 <= j < |Thumbnails(v.all)| ==> (Thumbnails(v.all)[j] == v.selected <==> j == k)
  {
    AllImagesShape(mainImage, images);
  }
}

/** The deferred draw queues of ImageDB.hpp: image requests are queued with a
    submission index, drawn in ascending (sorting order, submission index)
    and cleared; pixel requests are drawn after all images and cleared.
    Texture loading and the SDL blit are outside the model: rendering
    returns the requests in the order they are drawn. */
module ImageDraws {

  /** `ImageDrawRequest` (ImageDB.hpp:33-49); floats are reals. */
  datatype ImageDrawRequest = ImageDrawRequest(
    imageName: string,
    x: real, y: real,
    rotationDegrees: int,
    scaleX: real, scaleY: real,
    pivotX: real, pivotY: real,
    r: int, g: int, b: int, a: int,
    sortingOrder: int,
    isUi: bool,
    orderIndex: nat)

  /** `PixelDrawRequest` (ImageDB.hpp:58-62). */
  datatype PixelDrawRequest = PixelDrawRequest(x: int, y: int, r: int, g: int, b: int, a: int, orderIndex: nat)

  /** Something drawn in a frame. */
  datatype Drawn = ImageDrawn(image: ImageDrawRequest) | PixelDrawn(pixel: PixelDrawRequest)

  /** The float-to-int conversion of the request fields: C++ truncates
      toward zero. */
  function Truncate(v: real): (n: int)
    ensures v >= 0.0 ==> n as real <= v < n as real + 1.0
    ensures v < 0.0 ==> n as real - 1.0 < v <= n as real
  {
    if v >= 0.0 then v.Floor else -((-v).Floor)
  }

  /** The draw order: `a` before `b` in (sorting order, submission index). */
  predicate DrawsBefore(p: ImageDrawRequest, q: ImageDrawRequest)
  {
    p.sortingOrder < q.sortingOrder
    || (p.sortingOrder == q.sortingOrder && p.orderIndex < q.orderIndex)
  }

  predicate InDrawOrder(s: seq<ImageDrawRequest>)
  {
    forall i, j :: 0 <= i < j < |s| ==> DrawsBefore(s[i], s[j])
  }

  /** The image queue as it is built: submission indices strictly increase. */
  predicate Submitted(s: seq<ImageDrawRequest>)
  {
    forall i, j :: 0 <= i < j < |s| ==> s[i].orderIndex < s[j].orderIndex
  }

  /** Where a request goes in a list in draw order: before the first entry
      it draws before. */
  function InsertPosition(q: ImageDrawRequest, s: seq<ImageDrawRequest>): (p: nat)
    ensures p <= |s|
    ensures forall i :: 0 <= i < p ==> !DrawsBefore(q, s[i])
    ensures p < |s| ==> DrawsBefore(q, s[p])
    decreases |s|
  {
    if |s| == 0 || DrawsBefore(q, s[0]) then 0 else 1 + InsertPosition(q, s[1..])
  }

  /** Insert a request submitted after every request of `s` into its place. */
  function Insert(q: ImageDrawRequest, s: seq<ImageDrawRequest>): (res: seq<ImageDrawRequest>)
    requires InDrawOrder(s)
    requires forall k :: 0 <= k < |s| ==> s[k].orderIndex < q.orderIndex
    ensures InDrawOrder(res)
    ensures multiset(res) == multiset(s) + multiset{q}
  {
    var p := InsertPosition(q, s);
    InsertKeepsOrder(q, s, p);
    s[..p] + [q] + s[p..]
  }

  /** Splicing at the insert position keeps the draw order. */
  lemma InsertKeepsOrder(q: ImageDrawRequest, s: seq<ImageDrawRequest>, p: nat)
    requires InDrawOrder(s)
    requires forall k :: 0 <= k < |s| ==> s[k].orderIndex < q.orderIndex
    requires p == InsertPosition(q, s)
    ensures InDrawOrder(s[..p] + [q] + s[p..])
    ensures multiset(s[..p] + [q] + s[p..]) == multiset(s) + multiset{q}
  {
    var res := s[..p] + [q] + s[p..];
    assert s == s[..p] + s[p..];
    BeforePosition(q, s, p);
    AfterPosition(q, s, p);
    forall i, j | 0 <= i < j < |res|
      ensures DrawsBefore(res[i], res[j])
    {
      SpliceIndex(s, q, p, i);
      SpliceIndex(s, q, p, j);
    }
  }

  lemma SpliceIndex(s: seq<ImageDrawRequest>, q: ImageDrawRequest, p: nat, k: int)
    requires p <= |s| && 0 <= k <= |s|
    ensures (s[..p] + [q] + s[p..])[k] == if k < p then s[k] else if k == p then q else s[k - 1]
  {
  }

  /** Entries before the insert position draw before the inserted request:
      it was submitted last, so it never ties with them. */
  lemma BeforePosition(q: ImageDrawRequest, s: seq<ImageDrawRequest>, p: nat)
    requires forall k :: 0 <= k < |s| ==> s[k].orderIndex < q.orderIndex
    requires p == InsertPosition(q, s)
    ensures forall i :: 0 <= i < p ==> DrawsBefore(s[i], q)
  {
  }

  /** Entries from the insert position on draw after it. */
  lemma AfterPosition(q: ImageDrawRequest, s: seq<ImageDrawRequest>, p: nat)
    requires InDrawOrder(s)
    requires p == InsertPosition(q, s)
    ensures forall i :: p <= i < |s| ==> DrawsBefore(q, s[i])
  {
    forall i | p < i < |s|
      ensures DrawsBefore(q, s[i])
    {
      assert DrawsBefore(s[p], s[i]);
    }
  }

  /** The sort of `RenderAndClearAllImages`, by (sorting order, submission
      index). */
  function SortForDrawing(s: seq<ImageDrawRequest>): (res: seq<ImageDrawRequest>)
    requires Submitted(s)
    ensures InDrawOrder(res)
    ensures multiset(res) == multiset(s)
    decreases |s|
  {
    if |s| == 0 then []
    else
      var init := s[..|s| - 1];
      var sorted := SortForDrawing(init);
      assert forall k :: 0 <= k < |sorted| ==> sorted[k].orderIndex < s[|s| - 1].orderIndex by {
        forall k | 0 <= k < |sorted|
          ensures sorted[k].orderIndex < s[|s| - 1].orderIndex
        {
          InMultiset(sorted, k, init);
        }
      }
      assert s == init + [s[|s| - 1]];
      Insert(s[|s| - 1], sorted)
  }

  /** An entry of a list is an entry of any list with the same multiset. */
  lemma InMultiset(s: seq<ImageDrawRequest>, k: int, t: seq<ImageDrawRequest>)
    requires 0 <= k < |s| && multiset(s) == multiset(t)
    ensures exists m :: 0 <= m < |t| && t[m] == s[k]
  {
    assert s[k] in multiset(s);
    assert s[k] in t;
  }

  /** In a list in draw order, of two listed requests the one that draws
      before the other sits earlier. */
  lemma OrderedPositions(d: seq<ImageDrawRequest>, x: ImageDrawRequest, y: ImageDrawRequest)
    returns (p: nat, q: nat)
    requires InDrawOrder(d) && DrawsBefore(x, y)
    requires x in multiset(d) && y in multiset(d)
    ensures p < q < |d| && d[p] == x && d[q] == y
  {
    p :| 0 <= p < |d| && d[p] == x;
    q :| 0 <= q < |d| && d[q] == y;
    assert p < q;
  }

  /** Among requests with the same sorting order the one submitted first is
      drawn first; a lower sorting order is always drawn first. */
  lemma DrawOrderStable(s: seq<ImageDrawRequest>, i: int, j: int) returns (p: nat, q: nat)
    requires Submitted(s)
    requires 0 <= i < |s| && 0 <= j < |s|
    requires s[i].sortingOrder < s[j].sortingOrder || (s[i].sortingOrder == s[j].sortingOrder && i < j)
    ensures p < q < |SortForDrawing(s)|
    ensures SortForDrawing(s)[p] == s[i] && SortForDrawing(s)[q] == s[j]
  {
    assert s[i] in multiset(s) && s[j] in multiset(s);
    p, q := OrderedPositions(SortForDrawing(s), s[i], s[j]);
  }

  /** `QueueImageDraw`: world space, rotation 0, scale 1:1, pivot at the
      centre, opaque white, sorting order 0. */
  function DefaultRequest(imageName: string, x: real, y: real, index: nat): (q: ImageDrawRequest)
    ensures q.rotationDegrees == 0 && q.scaleX == 1.0 && q.scaleY == 1.0
    ensures q.r == 255 && q.g == 255 && q.b == 255 && q.a == 255
    ensures q.sortingOrder == 0 && !q.isUi && q.orderIndex == index
    ensures q.imageName == imageName && q.x == x && q.y == y
  {
    ImageDrawRequest(imageName, x, y, 0, 1.0, 1.0, 0.5, 0.5, 255, 255, 255, 255, 0, false, index)
  }

  /** `QueueImageDrawEx`. */
  function ExRequest(imageName: string, x: real, y: real, rotationDegrees: real,
                     scaleX: real, scaleY: real, pivotX: real, pivotY: real,
                     r: real, g: real, b: real, a: real, sortingOrder: real, index: nat): (q: ImageDrawRequest)
    ensures q.imageName == imageName && q.x == x && q.y == y && !q.isUi && q.orderIndex == index
    ensures q.scaleX == scaleX && q.scaleY == scaleY && q.pivotX == pivotX && q.pivotY == pivotY
    ensures q.rotationDegrees == Truncate(rotationDegrees) && q.sortingOrder == Truncate(sortingOrder)
    ensures q.r == Truncate(r) && q.g == Truncate(g) && q.b == Truncate(b) && q.a == Truncate(a)
  {
    ImageDrawRequest(imageName, x, y, Truncate(rotationDegrees), scaleX, scaleY, pivotX, pivotY,
                     Truncate(r), Truncate(g), Truncate(b), Truncate(a), Truncate(sortingOrder), false, index)
  }

  /** `QueueImageDrawUI`: screen space, otherwise the defaults. */
  function UiRequest(imageName: string, x: real, y: real, index: nat): (q: ImageDrawRequest)
    ensures q == DefaultRequest(imageName, x, y, index).(isUi := true)
  {
    ImageDrawRequest(imageName, x, y, 0, 1.0, 1.0, 0.5, 0.5, 255, 255, 255, 255, 0, true, index)
  }

  /** `QueueImageDrawUIEx`. */
  function UiExRequest(imageName: string, x: real, y: real, r: real, g: real, b: real, a: real,
                       sortingOrder: real, index: nat): (q: ImageDrawRequest)
    ensures q == UiRequest(imageName, x, y, index).(r := Truncate(r), g := Truncate(g), b := Truncate(b),
                                                    a := Truncate(a), sortingOrder := Truncate(sortingOrder))
  {
    ImageDrawRequest(imageName, x, y, 0, 1.0, 1.0, 0.5, 0.5,
                     Truncate(r), Truncate(g), Truncate(b), Truncate(a), Truncate(sortingOrder), true, index)
  }

  /** The extended call with the default arguments queues the same request
      as the plain one. */
  lemma ExDefaultsAgree(imageName: string, x: real, y: real, index: nat)
    ensures ExRequest(imageName, x, y, 0.0, 1.0, 1.0, 0.5, 0.5, 255.0, 255.0, 255.0, 255.0, 0.0, index)
            == DefaultRequest(imageName, x, y, index)
    ensures UiExRequest(imageName, x, y, 255.0, 255.0, 255.0, 255.0, 0.0, index)
            == UiRequest(imageName, x, y, index)
  {
    TruncateWhole(255);
    TruncateWhole(0);
  }

  /** A whole number truncates to itself. */
  lemma TruncateWhole(n: nat)
    ensures Truncate(n as real) == n
  {
  }

  /** What one frame draws: the sorted images, then the pixels in
      submission order (Engine.cpp:94-96). */
  function FrameDraws(images: seq<ImageDrawRequest>, pixels: seq<PixelDrawRequest>): seq<Drawn>
    requires Submitted(images)
  {
    AsImages(SortForDrawing(images)) + AsPixels(pixels)
  }

  function AsImages(s: seq<ImageDrawRequest>): (r: seq<Drawn>)
    ensures |r| == |s| && forall k :: 0 <= k < |s| ==> r[k] == ImageDrawn(s[k])
    decreases |s|
  {
    if |s| == 0 then [] else [ImageDrawn(s[0])] + AsImages(s[1..])
  }

  function AsPixels(s: seq<PixelDrawRequest>): (r: seq<Drawn>)
    ensures |r| == |s| && forall k :: 0 <= k < |s| ==> r[k] == PixelDrawn(s[k])
    decreases |s|
  {
    if |s| == 0 then [] else [PixelDrawn(s[0])] + AsPixels(s[1..])
  }

  /** Sorting keeps the number of requests. */
  lemma SortKeepsLength(s: seq<ImageDrawRequest>)
    requires Submitted(s)
    ensures |SortForDrawing(s)| == |s|
  {
    assert |SortForDrawing(s)| == |multiset(SortForDrawing(s))| == |multiset(s)| == |s|;
  }

  /** The frame draws the queued images in draw order, each exactly as
      often as it was queued, then the pixels in submission order. */
  lemma PixelsAfterImages(images: seq<ImageDrawRequest>, pixels: seq<PixelDrawRequest>)
    requires Submitted(images)
    ensures |FrameDraws(images, pixels)| == |images| + |pixels|
    ensures forall k :: 0 <= k < |images| ==> FrameDraws(images, pixels)[k] == ImageDrawn(SortForDrawing(images)[k])
    ensures forall k :: 0 <= k < |pixels| ==> FrameDraws(images, pixels)[|images| + k] == PixelDrawn(pixels[k])
    ensures InDrawOrder(SortForDrawing(images)) && multiset(SortForDrawing(images)) == multiset(images)
  {
    SortKeepsLength(images);
  }

  /** The image and pixel queues (the static members of `ImageDB`). */
  class ImageDB {
    var imageDrawRequestQueue: seq<ImageDrawRequest>
    var pixelDrawRequestQueue: seq<PixelDrawRequest>
    var requestCounter: nat
    var pixelRequestCounter: nat

    /** Every queued request took its index from the counter. */
    ghost predicate Valid()
      reads this
    {
      Submitted(imageDrawRequestQueue)
      && (forall k :: 0 <= k < |imageDrawRequestQueue| ==> imageDrawRequestQueue[k].orderIndex < requestCounter)
    }

    constructor ()
      ensures Valid()
      ensures imageDrawRequestQueue == [] && pixelDrawRequestQueue == []
      ensures requestCounter == 0 && pixelRequestCounter == 0
    {
      imageDrawRequestQueue, pixelDrawRequestQueue := [], [];
      requestCounter, pixelRequestCounter := 0, 0;
    }

    /** Appends one request built with the next submission index. */
    method Enqueue(q: ImageDrawRequest)
      requires Valid() && q.orderIndex == requestCounter
      modifies this
      ensures Valid()
      ensures imageDrawRequestQueue == old(imageDrawRequestQueue) + [q]
      ensures requestCounter == old(requestCounter) + 1
      ensures pixelDrawRequestQueue == old(pixelDrawRequestQueue) && pixelRequestCounter == old(pixelRequestCounter)
    {
      imageDrawRequestQueue := imageDrawRequestQueue + [q];
      requestCounter := requestCounter + 1;
    }

    /** `ImageDB::QueueImageDraw`. */
    method QueueImageDraw(imageName: string, x: real, y: real)
      requires Valid()
      modifies this
      ensures Valid()
      ensures imageDrawRequestQueue == old(imageDrawRequestQueue) + [DefaultRequest(imageName, x, y, old(requestCounter))]
      ensures requestCounter == old(requestCounter) + 1
      ensures pixelDrawRequestQueue == old(pixelDrawRequestQueue) && pixelRequestCounter == old(pixelRequestCounter)
    {
      Enqueue(DefaultRequest(imageName, x, y, requestCounter));
    }

    /** `ImageDB::QueueImageDrawEx`. */
    method QueueImageDrawEx(imageName: string, x: real, y: real, rotationDegrees: real,
                            scaleX: real, scaleY: real, pivotX: real, pivotY: real,
                            r: real, g: real, b: real, a: real, sortingOrder: real)
      requires Valid()
      modifies this
      ensures Valid()
      ensures imageDrawRequestQueue == old(imageDrawRequestQueue)
        + [ExRequest(imageName, x, y, rotationDegrees, scaleX, scaleY, pivotX, pivotY, r, g, b, a, sortingOrder, old(requestCounter))]
      ensures requestCounter == old(requestCounter) + 1
      ensures pixelDrawRequestQueue == old(pixelDrawRequestQueue) && pixelRequestCounter == old(pixelRequestCounter)
    {
      Enqueue(ExRequest(imageName, x, y, rotationDegrees, scaleX, scaleY, pivotX, pivotY, r, g, b, a, sortingOrder, requestCounter));
    }

    /** `ImageDB::QueueImageDrawUI`. */
    method QueueImageDrawUI(imageName: string, x: real, y: real)
      requires Valid()
      modifies this
      ensures Valid()
      ensures imageDrawRequestQueue == old(imageDrawRequestQueue) + [UiRequest(imageName, x, y, old(requestCounter))]
      ensures requestCounter == old(requestCounter) + 1
      ensures pixelDrawRequestQueue == old(pixelDrawRequestQueue) && pixelRequestCounter == old(pixelRequestCounter)
    {
      Enqueue(UiRequest(imageName, x, y, requestCounter));
    }

    /** `ImageDB::QueueImageDrawUIEx`. */
    method QueueImageDrawUIEx(imageName: string, x: real, y: real, r: real, g: real, b: real, a: real,
                              sortingOrder: real)
      requires Valid()
      modifies this
      ensures Valid()
      ensures imageDrawRequestQueue == old(imageDrawRequestQueue)
        + [UiExRequest(imageName, x, y, r, g, b, a, sortingOrder, old(requestCounter))]
      ensures requestCounter == old(requestCounter) + 1
      ensures pixelDrawRequestQueue == old(pixelDrawRequestQueue) && pixelRequestCounter == old(pixelRequestCounter)
    {
      Enqueue(UiExRequest(imageName, x, y, r, g, b, a, sortingOrder, requestCounter));
    }

    /** `ImageDB::QueueDrawPixel`. */
    method QueueDrawPixel(x: real, y: real, r: real, g: real, b: real, a: real)
      requires Valid()
      modifies this
      ensures Valid()
      ensures pixelDrawRequestQueue == old(pixelDrawRequestQueue)
        + [PixelDrawRequest(Truncate(x), Truncate(y), Truncate(r), Truncate(g), Truncate(b), Truncate(a), old(pixelRequestCounter))]
      ensures pixelRequestCounter == old(pixelRequestCounter) + 1
      ensures imageDrawRequestQueue == old(imageDrawRequestQueue) && requestCounter == old(requestCounter)
    {
      pixelDrawRequestQueue := pixelDrawRequestQueue
        + [PixelDrawRequest(Truncate(x), Truncate(y), Truncate(r), Truncate(g), Truncate(b), Truncate(a), pixelRequestCounter)];
      pixelRequestCounter := pixelRequestCounter + 1;
    }

    /** `ImageDB::RenderAndClearAllImages`: returns the requests in the
        order they are drawn and empties the queue. */
    method RenderAndClearAllImages() returns (drawn: seq<ImageDrawRequest>)
      requires Valid()
      modifies this
      ensures Valid()
      ensures drawn == SortForDrawing(old(imageDrawRequestQueue))
      ensures imageDrawRequestQueue == []
      ensures requestCounter == old(requestCounter)
      ensures pixelDrawRequestQueue == old(pixelDrawRequestQueue) && pixelRequestCounter == old(pixelRequestCounter)
    {
      drawn := SortForDrawing(imageDrawRequestQueue);
      imageDrawRequestQueue := [];
    }

    /** `ImageDB::RenderAndClearAllPixels`: pixels in submission order. */
    method RenderAndClearAllPixels() returns (drawn: seq<PixelDrawRequest>)
      requires Valid()
      modifies this
      ensures Valid()
      ensures drawn == old(pixelDrawRequestQueue) && pixelDrawRequestQueue == []
      ensures imageDrawRequestQueue == old(imageDrawRequestQueue)
      ensures requestCounter == old(requestCounter) && pixelRequestCounter == old(pixelRequestCounter)
    {
      drawn := pixelDrawRequestQueue;
      pixelDrawRequestQueue := [];
    }

    /** The draw part of `Engine::Render`: images, then pixels. */
    method Render() returns (drawn: seq<Drawn>)
      requires Valid()
      modifies this
      ensures Valid()
      ensures drawn == FrameDraws(old(imageDrawRequestQueue), old(pixelDrawRequestQueue))
      ensures imageDrawRequestQueue == [] && pixelDrawRequestQueue == []
    {
      var images := RenderAndClearAllImages();
      var pixels := RenderAndClearAllPixels();
      drawn := AsImages(images) + AsPixels(pixels);
    }

    /** `ImageDB::ClearQueues`: both queues emptied, nothing drawn. */
    method ClearQueues()
      requires Valid()
      modifies this
      ensures Valid()
      ensures imageDrawRequestQueue == [] && pixelDrawRequestQueue == []
      ensures requestCounter == old(requestCounter) && pixelRequestCounter == old(pixelRequestCounter)
    {
      imageDrawRequestQueue, pixelDrawRequestQueue := [], [];
    }
  }
}

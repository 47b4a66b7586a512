/** The collage screen: button rules, the photo acceptance filter and its cache, clearing. */
module Combinestagram {
  import opened Optional
  import opened Decimal

  /** A picked photo: its size and the byte length of its PNG data (`None`: no PNG data). */
  datatype Image = Image(width: nat, height: nat, pngData: Option<nat>)

  /** What `updateUI` sets: the three buttons and the screen title. */
  datatype Controls = Controls(saveEnabled: bool, clearEnabled: bool, addEnabled: bool, title: string)

  /** The photos of the collage and the PNG lengths the filter has recorded. */
  datatype CollageState = CollageState(images: seq<Image>, imageCache: seq<nat>)

  const MaxPhotos: nat := 6
  const DefaultTitle: string := "Collage"
  const PhotosSuffix: string := " photos"

  /** `pngData()?.count ?? 0` */
  function PngLength(image: Image): nat {
    image.pngData.GetOr(0)
  }

  predicate Landscape(image: Image) {
    image.width > image.height
  }

  /** `updateUI(photos:)` for a collage of `count` photos. */
  function UpdateUI(count: nat): Controls {
    Controls(count > 0 && count % 2 == 0, count > 0, count < MaxPhotos,
             if count > 0 then IntToString(count) + PhotosSuffix else DefaultTitle)
  }

  /**
    Save can only be enabled when clear is; the default title shows exactly
    when the collage is empty, and otherwise the title starts with the count.
  */
  lemma UpdateUITitle(count: nat)
    ensures UpdateUI(count).saveEnabled ==> UpdateUI(count).clearEnabled
    ensures UpdateUI(count).title == DefaultTitle <==> !UpdateUI(count).clearEnabled
    ensures count > 0 ==> var t := UpdateUI(count).title;
      |t| > |PhotosSuffix| && ParseInt(t[..|t| - |PhotosSuffix|]) == Some(count)
  {
    if count > 0 {
      var t := UpdateUI(count).title;
      assert |t| > |DefaultTitle|;
      assert t[..|t| - |PhotosSuffix|] == IntToString(count);
      ParseIntToString(count);
    }
  }

  predicate NoDuplicates(s: seq<nat>) {
    forall i, j :: 0 <= i < j < |s| ==> s[i] != s[j]
  }

  /** The invariant: one distinct cache entry per photo, recording its PNG length, at most six photos. */
  ghost predicate Consistent(st: CollageState) {
    && |st.images| == |st.imageCache| <= MaxPhotos
    && NoDuplicates(st.imageCache)
    && forall i :: 0 <= i < |st.images| ==> st.imageCache[i] == PngLength(st.images[i])
  }

  /** The two `filter`s and the subscriber for one photo that got past `takeWhile`. */
  function Offer(st: CollageState, image: Image): (r: CollageState)
    ensures r != st <==> Landscape(image) && PngLength(image) !in st.imageCache
  {
    if Landscape(image) && PngLength(image) !in st.imageCache
    then CollageState(st.images + [image], st.imageCache + [PngLength(image)])
    else st
  }

  /**
    The whole selection stream: `takeWhile` lets a photo through only while
    the collage has fewer than six photos, and completes the first time it does not.
  */
  function AcceptAll(st: CollageState, selection: seq<Image>): CollageState
    decreases |selection|
  {
    if selection == [] || |st.images| >= MaxPhotos then st
    else AcceptAll(Offer(st, selection[0]), selection[1..])
  }

  lemma {:induction false} AcceptAllConsistent(st: CollageState, selection: seq<Image>)
    requires Consistent(st)
    ensures Consistent(AcceptAll(st, selection))
    decreases |selection|
  {
    if selection != [] && |st.images| < MaxPhotos {
      var next := Offer(st, selection[0]);
      assert Consistent(next);
      AcceptAllConsistent(next, selection[1..]);
    }
  }

  /**
    The collage only grows at the end, and every photo it gains is landscape,
    came from the selection, and has a PNG length the cache did not hold.
  */
  lemma {:induction false} AcceptAllAppends(st: CollageState, selection: seq<Image>)
    ensures var r := AcceptAll(st, selection);
      && |st.images| <= |r.images| && r.images[..|st.images|] == st.images
      && |st.imageCache| <= |r.imageCache| && r.imageCache[..|st.imageCache|] == st.imageCache
      && forall i :: |st.images| <= i < |r.images| ==>
           && Landscape(r.images[i]) && r.images[i] in selection
           && PngLength(r.images[i]) !in st.imageCache
    decreases |selection|
  {
    if selection != [] && |st.images| < MaxPhotos {
      var next := Offer(st, selection[0]);
      var r := AcceptAll(next, selection[1..]);
      AcceptAllAppends(next, selection[1..]);
      assert r.images[..|next.images|][..|st.images|] == r.images[..|st.images|];
      assert r.imageCache[..|next.imageCache|][..|st.imageCache|] == r.imageCache[..|st.imageCache|];
      forall i | |st.images| <= i < |r.images|
        ensures Landscape(r.images[i]) && r.images[i] in selection && PngLength(r.images[i]) !in st.imageCache
      {
        if i < |next.images| {
          assert next != st;
          assert r.images[i] == next.images[i] == selection[0];
        } else {
          assert r.images[i] in selection[1..];
          assert next.imageCache == st.imageCache || next.imageCache == st.imageCache + [PngLength(selection[0])];
        }
      }
    }
  }

  /** Selections are processed photo after photo: offering `a` then `b` is offering `a + b`. */
  lemma {:induction false} AcceptAllSplit(st: CollageState, a: seq<Image>, b: seq<Image>)
    ensures AcceptAll(st, a + b) == AcceptAll(AcceptAll(st, a), b)
    decreases |a|
  {
    if a == [] {
      assert a + b == b;
    } else if |st.images| < MaxPhotos {
      assert (a + b)[0] == a[0] && (a + b)[1..] == a[1..] + b;
      AcceptAllSplit(Offer(st, a[0]), a[1..], b);
    }
  }

  /** Once the count check fails the stream has stopped: nothing offered afterwards is accepted. */
  lemma StopsWhenFull(st: CollageState, a: seq<Image>, b: seq<Image>)
    requires |AcceptAll(st, a).images| >= MaxPhotos
    ensures AcceptAll(st, a + b) == AcceptAll(st, a)
  {
    AcceptAllSplit(st, a, b);
  }

  class CombineScreen {
    var images: seq<Image>
    var imageCache: seq<nat>
    /** Whether the navigation bar shows the collage icon next to the add button. */
    var iconShown: bool

    function State(): CollageState
      reads this
    {
      CollageState(images, imageCache)
    }

    ghost predicate Valid()
      reads this
    {
      Consistent(State())
    }

    constructor ()
      ensures Valid() && images == [] && imageCache == [] && !iconShown
    {
      images := [];
      imageCache := [];
      iconShown := false;
    }

    /** The controls after the latest `images` value. */
    function CurrentControls(): Controls
      reads this
    {
      UpdateUI(|images|)
    }

    /** `updateNavigationIcon`: nothing to do while the cache is empty. */
    method UpdateNavigationIcon()
      modifies this
      ensures images == old(images) && imageCache == old(imageCache)
      ensures iconShown == (old(iconShown) || |imageCache| > 0)
    {
      if |imageCache| == 0 {
        return;
      }
      iconShown := true;
    }

    /**
      `pushPhotosCollectionVC` for a selection that is then completed: the
      photos go through the filter chain one by one, and on completion the
      navigation icon is refreshed.
    */
    method PushPhotos(selection: seq<Image>)
      requires Valid()
      modifies this
      ensures Valid()
      ensures State() == AcceptAll(old(State()), selection)
      ensures iconShown == (old(iconShown) || |imageCache| > 0)
    {
      ghost var start := State();
      var i := 0;
      while i < |selection|
        invariant 0 <= i <= |selection|
        invariant iconShown == old(iconShown)
        invariant AcceptAll(State(), selection[i..]) == AcceptAll(start, selection)
      {
        if |images| >= MaxPhotos {
          break;
        }
        var newImage := selection[i];
        assert AcceptAll(State(), selection[i..]) == AcceptAll(Offer(State(), newImage), selection[i + 1..]);
        if newImage.width > newImage.height {
          var len := PngLength(newImage);
          if len !in imageCache {
            imageCache := imageCache + [len];
            images := images + [newImage];
          }
        }
        i := i + 1;
      }
      AcceptAllConsistent(start, selection);
      UpdateNavigationIcon();
    }

    /** `actionClear`: empty collage, empty cache, icon removed. */
    method ActionClear()
      modifies this
      ensures Valid() && images == [] && imageCache == [] && !iconShown
    {
      images := [];
      imageCache := [];
      iconShown := false;
    }
  }
}

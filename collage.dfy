/**
  The selection state of the Combinestagram main screen. The selected photos live in
  a behavior relay that starts empty; two subscriptions, registered in this order
  when the view loads, show the photos in the preview and refresh the buttons and the
  title. Adding appends one fixed image; clearing empties the selection. Photos are
  abstract tokens and the preview records which photos the collage was drawn from.
*/
module Collage {
  import opened Broadcast
  import opened Subjects

  /** A photo, identified by its asset name. */
  datatype Image = Image(name: string)

  const MaxPhotosAllowed: nat := 6

  /** The image `actionAdd` always adds. */
  const AddedImage: Image := Image("IMG_1907")

  /** Clear is enabled exactly when at least one photo is selected. */
  function EnableClearButton(count: nat): (r: bool)
    ensures r <==> count >= 1
  {
    count > 0
  }

  /** Save: disabled with no photo, enabled with one, and from two photos on enabled
      exactly when their number is even. */
  function EnableSaveButton(count: nat): (r: bool)
    ensures r <==> count == 1 || (count >= 2 && count % 2 == 0)
    ensures count == 0 ==> !r
  {
    if !(count > 0) then false
    else if !(count != 1) then true
    else if !(count % 2 == 0) then false
    else true
  }

  /** Add is enabled exactly while fewer than the maximum number of photos are selected. */
  function EnableAddButton(count: nat): (r: bool)
    ensures r <==> count < MaxPhotosAllowed
  {
    count < 6
  }

  function DigitChar(d: nat): (c: char)
    requires d < 10
    ensures '0' <= c <= '9' && c as int - '0' as int == d
  {
    "0123456789"[d]
  }

  predicate IsDigits(s: string) {
    forall k :: 0 <= k < |s| ==> '0' <= s[k] <= '9'
  }

  /** The decimal numeral of `n`, as string interpolation writes it: no sign and no
      leading zero. */
  function Decimal(n: nat): (s: string)
    ensures |s| >= 1 && IsDigits(s)
    ensures |s| > 1 ==> s[0] != '0'
    decreases n
  {
    if n < 10 then [DigitChar(n)] else Decimal(n / 10) + [DigitChar(n % 10)]
  }

  /** The number a string of digits denotes. */
  function DecimalValue(s: string): nat
    requires IsDigits(s)
    decreases |s|
  {
    if s == [] then 0 else DecimalValue(s[..|s| - 1]) * 10 + (s[|s| - 1] as int - '0' as int)
  }

  /** Reading a numeral back gives the number it was written from. */
  lemma {:induction false} DecimalRoundTrip(n: nat)
    ensures DecimalValue(Decimal(n)) == n
    decreases n
  {
    if n >= 10 {
      DecimalRoundTrip(n / 10);
      var s := Decimal(n);
      assert s[..|s| - 1] == Decimal(n / 10);
    }
  }

  /** The screen title for `count` selected photos: "Collage" for none, otherwise the
      count's numeral followed by " Photos selected". */
  function Title(count: nat): (t: string)
    ensures t == "Collage" <==> count == 0
    ensures count > 0 ==>
      && |t| > 16 && t[|t| - 16..] == " Photos selected"
      && IsDigits(t[..|t| - 16]) && DecimalValue(t[..|t| - 16]) == count
  {
    if count > 0 then
      var t := Decimal(count) + " Photos selected";
      assert t[..|t| - 16] == Decimal(count);
      DecimalRoundTrip(count);
      t
    else "Collage"
  }

  /** Different selection sizes get different titles, so the title tells the count. */
  lemma TitleInjective(m: nat, n: nat)
    requires Title(m) == Title(n)
    ensures m == n
  {
    if m > 0 && n > 0 {
      var suffix := " Photos selected";
      var tm, tn := Title(m), Title(n);
      assert tm[..|tm| - |suffix|] == Decimal(m);
      assert tn[..|tn| - |suffix|] == Decimal(n);
      DecimalRoundTrip(m);
      DecimalRoundTrip(n);
    }
  }

  /** The main screen with its relay and the part of the UI the subscriptions set. */
  class MainViewController {
    const images: Relay<seq<Image>>
    var loaded: bool
    /** The photos the preview collage was last drawn from. */
    var preview: seq<Image>
    var buttonClearEnabled: bool
    var buttonSaveEnabled: bool
    var itemAddEnabled: bool
    var title: string

    ghost predicate Valid()
      reads this, images, images.subject
    {
      images.Valid() && images.subject.policy.Latest?
      && |images.subject.traces| == |images.subject.active|
      && images.subject.active == (if loaded then [0, 1] else [])
    }

    /** The current selection, `images.value`. */
    ghost function Photos(): seq<Image>
      reads this, images, images.subject
      requires Valid()
    {
      images.subject.buffer[0]
    }

    /** The preview and the controls show the current selection. */
    ghost predicate Shown()
      reads this, images, images.subject
      requires Valid()
    {
      var n := |Photos()|;
      preview == Photos()
      && buttonClearEnabled == EnableClearButton(n)
      && buttonSaveEnabled == EnableSaveButton(n)
      && itemAddEnabled == EnableAddButton(n)
      && title == Title(n)
    }

    /** Before the view loads, the relay holds `[]` and has no subscriber. */
    constructor ()
      ensures Valid() && !loaded && Photos() == [] && images.subject.log == []
      ensures fresh(images) && fresh(images.subject)
    {
      images := new Relay<seq<Image>>.Behavior([]);
      loaded := false;
      preview, title := [], "";
      buttonClearEnabled, buttonSaveEnabled, itemAddEnabled := false, false, false;
    }

    /** `updateUI`: the controls and the title follow the number of selected photos. */
    method UpdateUI()
      requires Valid()
      modifies this`buttonClearEnabled, this`buttonSaveEnabled, this`itemAddEnabled, this`title
      ensures buttonClearEnabled == EnableClearButton(|Photos()|)
      ensures buttonSaveEnabled == EnableSaveButton(|Photos()|)
      ensures itemAddEnabled == EnableAddButton(|Photos()|)
      ensures title == Title(|Photos()|)
    {
      var value := images.Value();
      buttonClearEnabled := EnableClearButton(|value|);
      buttonSaveEnabled := EnableSaveButton(|value|);
      itemAddEnabled := EnableAddButton(|value|);
      title := Title(|value|);
    }

    /** `viewDidLoad`: subscribes the preview (subscriber 0), then the UI update
        (subscriber 1); each is handed the current selection at once. */
    method ViewDidLoad()
      requires Valid() && !loaded
      modifies this, images.subject
      ensures Valid() && loaded && Shown() && Photos() == old(Photos())
      ensures images.subject.log == old(images.subject.log) + [Delivery(0, Next(Photos())), Delivery(1, Next(Photos()))]
    {
      var photos := images.Value();
      var previewId := images.Subscribe();
      preview := photos;
      var uiId := images.Subscribe();
      loaded := true;
      UpdateUI();
    }

    /** Hands the selection just accepted to both subscriptions, in registration order. */
    method Notified()
      requires Valid() && loaded
      modifies this`preview, this`buttonClearEnabled, this`buttonSaveEnabled, this`itemAddEnabled, this`title
      ensures Shown()
    {
      preview := images.Value();
      UpdateUI();
    }

    /** `actionClear`: the selection becomes empty. */
    method ActionClear()
      requires Valid() && loaded
      modifies this, images.subject
      ensures Valid() && loaded && Shown() && Photos() == []
      ensures images.subject.log == old(images.subject.log) + [Delivery(0, Next([])), Delivery(1, Next([]))]
      ensures !buttonClearEnabled && !buttonSaveEnabled && itemAddEnabled && title == "Collage"
    {
      FanoutPair<seq<Image>, ()>(0, 1, Next([]));
      images.Accept([]);
      Notified();
    }

    /** `actionAdd`: the selection becomes the old one followed by the fixed image; there
        is no check against the maximum here. */
    method ActionAdd()
      requires Valid() && loaded
      modifies this, images.subject
      ensures Valid() && loaded && Shown() && Photos() == old(Photos()) + [AddedImage]
      ensures images.subject.log == old(images.subject.log) + [Delivery(0, Next(Photos())), Delivery(1, Next(Photos()))]
    {
      var value := images.Value();
      var newImages := value + [Image("IMG_1907")];
      FanoutPair<seq<Image>, ()>(0, 1, Next(newImages));
      images.Accept(newImages);
      Notified();
    }
  }

  /** The screen loaded: nothing selected yet. */
  method CollageLoaded() returns (controller: MainViewController)
    ensures fresh(controller) && fresh(controller.images) && fresh(controller.images.subject)
    ensures controller.Valid() && controller.loaded && controller.Photos() == [] && controller.title == "Collage"
  {
    controller := new MainViewController();
    controller.ViewDidLoad();
  }

  /** One photo added to a selection of `count - 1`: the title shows `count`. */
  method CollageAddOne(controller: MainViewController, count: nat)
    requires controller.Valid() && controller.loaded && |controller.Photos()| + 1 == count
    modifies controller, controller.images.subject
    ensures controller.Valid() && controller.loaded && |controller.Photos()| == count
    ensures controller.title == Title(count)
  {
    controller.ActionAdd();
  }

  /** The title for a one-digit count. */
  lemma TitleOfDigit(d: nat)
    requires 1 <= d < 10
    ensures Title(d) == [DigitChar(d)] + " Photos selected"
  {
  }

  /** The titles for one and two photos, written out. */
  lemma TitlesOfFewPhotos()
    ensures Title(1) == "1 Photos selected" && Title(2) == "2 Photos selected"
  {
    TitleOfDigit(1);
    TitleOfDigit(2);
    assert [DigitChar(1)] == "1" && [DigitChar(2)] == "2";
  }

  /** Two photos added, then cleared: the title goes from "Collage" through
      "1 Photos selected" and "2 Photos selected" back to "Collage". */
  method CollageExample() returns (titles: seq<string>)
    ensures titles == ["Collage", "1 Photos selected", "2 Photos selected", "Collage"]
  {
    TitlesOfFewPhotos();
    var controller := CollageLoaded();
    titles := [controller.title];
    CollageAddOne(controller, 1);
    titles := titles + [controller.title];
    CollageAddOne(controller, 2);
    titles := titles + [controller.title];
    controller.ActionClear();
    titles := titles + [controller.title];
  }
}

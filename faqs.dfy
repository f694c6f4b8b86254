/**
 * The FAQ page-builder block: a heading, then one disclosure per FAQ entry
 * that has an id and a title, each with an optional image and an optional
 * rich-text body. Markup, styling and the browser's open/close toggling are
 * not modelled; the rendered view records what is shown and with what.
 */
module Faqs {
  import opened JsValue
  import opened ImageValidation
  import opened Views

  const ImageWidth: nat := 600
  const ImageHeight: nat := 400
  const ImageQuality: nat := 80
  const DefaultAlt: string := "FAQ image"

  /** The block's props: its `_key`, its `title` and its `faqs` list, each as
      it arrives from the content backend. */
  datatype FaqsBlock = FaqsBlock(key: Value, title: Value, faqs: Value)

  /** One rendered FAQ entry; `groupName` is the `name` of its disclosure. */
  datatype FaqItemView = FaqItemView(
    id: Value,
    title: Value,
    groupName: Value,
    image: Option<ImageView>,
    body: Option<Value>)

  /** The rendered block: the heading, and the entry list (absent altogether
      when `faqs` is not an array). */
  datatype FaqsView = FaqsView(heading: Option<Value>, items: Option<seq<FaqItemView>>)

  /** The filter callback `faq && faq._id && faq.title`, read for truthiness. */
  predicate Shown(faq: Value): (shown: bool)
    ensures shown ==> faq.Obj? && "_id" in faq.fields && "title" in faq.fields
  {
    Truthy(faq) && Truthy(Get(faq, "_id")) && Truthy(Get(faq, "title"))
  }

  /** Only objects survive the filter: arrays, strings and other truthy
      primitives have no `_id` property. */
  lemma ShownIsObject(faq: Value)
    requires Shown(faq)
    ensures faq.Obj?
  {
  }

  /** `faqs.filter(...)`, scanning the list from first to last. */
  function Kept(faqs: seq<Value>): (kept: seq<Value>)
    ensures |kept| <= |faqs|
    ensures forall x | x in kept :: Shown(x) && x in faqs
  {
    if |faqs| == 0 then []
    else
      var last := faqs[|faqs| - 1];
      Kept(faqs[..|faqs| - 1]) + if Shown(last) then [last] else []
  }

  /** The positions in `faqs` of the entries the filter keeps, in order. */
  function KeptPositions(faqs: seq<Value>): (pos: seq<nat>)
    ensures |pos| == |Kept(faqs)|
    ensures forall j | 0 <= j < |pos| :: pos[j] < |faqs|
  {
    if |faqs| == 0 then []
    else KeptPositions(faqs[..|faqs| - 1]) + if Shown(faqs[|faqs| - 1]) then [|faqs| - 1] else []
  }

  /** The kept list is the input read at the kept positions. */
  lemma {:induction false} KeptAtPositions(faqs: seq<Value>)
    ensures forall j | 0 <= j < |KeptPositions(faqs)| :: Kept(faqs)[j] == faqs[KeptPositions(faqs)[j]]
  {
    if |faqs| > 0 {
      var init, last := faqs[..|faqs| - 1], faqs[|faqs| - 1];
      KeptAtPositions(init);
      var pos, prev := KeptPositions(faqs), KeptPositions(init);
      var kept, prevKept := Kept(faqs), Kept(init);
      assert |prev| == |prevKept|;
      forall j | 0 <= j < |pos|
        ensures kept[j] == faqs[pos[j]]
      {
        if j < |prev| {
          assert pos[j] == prev[j] && kept[j] == prevKept[j];
          assert init[prev[j]] == faqs[prev[j]];
        } else {
          assert Shown(last) && pos[j] == |faqs| - 1 && kept[j] == last;
        }
      }
    }
  }

  /** The kept positions strictly increase, so input order is preserved. */
  lemma {:induction false} KeptPositionsIncrease(faqs: seq<Value>)
    ensures forall j, k | 0 <= j < k < |KeptPositions(faqs)| ::
              KeptPositions(faqs)[j] < KeptPositions(faqs)[k]
  {
    if |faqs| > 0 {
      var init := faqs[..|faqs| - 1];
      KeptPositionsIncrease(init);
      var pos, prev := KeptPositions(faqs), KeptPositions(init);
      assert forall j | 0 <= j < |prev| :: pos[j] == prev[j] && prev[j] in prev;
    }
  }

  /** A position is kept exactly when its entry passes the filter. */
  lemma {:induction false} KeptPositionsExact(faqs: seq<Value>)
    ensures forall i | 0 <= i < |faqs| :: Shown(faqs[i]) <==> i in KeptPositions(faqs)
  {
    if |faqs| > 0 {
      var init := faqs[..|faqs| - 1];
      KeptPositionsExact(init);
      assert forall i | 0 <= i < |init| :: init[i] == faqs[i];
    }
  }

  /** The filter keeps exactly the entries that pass, in their input order:
      the kept list is the input read at a strictly increasing list of
      positions, and those positions are exactly the passing ones. */
  lemma KeptIsOrderedSelection(faqs: seq<Value>)
    ensures |KeptPositions(faqs)| == |Kept(faqs)|
    ensures forall j | 0 <= j < |KeptPositions(faqs)| ::
              KeptPositions(faqs)[j] < |faqs| && Kept(faqs)[j] == faqs[KeptPositions(faqs)[j]]
    ensures forall j, k | 0 <= j < k < |KeptPositions(faqs)| ::
              KeptPositions(faqs)[j] < KeptPositions(faqs)[k]
    ensures forall i | 0 <= i < |faqs| :: Shown(faqs[i]) <==> i in KeptPositions(faqs)
  {
    KeptAtPositions(faqs);
    KeptPositionsIncrease(faqs);
    KeptPositionsExact(faqs);
    var pos := KeptPositions(faqs);
    assert forall j | 0 <= j < |pos| :: pos[j] in pos;
  }

  /** The alt text `image.alt || faq.title || "FAQ image"`. */
  function AltText(image: Value, title: Value): (alt: Value)
    requires !image.Undefined? && !image.Null?
    ensures Truthy(alt)
    ensures alt == Get(image, "alt") || alt == title || alt == Str(DefaultAlt)
  {
    Or(Or(Get(image, "alt"), title), Str(DefaultAlt))
  }

  /** The fallback "FAQ image" is reached only when both the image's alt and
      the title are falsy. */
  lemma AltFallback(image: Value, title: Value)
    requires !image.Undefined? && !image.Null?
    ensures Truthy(Get(image, "alt")) ==> AltText(image, title) == Get(image, "alt")
    ensures !Truthy(Get(image, "alt")) && Truthy(title) ==> AltText(image, title) == title
    ensures !Truthy(Get(image, "alt")) && !Truthy(title) ==> AltText(image, title) == Str(DefaultAlt)
  {
  }

  /** The image part of one entry: shown when the entry has an `image` key
      whose value is truthy and ready. */
  function ImageOf(faq: Value): (view: Option<ImageView>)
    requires Shown(faq)
    ensures view.Some? <==> IsImageReady(Get(faq, "image"))
    ensures view.Some? ==> view.value.source == Get(faq, "image") && Truthy(view.value.alt)
  {
    var image := Get(faq, "image");
    if HasProperty(faq, "image") && Truthy(image) && IsImageReady(image) then
      Some(ImageView(image, ImageWidth, ImageHeight, Some(ImageQuality), true, AltText(image, Get(faq, "title"))))
    else None
  }

  /** One `<details>` entry of the list. */
  function RenderFaq(groupName: Value, faq: Value): (item: FaqItemView)
    requires Shown(faq)
    ensures Truthy(item.id) && Truthy(item.title) && item.groupName == groupName
    ensures item.image.Some? <==> IsImageReady(Get(faq, "image"))
    ensures item.body.Some? ==> Truthy(item.body.value)
  {
    var body := Get(faq, "body");
    FaqItemView(Get(faq, "_id"), Get(faq, "title"), groupName, ImageOf(faq),
                if Truthy(body) then Some(body) else None)
  }

  /** `FAQs`: the heading when the block title is truthy, and, when `faqs` is
      an array, one entry per kept FAQ, all sharing the block's `_key` as
      their group name. */
  function FAQs(block: FaqsBlock): (view: FaqsView)
    ensures view.items.Some? ==> block.faqs.Arr? && |view.items.value| <= |block.faqs.elems|
    ensures view.items.Some? ==>
              forall item | item in view.items.value :: Truthy(item.id) && Truthy(item.title)
  {
    FaqsView(
      if Truthy(block.title) then Some(block.title) else None,
      if block.faqs.Arr? then
        var kept := Kept(block.faqs.elems);
        Some(seq(|kept|, j requires 0 <= j < |kept| => RenderFaq(block.key, kept[j])))
      else None)
  }

  /** The heading is shown exactly when the block title is truthy, and it is
      that title. */
  lemma HeadingIffTitle(block: FaqsBlock)
    ensures FAQs(block).heading.Some? <==> Truthy(block.title)
    ensures FAQs(block).heading.Some? ==> FAQs(block).heading.value == block.title
  {
  }

  /** No entry list at all unless `faqs` is an array. */
  lemma ListIffArray(block: FaqsBlock)
    ensures FAQs(block).items.Some? <==> block.faqs.Arr?
  {
  }

  /** The rendered entries are exactly the input entries that are truthy and
      have a truthy `_id` and `title`, in input order, never more of them
      than the input has, each under the block's `_key`. */
  lemma RenderedEntriesAreShownFaqsInOrder(block: FaqsBlock)
    requires block.faqs.Arr?
    ensures var faqs := block.faqs.elems;
            var items := FAQs(block).items.value;
            var pos := KeptPositions(faqs);
            && |items| == |pos| <= |faqs|
            && (forall j, k | 0 <= j < k < |pos| :: pos[j] < pos[k])
            && (forall i | 0 <= i < |faqs| :: Shown(faqs[i]) <==> i in pos)
            && (forall j | 0 <= j < |items| ::
                  pos[j] < |faqs| && Shown(faqs[pos[j]]) && items[j] == RenderFaq(block.key, faqs[pos[j]]))
  {
    KeptIsOrderedSelection(block.faqs.elems);
  }

  /** Every rendered entry carries the block's `_key` as its group name. */
  lemma GroupNameIsBlockKey(block: FaqsBlock)
    requires block.faqs.Arr?
    ensures forall item | item in FAQs(block).items.value :: item.groupName == block.key
  {
  }

  /** What one rendered entry shows. Its id and title are the entry's own and
      truthy; its body is shown exactly when truthy; its image is shown
      exactly when the entry's `image` is ready (the key test and the
      truthiness test in front of `isImageReady` add nothing); and its alt
      text is the image's truthy `alt`, else the title, never the "FAQ image"
      fallback. */
  lemma RenderedEntry(groupName: Value, faq: Value)
    requires Shown(faq)
    ensures faq.Obj?
    ensures var item := RenderFaq(groupName, faq);
            && item.id == Get(faq, "_id") && Truthy(item.id)
            && item.title == Get(faq, "title") && Truthy(item.title)
            && item.groupName == groupName
            && (item.body.Some? <==> Truthy(Get(faq, "body")))
            && (item.body.Some? ==> item.body.value == Get(faq, "body"))
            && (item.image.Some? <==> IsImageReady(Get(faq, "image")))
  {
  }

  /** A shown image is the entry's ready image at 600x400, quality 80, with
      automatic format, and its alt text is the image's `alt` when truthy and
      otherwise the entry's title: the "FAQ image" fallback is unreachable,
      because the filter already demands a truthy title. */
  lemma RenderedImage(faq: Value)
    requires Shown(faq)
    requires ImageOf(faq).Some?
    ensures var view := ImageOf(faq).value;
            var image := Get(faq, "image");
            && view.source == image && IsImageReady(image) && image.Obj?
            && view.width == 600 && view.height == 400
            && view.quality == Some(80) && view.autoFormat
            && Truthy(view.alt)
            && view.alt == (if Truthy(Get(image, "alt")) then Get(image, "alt") else Get(faq, "title"))
  {
  }

  /** A block whose list holds a complete entry, a dangling reference
      (`null`) and an entry without a title renders one entry. */
  lemma OneCompleteEntry()
    ensures var faq := Obj(map["_id" := Str("1"), "title" := Str("Q1")]);
            var block := FaqsBlock(Str("k"), Str("Questions"),
              Arr([faq, Null, Obj(map["_id" := Str("2")])]));
            FAQs(block) == FaqsView(Some(Str("Questions")),
              Some([FaqItemView(Str("1"), Str("Q1"), Str("k"), None, None)]))
  {
    var faq := Obj(map["_id" := Str("1"), "title" := Str("Q1")]);
    var faqs := [faq, Null, Obj(map["_id" := Str("2")])];
    KeepsOnlyFirst(faq, faqs);
    PlainEntry(faq);
    var items := FAQs(FaqsBlock(Str("k"), Str("Questions"), Arr(faqs))).items.value;
    assert items == [FaqItemView(Str("1"), Str("Q1"), Str("k"), None, None)];
  }

  /** First step of `OneCompleteEntry`: the filter keeps only the complete entry. */
  lemma KeepsOnlyFirst(faq: Value, faqs: seq<Value>)
    requires faq == Obj(map["_id" := Str("1"), "title" := Str("Q1")])
    requires faqs == [faq, Null, Obj(map["_id" := Str("2")])]
    ensures Kept(faqs) == [faq]
  {
    var untitled := Obj(map["_id" := Str("2")]);
    assert Shown(faq) && !Shown(Null);
    assert "title" !in untitled.fields;
    assert [faq][..0] == [];
    assert Kept([faq]) == [faq];
    assert faqs[..2] == [faq, Null] && [faq, Null][..1] == [faq];
    assert Kept([faq, Null]) == [faq];
  }

  /** Second step of `OneCompleteEntry`: the complete entry renders without image or body. */
  lemma PlainEntry(faq: Value)
    requires faq == Obj(map["_id" := Str("1"), "title" := Str("Q1")])
    ensures Shown(faq)
    ensures RenderFaq(Str("k"), faq) == FaqItemView(Str("1"), Str("Q1"), Str("k"), None, None)
  {
  }
}

/**
 * The author byline under a post: an avatar when the author's image is
 * ready, and the author's name when it is truthy; nothing at all when the
 * author has neither a truthy image nor a truthy name.
 */
module AuthorByline {
  import opened JsValue
  import opened ImageValidation
  import opened Views

  const AvatarSize: nat := 80

  /** The rendered byline: its optional avatar and its optional name. */
  datatype BylineView = BylineView(avatar: Option<ImageView>, name: Option<Value>)

  /** `Author`: `author` is the post's author as the query returns it, possibly
      `null` or `undefined`; the avatar is an 80x80 image whose alt text is
      `author.name || ""`. */
  function Author(author: Value): (byline: Option<BylineView>)
    ensures byline.Some? && byline.value.avatar.Some? ==> IsImageReady(byline.value.avatar.value.source)
    ensures byline.Some? && byline.value.name.Some? ==> Truthy(byline.value.name.value)
  {
    var image := OptGet(author, "image");
    var name := OptGet(author, "name");
    if Truthy(image) || Truthy(name) then
      Some(BylineView(
        if IsImageReady(image) then
          Some(ImageView(Get(author, "image"), AvatarSize, AvatarSize, None, false, Or(Get(author, "name"), Str(""))))
        else None,
        if Truthy(name) then Some(Get(author, "name")) else None))
    else None
  }

  /** No byline for a missing author. */
  lemma NoAuthorNoByline(author: Value)
    requires author.Undefined? || author.Null?
    ensures Author(author).None?
  {
  }

  /** The byline is rendered exactly when the image or the name is truthy. */
  lemma BylineIffImageOrName(author: Value)
    ensures Author(author).Some? <==> Truthy(OptGet(author, "image")) || Truthy(OptGet(author, "name"))
  {
  }

  /** The avatar is shown exactly when the author's image is ready; a ready
      image is truthy, so no byline is ever needed for it to appear. */
  lemma AvatarIffReady(author: Value)
    ensures (Author(author).Some? && Author(author).value.avatar.Some?) <==> IsImageReady(OptGet(author, "image"))
  {
  }

  /** The name is shown exactly when it is truthy, and it is the author's name. */
  lemma NameIffTruthy(author: Value)
    ensures (Author(author).Some? && Author(author).value.name.Some?) <==> Truthy(OptGet(author, "name"))
    ensures Author(author).Some? && Author(author).value.name.Some? ==>
              Author(author).value.name.value == OptGet(author, "name")
  {
  }

  /** The avatar is the author's image at 80x80 with no quality or format
      setting, and its alt text is the name when truthy, otherwise "". */
  lemma AvatarDetails(author: Value)
    requires Author(author).Some? && Author(author).value.avatar.Some?
    ensures var avatar := Author(author).value.avatar.value;
            var name := OptGet(author, "name");
            && avatar.source == OptGet(author, "image")
            && avatar.width == 80 && avatar.height == 80
            && avatar.quality.None? && !avatar.autoFormat
            && avatar.alt == (if Truthy(name) then name else Str(""))
  {
  }

  /** A byline can be rendered empty: a truthy image that is not ready, and
      a falsy name. */
  lemma EmptyByline(author: Value)
    requires Truthy(OptGet(author, "image")) && !IsImageReady(OptGet(author, "image"))
    requires !Truthy(OptGet(author, "name"))
    ensures Author(author) == Some(BylineView(None, None))
  {
  }

  /** For instance, an author with an image still uploading and no name. */
  lemma UploadingNamelessAuthor()
    ensures var image := Obj(map["asset" := Obj(map["_ref" := Str("image-1")]), "_upload" := Obj(map[])]);
            Author(Obj(map["image" := image])) == Some(BylineView(None, None))
  {
  }
}

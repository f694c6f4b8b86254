# Image readiness guard, FAQ block and author byline

This project models the small amount of real logic in a content-managed blog
site built with Next.js on top of Sanity. The site gets untyped JSON documents
from the content backend. Three pieces of code decide what is rendered from
them:

- **The image readiness guard** (`hasValidImageAsset`, `isImageReady`). It
  decides whether an image value may be handed to the image URL builder. The
  value must be an object with an object `asset` whose `_ref` is truthy, and
  it must have no `_upload` key.
- **The FAQ page-builder block** (`FAQs`). It shows the block title as a
  heading. When `faqs` is an array, it keeps the entries that are truthy and
  have a truthy `_id` and `title`, in their input order. Each kept entry is
  rendered with the block's `_key` as its group name. The entry's image is
  shown only when it is ready. The image's alt text is `image.alt`, else the
  entry title, else `"FAQ image"`. The body is shown when it is truthy.
- **The author byline** (`Author`). It renders nothing when the author's image
  and name are both falsy. Otherwise it shows an avatar when the image is
  ready and the name when it is truthy.

All three are pure, so they are modelled as Dafny functions and lemmas over a
datatype of JavaScript values (`JsValue.Value`). That module gives the
JavaScript semantics the code depends on:

- truthiness, where `0`, `NaN`, `""`, `null` and `undefined` are falsy and
  every object and array is truthy;
- `typeof`, where `null` and arrays are both `"object"`;
- the `in` operator, which tests whether a key exists, not what its value is.
  An array's own keys are `"length"` and its canonical indices;
- property reads and optional chaining;
- `||`, which returns one of its operands rather than a boolean.

The rendered output is a small view datatype for each component. An image
view records the image passed to the URL builder, the builder's arguments
(width, height, quality, automatic format) and the alt text.

An entry is dropped when it lacks either a truthy `_id` or a truthy `title`
(`src/components/blocks/Faqs.tsx:24`); having one of the two is not enough.

Files: `js_value.dfy` (JavaScript values), `image_validation.dfy` (the guard),
`views.dfy` (the image view), `faqs.dfy` (the FAQ block), `author.dfy` (the
byline).

## Model

| member | source | states |
|---|---|---|
| `ImageValidation.HasValidImageAsset` | src/sanity/lib/image-validation.ts:12-22 | models `hasValidImageAsset` as the same short-circuit chain, each property read guarded by the tests before it; its contract says only an object whose `asset` is an object can pass; the lemmas below specify it exactly |
| `ImageValidation.NonObjectHasNoAsset` | src/sanity/lib/image-validation.ts:13-16 | no value but an object passes `hasValidImageAsset`: undefined, null, booleans, numbers, strings (the empty one too) and arrays all fail |
| `ImageValidation.MissingAssetFails` | src/sanity/lib/image-validation.ts:16-19 | an object whose `asset` key is missing, or whose `asset` is falsy or not an object, fails the guard |
| `ImageValidation.MissingRefFails` | src/sanity/lib/image-validation.ts:19-20 | an `asset` object with no `_ref` key, or with a falsy `_ref` such as `""`, fails the guard |
| `ImageValidation.HasValidImageAssetIff` | src/sanity/lib/image-validation.ts:12-22 | `hasValidImageAsset` holds if and only if the value is an object whose `asset` entry is an object whose `_ref` entry is truthy |
| `ImageValidation.ReadyImpliesValid` | src/sanity/lib/image-validation.ts:28-32 | every ready image has a valid asset |
| `ImageValidation.ReadyIsObject` | src/sanity/lib/image-validation.ts:28-32 | a ready image is a truthy object, so reading its properties cannot throw |
| `ImageValidation.UploadKeyBlocks` | src/sanity/lib/image-validation.ts:34-37 | an object with an `_upload` key is never ready, whatever that key's value is |
| `ImageValidation.IsImageReadyIff` | src/sanity/lib/image-validation.ts:28-40 | `isImageReady` holds if and only if the asset reference is present and truthy and there is no `_upload` key |
| `ImageValidation.IsImageReady` | src/sanity/lib/image-validation.ts:28-40 | models `isImageReady`: the early return on an invalid asset, then the `_upload` key test; its contract says a ready image has a valid asset and is an object without an `_upload` key; `IsImageReadyIff` specifies it exactly |
| `ImageValidation.UndefinedUploadStillBlocks` | src/sanity/lib/image-validation.ts:35-37 | an image with a valid asset whose `_upload` holds `undefined` is valid but not ready |
| `JsValue.Or` | src/components/blocks/Faqs.tsx:48 | JavaScript's logical or is truthy exactly when either operand is; it yields the first operand when that is truthy and the second otherwise |
| `Faqs.Shown` | src/components/blocks/Faqs.tsx:24 | models the filter callback `faq && faq._id && faq.title`; its contract says a passing entry is an object with `_id` and `title` keys |
| `Faqs.ShownIsObject` | src/components/blocks/Faqs.tsx:24 | every entry that passes the filter is an object, so the later `'image' in faq` cannot throw |
| `Faqs.Kept` | src/components/blocks/Faqs.tsx:23-24 | the filtered list is no longer than the input, and each element passes the filter and comes from the input |
| `Faqs.KeptPositions` | src/components/blocks/Faqs.tsx:23-24 | there is one kept position per kept entry, and every kept position lies inside the input |
| `Faqs.KeptAtPositions` | src/components/blocks/Faqs.tsx:23-24 | the j-th kept entry is the input entry at the j-th kept position |
| `Faqs.KeptPositionsIncrease` | src/components/blocks/Faqs.tsx:23-25 | the kept positions strictly increase, so the filter keeps input order |
| `Faqs.KeptPositionsExact` | src/components/blocks/Faqs.tsx:24 | a position is kept if and only if its entry is truthy and has a truthy `_id` and `title` |
| `Faqs.KeptIsOrderedSelection` | src/components/blocks/Faqs.tsx:23-25 | the filtered list is the input read at strictly increasing positions, and those positions are exactly the entries that pass the filter |
| `Faqs.AltText` | src/components/blocks/Faqs.tsx:48 | models the alt-text fallback chain (image `alt`, then title, then `"FAQ image"`); its contract says the alt text is always truthy and is one of the three candidates; `AltFallback` says which |
| `Faqs.AltFallback` | src/components/blocks/Faqs.tsx:48 | the alt text is the image's `alt` when that is truthy, else the title when that is truthy, else `"FAQ image"` |
| `Faqs.ImageOf` | src/components/blocks/Faqs.tsx:38-53 | models the image part of an entry; its contract says the image is shown if and only if the entry's `image` is ready, and a shown image is that image with truthy alt text |
| `Faqs.RenderFaq` | src/components/blocks/Faqs.tsx:25-56 | models one `<details>` entry; its contract says the id and title are truthy, the group name is the one passed in, the image is shown if and only if the entry's image is ready, and a shown body is truthy |
| `Faqs.FAQs` | src/components/blocks/Faqs.tsx:13-62 | models the whole block; its contract says a produced list comes from an array and is no longer than it, and every rendered entry has a truthy id and title; the lemmas below specify it fully |
| `Faqs.HeadingIffTitle` | src/components/blocks/Faqs.tsx:16-20 | the heading is shown if and only if the block title is truthy, and it is that title |
| `Faqs.ListIffArray` | src/components/blocks/Faqs.tsx:21-59 | the entry list is produced if and only if `faqs` is an array |
| `Faqs.RenderedEntriesAreShownFaqsInOrder` | src/components/blocks/Faqs.tsx:21-57 | the rendered entries are exactly the input entries that are truthy with a truthy `_id` and `title`, in input order, never more than the input, each rendered from its own input entry under the block's `_key` |
| `Faqs.GroupNameIsBlockKey` | src/components/blocks/Faqs.tsx:26-29 | every rendered entry's group name is the block's `_key` |
| `Faqs.RenderedEntry` | src/components/blocks/Faqs.tsx:25-55 | a rendered entry has the entry's own truthy id and title; its body is shown if and only if it is truthy; its image is shown if and only if the entry's `image` is ready, so the key and truthiness tests before `isImageReady` add nothing |
| `Faqs.RenderedImage` | src/components/blocks/Faqs.tsx:38-51 | a shown image is the entry's ready image at 600x400, quality 80, automatic format; its alt text is truthy and is the image's `alt` or else the title, so the `"FAQ image"` fallback is never reached |
| `Faqs.OneCompleteEntry` | src/components/blocks/Faqs.tsx:13-62 | a block listing a complete entry, a dangling `null` reference and an untitled entry renders its heading and just the complete entry, without image or body |
| `AuthorByline.Author` | src/components/Author.tsx:10-27 | models the `Author` component as an optional byline; its contract says a shown avatar's image is ready and a shown name is truthy; the lemmas below specify it fully |
| `AuthorByline.NoAuthorNoByline` | src/components/Author.tsx:10-26 | a `null` or `undefined` author renders nothing |
| `AuthorByline.BylineIffImageOrName` | src/components/Author.tsx:11-26 | the byline is rendered if and only if the author's image or name is truthy |
| `AuthorByline.AvatarIffReady` | src/components/Author.tsx:13-21 | the avatar is shown if and only if `isImageReady(author?.image)` holds |
| `AuthorByline.NameIffTruthy` | src/components/Author.tsx:22-24 | the name is shown if and only if `author?.name` is truthy, and it is that name |
| `AuthorByline.AvatarDetails` | src/components/Author.tsx:14-20 | the avatar is the author's image at 80x80 with no quality or format setting; its alt text is the name when truthy, else `""` |
| `AuthorByline.EmptyByline` | src/components/Author.tsx:11-25 | a truthy image that is not ready, with a falsy name, gives a byline with neither avatar nor name |
| `AuthorByline.UploadingNamelessAuthor` | src/components/Author.tsx:11-25 | an author whose image is still uploading and who has no name gets an empty byline |

## Left out

- Image URL construction (`urlFor(...).width(...).url()`), `next/image` and the rich-text renderer (`PortableText`) are external libraries. The model records only when `urlFor` is called and with which arguments, and whether the body is handed to the renderer.
- JSX markup, CSS classes, React keys, and the browser's open/close toggling of `<details>` elements are not modelled. Whether disclosures that share a `name` close each other is a browser rule, not code here.
- The GROQ queries in `src/sanity/lib/queries.ts` are evaluated by the hosted content backend, so their filtering, ordering, slicing and dereferencing are not modelled. A dangling FAQ reference reaching the block as `null` is covered, because the block's filter handles it.
- The post, post card, category, title, header and layout components, the draft-mode components, the studio schema and structure, and the Next.js configuration are not modelled. They are presentational or declarative.
- JavaScript values: functions, symbols and BigInts are not modelled. Keys inherited through the prototype chain (`toString`, `constructor`, and so on) are not modelled either; none of the keys the code tests (`asset`, `_ref`, `_upload`, `_id`, `title`, `image`, `alt`, `body`, `name`) is inherited. Numbers are reals plus `NaN`; `-0` coincides with `0`, and both are falsy.
- Strings are sequences of Dafny characters, not UTF-16 code units. This only affects reading a string's `length` or indices, which the code never does.

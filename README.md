# PhotoPrism `File` client model in Dafny

This project models the `File` class of PhotoPrism's web client
(`frontend/src/model/file.js`). A `File` is a record of fields the server sends
for one media file. The model covers:

- the display strings derived from those fields: the base name, the entity
  name, the thumbnail and download URLs, the `srcset` and `sizes` strings, the
  type label and the size labels;
- the scaling of the image into a bounding box (`calculateSize`);
- the favourite flag, which `toggleLike`, `like` and `unlike` change, together
  with the REST request each one sends.

Layout:

- `strings.dfy`, module `Strings`: the JavaScript string built-ins the class
  uses. These are `lastIndexOf`, the text after a separator, `Array.join`,
  `toUpperCase` on ASCII letters, and `String(n)` for a non-negative integer.
- `numbers.dfy`, module `JsNumbers`: `Math.round` of an exact quotient and
  `Number.prototype.toFixed(1)`.
- `file.dfy`, module `FileModel`: the class `File`.
  - Its fields are mutable `var`s.
  - The pure getters are functions that read `this`.
  - The getters that build an array by successive `push` are methods.
    A local array that no other code sees is a `seq` value, and each
    `push` appends to it.
  - `addSizeInfo` appends to a caller's array. That array is shared with
    the caller, so it is modelled as a `StringList` object that the method
    modifies; `sizeInfo` and `getInfo` create one and pass it.
  - `toggleLike`, `like` and `unlike` are methods that modify `Favorite`.
    Each returns a `Request` descriptor (verb and resource) in place of the
    HTTP call.
- `file_properties.dfy`, module `FileProperties`: lemmas that relate several
  operations, plus three client methods for the favourite toggle: toggling
  twice, liking twice and unliking twice.

Some inputs come from outside the class and are passed in as parameters. The
preview token (`config.previewToken()`) and the download token
(`config.downloadToken()`) are `token` parameters. The formatted duration
(`Util.duration(this.Duration)`) is the `duration` parameter of `GetInfo`.

## Model

| member | source | states |
|---|---|---|
| `Strings.LastIndexOf` | frontend/src/model/file.js:80 | the result is -1 exactly when the character does not occur; otherwise it is an index of the character with no occurrence after it |
| `Strings.AfterLast` | frontend/src/model/file.js:78-91 | `baseName()` without truncation: the result has no `/`, is a suffix of the name, is preceded by a `/` when shorter than the name, and is the whole name when the name has no `/` |
| `Strings.AfterLastUnique` | frontend/src/model/file.js:78-91 | those three properties determine the base name uniquely |
| `Strings.AfterLastAppend` | frontend/src/model/file.js:80-84 | whatever precedes the last separator does not affect the text after it |
| `Strings.Join` | frontend/src/model/file.js:136 | joining no parts gives ""; otherwise the result starts with the first part |
| `Strings.JoinParts` | frontend/src/model/file.js:136 | every part stands at its offset (the lengths of the parts before it, each followed by one separator); a separator follows every part but the last; the last part ends the string |
| `Strings.JoinLength` | frontend/src/model/file.js:136 | the length of a join is the offset of its last part plus that part's length |
| `Strings.NatToString` | frontend/src/model/file.js:213 | `String(n)` is non-empty (its digits are stated by the two lemmas below) |
| `Strings.NatToStringDigits` | frontend/src/model/file.js:213 | the decimal rendering of a number is non-empty, all digits, with no leading zero, and ends in the digit of `n % 10` |
| `Strings.NatToStringRoundTrip` | frontend/src/model/file.js:213 | reading the rendered digits back gives the number |
| `Strings.NatToStringInjective` | frontend/src/model/file.js:130-134 | distinct numbers render as distinct strings |
| `Strings.ToUpper` | frontend/src/model/file.js:200 | `toUpperCase` keeps the length, leaves no lower-case ASCII letter, maps each lower-case letter to its capital and keeps every other character |
| `JsNumbers.RoundDiv` | frontend/src/model/file.js:151 | `Math.round(n / d)` is the integer nearest to `n / d`, with a half rounded up |
| `JsNumbers.RoundBoundUnique` | frontend/src/model/file.js:151 | two integers within half of `d` of `n / d` are equal |
| `JsNumbers.RoundDivUnique` | frontend/src/model/file.js:155 | the rounding bound has exactly one integer solution |
| `JsNumbers.FixedOne` | frontend/src/model/file.js:217-223 | `toFixed(1)` gives integer digits without a leading zero, a point and one digit; read as tenths, it is the nearest integer to ten times the quotient, a tie taking the larger |
| `FileModel.File.constructor` | frontend/src/model/file.js:38-76 | a new file has the default values of the fields the model keeps |
| `FileModel.StringList.Push` | frontend/src/model/file.js:213 | `push` appends the item at the end and keeps the earlier items |
| `FileModel.File.BaseName` | frontend/src/model/file.js:78-91 | `baseName()` without truncation has no `/`, is a suffix of the name, is preceded by a `/` when shorter than the name, and is the whole name when the name has no `/` |
| `FileModel.File.EntityName` | frontend/src/model/file.js:97-99 | the entity name is `Root`, then `/`, then `Name` |
| `FileModel.File.ThumbnailUrl` | frontend/src/model/file.js:101-109 | an error gives the broken placeholder even for a raw file; otherwise a raw file gives the raw placeholder; otherwise the result is `/api/v1/t/<Hash>/<token>/<type>` |
| `FileModel.File.DownloadUrl` | frontend/src/model/file.js:111-113 | the download URL is `/api/v1/dl/`, the hash, `?t=` and the token, in that order |
| `FileModel.File.SrcsetEntries` | frontend/src/model/file.js:130-134 | there is one entry per width, in the order of the widths, and entry i is the `fit_N` thumbnail URL of width i followed by ` Nw` |
| `FileModel.File.SrcsetLiterals` | frontend/src/model/file.js:130-134 | the entry for each of the widths 720, 1280, 1920, 2560 and 3840 is the literal the method pushes, such as the `fit_720` URL followed by ` 720w` |
| `FileModel.File.SrcsetList` | frontend/src/model/file.js:127-134 | the srcset entries of the five widths are exactly the five strings `thumbnailSrcset` pushes, in the same order |
| `FileModel.File.ThumbnailSrcset` | frontend/src/model/file.js:127-137 | the result is the srcset entries of the widths 720, 1280, 1920, 2560 and 3840, in that order, joined with ", " |
| `FileModel.SizesRules` | frontend/src/model/file.js:164-168 | there is one rule per srcset width; rule k is the k-th rule counted from the largest breakpoint |
| `FileModel.SizesLiterals` | frontend/src/model/file.js:164-168 | the rules derived from the srcset widths are exactly the five literals: for each width W from 2560 down to 720, `(min-width: Wpx) Npx` where N is the next larger srcset width, then `720px` |
| `FileModel.File.ThumbnailSizes` | frontend/src/model/file.js:161-171 | the result is the sizes rules, from the largest breakpoint down, joined with ", " |
| `FileModel.File.CalculateSize` | frontend/src/model/file.js:139-159 | an image that fits the box keeps its size; an image relatively wider than the box gets the box width and its height rounded from the box width divided by its aspect ratio; any other image gets the box height and its width rounded from the box height times its aspect ratio |
| `FileModel.File.TypeInfo` | frontend/src/model/file.js:193-201 | `Video` wins even when `Sidecar` is set; otherwise `Sidecar` gives "Sidecar"; otherwise the result is the upper-cased type |
| `FileModel.File.SizeLabels` | frontend/src/model/file.js:211-225 | there is one label for the dimensions when width and height are both non-zero, and one size label when the size is non-zero; the unit is MB above 102400 bytes and KB otherwise |
| `FileModel.File.AddSizeInfo` | frontend/src/model/file.js:211-225 | the caller's list gets the size labels appended, and its existing entries stay as they were |
| `FileModel.File.SizeInfo` | frontend/src/model/file.js:203-209 | the result is the size labels joined with ", " |
| `FileModel.File.GetInfo` | frontend/src/model/file.js:177-191 | the result joins, with ", ": the upper-cased type when non-empty, the duration text when the duration is positive, then the size labels |
| `FileModel.File.PhotoResource` | frontend/src/model/file.js:237-239 | the photo resource is `photos/` followed by the photo UID |
| `FileModel.File.LikeRequest` | frontend/src/model/file.js:237-239 | the like request targets `photos/<PhotoUID>/like`, and its verb is POST exactly when the new flag is true |
| `FileModel.File.ToggleLike` | frontend/src/model/file.js:227-235 | `Favorite` is negated; the request is POST when it is now true and DELETE otherwise |
| `FileModel.File.Like` | frontend/src/model/file.js:241-244 | `Favorite` becomes true and the request is POST |
| `FileModel.File.Unlike` | frontend/src/model/file.js:246-249 | `Favorite` becomes false and the request is DELETE |
| `FileProperties.EntityBaseName` | frontend/src/model/file.js:78-99 | the base name of the entity name equals the base name of the file |
| `FileProperties.DimensionsLabelReadsBack` | frontend/src/model/file.js:212-214 | the dimensions label is the width's digits, ` × ` and the height's digits, and the two digit strings read back as the width and the height |
| `FileProperties.DownloadUrlToken` | frontend/src/model/file.js:111-113 | the download token is the text after the last `=` of the download URL, when the token has no `=` |
| `FileProperties.ThumbnailPlaceholder` | frontend/src/model/file.js:101-109 | the URL is a placeholder exactly when the file has an error or is raw |
| `FileProperties.ThumbnailUrlInjective` | frontend/src/model/file.js:108 | for a file with a real thumbnail, different size types give different URLs |
| `FileProperties.SrcsetDescriptor` | frontend/src/model/file.js:130-134 | a srcset entry ends in `w`, and the text after its last space is the width's digits |
| `FileProperties.SrcsetEntriesDistinct` | frontend/src/model/file.js:130-134 | entries for different widths differ, including for placeholder URLs |
| `FileProperties.SrcsetIncreasingDistinct` | frontend/src/model/file.js:130-134 | for any strictly increasing list of widths, no two srcset entries coincide |
| `FileProperties.SrcsetWellFormed` | frontend/src/model/file.js:127-137 | the srcset widths strictly increase and no two of the five entries coincide |
| `FileProperties.WideCase` | frontend/src/model/file.js:149-151 | when the image does not fit and is relatively wider than the box, the box is narrower than the image, and the rounded height fits both the box and the image, within half a pixel of the exact ratio |
| `FileProperties.TallCase` | frontend/src/model/file.js:153-156 | when the image does not fit and is not relatively wider, the box is lower than the image, and the rounded width fits both the box and the image, within half a pixel of the exact ratio |
| `FileProperties.CalculateSizeFits` | frontend/src/model/file.js:139-159 | an image that fits keeps its size; otherwise one side equals the box side; the result always fits the box and is never larger than the image; the aspect-ratio error is at most the rounding of the scaled side |
| `FileProperties.CalculateSizeZeroSides` | frontend/src/model/file.js:139-159 | with a zero side the result is what the source computes through division by zero: an image of width 0 gets width 0 and the box height; an image of height 0 in a box of positive height gets the box width and height 0; a box of height 0 gives 0 by 0 |
| `FileProperties.ToggleTwice` | frontend/src/model/file.js:227-235 | toggling twice restores `Favorite`; the two requests have opposite verbs and the same resource |
| `FileProperties.LikeTwice` | frontend/src/model/file.js:241-244 | liking twice leaves `Favorite` true, as one like does, and sends the same POST twice |
| `FileProperties.UnlikeTwice` | frontend/src/model/file.js:246-249 | unliking twice leaves `Favorite` false, as one unlike does, and sends the same DELETE twice |

## Left out

- `download()` is not modelled. It creates and clicks a DOM anchor and logs a console warning when there is no hash; both are browser I/O. The URL it uses, `getDownloadUrl()`, is modelled as `DownloadUrl`.
- `getDateString()` is not modelled. It depends on luxon's date parsing and locale formatting.
- `baseName(truncate)` is modelled without truncation only. `Util.truncate` is not part of this model.
- `GetInfo` takes the formatted duration as a parameter. `Util.duration` is not part of this model.
- `config.previewToken()` and `config.downloadToken()` are session lookups. They are passed in as `token` parameters.
- `Api.post` and `Api.delete` are HTTP calls. The model returns a request descriptor; the promise and the server's answer are not modelled.
- `isFile()` always returns true and is not modelled. `getCollectionResource()` and `getModelName()` are the constants `CollectionResource` and `ModelName`.
- The fields of `getDefaults` that no modelled operation reads are not kept. These are InstanceID, UID, OriginalName, Modified, Codec, Mime, Primary, Missing, Duplicate, Portrait, Orientation, AspectRatio, MainColor, Colors, Luminance, Diff, Chroma, Notes, CreatedAt, CreatedIn, UpdatedAt, UpdatedIn and DeletedAt.
- `Favorite` is not among the defaults, so it starts `undefined` in the source. The model starts it at false: both are falsy, so the first toggle gives true either way.
- The inherited REST base class (`model/rest`) is not part of this model. That includes setting values, saving and fetching.
- `FileModel.File.CalculateSize` compares aspect ratios and divides exactly on rationals. The source uses doubles, so a near-tie can compare or round differently.
- `FileModel.File.CalculateSize` requires a positive image height, a positive box height, or a box at least as wide as the image. The one input it excludes is an image of height 0 in a box of height 0 that is narrower than the image: the source then computes `Math.round(0 * Infinity)` and returns a width of NaN, which a natural number cannot represent. Every other zero width or height gives a finite result in the source, and the model gives the same one.
- `JsNumbers.FixedOne` is exact only for sizes below 2^53. Dividing such a size by 1024 or 1048576 is then exact, and `toFixed(1)` rounds that exact value. Larger sizes lose precision in the source.
- `Strings.ToUpper` upper-cases only ASCII letters. Full Unicode case mapping can change a string's length and is not modelled; file types are ASCII.
- Size, Width and Height, and the box `width` and `height` passed to `FileModel.File.CalculateSize`, are natural numbers. The source's callers can pass any JavaScript number there. Negative or fractional values, and JavaScript truthiness of NaN, are not modelled.
- `Strings.NatToString` renders integers below 10^21 correctly. JavaScript switches to exponential notation from 10^21 on, and that is not modelled.

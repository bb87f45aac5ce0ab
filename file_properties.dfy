/** Properties of the File model that relate several of its operations:
    names and URLs can be taken apart again, the srcset entries are
    distinct and ordered, `calculateSize` fits the box and keeps the
    aspect ratio, and the favourite requests toggle and repeat well. */
module FileProperties {
  import opened Strings
  import JsNumbers
  import opened FileModel

  function Abs(x: int): (a: nat) { if x < 0 then -x else x }
  function Max(a: nat, b: nat): (m: nat) { if a < b then b else a }

  /** The base name of the entity name is the base name of the file. */
  lemma EntityBaseName(f: File)
    ensures AfterLast(f.EntityName(), '/') == f.BaseName()
  {
    assert f.EntityName() == f.Root + ['/'] + f.Name;
    AfterLastAppend(f.Root, '/', f.Name);
  }

  /** The download token is what follows the last `=` of the download URL. */
  lemma DownloadUrlToken(f: File, token: string)
    requires '=' !in token
    ensures AfterLast(f.DownloadUrl(token), '=') == token
  {
    assert f.DownloadUrl(token) == DownloadPrefix + f.Hash + "?t" + ['='] + token;
    AfterLastAppend(DownloadPrefix + f.Hash + "?t", '=', token);
  }

  /** The dimensions label is the width's digits, ` × ` and the height's
      digits, and both read back as the file's width and height. */
  lemma DimensionsLabelReadsBack(f: File)
    ensures |f.DimensionsLabel()| == |NatToString(f.Width)| + 3 + |NatToString(f.Height)|
    ensures IsDigits(f.DimensionsLabel()[..|NatToString(f.Width)|])
    ensures DecimalValue(f.DimensionsLabel()[..|NatToString(f.Width)|]) == f.Width
    ensures f.DimensionsLabel()[|NatToString(f.Width)|..|NatToString(f.Width)| + 3] == " \U{00D7} "
    ensures IsDigits(f.DimensionsLabel()[|NatToString(f.Width)| + 3..])
    ensures DecimalValue(f.DimensionsLabel()[|NatToString(f.Width)| + 3..]) == f.Height
  {
    var w, h := NatToString(f.Width), NatToString(f.Height);
    var r := f.DimensionsLabel();
    NatToStringRoundTrip(f.Width);
    NatToStringRoundTrip(f.Height);
    assert r == w + " \U{00D7} " + h;
    assert r[..|w|] == w && r[|w| + 3..] == h;
  }

  /** The URL of a real thumbnail is never one of the two placeholders. */
  lemma ThumbnailPlaceholder(f: File, token: string, size: string)
    ensures f.ThumbnailUrl(token, size) == BrokenThumbnail || f.ThumbnailUrl(token, size) == RawThumbnail
        <==> f.Error != "" || f.Type == "raw"
  {
    var url := f.ThumbnailUrl(token, size);
    if f.Error == "" && f.Type != "raw" {
      assert url[8] == 't';
      assert BrokenThumbnail[8] == 's' && RawThumbnail[8] == 's';
    }
  }

  /** Thumbnails of different sizes of the same file have different URLs. */
  lemma ThumbnailUrlInjective(f: File, token: string, size1: string, size2: string)
    requires f.Error == "" && f.Type != "raw"
    requires f.ThumbnailUrl(token, size1) == f.ThumbnailUrl(token, size2)
    ensures size1 == size2
  {
    var prefix := ThumbnailPrefix + f.Hash + "/" + token + "/";
    assert f.ThumbnailUrl(token, size1) == prefix + size1;
    assert f.ThumbnailUrl(token, size2) == prefix + size2;
    assert (prefix + size1)[|prefix|..] == size1;
    assert (prefix + size2)[|prefix|..] == size2;
  }

  /** A srcset entry ends with its width descriptor `Nw`, which can be read
      back after the entry's last space. */
  lemma SrcsetDescriptor(f: File, token: string, w: nat)
    ensures |f.SrcsetEntry(token, w)| > 1
    ensures f.SrcsetEntry(token, w)[|f.SrcsetEntry(token, w)| - 1] == 'w'
    ensures AfterLast(f.SrcsetEntry(token, w)[..|f.SrcsetEntry(token, w)| - 1], ' ') == NatToString(w)
  {
    var url := f.ThumbnailUrl(token, "fit_" + NatToString(w));
    var digits := NatToString(w);
    var e := f.SrcsetEntry(token, w);
    assert e == url + [' '] + digits + ['w'];
    assert e[..|e| - 1] == url + [' '] + digits;
    AfterLastAppend(url, ' ', digits);
    NatToStringDigits(w);
    assert ' ' !in digits;
  }

  /** Srcset entries of different widths differ, whether or not the file
      has a real thumbnail. */
  lemma SrcsetEntriesDistinct(f: File, token: string, m: nat, n: nat)
    requires m != n
    ensures f.SrcsetEntry(token, m) != f.SrcsetEntry(token, n)
  {
    var e1, e2 := f.SrcsetEntry(token, m), f.SrcsetEntry(token, n);
    SrcsetDescriptor(f, token, m);
    SrcsetDescriptor(f, token, n);
    if e1 == e2 {
      assert e1[..|e1| - 1] == e2[..|e2| - 1];
      assert NatToString(m) == NatToString(n);
      NatToStringInjective(m, n);
    }
  }

  /** For strictly increasing widths, no two srcset entries coincide. */
  lemma SrcsetIncreasingDistinct(f: File, token: string, ws: seq<nat>)
    requires forall i, j :: 0 <= i < j < |ws| ==> ws[i] < ws[j]
    ensures forall i, j :: 0 <= i < j < |ws| ==> f.SrcsetEntry(token, ws[i]) != f.SrcsetEntry(token, ws[j])
  {
    forall i, j | 0 <= i < j < |ws|
      ensures f.SrcsetEntry(token, ws[i]) != f.SrcsetEntry(token, ws[j])
    {
      SrcsetEntriesDistinct(f, token, ws[i], ws[j]);
    }
  }

  /** The five srcset widths increase, so no two srcset entries coincide. */
  lemma SrcsetWellFormed(f: File, token: string)
    ensures forall i, j :: 0 <= i < j < |SrcsetWidths| ==> SrcsetWidths[i] < SrcsetWidths[j]
    ensures forall i, j :: 0 <= i < j < |SrcsetWidths| ==>
      f.SrcsetEntry(token, SrcsetWidths[i]) != f.SrcsetEntry(token, SrcsetWidths[j])
  {
    SrcsetIncreasingDistinct(f, token, SrcsetWidths);
  }

  /** A value `r` rounded from `n / d` (so `2 * d * r <= 2 * n + d`) is at
      most `k` when `2 * n < 2 * d * k + d`. */
  lemma RoundedAtMost(n: nat, d: nat, k: nat, r: nat)
    requires d > 0 && 2 * (d * r) <= 2 * n + d && 2 * n < 2 * (d * k) + d
    ensures r <= k
  {
    assert d * (k + 1) == d * k + d;
    JsNumbers.MulCancelLess(d, r, k + 1);
  }

  /** The image is relatively wider than the box and does not fit it: the
      box is narrower than the image, and the height `y` rounded from
      `w * H / W` fits the box and the image, within half a pixel. */
  lemma WideCase(W: nat, H: nat, w: nat, h: nat, y: nat)
    requires !(w >= W && h >= H) && W * h > w * H
    requires 2 * (w * H) - W < 2 * (W * y) <= 2 * (w * H) + W
    ensures w < W
    ensures y <= h && y <= H
    ensures Abs(2 * (w * H - y * W)) <= W
  {
    if w >= W {
      assert H * W == W * H && H * w == w * H;
      JsNumbers.MulMono(H, W, w);
      JsNumbers.MulMono(W, h, H);
      assert false;
    }
    RoundedAtMost(w * H, W, h, y);
    JsNumbers.MulMono(H, w, W - 1);
    assert H * (W - 1) == W * H - H && H * w == w * H;
    RoundedAtMost(w * H, W, H, y);
    assert y * W == W * y;
  }

  /** The image is relatively taller than (or as wide as) the box and does
      not fit it: the box is lower than the image, and the width `x`
      rounded from `h * W / H` fits the box and the image, within half a
      pixel. */
  lemma TallCase(W: nat, H: nat, w: nat, h: nat, x: nat)
    requires H > 0
    requires !(w >= W && h >= H) && W * h <= w * H
    requires 2 * (h * W) - H < 2 * (H * x) <= 2 * (h * W) + H
    ensures h < H
    ensures x <= w && x <= W
    ensures Abs(2 * (x * H - h * W)) <= H
  {
    if h >= H {
      assert H * (W - 1) == W * H - H && H * w == w * H;
      JsNumbers.MulMono(W, H, h);
      JsNumbers.MulMono(H, w, W - 1);
      assert false;
    }
    assert h * W == W * h;
    RoundedAtMost(h * W, H, w, x);
    JsNumbers.MulMono(W, h, H - 1);
    assert W * (H - 1) == H * W - W && W * h == h * W;
    RoundedAtMost(h * W, H, W, x);
    assert x * H == H * x;
  }

  /** `calculateSize` keeps an image that fits; any other image is scaled
      down until one side meets the box, the result fits the box, is no
      larger than the image, and keeps its aspect ratio up to the rounding
      of the scaled side. */
  lemma CalculateSizeFits(f: File, width: nat, height: nat)
    requires f.Height > 0 || height > 0 || width >= f.Width
    ensures width >= f.Width && height >= f.Height ==> f.CalculateSize(width, height) == Dimensions(f.Width, f.Height)
    ensures !(width >= f.Width && height >= f.Height) ==>
      f.CalculateSize(width, height).width == width || f.CalculateSize(width, height).height == height
    ensures f.CalculateSize(width, height).width <= width && f.CalculateSize(width, height).height <= height
    ensures f.CalculateSize(width, height).width <= f.Width && f.CalculateSize(width, height).height <= f.Height
    ensures !(width >= f.Width && height >= f.Height) ==>
      Abs(2 * (f.CalculateSize(width, height).width * f.Height - f.CalculateSize(width, height).height * f.Width))
        <= Max(f.Width, f.Height)
  {
    var W, H := f.Width, f.Height;
    var r := f.CalculateSize(width, height);
    if !(width >= W && height >= H) {
      if W * height > width * H {
        WideCase(W, H, width, height, r.height);
      } else {
        TallCase(W, H, width, height, r.width);
      }
    }
  }

  /** `calculateSize` with a zero side, as the source computes it with
      JavaScript's division by zero: an image of width 0 has aspect ratio 0,
      loses every comparison and gets width 0; an image of height 0 has
      aspect ratio Infinity, which beats every finite box ratio and gives
      height 0; a box of height 0 has ratio Infinity or NaN, which no image
      ratio beats, and gives the size 0 by 0. */
  lemma CalculateSizeZeroSides(f: File, width: nat, height: nat)
    requires f.Height > 0 || height > 0 || width >= f.Width
    ensures f.Width == 0 && height < f.Height ==> f.CalculateSize(width, height) == Dimensions(0, height)
    ensures f.Height == 0 && 0 < height && width < f.Width ==> f.CalculateSize(width, height) == Dimensions(width, 0)
    ensures 0 < f.Width && 0 < f.Height && height == 0 ==> f.CalculateSize(width, height) == Dimensions(0, 0)
  {
    var W, H := f.Width, f.Height;
    if W == 0 && height < H {
      assert W * height == 0 && height * W == 0;
      JsNumbers.RoundBoundUnique(0, H, f.CalculateSize(width, height).width, 0);
    }
    if H == 0 && 0 < height && width < W {
      assert width * H == 0;
      JsNumbers.MulMono(W, 1, height);
      JsNumbers.RoundBoundUnique(0, W, f.CalculateSize(width, height).height, 0);
    }
    if 0 < W && 0 < H && height == 0 {
      assert W * height == 0 && height * W == 0;
      JsNumbers.RoundBoundUnique(0, H, f.CalculateSize(width, height).width, 0);
    }
  }

  /** Toggling twice restores the flag; the two requests go to the same
      resource with opposite verbs. */
  method ToggleTwice(f: File) returns (first: Request, second: Request)
    modifies f`Favorite
    ensures f.Favorite == old(f.Favorite)
    ensures first.resource == second.resource == "photos/" + f.PhotoUID + "/like"
    ensures (first.verb == Post) == !old(f.Favorite) && (second.verb == Post) == old(f.Favorite)
  {
    first := f.ToggleLike();
    second := f.ToggleLike();
  }

  /** Liking twice leaves the flag as after one like and sends the same
      request twice. */
  method LikeTwice(f: File) returns (first: Request, second: Request)
    modifies f`Favorite
    ensures f.Favorite
    ensures first == second == Request(Post, "photos/" + f.PhotoUID + "/like")
  {
    first := f.Like();
    second := f.Like();
  }

  /** Unliking twice leaves the flag as after one unlike and sends the
      same request twice. */
  method UnlikeTwice(f: File) returns (first: Request, second: Request)
    modifies f`Favorite
    ensures !f.Favorite
    ensures first == second == Request(Delete, "photos/" + f.PhotoUID + "/like")
  {
    first := f.Unlike();
    second := f.Unlike();
  }
}

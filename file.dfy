/** The client-side `File` model of the photo library: a record of fields
    sent by the server, the display strings derived from them (base name,
    thumbnail URLs and `srcset`, size labels, type label), the scaling of
    the image into a bounding box, and the favourite flag with the request
    that stores it. HTTP calls are returned as request descriptors. */
module FileModel {
  import opened Strings
  import JsNumbers

  /** A width and a height in pixels, as `calculateSize` returns them. */
  datatype Dimensions = Dimensions(width: nat, height: nat)

  datatype HttpVerb = Post | Delete

  /** A call to the REST API: the verb and the resource path. */
  datatype Request = Request(verb: HttpVerb, resource: string)

  const BrokenThumbnail: string := "/api/v1/svg/broken"
  const RawThumbnail: string := "/api/v1/svg/raw"
  const ThumbnailPrefix: string := "/api/v1/t/"
  const DownloadPrefix: string := "/api/v1/dl/"

  /** The widths of the thumbnails offered in `srcset`, in that order. */
  const SrcsetWidths: seq<nat> := [720, 1280, 1920, 2560, 3840]

  /** Above this many bytes the size label is given in MB, else in KB. */
  const KilobyteLabelLimit: nat := 102400

  const Megabyte: nat := 1048576
  const Kilobyte: nat := 1024

  /** `File.getCollectionResource()` and `File.getModelName()`. */
  const CollectionResource: string := "files"
  const ModelName: string := "File"

  /** The decimal renderings of the srcset widths, one lemma each. */
  lemma Renders720() ensures NatToString(720) == "720"
  {
  }

  lemma Renders1280() ensures NatToString(1280) == "1280"
  {
  }

  lemma Renders1920() ensures NatToString(1920) == "1920"
  {
  }

  lemma Renders2560() ensures NatToString(2560) == "2560"
  {
  }

  lemma Renders3840() ensures NatToString(3840) == "3840"
  {
  }

  /** Rule `k` of the `sizes` attribute: from the largest breakpoint down,
      a viewport at least as wide as a srcset width gets a slot of the next
      larger srcset width; the last rule gives the smallest width. */
  function SizesRule(k: nat): (r: string)
    requires k < |SrcsetWidths|
    ensures |r| >= 2 && r[|r| - 2..] == "px"
  {
    var n := |SrcsetWidths|;
    if k + 1 < n then
      "(min-width: " + NatToString(SrcsetWidths[n - 2 - k]) + "px) " + NatToString(SrcsetWidths[n - 1 - k]) + "px"
    else NatToString(SrcsetWidths[0]) + "px"
  }

  /** The five sizes rules, written out. */
  lemma SizesLiterals()
    ensures SizesRule(0) == "(min-width: 2560px) 3840px"
    ensures SizesRule(1) == "(min-width: 1920px) 2560px"
    ensures SizesRule(2) == "(min-width: 1280px) 1920px"
    ensures SizesRule(3) == "(min-width: 720px) 1280px"
    ensures SizesRule(4) == "720px"
  {
    SizesRule0(); SizesRule1(); SizesRule2(); SizesRule3(); SizesRule4();
  }

  lemma SizesRule0() ensures SizesRule(0) == "(min-width: 2560px) 3840px"
  {
    Renders2560(); Renders3840();
  }

  lemma SizesRule1() ensures SizesRule(1) == "(min-width: 1920px) 2560px"
  {
    Renders1920(); Renders2560();
  }

  lemma SizesRule2() ensures SizesRule(2) == "(min-width: 1280px) 1920px"
  {
    Renders1280(); Renders1920();
  }

  lemma SizesRule3() ensures SizesRule(3) == "(min-width: 720px) 1280px"
  {
    Renders720(); Renders1280();
  }

  lemma SizesRule4() ensures SizesRule(4) == "720px"
  {
  }

  /** The rules of the `sizes` attribute, one per srcset width. */
  function SizesRules(): (rules: seq<string>)
    ensures |rules| == |SrcsetWidths|
    ensures forall k :: 0 <= k < |rules| ==> rules[k] == SizesRule(k)
  {
    seq(|SrcsetWidths|, k requires 0 <= k < |SrcsetWidths| => SizesRule(k))
  }

  /** A JavaScript array that a method appends to with `push`. */
  class StringList {
    var items: seq<string>

    constructor ()
      ensures items == []
    {
      items := [];
    }

    method Push(s: string)
      modifies this
      ensures items == old(items) + [s]
    {
      items := items + [s];
    }
  }

  class File {
    var PhotoUID: string
    var Root: string
    var Name: string
    var Hash: string
    var Size: nat
    var Type: string
    var Sidecar: bool
    var Video: bool
    var Duration: int
    var Width: nat
    var Height: nat
    var Error: string
    var Favorite: bool

    /** A file with the default field values of `getDefaults`. */
    constructor ()
      ensures PhotoUID == "" && Root == "" && Name == "" && Hash == ""
      ensures Size == 0 && Type == "" && !Sidecar && !Video && Duration == 0
      ensures Width == 0 && Height == 0 && Error == "" && !Favorite
    {
      PhotoUID, Root, Name, Hash := "", "", "", "";
      Size, Type, Sidecar, Video, Duration := 0, "", false, false, 0;
      Width, Height, Error, Favorite := 0, 0, "", false;
    }

    /** `baseName()` without truncation: the text after the last `/`,
        which is the longest suffix of the name without a `/`. */
    function BaseName(): (r: string)
      reads this
      ensures '/' !in r
      ensures |r| <= |Name| && Name[|Name| - |r|..] == r
      ensures |r| < |Name| ==> Name[|Name| - |r| - 1] == '/'
      ensures '/' !in Name ==> r == Name
    {
      AfterLast(Name, '/')
    }

    /** `getEntityName()`: the root, a slash and the name. */
    function EntityName(): (r: string)
      reads this
      ensures |r| == |Root| + 1 + |Name|
      ensures r[..|Root|] == Root && r[|Root|] == '/' && r[|Root| + 1..] == Name
    {
      Root + "/" + Name
    }

    /** `thumbnailUrl(type)`: a file with an error gets the broken-file
        placeholder, a raw file the raw placeholder, every other file the
        URL of its thumbnail of the given size. */
    function ThumbnailUrl(token: string, size: string): (r: string)
      reads this
      ensures Error != "" ==> r == BrokenThumbnail
      ensures Error == "" && Type == "raw" ==> r == RawThumbnail
      ensures Error == "" && Type != "raw" ==> r == ThumbnailPrefix + Hash + "/" + token + "/" + size
    {
      if Error != "" then BrokenThumbnail
      else if Type == "raw" then RawThumbnail
      else ThumbnailPrefix + Hash + "/" + token + "/" + size
    }

    /** `getDownloadUrl()`: the download path of the hash, with the
        token as the `t` query parameter. */
    function DownloadUrl(token: string): (r: string)
      reads this
      ensures |r| == |DownloadPrefix| + |Hash| + 3 + |token|
      ensures r[..|DownloadPrefix|] == DownloadPrefix
      ensures r[|DownloadPrefix|..|DownloadPrefix| + |Hash|] == Hash
      ensures r[|DownloadPrefix| + |Hash|..|DownloadPrefix| + |Hash| + 3] == "?t="
      ensures r[|r| - |token|..] == token
    {
      DownloadPrefix + Hash + "?t=" + token
    }

    /** One entry of `thumbnailSrcset()`: the thumbnail of width `w` and
        its width descriptor. */
    function SrcsetEntry(token: string, w: nat): (r: string)
      reads this
    {
      ThumbnailUrl(token, "fit_" + NatToString(w)) + (" " + NatToString(w) + "w")
    }

    /** The srcset entries for the widths `ws`, in their order. */
    function SrcsetEntries(token: string, ws: seq<nat>): (es: seq<string>)
      reads this
      ensures |es| == |ws|
      ensures forall i :: 0 <= i < |ws| ==> es[i] == SrcsetEntry(token, ws[i])
    {
      if |ws| == 0 then [] else [SrcsetEntry(token, ws[0])] + SrcsetEntries(token, ws[1..])
    }

    /** `thumbnailSrcset()`: the entries for the five srcset widths, in
        increasing order, joined with ", ". */
    method ThumbnailSrcset(token: string) returns (r: string)
      ensures r == Join(SrcsetEntries(token, SrcsetWidths), ", ")
    {
      var result: seq<string> := [];
      result := result + [ThumbnailUrl(token, "fit_720") + " 720w"];
      result := result + [ThumbnailUrl(token, "fit_1280") + " 1280w"];
      result := result + [ThumbnailUrl(token, "fit_1920") + " 1920w"];
      result := result + [ThumbnailUrl(token, "fit_2560") + " 2560w"];
      result := result + [ThumbnailUrl(token, "fit_3840") + " 3840w"];
      SrcsetList(token);
      assert result == SrcsetEntries(token, SrcsetWidths);
      r := Join(result, ", ");
    }

    /** The srcset entries of the five widths, as the list the method
        builds. */
    lemma SrcsetList(token: string)
      ensures SrcsetEntries(token, SrcsetWidths) ==
        [ThumbnailUrl(token, "fit_720") + " 720w", ThumbnailUrl(token, "fit_1280") + " 1280w",
         ThumbnailUrl(token, "fit_1920") + " 1920w", ThumbnailUrl(token, "fit_2560") + " 2560w",
         ThumbnailUrl(token, "fit_3840") + " 3840w"]
    {
      SrcsetLiterals(token);
    }

    /** The srcset entries of the five widths, written out. */
    lemma SrcsetLiterals(token: string)
      ensures SrcsetEntry(token, 720) == ThumbnailUrl(token, "fit_720") + " 720w"
      ensures SrcsetEntry(token, 1280) == ThumbnailUrl(token, "fit_1280") + " 1280w"
      ensures SrcsetEntry(token, 1920) == ThumbnailUrl(token, "fit_1920") + " 1920w"
      ensures SrcsetEntry(token, 2560) == ThumbnailUrl(token, "fit_2560") + " 2560w"
      ensures SrcsetEntry(token, 3840) == ThumbnailUrl(token, "fit_3840") + " 3840w"
    {
      Renders720();
      assert "fit_" + "720" == "fit_720" && " " + "720" + "w" == " 720w";
      Renders1280();
      assert "fit_" + "1280" == "fit_1280" && " " + "1280" + "w" == " 1280w";
      Renders1920();
      assert "fit_" + "1920" == "fit_1920" && " " + "1920" + "w" == " 1920w";
      Renders2560();
      assert "fit_" + "2560" == "fit_2560" && " " + "2560" + "w" == " 2560w";
      Renders3840();
      assert "fit_" + "3840" == "fit_3840" && " " + "3840" + "w" == " 3840w";
    }

    /** `thumbnailSizes()`: the sizes rules joined with ", ". */
    method ThumbnailSizes() returns (r: string)
      ensures r == Join(SizesRules(), ", ")
    {
      var result: seq<string> := [];
      result := result + ["(min-width: 2560px) 3840px"];
      result := result + ["(min-width: 1920px) 2560px"];
      result := result + ["(min-width: 1280px) 1920px"];
      result := result + ["(min-width: 720px) 1280px"];
      result := result + ["720px"];
      SizesLiterals();
      assert result == SizesRules();
      r := Join(result, ", ");
    }

    /** `calculateSize(width, height)`, on exact rationals: an image that
        fits the box keeps its size; otherwise the side that is relatively
        larger is set to the box and the other is scaled and rounded. */
    function CalculateSize(width: nat, height: nat): (r: Dimensions)
      reads this
      requires Height > 0 || height > 0 || width >= Width
      ensures width >= Width && height >= Height ==> r == Dimensions(Width, Height)
      ensures !(width >= Width && height >= Height) && Width * height > width * Height ==>
        r.width == width && 2 * (width * Height) - Width < 2 * (Width * r.height) <= 2 * (width * Height) + Width
      ensures !(width >= Width && height >= Height) && Width * height <= width * Height ==>
        r.height == height && 2 * (height * Width) - Height < 2 * (Height * r.width) <= 2 * (height * Width) + Height
    {
      if width >= Width && height >= Height then Dimensions(Width, Height)
      else if Width * height > width * Height then
        Dimensions(width, JsNumbers.RoundDiv(width * Height, Width))
      else
        Dimensions(JsNumbers.RoundDiv(height * Width, Height), height)
    }

    /** `typeInfo()`: the video flag wins over the sidecar flag, which wins
        over the upper-cased type. */
    function TypeInfo(): (r: string)
      reads this
      ensures Video ==> r == "Video"
      ensures !Video && Sidecar ==> r == "Sidecar"
      ensures !Video && !Sidecar ==> r == ToUpper(Type)
    {
      if Video then "Video"
      else if Sidecar then "Sidecar"
      else ToUpper(Type)
    }

    /** The `W × H` label. */
    function DimensionsLabel(): (r: string)
      reads this
    {
      NatToString(Width) + " \U{00D7} " + NatToString(Height)
    }

    /** The labels `addSizeInfo` appends: the dimensions when both are
        known, then the size in MB above 100 KB, in KB when non-zero. */
    function SizeLabels(): (labels: seq<string>)
      reads this
      ensures |labels| == (if Width != 0 && Height != 0 then 1 else 0) + (if Size != 0 then 1 else 0)
      ensures Width != 0 && Height != 0 ==> labels[0] == DimensionsLabel()
      ensures Size > KilobyteLabelLimit ==> labels[|labels| - 1] == JsNumbers.FixedOne(Size, Megabyte) + " MB"
      ensures 0 < Size <= KilobyteLabelLimit ==> labels[|labels| - 1] == JsNumbers.FixedOne(Size, Kilobyte) + " KB"
    {
      (if Width != 0 && Height != 0 then [DimensionsLabel()] else [])
      + (if Size > KilobyteLabelLimit then [JsNumbers.FixedOne(Size, Megabyte) + " MB"]
         else if Size != 0 then [JsNumbers.FixedOne(Size, Kilobyte) + " KB"]
         else [])
    }

    /** `addSizeInfo(info)`: appends the size labels to the caller's list
        and leaves its existing entries as they were. */
    method AddSizeInfo(info: StringList)
      modifies info
      ensures info.items == old(info.items) + SizeLabels()
      ensures info.items[..|old(info.items)|] == old(info.items)
    {
      if Width != 0 && Height != 0 {
        info.Push(NatToString(Width) + " \U{00D7} " + NatToString(Height));
      }
      if Size > KilobyteLabelLimit {
        info.Push(JsNumbers.FixedOne(Size, Megabyte) + " MB");
      } else if Size != 0 {
        info.Push(JsNumbers.FixedOne(Size, Kilobyte) + " KB");
      }
    }

    /** `sizeInfo()`: the size labels joined with ", ". */
    method SizeInfo() returns (r: string)
      ensures r == Join(SizeLabels(), ", ")
    {
      var info := new StringList();
      AddSizeInfo(info);
      r := Join(info.items, ", ");
    }

    /** `getInfo()`, where `duration` is the text the duration formatter
        gives for `Duration`: the upper-cased type when there is one, the
        duration when positive, then the size labels, joined with ", ". */
    method GetInfo(duration: string) returns (r: string)
      ensures r == Join((if Type != "" then [ToUpper(Type)] else [])
                        + (if Duration > 0 then [duration] else [])
                        + SizeLabels(), ", ")
    {
      var info := new StringList();
      if Type != "" {
        info.Push(ToUpper(Type));
      }
      if Duration > 0 {
        info.Push(duration);
      }
      ghost var before := info.items;
      assert before == (if Type != "" then [ToUpper(Type)] else []) + (if Duration > 0 then [duration] else []);
      AddSizeInfo(info);
      r := Join(info.items, ", ");
    }

    /** `getPhotoResource()`: the photo's path under `photos/`. */
    function PhotoResource(): (r: string)
      reads this
      ensures |r| == 7 + |PhotoUID| && r[..7] == "photos/" && r[7..] == PhotoUID
    {
      "photos/" + PhotoUID
    }

    /** The request that stores the favourite flag `liked`. */
    function LikeRequest(liked: bool): (req: Request)
      reads this
      ensures req.resource == "photos/" + PhotoUID + "/like"
      ensures req.verb == Post <==> liked
    {
      Request(if liked then Post else Delete, PhotoResource() + "/like")
    }

    /** `toggleLike()`. */
    method ToggleLike() returns (req: Request)
      modifies this`Favorite
      ensures Favorite == !old(Favorite)
      ensures req == LikeRequest(Favorite)
    {
      Favorite := !Favorite;
      if Favorite {
        req := Request(Post, PhotoResource() + "/like");
      } else {
        req := Request(Delete, PhotoResource() + "/like");
      }
    }

    /** `like()`. */
    method Like() returns (req: Request)
      modifies this`Favorite
      ensures Favorite
      ensures req == LikeRequest(true)
    {
      Favorite := true;
      req := Request(Post, PhotoResource() + "/like");
    }

    /** `unlike()`. */
    method Unlike() returns (req: Request)
      modifies this`Favorite
      ensures !Favorite
      ensures req == LikeRequest(false)
    {
      Favorite := false;
      req := Request(Delete, PhotoResource() + "/like");
    }
  }
}

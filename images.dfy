/** Image handling of the product table: normalising the raw `images` field of a
    record (`parseImageUrls`) and choosing the images shown in a row. */
module Images {
  import opened Js
  import opened Seqs

  /** What the mapping step makes of one element: a string is trimmed, any
      other value becomes the empty string. */
  function ItemText(v: JsValue): string {
    if v.Str? then Trim(v.s) else ""
  }

  /** `Boolean` used as a filter on strings: keeps the non-empty ones. */
  predicate NonEmpty(t: string) {
    t != ""
  }

  /** The list `parseImageUrls` goes on to map, if there is one: the value
      itself when it is an array, the decoded value when it is a string that
      decodes to an array, nothing when the value is falsy, does not decode or
      is not an array. `jsonParse` stands for `JSON.parse`; `None` is a throw. */
  function DecodedList(images: JsValue, jsonParse: string -> Option<JsValue>): (r: Option<seq<JsValue>>)
    ensures r.Some? ==> Truthy(images)
    ensures images.Arr? ==> r == Some(images.items)
    ensures images.Str? && images.s != "" && jsonParse(images.s).None? ==> r == None
    ensures images.Str? && images.s != "" && jsonParse(images.s).Some? && jsonParse(images.s).value.Arr? ==>
      r == Some(jsonParse(images.s).value.items)
    ensures r.Some? ==> images.Arr? || (images.Str? && jsonParse(images.s).Some? && jsonParse(images.s).value.Arr?)
  {
    if !Truthy(images) then None
    else
      var decoded := if images.Str? then jsonParse(images.s) else Some(images);
      if decoded.Some? && decoded.value.Arr? then Some(decoded.value.items) else None
  }

  /** `parseImageUrls(images)`. */
  function ParseImageUrls(images: JsValue, jsonParse: string -> Option<JsValue>): (r: seq<string>)
    ensures DecodedList(images, jsonParse).None? ==> r == []
    ensures forall k :: 0 <= k < |r| ==> r[k] != "" && Trim(r[k]) == r[k]
  {
    match DecodedList(images, jsonParse)
    case None => []
    case Some(items) =>
      var texts := seq(|items|, k requires 0 <= k < |items| => ItemText(items[k]));
      var r := Filter(NonEmpty, texts);
      assert forall k :: 0 <= k < |r| ==> r[k] in texts;
      forall t | t in texts ensures Trim(t) == t || t == "" {
        var k :| 0 <= k < |texts| && texts[k] == t;
        if items[k].Str? { TrimIdempotent(items[k].s); }
      }
      r
  }

  /** The normalised list holds, in their original order, the trimmed text of
      exactly those elements of the decoded list that are strings and are not
      blank; every other element is dropped. */
  lemma ParseImageUrlsPositions(images: JsValue, jsonParse: string -> Option<JsValue>) returns (idx: seq<int>)
    requires DecodedList(images, jsonParse).Some?
    ensures var items := DecodedList(images, jsonParse).value;
      && var r := ParseImageUrls(images, jsonParse);
      && |idx| == |r|
      && (forall k, l :: 0 <= k < l < |idx| ==> idx[k] < idx[l])
      && (forall k :: 0 <= k < |idx| ==> 0 <= idx[k] < |items| && items[idx[k]].Str? && r[k] == Trim(items[idx[k]].s))
      && (forall i :: 0 <= i < |items| ==> (i in idx <==> items[i].Str? && Trim(items[i].s) != ""))
  {
    var items := DecodedList(images, jsonParse).value;
    var texts := seq(|items|, k requires 0 <= k < |items| => ItemText(items[k]));
    idx := FilterPositions(NonEmpty, texts);
  }

  /** `isValidImageUrl(url)` on a string: it starts with "http". */
  predicate IsValidImageUrl(url: string)
    ensures IsValidImageUrl(url) <==> |url| >= 4 && url[..4] == "http"
  {
    StartsWith(url, "http")
  }

  /** `getFallbackImage()`. */
  function FallbackImage(): (url: string)
    ensures IsValidImageUrl(url)
  {
    // written as two literals so that the verifier sees the leading "http"
    "http" + "s://dummyimage.com/60x60/667eea/ffffff&text=No+Image"
  }

  /** The images shown in a product's row: the valid ones, at most three,
      or the fallback image alone when none is valid. */
  function RowImages(images: seq<string>): (r: seq<string>)
    ensures 1 <= |r| <= 3
    ensures forall k :: 0 <= k < |r| ==> IsValidImageUrl(r[k])
  {
    var imgs := Slice(Filter(IsValidImageUrl, images), 0, 3);
    if |imgs| > 0 then imgs else [FallbackImage()]
  }

  /** With no valid image, the row shows exactly the fallback image. */
  lemma RowImagesFallback(images: seq<string>)
    requires forall k :: 0 <= k < |images| ==> !IsValidImageUrl(images[k])
    ensures RowImages(images) == [FallbackImage()]
  {
    FilterAll(x => !IsValidImageUrl(x), images);
    var valid := Filter(IsValidImageUrl, images);
    if valid != [] {
      assert valid[0] in images;
    }
  }

  /** The images of a row with some valid image are the first (at most three)
      of the product's valid images. */
  lemma RowImagesIsPrefix(images: seq<string>) returns (n: nat)
    requires exists k :: 0 <= k < |images| && IsValidImageUrl(images[k])
    ensures 1 <= n <= 3 && n <= |Filter(IsValidImageUrl, images)|
    ensures n == 3 || n == |Filter(IsValidImageUrl, images)|
    ensures RowImages(images) == Filter(IsValidImageUrl, images)[..n]
  {
    var all := FilterPositions(IsValidImageUrl, images);
    var valid := Filter(IsValidImageUrl, images);
    var k0 :| 0 <= k0 < |images| && IsValidImageUrl(images[k0]);
    assert k0 in all;
    n := if |valid| < 3 then |valid| else 3;
  }

  /** With some valid image, the row shows the first valid images of the
      product, in their original order: the first three, or all of them when
      there are fewer. */
  lemma RowImagesFirstValid(images: seq<string>) returns (idx: seq<int>)
    requires exists k :: 0 <= k < |images| && IsValidImageUrl(images[k])
    ensures Enumerates(RowImages(images), images, idx)
    ensures idx != [] && forall i :: 0 <= i <= idx[|idx| - 1] && IsValidImageUrl(images[i]) ==> i in idx
    ensures |idx| == 3 || forall i :: 0 <= i < |images| && IsValidImageUrl(images[i]) ==> i in idx
  {
    var n := RowImagesIsPrefix(images);
    idx := FilterPrefixPositions(IsValidImageUrl, images, n);
  }
}

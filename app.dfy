/** The view state of the product table page and the user actions that change
    it: loading the catalogue, searching, sorting, choosing the page size and
    going to a page; plus what the table and the page buttons show for a state. */
module App {
  import opened Js
  import opened Seqs
  import opened Images
  import opened Pagination
  import opened Text
  import opened Sorting

  /** A product record as the API response decodes it; `images` is still raw.
      A missing description is the empty string. */
  datatype RawProduct = RawProduct(
    id: int, title: string, price: int, images: JsValue,
    category: Option<string>, description: string)

  /** A product as the page keeps it, its `images` normalised. */
  datatype Product = Product(
    id: int, title: string, price: int, images: seq<string>,
    category: Option<string>, description: string)

  /** `{...p, images: parseImageUrls(p.images)}`. */
  function Normalise(p: RawProduct, jsonParse: string -> Option<JsValue>): (q: Product)
    ensures q.id == p.id && q.title == p.title && q.price == p.price
    ensures q.category == p.category && q.description == p.description
    ensures q.images == ParseImageUrls(p.images, jsonParse)
    ensures forall k :: 0 <= k < |q.images| ==> NonEmpty(q.images[k]) && Trim(q.images[k]) == q.images[k]
  {
    Product(p.id, p.title, p.price, ParseImageUrls(p.images, jsonParse), p.category, p.description)
  }

  /** The search test: the lowercased title contains the query. */
  function TitleMatches(query: string, lower: string -> string): (matches: Product -> bool)
    ensures forall p: Product :: matches(p) <==> Includes(lower(p.title), query)
    ensures query == "" ==> forall p: Product :: matches(p)
  {
    assert forall t: string :: "" <= t[0..];
    (p: Product) => Includes(lower(p.title), query)
  }

  /** A search keeps, in their catalogue order, exactly the products whose
      lowercased title contains the query. */
  lemma SearchPositions(all: seq<Product>, query: string, lower: string -> string) returns (idx: seq<int>)
    ensures Enumerates(Filter(TitleMatches(query, lower), all), all, idx)
    ensures forall i :: 0 <= i < |all| ==> (i in idx <==> Includes(lower(all[i].title), query))
  {
    idx := FilterPositions(TitleMatches(query, lower), all);
  }

  /** An empty query (after lowercasing and trimming) keeps the whole catalogue. */
  lemma SearchEmptyQuery(all: seq<Product>, lower: string -> string)
    ensures Filter(TitleMatches("", lower), all) == all
  {
    forall k | 0 <= k < |all|
      ensures TitleMatches("", lower)(all[k])
    {
      assert "" <= lower(all[k].title)[0..];
    }
    FilterAll(TitleMatches("", lower), all);
  }

  /** The sort keys `sortProducts` recognises. */
  const SortKeys: set<string> := {"priceAsc", "priceDesc", "nameAsc", "nameDesc"}

  /** The comparators `sortProducts` hands to `Array.prototype.sort`. */
  function ByPriceAsc(a: Product, b: Product): (r: int)
    ensures r <= 0 <==> a.price <= b.price
    ensures r == 0 <==> a.price == b.price
  {
    a.price - b.price
  }

  function ByPriceDesc(a: Product, b: Product): (r: int)
    ensures r <= 0 <==> a.price >= b.price
    ensures r == 0 <==> a.price == b.price
  {
    b.price - a.price
  }

  function ByNameAsc(localeCompare: (string, string) -> int): (cmp: (Product, Product) -> int)
    ensures forall a: Product, b: Product :: cmp(a, b) == localeCompare(a.title, b.title)
    ensures TotalPreorder(localeCompare) ==> TotalPreorder(cmp)
  {
    (a: Product, b: Product) => localeCompare(a.title, b.title)
  }

  function ByNameDesc(localeCompare: (string, string) -> int): (cmp: (Product, Product) -> int)
    ensures forall a: Product, b: Product :: cmp(a, b) == localeCompare(b.title, a.title)
    ensures forall a: Product, b: Product :: cmp(a, b) == ByNameAsc(localeCompare)(b, a)
    ensures TotalPreorder(localeCompare) ==> TotalPreorder(cmp)
  {
    (a: Product, b: Product) => localeCompare(b.title, a.title)
  }

  /** All four comparators are consistent when `localeCompare` is: each orders
      products by a total preorder, so the sort it drives is well defined. */
  lemma ComparatorsArePreorders(localeCompare: (string, string) -> int)
    requires TotalPreorder(localeCompare)
    ensures TotalPreorder(ByPriceAsc) && TotalPreorder(ByPriceDesc)
    ensures TotalPreorder(ByNameAsc(localeCompare)) && TotalPreorder(ByNameDesc(localeCompare))
  {
  }

  /** Non-decreasing by price. */
  ghost predicate PriceAscending(s: seq<Product>) {
    forall i, j :: 0 <= i < j < |s| ==> s[i].price <= s[j].price
  }

  /** Non-increasing by price. */
  ghost predicate PriceDescending(s: seq<Product>) {
    forall i, j :: 0 <= i < j < |s| ==> s[i].price >= s[j].price
  }

  /** Being sorted by a price comparator means the price ordering it is named for. */
  lemma SortedByComparators(s: seq<Product>)
    ensures SortedBy(ByPriceAsc, s) <==> PriceAscending(s)
    ensures SortedBy(ByPriceDesc, s) <==> PriceDescending(s)
  {
  }

  /** One table row as `renderTable` builds it (HTML escaping aside). */
  datatype Row = Row(
    id: int, images: seq<string>, title: string, price: int,
    category: string, description: string)

  /** What `renderTable` puts on the page: the "no data" row, or the product
      rows followed by the "showing first - last of total" caption. */
  datatype TableView =
    | NoData
    | Rows(rows: seq<Row>, first: int, last: int, total: nat)

  /** `product.category?.name || 'N/A'`. */
  function CategoryLabel(category: Option<string>): (shown: string)
    ensures shown != ""
    ensures category.Some? && category.value != "" ==> shown == category.value
    ensures category.None? || category.value == "" ==> shown == "N/A"
  {
    if category.Some? && category.value != "" then category.value else "N/A"
  }

  /** One row of `renderTable` for a product. */
  function MakeRow(p: Product): (row: Row)
    ensures row.id == p.id && row.title == p.title && row.price == p.price
    ensures 1 <= |row.images| <= 3 && forall k :: 0 <= k < |row.images| ==> IsValidImageUrl(row.images[k])
    ensures row.category != ""
    ensures |row.description| <= 123 && (|p.description| <= 120 ==> row.description == p.description)
    ensures row.images == RowImages(p.images) && row.category == CategoryLabel(p.category)
    ensures row.description == TruncateText(p.description, 120)
  {
    Row(p.id, RowImages(p.images), p.title, p.price, CategoryLabel(p.category), TruncateText(p.description, 120))
  }

  /** A page button of `renderPagination`: the page it goes to and whether it is marked active. */
  datatype Button = Button(page: int, active: bool)

  /** A new array holding `s`: the spread copy `[...s]`, or the array `filter` returns. */
  method ArrayOf<T>(s: seq<T>) returns (a: array<T>)
    ensures fresh(a) && a[..] == s
  {
    a := new T[|s|](k requires 0 <= k < |s| => s[k]);
  }

  /** The module-level state of the page: the loaded catalogue, the list the
      table pages through (searched and perhaps sorted), the current page and
      the page size. */
  class ProductView {
    var allProducts: seq<Product>
    var filteredProducts: array<Product>
    var currentPage: int
    var itemsPerPage: int

    /** The page size is positive, and the listed products are drawn from the
        catalogue, none more often than it holds it. */
    ghost predicate Valid()
      reads this, filteredProducts
    {
      itemsPerPage >= 1 && multiset(filteredProducts[..]) <= multiset(allProducts)
    }

    /** The initial state: nothing loaded, page 1, ten items per page. */
    constructor ()
      ensures Valid() && fresh(filteredProducts)
      ensures allProducts == [] && filteredProducts[..] == []
      ensures currentPage == 1 && itemsPerPage == 10
    {
      allProducts := [];
      filteredProducts := new Product[0];
      currentPage := 1;
      itemsPerPage := 10;
    }

    /** The state assignment of `getAllProducts`. `data` is the decoded
        response, `None` when the request failed, the status was not OK or the
        body did not decode; then nothing changes. Otherwise the catalogue
        becomes the records with normalised images and the list a fresh copy
        of it. The current page and page size are left as they are. */
    method Load(data: Option<seq<RawProduct>>, jsonParse: string -> Option<JsValue>) returns (ok: bool)
      requires Valid()
      modifies this`allProducts, this`filteredProducts
      ensures Valid()
      ensures ok == data.Some?
      ensures !ok ==> allProducts == old(allProducts) && filteredProducts == old(filteredProducts)
      ensures ok ==> && fresh(filteredProducts)
                     && |allProducts| == |data.value|
                     && (forall k :: 0 <= k < |allProducts| ==> allProducts[k] == Normalise(data.value[k], jsonParse))
                     && filteredProducts[..] == allProducts
    {
      if data.None? {
        return false;
      }
      var records := data.value;
      var products := seq(|records|, k requires 0 <= k < |records| => Normalise(records[k], jsonParse));
      allProducts := products;
      filteredProducts := ArrayOf(products);
      ok := true;
    }

    /** The search input handler: the list becomes the catalogue products
        whose lowercased title contains the lowercased, trimmed input, in
        catalogue order (any earlier sort is lost), and the page goes back to 1.
        `lower` stands for `String.prototype.toLowerCase`. */
    method Search(input: string, lower: string -> string)
      requires Valid()
      modifies this`filteredProducts, this`currentPage
      ensures Valid() && fresh(filteredProducts)
      ensures filteredProducts[..] == Filter(TitleMatches(Trim(lower(input)), lower), allProducts)
      ensures currentPage == 1
      ensures allProducts == old(allProducts) && itemsPerPage == old(itemsPerPage)
    {
      var q := Trim(lower(input));
      var matches := Filter(TitleMatches(q, lower), allProducts);
      FilterSubMultiset(TitleMatches(q, lower), allProducts);
      filteredProducts := ArrayOf(matches);
      currentPage := 1;
    }

    /** `sortProducts(kind)`: sorts the list in place by the comparator the key
        names, and goes back to page 1. An unknown key leaves the list as it is
        but still resets the page. `localeCompare` stands for
        `String.prototype.localeCompare`, a total preorder on strings. */
    method SortProducts(kind: string, localeCompare: (string, string) -> int)
      requires Valid() && TotalPreorder(localeCompare)
      modifies this`currentPage, filteredProducts
      ensures Valid() && currentPage == 1
      ensures multiset(filteredProducts[..]) == old(multiset(filteredProducts[..]))
      ensures kind == "priceAsc" ==> PriceAscending(filteredProducts[..])
      ensures kind == "priceDesc" ==> PriceDescending(filteredProducts[..])
      ensures kind == "nameAsc" ==> SortedBy(ByNameAsc(localeCompare), filteredProducts[..])
      ensures kind == "nameDesc" ==> SortedBy(ByNameDesc(localeCompare), filteredProducts[..])
      ensures kind !in SortKeys ==> filteredProducts[..] == old(filteredProducts[..])
    {
      if kind == "priceAsc" {
        assert TotalPreorder(ByPriceAsc) by { ComparatorsArePreorders(localeCompare); }
        SortFilteredBy(ByPriceAsc);
        assert PriceAscending(filteredProducts[..]) by { SortedByComparators(filteredProducts[..]); }
      } else if kind == "priceDesc" {
        assert TotalPreorder(ByPriceDesc) by { ComparatorsArePreorders(localeCompare); }
        SortFilteredBy(ByPriceDesc);
        assert PriceDescending(filteredProducts[..]) by { SortedByComparators(filteredProducts[..]); }
      } else if kind == "nameAsc" {
        assert TotalPreorder(ByNameAsc(localeCompare)) by { ComparatorsArePreorders(localeCompare); }
        SortFilteredBy(ByNameAsc(localeCompare));
      } else if kind == "nameDesc" {
        assert TotalPreorder(ByNameDesc(localeCompare)) by { ComparatorsArePreorders(localeCompare); }
        SortFilteredBy(ByNameDesc(localeCompare));
      }
      currentPage := 1;
    }

    /** `filteredProducts.sort(cmp)`. */
    method SortFilteredBy(cmp: (Product, Product) -> int)
      requires Valid() && TotalPreorder(cmp)
      modifies filteredProducts
      ensures Valid()
      ensures SortedBy(cmp, filteredProducts[..])
      ensures multiset(filteredProducts[..]) == old(multiset(filteredProducts[..]))
    {
      SortInPlace(filteredProducts, cmp);
    }

    /** The page-size select handler: the chosen size, back to page 1; the
        list is left untouched. */
    method SetItemsPerPage(size: int)
      requires Valid() && size >= 1
      modifies this`itemsPerPage, this`currentPage
      ensures Valid()
      ensures itemsPerPage == size && currentPage == 1
    {
      itemsPerPage := size;
      currentPage := 1;
    }

    /** `goToPage(p)`: the current page becomes `p`, unchecked; nothing else changes. */
    method GoToPage(p: int)
      requires Valid()
      modifies this`currentPage
      ensures Valid() && currentPage == p
    {
      currentPage := p;
    }

    /** The products of the current page. */
    function PageData(): (page: seq<Product>)
      reads this, filteredProducts
      ensures |page| <= filteredProducts.Length
      ensures currentPage >= 1 && itemsPerPage >= 1 ==> |page| <= itemsPerPage
    {
      PageSlice(filteredProducts[..], currentPage, itemsPerPage)
    }

    /** `renderTable()`: an empty page shows the "no data" row and returns
        before the caption is updated; otherwise one row per product of the
        page, in list order, and the caption's range and total. */
    function RenderTable(): (v: TableView)
      reads this, filteredProducts
      requires Valid()
      ensures v.NoData? <==> PageData() == []
      ensures v.Rows? ==> && |v.rows| == |PageData()|
                          && (forall k :: 0 <= k < |v.rows| ==> v.rows[k] == MakeRow(PageData()[k]))
                          && (v.first, v.last) == InfoRange(currentPage, itemsPerPage, filteredProducts.Length)
                          && v.total == filteredProducts.Length
    {
      var page := PageData();
      if page == [] then NoData
      else
        var (first, last) := InfoRange(currentPage, itemsPerPage, filteredProducts.Length);
        Rows(seq(|page|, k requires 0 <= k < |page| => MakeRow(page[k])), first, last, filteredProducts.Length)
    }

    /** `renderPagination()`: no buttons when there is at most one page;
        otherwise one button per page 1 .. total pages, in order, and only the
        current page's button is active. */
    method RenderPagination() returns (buttons: seq<Button>)
      requires Valid()
      ensures TotalPages(filteredProducts.Length, itemsPerPage) <= 1 ==> buttons == []
      ensures TotalPages(filteredProducts.Length, itemsPerPage) > 1 ==>
        && |buttons| == TotalPages(filteredProducts.Length, itemsPerPage)
        && forall k :: 0 <= k < |buttons| ==> buttons[k].page == k + 1 && (buttons[k].active <==> k + 1 == currentPage)
    {
      var totalPages := TotalPages(filteredProducts.Length, itemsPerPage);
      buttons := [];
      if totalPages <= 1 {
        return;
      }
      for i := 1 to totalPages + 1
        invariant |buttons| == i - 1
        invariant forall k :: 0 <= k < |buttons| ==> buttons[k].page == k + 1 && (buttons[k].active <==> k + 1 == currentPage)
      {
        buttons := buttons + [Button(i, i == currentPage)];
      }
    }
  }

  /** Every page button leads to a page that shows products, with a caption
      naming exactly their positions. */
  lemma ButtonPagesShowProducts(s: seq<Product>, itemsPerPage: int, page: int)
    requires itemsPerPage >= 1 && 1 <= page <= TotalPages(|s|, itemsPerPage)
    ensures PageSlice(s, page, itemsPerPage) != []
    ensures var (first, last) := InfoRange(page, itemsPerPage, |s|);
      1 <= first <= last <= |s| && PageSlice(s, page, itemsPerPage) == s[first - 1..last]
  {
    PageSliceNonEmptyIff(s, page, itemsPerPage);
    InfoRangeMatchesSlice(s, page, itemsPerPage);
  }
}

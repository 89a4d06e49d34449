# Product table view state, in Dafny

This project models the client-side core of a single-page product viewer
(`app.js`). The page loads a product catalogue once. It then lets the user
search it by title, sort it by price or name, choose a page size and move
between pages, all without further requests.

The model covers:

- **Image normalisation and selection.** `parseImageUrls` turns the raw
  `images` field into a clean list. The row builder shows at most three images
  that start with `http`, or the fallback image when there are none
  (`images.dfy`).
- **The view state.** The four module-level variables `allProducts`,
  `filteredProducts`, `currentPage` and `itemsPerPage` are the fields of the
  class `App.ProductView`. Each user action is a method of that class: load,
  search, sort, page size and go-to-page. `filteredProducts` is an array
  because `sortProducts` sorts it in place, while search and load replace it
  with a fresh array (`app.dfy`).
- **Pagination arithmetic.** This covers the page slice of `renderTable`, the
  page count and buttons of `renderPagination`, and the "showing first – last
  of total" range of `updatePaginationInfo` (`pagination.dfy`, `app.dfy`).
- **`truncateText`** (`text.dfy`).

Supporting modules:

- `js.dfy` holds the JavaScript runtime behaviour the core relies on:
  truthiness, `trim` over the ECMAScript whitespace set, `includes`,
  `startsWith`, and `slice` with its negative-index rule.
- `seqs.dfy` holds `filter` and the positions a filtered list comes from, and
  defines the comparator orderings.
- `sorting.dfy` stands in for `Array.prototype.sort`.

Library calls that have no faithful counterpart here are parameters:

- `jsonParse` for `JSON.parse`, where `None` means it threw.
- `lower` for `String.prototype.toLowerCase`.
- `localeCompare` for `String.prototype.localeCompare`. The sort requires it to
  be a total preorder.

Where a cleaner design would differ, the model follows the code:

- `goToPage` does not clamp the page.
- The page count is `ceil(len / itemsPerPage)`, which is 0 for an empty list.
- Search rebuilds the list in catalogue order, so it drops an earlier sort.
- An empty page shows the "no data" row and returns before
  `updatePaginationInfo`, so the caption keeps its previous text.
- Loading does not reset `currentPage`.

## Model

| member | source | states |
|---|---|---|
| `Images.DecodedList` | app.js:27-35 | A list comes out only for a truthy value. An array is used as it is. A non-empty string gives the elements of the array `JSON.parse` decodes it to, and nothing when it is rejected. A list comes out only from an array or from a string that decodes to one. |
| `Images.ParseImageUrls` | app.js:26-38 | The result is `[]` when the value is falsy, does not decode, or decodes to a non-array. Otherwise every element is non-empty and already trimmed. |
| `Images.ParseImageUrlsPositions` | app.js:35-37 | The result holds, in their original order, the trimmed text of exactly those decoded elements that are strings and not blank. Every other element is dropped. |
| `Images.IsValidImageUrl` | app.js:40-42 | A URL is valid exactly when its first four characters are "http". |
| `Images.FallbackImage` | app.js:44-46 | The fallback URL itself passes `isValidImageUrl`. |
| `Images.RowImages` | app.js:93-97 | A row shows between 1 and 3 images, and each one starts with "http". |
| `Images.RowImagesFallback` | app.js:97 | With no valid image, the row shows exactly `[getFallbackImage()]`. |
| `Images.RowImagesIsPrefix` | app.js:93-95 | With some valid image, the row's images are the first `min(3, n)` of the product's `n` valid images. |
| `Images.RowImagesFirstValid` | app.js:93-95 | With some valid image, the row's images come from increasing positions of the product's list. They are the earliest valid ones: the first three, or all of them when there are fewer. |
| `Js.TrimStart` | app.js:36 | Only leading whitespace is removed, and the result does not start with whitespace. |
| `Js.TrimEnd` | app.js:36 | Only trailing whitespace is removed, and the result does not end with whitespace. |
| `Js.TrimSpec` | app.js:36 | `trim` returns the contiguous middle of the string between a whitespace-only prefix and suffix, with no whitespace at either end. |
| `Js.TrimIdempotent` | app.js:36 | Trimming a trimmed string changes nothing. |
| `Js.Truthy` | app.js:27 | `undefined` and `null` are falsy; every array and object is truthy. |
| `Js.Trim` | app.js:36 | `trim` never lengthens a string, and its result neither starts nor ends with whitespace. |
| `Js.Includes` | app.js:160 | The empty string is included in every string, and an included string is no longer than the one containing it. |
| `Js.StartsWith` | app.js:41 | `s.startsWith(prefix)` holds exactly when `prefix` is the first `|prefix|` characters of `s`. |
| `Js.Slice` | app.js:80 | A slice is never longer than its input, and `slice(0, end)` with `end >= len` is the whole input. |
| `Js.SliceNonNegative` | app.js:80 | With bounds `0 <= start <= end`, `slice` is the contiguous run `[start, min(end, len))`. It is empty when `start >= len` and never longer than `end - start`. |
| `Seqs.Filter` | app.js:159-161 | `filter` returns only elements of the input that satisfy the predicate, and no more of them than the input holds. |
| `Seqs.FilterPositions` | app.js:159-161 | `filter` keeps exactly the positions whose element satisfies the predicate, in increasing order. |
| `Seqs.FilterAll` | app.js:159-161 | Filtering with a predicate every element satisfies returns the input unchanged. |
| `Seqs.FilterSubMultiset` | app.js:159-161 | A filtered list never holds an element more often than the input does. |
| `Seqs.FilterPrefixPositions` | app.js:94-95 | The first `n` filtered elements come from the first `n` satisfying positions. When `n` is all of them, they come from every satisfying position. |
| `Sorting.SortInPlace` | app.js:169-172 | After an in-place sort with a consistent comparator, the array is a permutation of what it held and no element compares greater than a later one. |
| `Sorting.InsertLast` | app.js:169-172 | One insertion step extends the sorted prefix by one element and keeps the array's contents as a multiset. |
| `Pagination.PageStart` | app.js:78-79 | For page `p >= 1` the start index is non-negative, and start plus page size is `p * itemsPerPage`, the end index. |
| `Pagination.PageSlice` | app.js:78-80 | A page is never longer than the list, and for page `p >= 1` never longer than `itemsPerPage`. |
| `Pagination.PageSliceBounds` | app.js:78-80 | For page `p >= 1`, the start is `(p-1)*itemsPerPage >= 0`. The page is `list[start .. min(start+itemsPerPage, len))`. It holds at most `itemsPerPage` items and is empty when `start >= len`. |
| `Pagination.FirstPage` | app.js:78-80 | Page 1 shows the first `min(itemsPerPage, len)` items. |
| `Pagination.TotalPages` | app.js:135 | The page count is the least `n` with `len <= n * itemsPerPage`, which is `ceil(len / itemsPerPage)`. |
| `Pagination.TotalPagesZero` | app.js:135 | The page count is 0 exactly when the list is empty. |
| `Pagination.PageSliceNonEmptyIff` | app.js:78-82 | A page `p >= 1` shows items if and only if `p <= totalPages`. |
| `Pagination.InfoRange` | app.js:207-209 | For page `p >= 1` the caption's first position is at least 1 and its last is at most the list length. It never spans more than `itemsPerPage` positions. |
| `Pagination.InfoRangeMatchesSlice` | app.js:207-209 | For a non-empty page, `1 <= start <= end <= len`, and `end - start + 1` is the page's size. The page is exactly the list at 1-based positions `start..end`. |
| `Text.TruncateText` | app.js:215-217 | A text of at most `max` characters is returned unchanged. A longer one becomes its first `max` characters plus "...", which is `max + 3` long. The result never exceeds `max + 3` and keeps the text's prefix. |
| `App.Normalise` | app.js:59-62 | Normalising a record replaces `images` with `parseImageUrls` of the raw value, so every image kept is non-empty and trimmed. It keeps the id, title, price, category and description. |
| `App.TitleMatches` | app.js:158-160 | A product matches exactly when its lowercased title includes the query. An empty query matches every product. |
| `App.SearchPositions` | app.js:158-161 | Search keeps, in catalogue order, exactly the products whose lowercased title contains the query. |
| `App.SearchEmptyQuery` | app.js:158-161 | An empty query, after lowercasing and trimming, keeps the whole catalogue. |
| `App.ByPriceAsc` | app.js:169 | `a.price - b.price` is at most 0 exactly when `a` is no dearer than `b`, and 0 exactly on equal prices. |
| `App.ByPriceDesc` | app.js:170 | `b.price - a.price` is at most 0 exactly when `a` is no cheaper than `b`, and 0 exactly on equal prices. |
| `App.ByNameAsc` | app.js:171 | The comparator is `localeCompare` on the two titles. It is a total preorder whenever `localeCompare` is one, so the sort it drives is well defined. |
| `App.ByNameDesc` | app.js:172 | The comparator is the ascending one with its arguments reversed. It is a total preorder whenever `localeCompare` is one. |
| `App.ComparatorsArePreorders` | app.js:169-172 | The price comparators are total preorders. So are the `localeCompare` comparators, in both directions, when `localeCompare` is one. |
| `App.SortedByComparators` | app.js:169-170 | Being sorted by `a.price - b.price` means non-decreasing price, and by `b.price - a.price` non-increasing price. |
| `App.CategoryLabel` | app.js:120 | The category cell is never empty: it is the category name when that is non-empty, and "N/A" otherwise. |
| `App.MakeRow` | app.js:92-127 | A row keeps the product's id, title and price. Its images are the row selection of the product's images: 1 to 3 of them, all valid. Its category is the category label, never empty. Its description is `truncateText(description, 120)`: at most 123 characters, and unchanged when at most 120. |
| `App.ArrayOf` | app.js:64 | The copy `[...list]` is a fresh array with the same contents. |
| `App.ProductView.constructor` | app.js:5-8 | The initial state is an empty catalogue and list, page 1 and 10 items per page. |
| `App.ProductView.Load` | app.js:59-64 | On failure nothing changes. On success the catalogue is the records with `images` normalised and every other field kept. The list is a fresh copy of the catalogue. The page and page size are unchanged. |
| `App.ProductView.Search` | app.js:157-162 | The list becomes a fresh array holding the filter of the catalogue by the lowercased, trimmed query, in catalogue order. `currentPage` becomes 1. The catalogue and page size are unchanged. |
| `App.ProductView.SortProducts` | app.js:168-174 | The list is sorted in place and stays a permutation of itself. It is ordered by the named key: price ascending or descending, or title ascending or descending by `localeCompare`. An unknown key leaves it as it was. `currentPage` becomes 1 in every case. The catalogue and page size are unchanged. |
| `App.ProductView.SortFilteredBy` | app.js:169-172 | `filteredProducts.sort(cmp)` leaves the same array sorted by `cmp`, as a permutation of what it held. |
| `App.ProductView.SetItemsPerPage` | app.js:185-187 | The page size becomes the selected value and `currentPage` becomes 1. The list and catalogue are untouched. |
| `App.ProductView.GoToPage` | app.js:150-151 | `currentPage` becomes `p`, unclamped, and nothing else changes. |
| `App.ProductView.PageData` | app.js:78-80 | The current page is never longer than the list, and for page `p >= 1` never longer than `itemsPerPage`. |
| `App.ProductView.RenderTable` | app.js:77-130 | An empty page gives the "no data" view without a caption. Otherwise it gives one row per product of the page, in order, with the product's selected images and truncated description. The caption is `((p-1)*n+1, min(p*n, len))` of `len`. |
| `App.ProductView.RenderPagination` | app.js:134-148 | With at most one page there are no buttons. Otherwise there is one button per page `1..totalPages`, in increasing order. Only the button of `currentPage` is active. |
| `App.ButtonPagesShowProducts` | app.js:135-146 | Every page a button leads to shows products. The caption for that page names exactly their positions. |

## Left out

- The network request, its `async` flow and `res.json()` are not modelled (app.js:49-57, 66-73). `Load` receives the decoded records, or `None` for any failure before the state assignment.
- Loading and error indicators (`showLoading`, `hideLoading`, `showError`, `hideError`) are not modelled. They only touch the DOM.
- The DOM element lookups, the `innerHTML` templates and the image `onerror` fallback are not modelled. The event-listener wiring is left out too: each handler body is a method.
- `escapeHtml` is not modelled. It relies on the browser's HTML serialisation, so row titles, categories and descriptions are kept unescaped.
- `JSON.parse`, `toLowerCase` and `localeCompare` are parameters rather than definitions. Unicode case mapping and locale collation have no counterpart here.
- Prices and numeric JSON values are integers. Floating point, `NaN` and fractional prices are not modelled.
- `SetItemsPerPage` takes the number that `+itemsPerPageSelect.value` produces. It requires that number to be at least 1, which the select's fixed positive options guarantee. The page's HTML is not part of this model.
- `Images.IsValidImageUrl` is stated on strings. Its `typeof url === 'string'` test always holds, because normalised images are strings.
- `Text.TruncateText` counts characters, whereas JavaScript's `length` counts UTF-16 code units. The two differ for characters outside the Basic Multilingual Plane.
- `App.ProductView.SortProducts` does not claim a stable order for equal keys: stability, which the language guarantees, is not modelled. The engine's sorting algorithm is not visible either, so an insertion sort stands in for it, with the same permutation-and-order contract.
- `App.RawProduct` assumes every record has a string `title` and a numeric `price`, and treats a missing `description` as the empty string. A record without a title would make the search throw. A `null` description would make `truncateText` throw. Neither case is modelled.
- `App.ProductView.RenderTable` does not model the caption's DOM text. It returns the caption numbers, and none for an empty page, matching the early return.

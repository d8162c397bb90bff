# Product dashboard: the displayed-list state machine

A Dafny model of the client-side logic of `product-dashboard/script.js`, a
browser script that shows posts of a remote collection ten at a time, lets the
user add, edit and delete them, and runs a debounced search.

The model keeps the script's state as one class, `Dashboard.ProductListClient`:

- `allData`: everything the last successful load fetched;
- `currentPage`: the last page shown by pagination, starting at 1;
- `displayed`: the children of `#productList` in document order, each entry
  standing for the element whose `data-id` is that product's id;
- `searchPending`: whether a debounced search timer is waiting to fire.

Each event handler is a method. What the outside world supplies (the fetched
array, the product the service returns, the user's answers to `prompt` and
`confirm`, whether a request succeeded) is a parameter. `Load` returns the
`GET /posts` request it always sends; `Add`, `Edit`, `Delete` and `SearchFire`
return the request they send, or `None` when they send nothing, so "no network
call" is part of their contracts. The list is filled by loops that append one
entry at a time, as the script's `forEach`/`appendChild` loops do.

Modules:

- `JsBuiltins` (`js_builtins.dfy`): `Array.prototype.slice` with its index
  clamping, and `String.prototype.trim`.
- `ProductLists` (`product_lists.dfy`): `Product`, page slicing, and the
  first-match replace and remove that `querySelector` gives edit and delete,
  with lemmas about ids and counts.
- `Dashboard` (`client.dfy`): the client class and its handlers.
- `DashboardScenarios` (`scenarios.dfy`): sequences of user actions on a fresh
  client and what the list shows afterwards.

Behaviour of the script worth knowing:

- Clearing the search box empties the list and renders the current page
  alone (`renderProductsPage`), leaving `currentPage` as it was. After two
  clicks on "load more", clearing the search shows page 3 only
  (`ClearSearchAfterLoadMore`).
- An added product is prepended to the list but never inserted into
  `allData`, so the same id can later be shown twice (`AddThenLoadMore`). An
  edit whose answer carries a different id changes the ids shown.
- `prepend` puts an added product first in the list.
- Edit and delete act on the first element with the id in document order,
  which need not be the element whose button was clicked when ids repeat.
- A delete removes the element whenever `fetch` resolves, whatever HTTP status
  the service answers with. `ok` stands for "the request did not throw".

## Model

| member | source | states |
|---|---|---|
| `JsBuiltins.JsSlice` | product-dashboard/script.js:33 | `slice` gives a contiguous window of the array starting at the resolved start; for `0 <= start <= end` it is `s[min(start,n)..min(end,n)]`, and it is empty when `0 <= end <= start` |
| `JsBuiltins.Trim` | product-dashboard/script.js:146 | the trimmed query is the piece of the input with only whitespace cut from both ends; it is empty exactly when the input is all whitespace |
| `ProductLists.PageSlice` | product-dashboard/script.js:31-33 | page `p` holds at most 10 entries, equals the clamped window `[(p-1)*10, p*10)` of `allData`, and is empty once `(p-1)*10 >= |allData|` |
| `ProductLists.PagesStep` | product-dashboard/script.js:29-38 | the first `p-1` pages followed by page `p` are the first `p` pages of the data |
| `ProductLists.FirstIndexWithId` | product-dashboard/script.js:116 | the lookup by `data-id` finds the first entry with that id, and finds nothing only when no entry has it |
| `ProductLists.ReplaceFirstWithId` | product-dashboard/script.js:115-117 | replacing by id keeps the length, puts the answer at the first match and leaves every other position alone; without a match nothing changes |
| `ProductLists.RemoveFirstWithId` | product-dashboard/script.js:133 | removing by id drops exactly the first match and keeps the order of the rest; without a match nothing changes |
| `ProductLists.CountIdPositive` | product-dashboard/script.js:133 | some entry carries the id exactly when the lookup succeeds |
| `ProductLists.RemoveFirstCount` | product-dashboard/script.js:133 | a delete lowers the count of the deleted id by one when it is shown, and leaves the count of every other id unchanged |
| `ProductLists.RemoveFirstUnique` | product-dashboard/script.js:133 | with unique ids, after a delete no entry carries the id and the ids stay unique |
| `ProductLists.ReplaceFirstCount` | product-dashboard/script.js:115-117 | an edit whose answer keeps the id leaves the count of every id unchanged |
| `ProductLists.ReplaceFirstUnique` | product-dashboard/script.js:115-117 | with unique ids, an edit whose answer keeps the id keeps the ids unique |
| `Dashboard.ProductListClient.constructor` | product-dashboard/script.js:10-12 | the client starts on page 1 with no data, an empty list and no search waiting |
| `Dashboard.ProductListClient.RenderPage` | product-dashboard/script.js:29-39 | the current page of `allData`, the clamped window `[(currentPage-1)*10, currentPage*10)`, is appended to the list after the entries already there |
| `Dashboard.ProductListClient.Load` | product-dashboard/script.js:15-27 | `GET /posts` is always sent; on success `allData` is the fetched array, the page is 1 and the list is its first 10 entries; on failure nothing changes |
| `Dashboard.ProductListClient.LoadMore` | product-dashboard/script.js:4-7 | the page advances by one and the next page is appended: earlier entries stay in place, at most 10 are added, none once the page is past the data |
| `Dashboard.ProductListClient.Add` | product-dashboard/script.js:42-70 | an empty title or body sends nothing and changes nothing; otherwise a POST with user id 1 is sent and on success the returned product is put first; `allData` and the page are untouched |
| `Dashboard.ProductListClient.Edit` | product-dashboard/script.js:92-122 | a cancelled or empty answer sends nothing; otherwise the PUT carries the product's id and user id, and on success the first entry with the id is replaced, the length kept |
| `Dashboard.ProductListClient.Delete` | product-dashboard/script.js:125-139 | without confirmation nothing is sent; otherwise the DELETE is sent and on success the first entry with the id is removed, the length falling by one when there is one |
| `Dashboard.ProductListClient.SearchInput` | product-dashboard/script.js:143-145 | a new input replaces any waiting search timer by one waiting timer |
| `Dashboard.ProductListClient.SearchProducts` | product-dashboard/script.js:156-172 | the search request carries the query; on success the list is the first 10 results, on failure nothing changes |
| `Dashboard.ProductListClient.SearchFire` | product-dashboard/script.js:145-153 | the query is read and trimmed when the timer fires; a non-empty one is searched for, an empty one sends nothing and shows the current page alone; `allData` and the page are untouched |
| `DashboardScenarios.LoadThenLoadMore` | product-dashboard/script.js:4-38 | after a load and `k` clicks on "load more" the list is the first `min(10(k+1), n)` fetched products, with no repeated id when the fetched ids are unique |
| `DashboardScenarios.AddThenLoadMore` | product-dashboard/script.js:57-62 | an added product whose id is on page 2 is shown twice once page 2 is loaded, because it never enters `allData` |
| `DashboardScenarios.ClearSearchAfterLoadMore` | product-dashboard/script.js:146-151 | clearing the search after `k` clicks on "load more" sends nothing and shows page `k+1` alone, without the first product when `k >= 1` and ids are unique |
| `DashboardScenarios.LoadThenDelete` | product-dashboard/script.js:125-139 | deleting a product of page 1 removes it from the list, keeps the order of the rest, and keeps ids unique |

## Left out

- HTTP, URLs, headers and JSON encoding and decoding: a request's outcome is
  the `ok` flag and the fetched or returned products are parameters. A body
  that parses but is not an array of posts is not modelled. The search query
  is put into the URL unencoded; that is not modelled either.
- `alert`, `prompt`, `confirm` and `console.error`: the answers are inputs
  (`None` for a cancelled prompt) and the notifications are dropped.
- Building each element (`createProductElement`'s markup and its button
  listeners, and the listener registration at the top of the script): only
  the element's `data-id` is kept, as the entry's product.
- Clearing the add form's input fields after a successful add: input state
  with no bearing on the list.
- The 500 ms debounce delay and `clearTimeout`: timing is not modelled. The
  single waiting timer is the `searchPending` flag. `SearchFire` requires
  that flag, because the callback only ever runs after a timer was set.
- Overlapping asynchronous requests, such as a late search answer
  overwriting a newer list: every handler runs to completion before the next
  one starts.
- `JsBuiltins.Trim`: the whitespace set is ECMAScript's WhiteSpace and
  LineTerminator with the Unicode space separators listed explicitly (as of
  Unicode 15). There is no normalisation.
- An exception thrown while an element is being built or appended is not
  modelled; the model treats only failed requests and failed lookups as
  errors.

/** The dashboard's client state and its event handlers. The remote service,
    the user's answers to prompts and confirmations, and the outcome of each
    request are parameters; a handler returns the request it sends, if any. */
module Dashboard {
  import opened JsBuiltins
  import opened ProductLists

  /** The requests the dashboard sends to the posts collection. */
  datatype Request =
    | GetPosts(query: Option<string>)                               // GET /posts, or GET /posts?q=query
    | CreatePost(title: string, body: string, userId: int)          // POST /posts
    | UpdatePost(id: int, title: string, body: string, userId: int) // PUT /posts/id
    | DeletePost(id: int)                                           // DELETE /posts/id

  /** The user id every new product is created under. */
  const NewProductUserId: int := 1

  /** JavaScript truthiness of an answer to `prompt`: `None` is a cancelled
      prompt (`null`), and the empty string is falsy too. */
  predicate Truthy(answer: Option<string>)
  {
    answer.Some? && answer.value != []
  }

  class ProductListClient {
    /** Everything the last successful load fetched (`allData`). */
    var allData: seq<Product>
    /** The last page shown by pagination (`currentPage`). */
    var currentPage: nat
    /** The entries of `#productList`, in document order; each stands for the
        element whose `data-id` is the entry's id. */
    var displayed: seq<Product>
    /** Whether a debounced search timer is waiting to fire (`debounceTimer`). */
    var searchPending: bool

    ghost predicate Valid()
      reads this
    {
      1 <= currentPage
    }

    constructor ()
      ensures Valid()
      ensures allData == [] && currentPage == 1 && displayed == [] && !searchPending
    {
      allData := [];
      currentPage := 1;
      displayed := [];
      searchPending := false;
    }

    /** `renderProductsPage`: appends the current page of `allData` to the list. */
    method RenderPage()
      requires Valid()
      modifies this`displayed
      ensures displayed == old(displayed) + PageSlice(allData, currentPage, ItemsPerPage)
      ensures displayed == old(displayed) +
        allData[Min((currentPage - 1) * ItemsPerPage, |allData|)..Min(currentPage * ItemsPerPage, |allData|)]
    {
      var pageData := PageSlice(allData, currentPage, ItemsPerPage);
      for i := 0 to |pageData|
        invariant displayed == old(displayed) + pageData[..i]
      {
        displayed := displayed + [pageData[i]];
      }
      assert pageData[..|pageData|] == pageData;
    }

    /** `loadProducts`: the whole collection is always requested; a successful
        fetch replaces `allData`, goes back to page 1 and shows the first page
        alone; a failed fetch or body parse is caught before anything is assigned. */
    method Load(fetched: seq<Product>, ok: bool) returns (req: Request)
      requires Valid()
      modifies this`allData, this`currentPage, this`displayed
      ensures req == GetPosts(None)
      ensures Valid()
      ensures ok ==> allData == fetched && currentPage == 1 &&
                     displayed == fetched[..Min(ItemsPerPage, |fetched|)]
      ensures !ok ==> allData == old(allData) && currentPage == old(currentPage) &&
                      displayed == old(displayed)
    {
      req := GetPosts(None);
      if ok {
        allData := fetched;
        currentPage := 1;
        displayed := [];
        RenderPage();
      }
    }

    /** The load-more handler: moves to the next page and appends it, so the
        entries already shown stay in place and at most a page is added;
        past the end of `allData` nothing is added but the page still advances. */
    method LoadMore()
      requires Valid()
      modifies this`currentPage, this`displayed
      ensures Valid() && currentPage == old(currentPage) + 1
      ensures displayed == old(displayed) + PageSlice(allData, currentPage, ItemsPerPage)
      ensures |old(displayed)| <= |displayed| <= |old(displayed)| + ItemsPerPage
      ensures displayed[..|old(displayed)|] == old(displayed)
      ensures (currentPage - 1) * ItemsPerPage >= |allData| ==> displayed == old(displayed)
    {
      currentPage := currentPage + 1;
      RenderPage();
    }

    /** `addProduct`: an empty title or body sends nothing; otherwise the
        product is posted under user 1 and, on success, the returned product is
        put first in the list. `allData` is not touched. */
    method Add(title: string, body: string, returned: Product, ok: bool) returns (req: Option<Request>)
      modifies this`displayed
      ensures req == if title != [] && body != []
                     then Some(CreatePost(title, body, NewProductUserId)) else None
      ensures displayed == if req.Some? && ok then [returned] + old(displayed)
                           else old(displayed)
    {
      if title == [] || body == [] {
        return None;
      }
      req := Some(CreatePost(title, body, NewProductUserId));
      if ok {
        displayed := [returned] + displayed;
      }
    }

    /** `editProduct`: a cancelled or empty answer sends nothing; otherwise the
        product is put with the new title and body, and on success the first
        entry carrying the product's id is replaced by the service's answer.
        With no such entry the lookup yields null, the replacement throws, and
        the list stays as it was. */
    method Edit(product: Product, newTitle: Option<string>, newBody: Option<string>,
                updated: Product, ok: bool) returns (req: Option<Request>)
      modifies this`displayed
      ensures req == if Truthy(newTitle) && Truthy(newBody)
                     then Some(UpdatePost(product.id, newTitle.value, newBody.value, product.userId))
                     else None
      ensures |displayed| == |old(displayed)|
      ensures displayed == if req.Some? && ok
                           then ReplaceFirstWithId(old(displayed), product.id, updated)
                           else old(displayed)
    {
      if !Truthy(newTitle) || !Truthy(newBody) {
        return None;
      }
      req := Some(UpdatePost(product.id, newTitle.value, newBody.value, product.userId));
      if ok {
        var oldDiv := FirstIndexWithId(displayed, product.id);
        if oldDiv.Some? {
          displayed := displayed[oldDiv.value := updated];
        }
      }
    }

    /** `deleteProduct`: without confirmation nothing is sent; otherwise the
        delete is sent and, unless the request fails, the first entry carrying
        the id is removed and the rest keep their order. With no such entry the
        removal throws and the list stays as it was. */
    method Delete(id: int, confirmed: bool, ok: bool) returns (req: Option<Request>)
      modifies this`displayed
      ensures req == if confirmed then Some(DeletePost(id)) else None
      ensures displayed == if confirmed && ok then RemoveFirstWithId(old(displayed), id)
                           else old(displayed)
      ensures confirmed && ok && FirstIndexWithId(old(displayed), id).Some? ==>
                |displayed| == |old(displayed)| - 1
    {
      if !confirmed {
        return None;
      }
      req := Some(DeletePost(id));
      if ok {
        var div := FirstIndexWithId(displayed, id);
        if div.Some? {
          displayed := displayed[..div.value] + displayed[div.value + 1..];
        }
      }
    }

    /** `handleSearchInput`: cancels any waiting search timer and starts a new
        one, so at most one search is ever waiting. */
    method SearchInput()
      modifies this`searchPending
      ensures searchPending
    {
      searchPending := true;
    }

    /** `searchProducts`: on success the list is cleared and filled with the
        first ten results. */
    method SearchProducts(query: string, results: seq<Product>, ok: bool) returns (req: Request)
      modifies this`displayed
      ensures req == GetPosts(Some(query))
      ensures displayed == if ok then results[..Min(ItemsPerPage, |results|)]
                           else old(displayed)
    {
      req := GetPosts(Some(query));
      if ok {
        displayed := [];
        var shown := JsSlice(results, 0, ItemsPerPage);
        for i := 0 to |shown|
          invariant displayed == shown[..i]
        {
          displayed := displayed + [shown[i]];
        }
        assert shown[..|shown|] == shown;
      }
    }

    /** The search timer firing: the input's value is read and trimmed now. A
        non-empty query is searched for; an empty one (whitespace included)
        sends nothing and shows the current page of `allData` alone, which is
        page 1 only if no further page was loaded. */
    method SearchFire(rawQuery: string, results: seq<Product>, ok: bool) returns (req: Option<Request>)
      requires Valid() && searchPending
      modifies this`searchPending, this`displayed
      ensures !searchPending
      ensures var query := Trim(rawQuery);
        if query != [] then
          req == Some(GetPosts(Some(query))) &&
          displayed == (if ok then results[..Min(ItemsPerPage, |results|)] else old(displayed))
        else
          req == None && displayed == PageSlice(allData, currentPage, ItemsPerPage)
    {
      searchPending := false;
      var query := Trim(rawQuery);
      if query != [] {
        var sent := SearchProducts(query, results, ok);
        req := Some(sent);
      } else {
        req := None;
        displayed := [];
        RenderPage();
      }
    }
  }
}

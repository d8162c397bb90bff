/** Sequences of user actions on a fresh dashboard, and what the list shows
    after them. */
module DashboardScenarios {
  import opened JsBuiltins
  import opened ProductLists
  import opened Dashboard

  /** Load `fetched`, then click "load more" `k` times: the list shows the
      first `k + 1` pages of `fetched`, in order, and repeats no id that
      `fetched` does not repeat. */
  method LoadThenLoadMore(fetched: seq<Product>, k: nat) returns (shown: seq<Product>)
    ensures shown == fetched[..Min((k + 1) * ItemsPerPage, |fetched|)]
    ensures UniqueIds(fetched) ==> UniqueIds(shown)
  {
    var client := new ProductListClient();
    var _ := client.Load(fetched, true);
    var clicks := 0;
    while clicks < k
      invariant clicks <= k
      invariant client.Valid() && client.allData == fetched
      invariant client.currentPage == clicks + 1
      invariant client.displayed == fetched[..Min(client.currentPage * ItemsPerPage, |fetched|)]
    {
      client.LoadMore();
      PagesStep(fetched, client.currentPage, ItemsPerPage);
      clicks := clicks + 1;
    }
    shown := client.displayed;
    assert UniqueIds(fetched) ==> UniqueIds(shown) by {
      if UniqueIds(fetched) {
        assert forall i :: 0 <= i < |shown| ==> shown[i] == fetched[i];
      }
    }
  }

  /** A product put in front of a list that already shows its id makes the id
      appear twice. */
  lemma PrependShownId(returned: Product, front: seq<Product>, back: seq<Product>, j: nat)
    requires j < |back| && back[j].id == returned.id
    ensures CountId([returned] + front + back, returned.id) >= 2
    ensures !UniqueIds([returned] + front + back)
  {
    var shown := [returned] + front + back;
    assert shown[1 + |front| + j] == back[j];
    assert shown[1..] == front + back;
    CountIdAppend(front, back, returned.id);
    CountIdPositive(back, returned.id);
  }

  /** Adding never updates `allData`, so when the service answers with the id
      of a product on the second page, loading that page shows the id twice. */
  method AddThenLoadMore(fetched: seq<Product>, title: string, body: string,
                         returned: Product, j: nat) returns (shown: seq<Product>)
    requires title != [] && body != []
    requires ItemsPerPage <= j < |fetched| && j < 2 * ItemsPerPage
    requires fetched[j].id == returned.id
    ensures |shown| > 0 && shown[0] == returned
    ensures CountId(shown, returned.id) >= 2
    ensures !UniqueIds(shown)
  {
    var client := new ProductListClient();
    var _ := client.Load(fetched, true);
    var page1 := client.displayed;
    var _ := client.Add(title, body, returned, true);
    client.LoadMore();
    shown := client.displayed;
    var page2 := PageSlice(fetched, 2, ItemsPerPage);
    assert page2[j - ItemsPerPage] == fetched[j];
    PrependShownId(returned, page1, page2, j - ItemsPerPage);
  }

  /** Load, click "load more" `k` times, type a search and clear it (or leave
      only blanks): the list shows page `k + 1` alone. Nothing is sent, and
      with unique ids and `k >= 1` the first product is no longer shown. */
  method ClearSearchAfterLoadMore(fetched: seq<Product>, k: nat, blank: string)
    returns (shown: seq<Product>, req: Option<Request>)
    requires Trim(blank) == []
    ensures req == None
    ensures shown == PageSlice(fetched, k + 1, ItemsPerPage)
    ensures 1 <= k && UniqueIds(fetched) ==>
              forall i :: 0 <= i < |shown| ==> shown[i].id != fetched[0].id
  {
    var client := new ProductListClient();
    var _ := client.Load(fetched, true);
    var clicks := 0;
    while clicks < k
      invariant clicks <= k
      invariant client.Valid() && client.allData == fetched
      invariant client.currentPage == clicks + 1
    {
      client.LoadMore();
      clicks := clicks + 1;
    }
    client.SearchInput();
    req := client.SearchFire(blank, [], true);
    shown := client.displayed;
    if 1 <= k && UniqueIds(fetched) && |shown| > 0 {
      var lo := Min(k * ItemsPerPage, |fetched|);
      assert forall i :: 0 <= i < |shown| ==> shown[i] == fetched[lo + i];
    }
  }

  /** Load, then delete a shown product after confirming: with unique ids it
      disappears from the list, the rest keep their order, and the ids stay
      unique. */
  method LoadThenDelete(fetched: seq<Product>, i: nat) returns (shown: seq<Product>)
    requires i < |fetched| && i < ItemsPerPage && UniqueIds(fetched)
    ensures |shown| == Min(ItemsPerPage, |fetched|) - 1
    ensures shown == fetched[..i] + fetched[i + 1..Min(ItemsPerPage, |fetched|)]
    ensures UniqueIds(shown)
    ensures forall j :: 0 <= j < |shown| ==> shown[j].id != fetched[i].id
  {
    var client := new ProductListClient();
    var _ := client.Load(fetched, true);
    var m := Min(ItemsPerPage, |fetched|);
    var page := client.displayed;
    assert page == fetched[..m];
    var id := fetched[i].id;
    assert FirstIndexWithId(page, id) == Some(i) by {
      assert UniqueIds(page);
      assert page[i].id == id;
    }
    var _ := client.Delete(id, true, true);
    shown := client.displayed;
    assert shown == RemoveFirstWithId(page, id);
    RemoveFirstUnique(page, id);
    assert shown == shown[..i] + shown[i..];
    assert shown[..i] == fetched[..i];
    assert shown[i..] == fetched[i + 1..m];
  }
}

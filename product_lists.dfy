/** Products, pages of products, and the list edits the dashboard performs on
    its displayed entries, which are keyed by product id. */
module ProductLists {
  import opened JsBuiltins

  datatype Option<T> = None | Some(value: T)

  /** A post of the remote collection, as the dashboard shows it. */
  datatype Product = Product(id: int, title: string, body: string, userId: int)

  /** Page size of the dashboard (`itemsPerPage`). */
  const ItemsPerPage: nat := 10

  /** Page `p` (counted from 1) of `data`: `data.slice((p - 1) * size, p * size)`.
      It never holds more than `size` entries, it is the clamped window
      `[(p-1)*size, p*size)` for every real page number, and it is empty once the
      page starts past the end of the data. */
  function PageSlice(data: seq<Product>, p: nat, size: nat): (r: seq<Product>)
    ensures |r| <= size
    ensures 1 <= p ==> r == data[Min((p - 1) * size, |data|)..Min(p * size, |data|)]
    ensures (p - 1) * size >= |data| ==> r == []
  {
    PageBounds(p, size);
    var start, end := (p - 1) * size, p * size;
    var r := JsSlice(data, start, end);
    assert p == 0 ==> ResolveIndex(end, |data|) == 0;
    r
  }

  /** Where page `p` starts and ends: `size` apart, and not before 0 for a real page. */
  lemma PageBounds(p: nat, size: nat)
    ensures p * size == (p - 1) * size + size
    ensures 1 <= p ==> 0 <= (p - 1) * size
    ensures p == 0 ==> (p - 1) * size + size == 0 && p * size == 0
  {
  }

  /** Appending page `p` to the first `p - 1` pages gives the first `p` pages. */
  lemma PagesStep(data: seq<Product>, p: nat, size: nat)
    requires 1 <= p
    ensures data[..Min((p - 1) * size, |data|)] + PageSlice(data, p, size)
         == data[..Min(p * size, |data|)]
  {
    PageBounds(p, size);
    var a, b := Min((p - 1) * size, |data|), Min(p * size, |data|);
    assert PageSlice(data, p, size) == data[a..b];
    assert data[..a] + data[a..b] == data[..b];
  }

  /** No two entries of `s` carry the same id. */
  predicate UniqueIds(s: seq<Product>)
  {
    forall i, j :: 0 <= i < j < |s| ==> s[i].id != s[j].id
  }

  /** Number of entries of `s` whose id is `id`. */
  function CountId(s: seq<Product>, id: int): nat
  {
    if s == [] then 0 else (if s[0].id == id then 1 else 0) + CountId(s[1..], id)
  }

  /** Position of the first entry with id `id`, which is what
      `querySelector("[data-id='id']")` finds in document order. */
  function FirstIndexWithId(s: seq<Product>, id: int): (r: Option<nat>)
    ensures r.Some? ==> r.value < |s| && s[r.value].id == id &&
                        forall j :: 0 <= j < r.value ==> s[j].id != id
    ensures r.None? ==> forall j :: 0 <= j < |s| ==> s[j].id != id
  {
    if s == [] then None
    else if s[0].id == id then Some(0)
    else match FirstIndexWithId(s[1..], id)
      case None => None
      case Some(i) => Some(i + 1)
  }

  /** `replaceWith` on the first entry with id `id`; no entry, no change. */
  function ReplaceFirstWithId(s: seq<Product>, id: int, u: Product): (r: seq<Product>)
    ensures |r| == |s|
    ensures FirstIndexWithId(s, id).None? ==> r == s
    ensures FirstIndexWithId(s, id).Some? ==>
      var i := FirstIndexWithId(s, id).value;
      r[i] == u && forall j :: 0 <= j < |s| && j != i ==> r[j] == s[j]
  {
    match FirstIndexWithId(s, id)
    case None => s
    case Some(i) => s[i := u]
  }

  /** `remove` on the first entry with id `id`; no entry, no change. */
  function RemoveFirstWithId(s: seq<Product>, id: int): (r: seq<Product>)
    ensures FirstIndexWithId(s, id).None? ==> r == s
    ensures FirstIndexWithId(s, id).Some? ==>
      var i := FirstIndexWithId(s, id).value;
      |r| == |s| - 1 && r[..i] == s[..i] && r[i..] == s[i + 1..]
    ensures multiset(r) <= multiset(s)
  {
    match FirstIndexWithId(s, id)
    case None => s
    case Some(i) =>
      assert s == s[..i] + [s[i]] + s[i + 1..];
      s[..i] + s[i + 1..]
  }

  lemma {:induction false} CountIdAppend(a: seq<Product>, b: seq<Product>, id: int)
    ensures CountId(a + b, id) == CountId(a, id) + CountId(b, id)
  {
    if a == [] {
      assert a + b == b;
    } else {
      assert (a + b)[1..] == a[1..] + b;
      CountIdAppend(a[1..], b, id);
    }
  }

  /** Some entry carries `id` exactly when the count of `id` is positive. */
  lemma {:induction false} CountIdPositive(s: seq<Product>, id: int)
    ensures CountId(s, id) > 0 <==> FirstIndexWithId(s, id).Some?
  {
    if s != [] && s[0].id != id {
      CountIdPositive(s[1..], id);
    }
  }

  /** The count of `k` in a list with one entry `x` singled out. */
  lemma CountIdSplice(a: seq<Product>, x: Product, b: seq<Product>, k: int)
    ensures CountId(a + [x] + b, k) == CountId(a, k) + (if x.id == k then 1 else 0) + CountId(b, k)
  {
    assert a + [x] + b == a + ([x] + b);
    CountIdAppend(a, [x] + b, k);
    assert ([x] + b)[1..] == b;
  }

  /** Deleting by id takes away exactly one entry carrying that id, when there is
      one, and leaves the count of every other id as it was. */
  lemma RemoveFirstCount(s: seq<Product>, id: int, k: int)
    ensures CountId(RemoveFirstWithId(s, id), k)
         == CountId(s, k) - (if k == id && CountId(s, id) > 0 then 1 else 0)
  {
    CountIdPositive(s, id);
    match FirstIndexWithId(s, id)
    case None =>
    case Some(i) =>
      assert s == s[..i] + [s[i]] + s[i + 1..];
      CountIdSplice(s[..i], s[i], s[i + 1..], k);
      CountIdAppend(s[..i], s[i + 1..], k);
  }

  /** With unique ids, a delete leaves no entry with the deleted id, and the
      remaining ids are still unique. */
  lemma RemoveFirstUnique(s: seq<Product>, id: int)
    requires UniqueIds(s)
    ensures UniqueIds(RemoveFirstWithId(s, id))
    ensures FirstIndexWithId(RemoveFirstWithId(s, id), id).None?
  {
    var r := RemoveFirstWithId(s, id);
    match FirstIndexWithId(s, id)
    case None =>
    case Some(i) =>
      assert forall j :: 0 <= j < |r| ==> r[j] == s[if j < i then j else j + 1];
  }

  /** An edit whose answer keeps the id leaves the count of every id as it was. */
  lemma ReplaceFirstCount(s: seq<Product>, id: int, u: Product, k: int)
    requires u.id == id
    ensures CountId(ReplaceFirstWithId(s, id, u), k) == CountId(s, k)
  {
    match FirstIndexWithId(s, id)
    case None =>
    case Some(i) =>
      assert s == s[..i] + [s[i]] + s[i + 1..];
      assert s[i := u] == s[..i] + [u] + s[i + 1..];
      CountIdSplice(s[..i], s[i], s[i + 1..], k);
      CountIdSplice(s[..i], u, s[i + 1..], k);
  }

  /** With unique ids, an edit whose answer keeps the id keeps the ids unique. */
  lemma ReplaceFirstUnique(s: seq<Product>, id: int, u: Product)
    requires UniqueIds(s) && u.id == id
    ensures UniqueIds(ReplaceFirstWithId(s, id, u))
  {
  }
}

/** The product catalog of src/product/product.service.ts over an in-memory
    product table. The read queries (getAll, byId, bySlug, byCategory,
    getSimilar) are functions of the table; create, update and delete are
    methods of ProductStore, which owns the table. */
module Catalog {
  import opened Wrappers
  import opened Seqs
  import opened Sorting
  import opened Text
  import Pagination

  datatype Category = Category(id: int, name: string, slug: string)

  /** The fields a query returns for a product. A product made by `create`
      belongs to no category until it is updated. */
  datatype Product = Product(
    id: int,
    name: string,
    slug: string,
    description: string,
    price: int,
    images: seq<string>,
    createdAt: int,
    category: Option<Category>)

  /** The sort values a catalog request may carry. */
  datatype Sort = HighPrice | LowPrice | Newest | Oldest

  /** The order a catalog query asks the store for. */
  datatype SortKey = PriceAsc | PriceDesc | CreatedAsc | CreatedDesc

  datatype GetAllDto = GetAllDto(
    sort: Option<Sort>,
    searchTerm: Option<string>,
    page: Option<int>,
    perPage: Option<int>)

  /** One page of products and the number of products the filter admits. */
  datatype Listing = Listing(products: seq<Product>, length: int)

  datatype ProductDto = ProductDto(
    name: string,
    description: string,
    images: seq<string>,
    price: int,
    categoryId: int)

  datatype Error =
    | NotFound       // no product (or category) with that key
    | InvalidWindow  // the store refuses a negative skip or take
    | SlugTaken      // another product already has the slug
    | NoCategory     // the product has no category to compare with

  // ---------------------------------------------------------------------
  // Sorting

  /** The order for a sort value: the three named ones, and newest first
      for `Newest` or no sort at all. */
  function SortKeyOf(sort: Option<Sort>): (r: SortKey)
  {
    if sort == Some(LowPrice) then PriceAsc
    else if sort == Some(HighPrice) then PriceDesc
    else if sort == Some(Oldest) then CreatedAsc
    else CreatedDesc
  }

  /** The integer a sort key orders by, ascending; a descending order is
      the ascending order of the negated field. */
  function Rank(key: SortKey): (r: Product -> int)
  {
    match key
    case PriceAsc => (p: Product) => p.price
    case PriceDesc => (p: Product) => -p.price
    case CreatedAsc => (p: Product) => p.createdAt
    case CreatedDesc => (p: Product) => -p.createdAt
  }

  /** `s` is in the order `key` names, as a condition on its fields. */
  predicate InOrder(s: seq<Product>, key: SortKey)
  {
    match key
    case PriceAsc => forall i, j :: 0 <= i < j < |s| ==> s[i].price <= s[j].price
    case PriceDesc => forall i, j :: 0 <= i < j < |s| ==> s[i].price >= s[j].price
    case CreatedAsc => forall i, j :: 0 <= i < j < |s| ==> s[i].createdAt <= s[j].createdAt
    case CreatedDesc => forall i, j :: 0 <= i < j < |s| ==> s[i].createdAt >= s[j].createdAt
  }

  /** The products of `s` in the order `key` names. */
  function SortedBy(s: seq<Product>, key: SortKey): (r: seq<Product>)
    ensures InOrder(r, key)
    ensures multiset(r) == multiset(s)
  {
    var r := SortByKey(s, Rank(key));
    assert forall i, j :: 0 <= i < j < |r| ==> Rank(key)(r[i]) <= Rank(key)(r[j]);
    r
  }

  /** Exactly one order is chosen for each sort value, and a request with
      no sort, or `Newest`, lists the newest product first. */
  lemma SortChoice(sort: Option<Sort>)
    ensures sort == Some(LowPrice) <==> SortKeyOf(sort) == PriceAsc
    ensures sort == Some(HighPrice) <==> SortKeyOf(sort) == PriceDesc
    ensures sort == Some(Oldest) <==> SortKeyOf(sort) == CreatedAsc
    ensures sort == None || sort == Some(Newest) <==> SortKeyOf(sort) == CreatedDesc
  {
    match sort
    case None =>
    case Some(s) =>
      match s
      case HighPrice => assert SortKeyOf(sort) == PriceDesc;
      case LowPrice => assert SortKeyOf(sort) == PriceAsc;
      case Newest => assert SortKeyOf(sort) == CreatedDesc;
      case Oldest => assert SortKeyOf(sort) == CreatedAsc;
  }

  // ---------------------------------------------------------------------
  // Search

  /** A search term is applied only when it is present and not empty. */
  predicate HasTerm(term: Option<string>)
  {
    term.Some? && term.value != ""
  }

  /** The term occurs, ignoring case, in the category name (when the product
      has a category), the name or the description. */
  predicate MatchesTerm(p: Product, term: string)
  {
    || (p.category.Some? && ContainsIgnoringCase(term, p.category.value.name))
    || ContainsIgnoringCase(term, p.name)
    || ContainsIgnoringCase(term, p.description)
  }

  /** The `where` clause built from the search term. */
  function SearchFilter(term: Option<string>): (r: Product -> bool)
  {
    p => !HasTerm(term) || MatchesTerm(p, term.value)
  }

  /** With a non-empty term a product is listed iff the term occurs in its
      category name, its name or its description. */
  lemma SearchIsDisjunction(db: seq<Product>, term: string, p: Product)
    requires term != ""
    ensures p in Filter(db, SearchFilter(Some(term))) <==>
            p in db &&
            (|| (p.category.Some? && ContainsIgnoringCase(term, p.category.value.name))
             || ContainsIgnoringCase(term, p.name)
             || ContainsIgnoringCase(term, p.description))
  {
    FilterMembership(db, SearchFilter(Some(term)), p);
  }

  /** With no term, or the empty term, every product is eligible. */
  lemma NoTermNoFilter(db: seq<Product>, term: Option<string>)
    requires !HasTerm(term)
    ensures Filter(db, SearchFilter(term)) == db
  {
    FilterKeepsAll(db, SearchFilter(term));
  }

  // ---------------------------------------------------------------------
  // getAll

  /** One page of the catalog and the size of the filtered catalog, or
      InvalidWindow when the store refuses the window. */
  function GetAll(db: seq<Product>, dto: GetAllDto): (r: Result<Listing, Error>)
    ensures r.Err? ==> r.error == InvalidWindow
    ensures r.Ok? ==> r.value.length == |Filter(db, SearchFilter(dto.searchTerm))|
    ensures r.Ok? ==> |r.value.products| <= Pagination.GetPagination(dto.page, dto.perPage).perPage
  {
    var filtered := Filter(db, SearchFilter(dto.searchTerm));
    var w := Pagination.GetPagination(dto.page, dto.perPage);
    match Slice(SortedBy(filtered, SortKeyOf(dto.sort)), w.skip, w.perPage)
    case None => Err(InvalidWindow)
    case Some(page) => Ok(Listing(page, |filtered|))
  }

  /** The store accepts the window exactly when neither the page nor the
      page size is negative (zero falls back to the defaults). */
  lemma GetAllSucceedsIff(db: seq<Product>, dto: GetAllDto)
    ensures GetAll(db, dto).Ok? <==>
            (dto.page.None? || dto.page.value >= 0) &&
            (dto.perPage.None? || dto.perPage.value >= 0)
  {
    var w := Pagination.GetPagination(dto.page, dto.perPage);
    Pagination.WindowValidIff(dto.page, dto.perPage, Pagination.DefaultPerPage);
    var filtered := Filter(db, SearchFilter(dto.searchTerm));
    var sorted := SortedBy(filtered, SortKeyOf(dto.sort));
    assert Slice(sorted, w.skip, w.perPage).Some? <==> w.skip >= 0 && w.perPage >= 0;
  }

  /** A page of the catalog: at most `perPage` products, each one in the
      table and admitted by the search filter, in the requested order; its
      size is what is left of the filtered products after `skip`, and
      `length` counts every filtered product whatever the window. The page
      is the `skip`/`take` window of the filtered products put in the
      requested order (the order of ties is left open). */
  lemma GetAllListing(db: seq<Product>, dto: GetAllDto)
    requires dto.page.None? || dto.page.value >= 0
    requires dto.perPage.None? || dto.perPage.value >= 0
    ensures GetAll(db, dto).Ok?
    ensures var r := GetAll(db, dto).value;
            var w := Pagination.GetPagination(dto.page, dto.perPage);
            && r.length == |Filter(db, SearchFilter(dto.searchTerm))|
            && |r.products| <= w.perPage
            && |r.products| <= r.length
            && |r.products| == (if w.skip + w.perPage <= r.length then w.perPage
                                else if w.skip <= r.length then r.length - w.skip else 0)
            && InOrder(r.products, SortKeyOf(dto.sort))
            && multiset(r.products) <= multiset(Filter(db, SearchFilter(dto.searchTerm)))
            && (forall i :: 0 <= i < |r.products| ==>
                  r.products[i] in db && SearchFilter(dto.searchTerm)(r.products[i]))
            && exists s :: && InOrder(s, SortKeyOf(dto.sort))
                           && multiset(s) == multiset(Filter(db, SearchFilter(dto.searchTerm)))
                           && Slice(s, w.skip, w.perPage) == Some(r.products)
  {
    GetAllSucceedsIff(db, dto);
    var filtered := Filter(db, SearchFilter(dto.searchTerm));
    var w := Pagination.GetPagination(dto.page, dto.perPage);
    var sorted := SortedBy(filtered, SortKeyOf(dto.sort));
    var page := Slice(sorted, w.skip, w.perPage).value;
    assert |sorted| == |filtered| by {
      assert |multiset(sorted)| == |multiset(filtered)|;
    }
    SliceSubMultiset(sorted, w.skip, w.perPage);
    forall i | 0 <= i < |page|
      ensures page[i] in db && SearchFilter(dto.searchTerm)(page[i])
    {
      assert page[i] in multiset(filtered);
    }
    InOrderOfSlice(sorted, SortKeyOf(dto.sort), w.skip, w.perPage);
    assert Slice(sorted, w.skip, w.perPage) == Some(page);
  }

  /** Pages 2k - 1 and 2k of size n together are page k of size 2n: a client
      paging through the catalog sees every product of a window once, in
      order, whatever the page size. */
  lemma TwoPagesMakeOneDouble(db: seq<Product>, sort: Option<Sort>, term: Option<string>, k: int, n: int)
    requires k >= 1 && n >= 1
    ensures var first := GetAll(db, GetAllDto(sort, term, Some(2 * k - 1), Some(n)));
            var second := GetAll(db, GetAllDto(sort, term, Some(2 * k), Some(n)));
            var both := GetAll(db, GetAllDto(sort, term, Some(k), Some(2 * n)));
            && first.Ok? && second.Ok? && both.Ok?
            && first.value.products + second.value.products == both.value.products
  {
    var sorted := SortedBy(Filter(db, SearchFilter(term)), SortKeyOf(sort));
    var a := (2 * k - 2) * n;
    Pagination.DoublePage(k, n);
    SliceAdjacent(sorted, a, n, n);
  }

  /** A window of an ordered list is ordered. */
  lemma InOrderOfSlice(s: seq<Product>, key: SortKey, skip: int, take: int)
    requires InOrder(s, key)
    requires Slice(s, skip, take).Some?
    ensures InOrder(Slice(s, skip, take).value, key)
  {
    var w := Slice(s, skip, take).value;
    assert forall i :: 0 <= i < |w| ==> w[i] == s[skip + i];
  }

  // ---------------------------------------------------------------------
  // byId, bySlug, byCategory, getSimilar

  /** The product with that id, or NotFound when there is none. */
  function ById(db: seq<Product>, id: int): (r: Result<Product, Error>)
    ensures r.Ok? ==> r.value in db && r.value.id == id
    ensures r.Err? ==> r.error == NotFound && forall i :: 0 <= i < |db| ==> db[i].id != id
  {
    match FirstWhere(db, (p: Product) => p.id == id)
    case None => Err(NotFound)
    case Some(p) => Ok(p)
  }

  /** The product with that slug, or NotFound when there is none. */
  function BySlug(db: seq<Product>, slug: string): (r: Result<Product, Error>)
    ensures r.Ok? ==> r.value in db && r.value.slug == slug
    ensures r.Err? ==> r.error == NotFound && forall i :: 0 <= i < |db| ==> db[i].slug != slug
  {
    match FirstWhere(db, (p: Product) => p.slug == slug)
    case None => Err(NotFound)
    case Some(p) => Ok(p)
  }

  predicate InCategorySlug(p: Product, categorySlug: string)
  {
    p.category.Some? && p.category.value.slug == categorySlug
  }

  /** The products whose category has that slug. The list may be empty:
      the NotFound guard of the source tests the list itself, which is
      never falsy, so it never fires. */
  function ByCategory(db: seq<Product>, categorySlug: string): (r: seq<Product>)
    ensures forall i :: 0 <= i < |r| ==> r[i] in db && InCategorySlug(r[i], categorySlug)
    ensures forall i :: 0 <= i < |db| && InCategorySlug(db[i], categorySlug) ==> db[i] in r
    ensures forall x :: multiset(r)[x] == if InCategorySlug(x, categorySlug) then multiset(db)[x] else 0
  {
    var keep := (p: Product) => InCategorySlug(p, categorySlug);
    FilterCounts(db, keep);
    Filter(db, keep)
  }

  /** `p` is similar to `current`: another product (by id) whose category has
      the same name. */
  predicate SimilarTo(p: Product, current: Product)
    requires current.category.Some?
  {
    p.category.Some? && p.category.value.name == current.category.value.name && p.id != current.id
  }

  /** The products similar to the one with that id, newest first. Fails
      with NotFound when there is no such product, and with NoCategory when
      it has no category (the source then reads a field of null). */
  function GetSimilar(db: seq<Product>, id: int): (r: Result<seq<Product>, Error>)
    ensures r == Err(NotFound) <==> forall i :: 0 <= i < |db| ==> db[i].id != id
    ensures r == Err(NoCategory) <==> ById(db, id).Ok? && ById(db, id).value.category.None?
    ensures r.Err? ==> r.error == NotFound || r.error == NoCategory
    ensures r.Ok? ==>
              && ById(db, id).Ok? && ById(db, id).value.category.Some?
              && InOrder(r.value, CreatedDesc)
              && (forall i :: 0 <= i < |r.value| ==>
                    r.value[i] in db && SimilarTo(r.value[i], ById(db, id).value)
                    && r.value[i].id != id)
              && (forall i :: 0 <= i < |db| && SimilarTo(db[i], ById(db, id).value) ==>
                    db[i] in r.value)
              && (forall x :: multiset(r.value)[x] ==
                    if SimilarTo(x, ById(db, id).value) then multiset(db)[x] else 0)
  {
    match ById(db, id)
    case Err(e) => Err(e)
    case Ok(current) =>
      if current.category.None? then Err(NoCategory)
      else
        var keep := (p: Product) => SimilarTo(p, current);
        SortedFilterMembers(db, keep, CreatedDesc);
        FilterCounts(db, keep);
        Ok(SortedBy(Filter(db, keep), CreatedDesc))
  }

  /** Sorting a filtered table keeps exactly the records the filter admits. */
  lemma SortedFilterMembers(db: seq<Product>, keep: Product -> bool, key: SortKey)
    ensures var r := SortedBy(Filter(db, keep), key);
            && (forall i :: 0 <= i < |r| ==> r[i] in db && keep(r[i]))
            && (forall i :: 0 <= i < |db| && keep(db[i]) ==> db[i] in r)
  {
    SortKeepsMembers(Filter(db, keep), Rank(key));
  }

  // ---------------------------------------------------------------------
  // The product table: create, update, delete

  /** No two products share an id. */
  ghost predicate UniqueIds(s: seq<Product>)
  {
    Distinct(s, (p: Product) => p.id)
  }

  /** No two products share a slug. */
  ghost predicate UniqueSlugs(s: seq<Product>)
  {
    Distinct(s, (p: Product) => p.slug)
  }

  predicate SlugInUse(s: seq<Product>, slug: string)
  {
    exists i :: 0 <= i < |s| && s[i].slug == slug
  }

  /** The slug is held by some product other than the one with id `id`. */
  predicate SlugHeldByOther(s: seq<Product>, slug: string, id: int)
  {
    exists i :: 0 <= i < |s| && s[i].slug == slug && s[i].id != id
  }

  /** The record `create` inserts: blank text, price 0, no images, no category. */
  function Blank(id: int, now: int): (r: Product)
  {
    Product(id, "", "", "", 0, [], now, None)
  }

  /** `p` with the fields `update` writes taken from the request. */
  function Updated(p: Product, dto: ProductDto, slug: string, category: Category): (r: Product)
  {
    p.(name := dto.name, slug := slug, description := dto.description,
       images := dto.images, price := dto.price, category := Some(category))
  }

  /** The table with the record whose id is `q.id` replaced by `q`. */
  function Replaced(s: seq<Product>, q: Product): (r: seq<Product>)
    ensures |r| == |s|
    ensures forall i :: 0 <= i < |s| && s[i].id != q.id ==> r[i] == s[i]
    ensures forall i :: 0 <= i < |s| && s[i].id == q.id ==> r[i] == q
  {
    seq(|s|, i requires 0 <= i < |s| => if s[i].id == q.id then q else s[i])
  }

  /** Removing the record with a given id from a table of distinct ids
      removes that one record and nothing else. */
  lemma {:induction false} RemoveById(s: seq<Product>, k: int)
    requires UniqueIds(s)
    requires 0 <= k < |s|
    ensures var r := Filter(s, (p: Product) => p.id != s[k].id);
            multiset(r) == multiset(s) - multiset{s[k]} && |r| == |s| - 1
  {
    var keep := (p: Product) => p.id != s[k].id;
    var r := Filter(s, keep);
    forall x
      ensures multiset(r)[x] == (multiset(s) - multiset{s[k]})[x]
    {
      FilterMultiset(s, keep, x);
      if !keep(x) && x in s {
        var j :| 0 <= j < |s| && s[j] == x;
        assert j == k;
        CountOne(s, k);
      }
    }
    assert multiset(r) == multiset(s) - multiset{s[k]};
    assert |multiset(r)| == |multiset(s)| - 1;
  }

  /** In a table of distinct ids the record at `k` occurs once. */
  lemma {:induction false} CountOne(s: seq<Product>, k: int)
    requires UniqueIds(s)
    requires 0 <= k < |s|
    ensures multiset(s)[s[k]] == 1
  {
    if k == 0 {
      assert s == [s[0]] + s[1..];
      assert s[0] !in s[1..];
    } else {
      assert s == [s[0]] + s[1..];
      assert s[k] == s[1..][k - 1];
      CountOne(s[1..], k - 1);
    }
  }

  /** The product table. Ids are handed out in increasing order starting at
      1, as an auto-increment key; ids and slugs are unique, as the
      table's keys demand. The category table is read only, and the slug of
      a name comes from the injected `slugOf`. */
  class ProductStore {
    var products: seq<Product>
    var nextId: int
    const categories: seq<Category>
    const slugOf: string -> string

    ghost predicate Valid()
      reads this
    {
      && nextId >= 1
      && (forall i :: 0 <= i < |products| ==> 1 <= products[i].id < nextId)
      && UniqueIds(products)
      && UniqueSlugs(products)
    }

    constructor (categories: seq<Category>, slugOf: string -> string)
      ensures Valid()
      ensures products == [] && nextId == 1
      ensures this.categories == categories && this.slugOf == slugOf
    {
      products := [];
      nextId := 1;
      this.categories := categories;
      this.slugOf := slugOf;
    }

    /** Inserts a blank product and returns its id. The blank slug is ""
        and slugs are unique, so this fails while another product still has
        the blank slug. */
    method Create(now: int) returns (r: Result<int, Error>)
      requires Valid()
      modifies this
      ensures Valid()
      ensures r.Err? <==> SlugInUse(old(products), "")
      ensures r.Err? ==> r.error == SlugTaken && products == old(products) && nextId == old(nextId)
      ensures r.Ok? ==> && r.value == old(nextId)
                        && (forall i :: 0 <= i < |old(products)| ==> old(products)[i].id != r.value)
                        && products == old(products) + [Blank(r.value, now)]
                        && nextId == old(nextId) + 1
    {
      if exists i :: 0 <= i < |products| && products[i].slug == "" {
        return Err(SlugTaken);
      }
      var id := nextId;
      products := products + [Blank(id, now)];
      nextId := nextId + 1;
      r := Ok(id);
    }

    /** Overwrites name, slug, description, images, price and category of
        the product with that id. Fails, changing nothing, when there is no
        such product or category, or when the new slug belongs to another
        product. */
    method Update(id: int, dto: ProductDto) returns (r: Result<Product, Error>)
      requires Valid()
      modifies this`products
      ensures Valid()
      ensures r.Ok? <==> && ById(old(products), id).Ok?
                         && FirstWhere(categories, (c: Category) => c.id == dto.categoryId).Some?
                         && !SlugHeldByOther(old(products), slugOf(dto.name), id)
      ensures r.Err? ==> products == old(products)
      ensures r.Err? && ById(old(products), id).Err? ==> r.error == NotFound
      ensures r.Err? && ById(old(products), id).Ok? &&
              FirstWhere(categories, (c: Category) => c.id == dto.categoryId).None? ==>
                r.error == NotFound
      ensures r.Err? && ById(old(products), id).Ok? &&
              FirstWhere(categories, (c: Category) => c.id == dto.categoryId).Some? ==>
                r.error == SlugTaken
      ensures r.Ok? ==> && r.value == Updated(ById(old(products), id).value, dto, slugOf(dto.name),
                                              FirstWhere(categories, (c: Category) => c.id == dto.categoryId).value)
                        && products == Replaced(old(products), r.value)
    {
      var current := ById(products, id);
      if current.Err? {
        return Err(NotFound);
      }
      var category := FirstWhere(categories, (c: Category) => c.id == dto.categoryId);
      if category.None? {
        return Err(NotFound);
      }
      var slug := slugOf(dto.name);
      if exists i :: 0 <= i < |products| && products[i].slug == slug && products[i].id != id {
        return Err(SlugTaken);
      }
      var q := Updated(current.value, dto, slug, category.value);
      products := Replaced(products, q);
      r := Ok(q);
    }

    /** Removes the product with that id and returns it; fails with
        NotFound, changing nothing, when there is none. */
    method Delete(id: int) returns (r: Result<Product, Error>)
      requires Valid()
      modifies this`products
      ensures Valid()
      ensures r.Err? <==> forall i :: 0 <= i < |old(products)| ==> old(products)[i].id != id
      ensures r.Err? ==> r.error == NotFound && products == old(products)
      ensures r.Ok? ==> && r.value in old(products) && r.value.id == id
                        && multiset(products) == multiset(old(products)) - multiset{r.value}
                        && |products| == |old(products)| - 1
                        && (forall i :: 0 <= i < |products| ==> products[i].id != id)
    {
      var current := ById(products, id);
      if current.Err? {
        return Err(NotFound);
      }
      var p := current.value;
      var k :| 0 <= k < |products| && products[k] == p;
      RemoveById(products, k);
      var rest := Filter(products, (q: Product) => q.id != id);
      var keep := (q: Product) => q.id != id;
      FilterKeepsDistinct(products, keep, (q: Product) => q.id);
      FilterKeepsDistinct(products, keep, (q: Product) => q.slug);
      products := rest;
      r := Ok(p);
    }
  }
}

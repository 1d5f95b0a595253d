/**
 * Page-by-page collection (common/dto/pagination-response.dto.ts, common/dto/pagination.dto.ts,
 * devices/devices.service.ts).
 */
module Pages {
  const MIN_PAGE := 1

  function Min(a: int, b: int): int { if a <= b then a else b }

  /** `Math.ceil(total / size)` */
  function TotalPages(total: nat, size: nat): nat {
    if size == 0 then MIN_PAGE else (total + size - 1) / size
  }

  function SkipRecords(page: nat, size: nat): nat
    requires page >= MIN_PAGE
  {
    (page - 1) * size
  }

  /** `slice(skip, skip + size)`, which is also what `skip` and `limit` select of a collection. */
  function Slice<T>(all: seq<T>, skip: nat, size: nat): seq<T> {
    all[Min(skip, |all|)..Min(skip + size, |all|)]
  }

  datatype Page<T> = Page(items: seq<T>, totalPages: nat)

  function GetPage<T>(all: seq<T>, page: nat, size: nat): Page<T>
    requires page >= MIN_PAGE
  {
    Page(Slice(all, SkipRecords(page, size), size), TotalPages(|all|, size))
  }

  lemma PagesReachTheEnd(total: nat, size: nat)
    requires size >= 1
    ensures TotalPages(total, size) * size >= total
    ensures TotalPages(total, size) >= 1 ==> (TotalPages(total, size) - 1) * size < total
  {
    var pages := TotalPages(total, size);
    assert pages * size + (total + size - 1) % size == total + size - 1;
    assert (pages - 1) * size == pages * size - size;
  }

  lemma NextPage<T>(all: seq<T>, page: nat, size: nat)
    requires page >= MIN_PAGE && size >= 1
    ensures all[..Min((page - 1) * size, |all|)] + GetPage(all, page, size).items == all[..Min(page * size, |all|)]
  {
    assert page * size == (page - 1) * size + size;
  }

  /** The pages up to and including `pages`, one after the other. */
  function FirstPages<T>(all: seq<T>, pages: nat, size: nat): seq<T> {
    if pages == 0 then [] else FirstPages(all, pages - 1, size) + GetPage(all, pages, size).items
  }

  lemma {:induction false} FirstPagesArePrefix<T>(all: seq<T>, pages: nat, size: nat)
    requires size >= 1
    ensures FirstPages(all, pages, size) == all[..Min(pages * size, |all|)]
    decreases pages
  {
    if pages == 0 {
    } else {
      FirstPagesArePrefix(all, pages - 1, size);
      NextPage(all, pages, size);
    }
  }

  /** Cutting a collection into pages and joining them again gives the collection, in order. */
  lemma PagesJoin<T>(all: seq<T>, size: nat)
    requires size >= 1
    ensures FirstPages(all, TotalPages(|all|, size), size) == all
    ensures TotalPages(|all|, size) == 0 ==> FirstPages(all, 1, size) == all
  {
    PagesReachTheEnd(|all|, size);
    FirstPagesArePrefix(all, TotalPages(|all|, size), size);
    FirstPagesArePrefix(all, 1, size);
  }

  /** Every item is collected once and in order, whatever the page size. */
  method GetAllDevices<T>(all: seq<T>, size: nat) returns (items: seq<T>)
    requires size >= 1
    ensures items == all
  {
    var firstPage := GetPage(all, MIN_PAGE, size);
    items := firstPage.items;
    PagesJoin(all, size);
    assert FirstPages(all, 1, size) == [] + GetPage(all, 1, size).items;
    if firstPage.totalPages > 1 {
      for page := 2 to firstPage.totalPages + 1
        invariant items == FirstPages(all, page - 1, size)
      {
        items := items + GetPage(all, page, size).items;
      }
    }
  }
}

/**
  The listing endpoint: `drive_list_all_files` (query string and the loop
  that follows `nextPageToken` to the end) and the client-side page window
  that `api_files` cuts from the full listing.
 */
module Listing {
  import opened Common

  /** The filters `api_files` passes on; a key of the Python dict is present here as `Some`. */
  datatype Filters = Filters(mimeType: Option<string>, name: Option<string>)

  /** `api_files` puts a filter in the dict only when its query argument is truthy. */
  function FiltersFromArgs(typeArg: Option<string>, nameArg: Option<string>): (f: Filters)
    ensures f.mimeType.Some? <==> Truthy(typeArg)
    ensures f.name.Some? <==> Truthy(nameArg)
    ensures f.mimeType.Some? ==> f.mimeType == typeArg
    ensures f.name.Some? ==> f.name == nameArg
  {
    Filters(if Truthy(typeArg) then typeArg else None, if Truthy(nameArg) then nameArg else None)
  }

  function BaseClause(folderId: string): string
  {
    "'" + folderId + "' in parents and trashed = false"
  }

  function TypeClause(mimeType: string): string
  {
    " and mimeType contains '" + mimeType + "'"
  }

  function NameClause(name: string): string
  {
    " and name contains '" + name + "'"
  }

  /**
    The `q` parameter: the folder and trash clause first, then the type
    clause when a type filter is given, then the name clause when a name
    filter is given, and nothing else.
   */
  function BuildQuery(folderId: string, f: Filters): (q: string)
    ensures var base := BaseClause(folderId);
            var typePart := if f.mimeType.Some? then TypeClause(f.mimeType.value) else "";
            var namePart := if f.name.Some? then NameClause(f.name.value) else "";
            |q| == |base| + |typePart| + |namePart| &&
            q[..|base|] == base &&
            q[|base|..|base| + |typePart|] == typePart &&
            q[|base| + |typePart|..] == namePart
  {
    var base := BaseClause(folderId);
    var typePart := if f.mimeType.Some? then TypeClause(f.mimeType.value) else "";
    var namePart := if f.name.Some? then NameClause(f.name.value) else "";
    var q := base + typePart + namePart;
    assert q[..|base|] == base;
    assert q[|base|..|base| + |typePart|] == typePart;
    assert q[|base| + |typePart|..] == namePart;
    q
  }

  const OrderBy := "createdTime desc"
  const PageSize := 1000

  /** The parameters of one `requests.get` of the listing (the key and `fields` are left out). */
  datatype Params = Params(q: string, orderBy: string, pageSize: nat, pageToken: Option<string>)

  /** Drive's answer to one listing request: an error status, or a JSON page. */
  datatype Reply = HttpError | Page(files: Option<seq<DriveFile>>, nextPageToken: Option<string>)

  /** A reply after which the loop stops: `raise_for_status` raised, or no usable `nextPageToken`. */
  predicate IsLast(r: Reply)
  {
    r.HttpError? || !Truthy(NextToken(r))
  }

  /** `data.get("files", [])` */
  function PageFiles(r: Reply): seq<DriveFile>
  {
    if r.Page? && r.files.Some? then r.files.value else []
  }

  /** `data.get("nextPageToken")` */
  function NextToken(r: Reply): Option<string>
  {
    if r.Page? then r.nextPageToken else None
  }

  /** The files of the replies, in order: `files.extend` once per page. */
  function Concat(rs: seq<Reply>): (r: seq<DriveFile>)
    ensures forall f :: f in r <==> exists i :: 0 <= i < |rs| && f in PageFiles(rs[i])
  {
    if rs == [] then [] else PageFiles(rs[0]) + Concat(rs[1..])
  }

  lemma {:induction false} ConcatSnoc(rs: seq<Reply>, r: Reply)
    ensures Concat(rs + [r]) == Concat(rs) + PageFiles(r)
  {
    if rs == [] {
      assert [] + [r] == [r];
    } else {
      assert (rs + [r])[1..] == rs[1..] + [r];
      ConcatSnoc(rs[1..], r);
    }
  }

  /** The position of the first reply that ends the loop, or `|rs|` when there is none. */
  function FirstStop(rs: seq<Reply>): (n: nat)
    ensures n <= |rs|
    ensures n < |rs| ==> IsLast(rs[n])
    ensures forall j :: 0 <= j < n ==> !IsLast(rs[j])
  {
    if rs == [] then 0
    else if IsLast(rs[0]) then 0
    else 1 + FirstStop(rs[1..])
  }

  /** The parameters of the `i`-th request: no token at first, then the previous page's token. */
  function ParamsAt(q: string, rs: seq<Reply>, i: nat): (p: Params)
    requires i <= |rs|
    ensures p.q == q && p.orderBy == "createdTime desc" && p.pageSize == 1000
    ensures i == 0 ==> p.pageToken.None?
    ensures 0 < i <= FirstStop(rs) ==> Truthy(p.pageToken) && p.pageToken == NextToken(rs[i - 1])
  {
    Params(q, OrderBy, PageSize, if i == 0 then None else NextToken(rs[i - 1]))
  }

  /**
    `drive_list_all_files(filters)`. `replies[i]` is Drive's answer to the
    `i`-th request; Drive eventually sends a last page (`FirstStop` is in
    range), otherwise the source loops for ever. The result is the in-order
    concatenation of the files of every page fetched, and `sent` the
    parameters of each request made.
   */
  method ListAllFiles(folderId: string, f: Filters, replies: seq<Reply>)
    returns (r: Outcome<seq<DriveFile>>, sent: seq<Params>)
    requires FirstStop(replies) < |replies|
    ensures var n := FirstStop(replies);
            |sent| == n + 1 &&
            forall i :: 0 <= i <= n ==> sent[i] == ParamsAt(BuildQuery(folderId, f), replies, i)
    ensures var n := FirstStop(replies);
            (replies[n].HttpError? ==> r == Fail(DriveError)) &&
            (replies[n].Page? ==> r == Ok(Concat(replies[..n + 1])))
  {
    var q := BuildQuery(folderId, f);
    var params := Params(q, OrderBy, PageSize, None);
    var files: seq<DriveFile> := [];
    var pageToken: Option<string> := None;
    sent := [];
    var i := 0;
    while true
      invariant 0 <= i <= FirstStop(replies)
      invariant |sent| == i
      invariant forall j :: 0 <= j < i ==> sent[j] == ParamsAt(q, replies, j)
      invariant files == Concat(replies[..i])
      invariant i == 0 ==> pageToken.None?
      invariant i > 0 ==> pageToken == NextToken(replies[i - 1]) && Truthy(pageToken)
      invariant params == ParamsAt(q, replies, if i == 0 then 0 else i - 1)
      decreases FirstStop(replies) - i
    {
      if Truthy(pageToken) {
        params := params.(pageToken := pageToken);
      }
      assert params == ParamsAt(q, replies, i);
      sent := sent + [params];
      var data := replies[i];
      if data.HttpError? {
        return Fail(DriveError), sent;
      }
      ConcatSnoc(replies[..i], data);
      assert replies[..i] + [data] == replies[..i + 1];
      files := files + PageFiles(data);
      pageToken := data.nextPageToken;
      if !Truthy(pageToken) {
        return Ok(files), sent;
      }
      i := i + 1;
    }
  }

  /**
    The bound Python uses for one end of `s[start:stop]` on a sequence of
    length `n`: a negative index counts from the end, and the result is
    clamped to `0..n`.
   */
  function SliceBound(i: int, n: nat): (b: nat)
    ensures b <= n
    ensures 0 <= i <= n ==> b == i
  {
    if i < 0 then (if i + n < 0 then 0 else i + n)
    else if i > n then n
    else i
  }

  /** `s[start:stop]` with Python's rules for out-of-range and negative indices. */
  function PySlice<T>(s: seq<T>, start: int, stop: int): (r: seq<T>)
    ensures var lo, hi := SliceBound(start, |s|), SliceBound(stop, |s|);
            |r| == (if lo < hi then hi - lo else 0) &&
            forall i :: 0 <= i < |r| ==> r[i] == s[lo + i]
  {
    var lo, hi := SliceBound(start, |s|), SliceBound(stop, |s|);
    if lo < hi then s[lo..hi] else []
  }

  /** The JSON body of `/api/files`. */
  datatype FilesPage = FilesPage(page: int, pageSize: int, total: nat, files: seq<DriveFile>)

  /** `api_files` after the listing: the whole count and one window of it. */
  function Window(all: seq<DriveFile>, page: int, pageSize: int): (w: FilesPage)
    ensures w.page == page && w.pageSize == pageSize && w.total == |all|
    ensures |w.files| <= |all| && forall f :: f in w.files ==> f in all
  {
    var start := (page - 1) * pageSize;
    var end := start + pageSize;
    FilesPage(page, pageSize, |all|, PySlice(all, start, end))
  }

  function Min(a: int, b: int): int
  {
    if a < b then a else b
  }

  /**
    For a page from 1 on and a non-negative page size, the window holds
    the files from `(page - 1) * pageSize` up to the end of the page or of the
    listing, so at most `pageSize` of them, and is empty past the end.
   */
  lemma WindowForPositivePage(all: seq<DriveFile>, page: int, pageSize: int)
    requires page >= 1 && pageSize >= 0
    ensures var w := Window(all, page, pageSize);
            var start := (page - 1) * pageSize;
            w.total == |all| && |w.files| <= pageSize &&
            (start >= |all| ==> w.files == []) &&
            (start < |all| ==> w.files == all[start..Min(start + pageSize, |all|)])
  {
    var start := (page - 1) * pageSize;
    assert start >= 0 by {
      MulNonNegative(page - 1, pageSize);
    }
    var w := Window(all, page, pageSize);
    if start < |all| {
      assert w.files == all[start..Min(start + pageSize, |all|)];
    }
  }

  lemma MulNonNegative(a: int, b: int)
    requires a >= 0 && b >= 0
    ensures a * b >= 0
  {
  }

  /** The windows of pages 1 to `k`, one after the other. */
  function PagesUpTo(all: seq<DriveFile>, pageSize: int, k: nat): seq<DriveFile>
  {
    if k == 0 then [] else PagesUpTo(all, pageSize, k - 1) + Window(all, k, pageSize).files
  }

  /**
    Consecutive pages tile the listing: pages 1 to `k` together are its first
    `k * pageSize` files, each exactly once and in order.
   */
  lemma {:induction false} PagesTileListing(all: seq<DriveFile>, pageSize: int, k: nat)
    requires pageSize >= 0
    ensures PagesUpTo(all, pageSize, k) == all[..Min(k * pageSize, |all|)]
  {
    if k > 0 {
      PagesTileListing(all, pageSize, k - 1);
      var start, end := (k - 1) * pageSize, k * pageSize;
      NextPageStart(k, pageSize);
      WindowForPositivePage(all, k, pageSize);
      TileStep(all, start, end, Window(all, k, pageSize).files);
    }
  }

  /** A window that starts where the previous pages end extends them. */
  lemma TileStep(all: seq<DriveFile>, start: int, end: int, w: seq<DriveFile>)
    requires 0 <= start <= end
    requires start >= |all| ==> w == []
    requires start < |all| ==> w == all[start..Min(end, |all|)]
    ensures all[..Min(start, |all|)] + w == all[..Min(end, |all|)]
  {
    if start < |all| {
      assert all[..start] + all[start..Min(end, |all|)] == all[..Min(end, |all|)];
    }
  }

  /** Page `k` starts where page `k - 1` ends. */
  lemma NextPageStart(k: int, pageSize: int)
    requires k >= 1 && pageSize >= 0
    ensures var start := (k - 1) * pageSize;
            0 <= start && start + pageSize == k * pageSize
  {
    MulNonNegative(k - 1, pageSize);
  }

  /** Page 0 is always empty, whatever the page size: its window is `all[-pageSize:0]`. */
  lemma PageZeroIsEmpty(all: seq<DriveFile>, pageSize: int)
    ensures Window(all, 0, pageSize).files == []
  {
  }

  /**
    A negative page counts from the end of the listing, as Python's negative
    slice indices do: page `p <= -1` is the run of `pageSize` files that ends
    `-p * pageSize` files before the end (on three files with one file per
    page, page -1 is the middle file).
   */
  lemma NegativePageCountsFromEnd(all: seq<DriveFile>, page: int, pageSize: int)
    requires page <= -1 && pageSize >= 1 && |all| + (page - 1) * pageSize >= 0
    ensures Window(all, page, pageSize).files == all[|all| + (page - 1) * pageSize .. |all| + page * pageSize]
  {
    var start := (page - 1) * pageSize;
    assert start + pageSize == page * pageSize;
    assert page * pageSize < 0 by {
      MulNegative(page, pageSize);
    }
  }

  lemma MulNegative(a: int, b: int)
    requires a < 0 && b > 0
    ensures a * b < 0
  {
  }

  /**
    `api_files`: filters from the query arguments, the full listing, then the
    window. `page` and `pageSize` are the already-parsed `int(...)` values.
   */
  method ApiFiles(folderId: string, typeArg: Option<string>, nameArg: Option<string>,
                  page: int, pageSize: int, replies: seq<Reply>)
    returns (r: Outcome<FilesPage>, sent: seq<Params>)
    requires FirstStop(replies) < |replies|
    ensures var n := FirstStop(replies);
            (replies[n].HttpError? ==> r == Fail(DriveError)) &&
            (replies[n].Page? ==> r == Ok(Window(Concat(replies[..n + 1]), page, pageSize)))
    ensures forall i :: 0 <= i < |sent| ==> sent[i].q == BuildQuery(folderId, FiltersFromArgs(typeArg, nameArg))
  {
    var filters := FiltersFromArgs(typeArg, nameArg);
    var all;
    all, sent := ListAllFiles(folderId, filters, replies);
    match all
    case Fail(e) => r := Fail(e);
    case Ok(files) => r := Ok(Window(files, page, pageSize));
  }
}

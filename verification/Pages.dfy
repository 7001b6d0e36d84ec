/** Reading a whole listing from an API that serves it in pages of 100 and is
    asked for at most 20 of them. */
module Pages {
  import opened Basics

  const PER_PAGE: nat := 100
  const MAX_PAGES: nat := 20

  /** Page `page`, counted from 1, of a listing. */
  function Page<T>(all: seq<T>, page: nat): seq<T>
    requires page >= 1
  {
    var from := PER_PAGE * (page - 1);
    if |all| <= from then []
    else if |all| <= from + PER_PAGE then all[from..]
    else all[from..from + PER_PAGE]
  }

  /** What a complete read amounts to: the listing itself, or an error once it
      fills every page that may be asked for. */
  function Fetch<T>(all: seq<T>): Result<seq<T>> {
    if |all| < PER_PAGE * MAX_PAGES then Ok(all) else Raised("github_pagination_bound_exceeded")
  }

  /** Never a partial listing: the result is complete or an error, and it is an
      error exactly when the listing has 2000 entries or more. */
  method GetPaginated<T>(all: seq<T>) returns (r: Result<seq<T>>)
    ensures r == Fetch(all)
    ensures r.Ok? <==> |all| < 2000
    ensures r.Ok? ==> r.value == all
  {
    var page := 1;
    var results: seq<T> := [];
    while true
      invariant 1 <= page <= MAX_PAGES
      invariant |all| >= PER_PAGE * (page - 1)
      invariant results == all[..PER_PAGE * (page - 1)]
      decreases MAX_PAGES - page
    {
      var payload := Page(all, page);
      results := results + payload;
      if |payload| < PER_PAGE {
        assert |all| < PER_PAGE * page && results == all;
        return Ok(results);
      }
      assert |all| >= PER_PAGE * page;
      page := page + 1;
      if page > MAX_PAGES {
        return Raised("github_pagination_bound_exceeded");
      }
    }
  }
}

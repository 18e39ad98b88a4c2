/** The request filter (`middleware.ts`): every path outside the forms pages
    is sent to `/forms`. */
module Middleware {
  import opened Strings

  datatype Decision = Next | Redirect(location: string)

  /** `validPaths.includes(path)`. */
  predicate IsValidPath(path: string)
  {
    path == "/forms" || path == "/forms/"
  }

  /** `path.startsWith('/forms/') && path.length > 7`. */
  predicate IsValidFormsSubpath(path: string)
  {
    StartsWith(path, "/forms/") && |path| > 7
  }

  /** `middleware`: passes the forms pages on, redirects all else to `/forms`. */
  function Route(path: string): (d: Decision)
    ensures d.Redirect? ==> d.location == "/forms"
  {
    if !IsValidPath(path) && !IsValidFormsSubpath(path) then Redirect("/forms") else Next
  }

  /** A path passes exactly when it is `/forms` or lies under `/forms/`. */
  lemma RouteIff(path: string)
    ensures Route(path) == Next <==> path == "/forms" || StartsWith(path, "/forms/")
  {
    if StartsWith(path, "/forms/") && |path| == 7 {
      assert path == path[..7] == "/forms/";
    }
  }

  /** A path that merely begins with the letters of `/forms` is redirected. */
  lemma LookalikeRedirected()
    ensures Route("/formsasdf") == Redirect("/forms")
  {
    assert "/formsasdf"[..7] != "/forms/" by {
      assert "/formsasdf"[6] == 'a';
    }
  }

  /** Pages under `/forms/` pass; the root is redirected. */
  lemma SamplePaths()
    ensures Route("/forms/123") == Next
    ensures Route("/") == Redirect("/forms")
  {
    assert "/forms/123"[..7] == "/forms/";
  }

  /** The redirect target itself passes, so a redirect never loops. */
  lemma RedirectTargetPasses(path: string)
    ensures Route(path).Redirect? ==> Route(Route(path).location) == Next
  {
  }
}

/** The route middleware of middleware/dynamic-navigation-middleware.ts:
    the same "leave a sub-page, land on its parent" rule, decided on
    segments, with authentication paths exempt. */
module NavigationMiddleware {
  import opened Common
  import opened Paths
  import RouterPlugin

  /** Either path is part of the authentication flow: one of them holds
      "/auth/" or "/callback" at some position. */
  function Exempt(toPath: string, fromPath: string): (exempt: bool)
    ensures exempt <==> exists i :: || OccursAt(toPath, "/auth/", i) || OccursAt(fromPath, "/auth/", i)
                                   || OccursAt(toPath, "/callback", i) || OccursAt(fromPath, "/callback", i)
  {
    || Contains(toPath, "/auth/") || Contains(fromPath, "/auth/")
    || Contains(toPath, "/callback") || Contains(fromPath, "/callback")
  }

  /** The middleware: `Some(target)` is `navigateTo(target)`, `None` lets the
      navigation through. Off the client, on authentication paths and from
      pages of at most one segment nothing happens; otherwise it redirects
      exactly when the target has no segment or another first segment. Both
      ways it builds the target agree with the plugin's `getParentPath`. */
  function DynamicNavigation(toPath: string, fromPath: string, isClient: bool): (redirect: Option<string>)
    ensures !isClient || Exempt(toPath, fromPath) || |Segments(fromPath)| <= 1 ==> redirect == None
    ensures isClient && !Exempt(toPath, fromPath) && |Segments(fromPath)| > 1 ==>
              (redirect.Some? <==> Segments(toPath) == [] || Segments(toPath)[0] != Segments(fromPath)[0])
    ensures redirect.Some? ==> redirect.value == RouterPlugin.GetParentPath(fromPath)
  {
    if !isClient then None
    else if Exempt(toPath, fromPath) then None
    else
      var fromSegments := Segments(fromPath);
      var toSegments := Segments(toPath);
      if |fromSegments| > 1 && (|toSegments| == 0 || toSegments[0] != fromSegments[0]) then
        var parentPath :=
          if |fromSegments| > 2 then "/" + Join(fromSegments[..|fromSegments| - 1], Slash)
          else "/" + fromSegments[0];
        assert |fromSegments| == 2 ==> fromSegments[..1] == [fromSegments[0]];
        Some(parentPath)
      else None
  }

  /** Following the redirect does not redirect again: the target keeps the
      first segment of the page being left. */
  lemma MiddlewareSettles(toPath: string, fromPath: string, isClient: bool)
    requires DynamicNavigation(toPath, fromPath, isClient).Some?
    ensures DynamicNavigation(DynamicNavigation(toPath, fromPath, isClient).value, fromPath, isClient) == None
  {
    var target := DynamicNavigation(toPath, fromPath, isClient).value;
    RouterPlugin.ParentPathSegments(fromPath);
    var segs := Segments(fromPath);
    assert Segments(target) == segs[..|segs| - 1];
    assert Segments(target)[0] == segs[0];
  }
}

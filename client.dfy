/** IGCRestClient: the session it opens, the rewriting of next-page URLs, and
    the two ways of draining every page of a paged result. */
module Client {
  import opened Wrappers
  import opened Text
  import opened Json
  import opened Seqs
  import opened Pagings
  import opened Assets
  import opened Queries
  import opened Sessions

  const TYPES: string := "/ibm/iis/igc-rest/v1/types"
  const ASSET: string := "/ibm/iis/igc-rest/v1/assets"
  const SEARCH: string := "/ibm/iis/igc-rest/v1/search"
  const LOGOUT: string := "/ibm/iis/igc-rest/v1/logout"

  const DRAFT_MARKER: string := "workflowMode=draft"
  const DRAFT_SUFFIX: string := "&workflowMode=draft"

  /** The page getNextPage answers with when there is no next page. */
  const EMPTY_PAGE: Json := Obj(map["items" := Arr([])])

  /** The search the constructor issues to open the session and detect workflow. */
  const PROBE_QUERY: Query := Query(
    [Some("category"), Some("term"), Some("information_governance_policy"), Some("information_governance_rule")],
    [], None, 1, true)

  // ---------------------------------------------------------------- construction

  /** The constructor: with both a base URL and credentials, one probe search whose
      paging.numTotal decides whether workflow is enabled (a null response is
      dereferenced); otherwise nothing is sent and workflow stays disabled. */
  function Connected(t: Transport, baseURL: Option<string>, authorization: Option<string>): (o: Outcome<()>)
    ensures o.after.baseURL == baseURL && o.after.authorization == authorization
    ensures baseURL.None? || authorization.None? ==>
      o == Outcome(Ok(()), Session(baseURL, authorization, false, None, []))
    ensures baseURL.Some? && authorization.Some? ==>
      && |o.after.sent| == 1
      && o.after.sent[0] == Request(baseURL.value + SEARCH, Post, Headers(None, authorization), Some(PROBE_QUERY))
    ensures baseURL.Some? && authorization.Some? && o.result.Ok? ==>
      && t(o.after.sent[0]).Response? && t(o.after.sent[0]).body.Some?
      && (o.after.workflowEnabled
          <==> AsIntOrZero(Path(Path(Present(t(o.after.sent[0]).body.value), "paging"), "numTotal")) > 0)
    ensures baseURL.Some? && authorization.Some? ==>
      && (t(o.after.sent[0]).Response? ==>
            o.after.cookies == CookiesAfter(None, t(o.after.sent[0]).status, t(o.after.sent[0]).setCookie))
      && (t(o.after.sent[0]).Failed? ==> o.after.cookies == None)
    ensures o.result.Err? ==>
      && baseURL.Some? && authorization.Some?
      && ((t(o.after.sent[0]).Failed? && o.result.error == TransportFailure)
          || (t(o.after.sent[0]).Response? && t(o.after.sent[0]).body.None? && o.result.error == NullDereference))
  {
    var initial := Session(baseURL, authorization, false, None, []);
    if baseURL.None? || authorization.None? then Outcome(Ok(()), initial)
    else
      var o := Exchange(t, initial, baseURL.value + SEARCH, Post, Some(PROBE_QUERY));
      match o.result
      case Err(e) => Outcome(Err(e), o.after)
      case Ok(response) =>
        if response.NullRef? then Outcome(Err(NullDereference), o.after)
        else Outcome(Ok(()), o.after.(workflowEnabled := AsIntOrZero(Path(Path(response, "paging"), "numTotal")) > 0))
  }

  // ---------------------------------------------------------------- next-page URLs

  /** The draft-workflow rewrite: the marker is appended when workflow is enabled
      and the URL does not already carry it. */
  function WithWorkflowMode(enabled: bool, url: string): (r: string)
    ensures url <= r && (r == url || r == url + DRAFT_SUFFIX)
    ensures !enabled ==> r == url
  {
    if enabled && !Contains(url, DRAFT_MARKER) then url + DRAFT_SUFFIX else url
  }

  /** The rewrite leaves a URL that already carries the marker alone, always yields
      a URL carrying the marker when workflow is enabled, and so is idempotent. */
  lemma WorkflowModeIdempotent(enabled: bool, url: string)
    ensures !enabled || Contains(url, DRAFT_MARKER) ==> WithWorkflowMode(enabled, url) == url
    ensures enabled ==> Contains(WithWorkflowMode(enabled, url), DRAFT_MARKER)
    ensures WithWorkflowMode(enabled, WithWorkflowMode(enabled, url)) == WithWorkflowMode(enabled, url)
  {
    if enabled && !Contains(url, DRAFT_MARKER) {
      assert url + DRAFT_SUFFIX == (url + "&") + DRAFT_MARKER;
      ContainsAppended(url + "&", DRAFT_MARKER);
    }
  }

  /** The relationship attribute of an asset-route URL: the remainder starts
      |baseURL + ASSET| + 2 characters in, and the name runs from just after its
      first '/' to its first '?'. Out-of-range positions are Java's
      StringIndexOutOfBoundsException. */
  function RelationshipName(baseURL: Option<string>, url: string): (r: Result<string>)
    ensures r.Err? ==> r.error == IndexOutOfBounds
    ensures |url| < |NullText(baseURL) + ASSET| + 2 ==> r.Err?
    ensures r.Ok? ==> |NullText(baseURL) + ASSET| + 2 + |r.value| <= |url|
    ensures r.Ok? ==> '?' !in r.value
  {
    var remainder :- SubstringFrom(url, |NullText(baseURL) + ASSET| + 2);
    NoQuestionMarkBefore(remainder);
    Substring(remainder, IndexOf(remainder, "/") + 1, IndexOf(remainder, "?"))
  }

  /** No '?' occurs before the first one. */
  lemma NoQuestionMarkBefore(s: string)
    ensures forall k :: 0 <= k < IndexOf(s, "?") ==> s[k] != '?'
  {
    forall k | 0 <= k < IndexOf(s, "?") ensures s[k] != '?' {
      assert !OccursAt(s, "?", k);
      assert s[k..k + 1] == [s[k]];
    }
  }

  /** For base + ASSET + "/" + id + "/" + attribute + "?" + query, with an id free of
      '/' and '?' and an attribute free of '?', the relationship name is the attribute. */
  lemma RelationshipNameOfAssetRoute(base: string, id: string, attribute: string, query: string)
    requires |id| > 0 && '/' !in id && '?' !in id && '?' !in attribute
    ensures RelationshipName(Some(base), base + ASSET + "/" + id + "/" + attribute + "?" + query) == Ok(attribute)
  {
    var url := base + ASSET + "/" + id + "/" + attribute + "?" + query;
    var remainder := id[1..] + "/" + attribute + "?" + query;
    assert url == (base + ASSET + "/" + [id[0]]) + remainder;
    assert url[|base + ASSET| + 2..] == remainder;
    AttributeOfRemainder(id[1..], attribute, query);
  }

  /** The middle step: in lead + "/" + attribute + "?" + query the first '/' and the
      first '?' delimit the attribute. */
  lemma AttributeOfRemainder(lead: string, attribute: string, query: string)
    requires '/' !in lead && '?' !in lead && '?' !in attribute
    ensures var remainder := lead + "/" + attribute + "?" + query;
      Substring(remainder, IndexOf(remainder, "/") + 1, IndexOf(remainder, "?")) == Ok(attribute)
  {
    var remainder := lead + "/" + attribute + "?" + query;
    var beforeQ := lead + "/" + attribute;
    FirstDelimiter(lead, '/', attribute + "?" + query);
    assert remainder == lead + ['/'] + (attribute + "?" + query);
    assert '?' !in beforeQ;
    FirstDelimiter(beforeQ, '?', query);
    assert remainder == beforeQ + ['?'] + query;
    assert remainder[|lead| + 1..|beforeQ|] == attribute;
  }

  /** getNextPage(JsonNode): with no "next" (or the text "null") the empty page and
      no request; otherwise the rewritten URL is fetched and, for asset routes,
      the page is re-rooted at the relationship's attribute. */
  function NextPageJson(t: Transport, s: Session, paging: Node): (o: Outcome<Node>)
    ensures Continues(s, o.after) && |o.after.sent| <= |s.sent| + 1
  {
    if paging.NullRef? then Outcome(Err(NullDereference), s)
    else
      var nextURL := Path(paging, "next");
      if nextURL.Missing? || AsText(nextURL) == "null" then Outcome(Ok(Present(EMPTY_PAGE)), s)
      else
        var url := WithWorkflowMode(s.workflowEnabled, AsText(nextURL));
        var o := Exchange(t, s, url, Get, None);
        if o.result.Err? || !Contains(url, ASSET) then o
        else match RelationshipName(s.baseURL, url)
          case Err(e) => Outcome(Err(e), o.after)
          case Ok(attribute) =>
            if o.result.value.NullRef? then Outcome(Err(NullDereference), o.after)
            else Outcome(Ok(Path(o.result.value, attribute)), o.after)
  }

  /** What getNextPage(JsonNode) answers and sends: an error on a null cursor, the
      empty page and no request without a next URL, otherwise exactly one GET of the
      rewritten URL. */
  lemma NextPageJsonRequests(t: Transport, s: Session, paging: Node)
    ensures paging.NullRef? ==> NextPageJson(t, s, paging) == Outcome(Err(NullDereference), s)
    ensures !paging.NullRef? && (Path(paging, "next").Missing? || AsText(Path(paging, "next")) == "null") ==>
      NextPageJson(t, s, paging) == Outcome(Ok(Present(EMPTY_PAGE)), s)
    ensures var sent := NextPageJson(t, s, paging).after.sent;
      sent == s.sent || |sent| == |s.sent| + 1
    ensures var sent := NextPageJson(t, s, paging).after.sent;
      |sent| == |s.sent| + 1 ==>
      && sent[..|s.sent|] == s.sent
      && !paging.NullRef? && Path(paging, "next").Present?
      && sent[|s.sent|].url == WithWorkflowMode(s.workflowEnabled, AsText(Path(paging, "next")))
      && sent[|s.sent|].verb == Get
    ensures !paging.NullRef? && Path(paging, "next").Present? && AsText(Path(paging, "next")) != "null" ==>
      var url := WithWorkflowMode(s.workflowEnabled, AsText(Path(paging, "next")));
      var o := Exchange(t, s, url, Get, None);
      && NextPageJson(t, s, paging).after == o.after
      && (o.result.Err? || !Contains(url, ASSET) ==> NextPageJson(t, s, paging) == o)
  {
  }

  /** The page of an asset relationship URL is the response re-rooted at the
      relationship's attribute, after exactly the one exchange of the rewritten
      URL: the draft-workflow suffix lands in the query, after the '?'. */
  lemma AssetPageIsRerooted(t: Transport, s: Session, paging: Node,
                            id: string, attribute: string, query: string)
    requires s.baseURL.Some?
    requires |id| > 0 && '/' !in id && '?' !in id && '?' !in attribute
    requires var url := s.baseURL.value + ASSET + "/" + id + "/" + attribute + "?" + query;
      var sent := WithWorkflowMode(s.workflowEnabled, url);
      && url != "null"
      && paging == Present(Obj(map["next" := Str(url)]))
      && Exchange(t, s, sent, Get, None).result.Ok?
      && Exchange(t, s, sent, Get, None).result.value.Present?
    ensures var url := s.baseURL.value + ASSET + "/" + id + "/" + attribute + "?" + query;
      var o := Exchange(t, s, WithWorkflowMode(s.workflowEnabled, url), Get, None);
      NextPageJson(t, s, paging) == Outcome(Ok(Path(o.result.value, attribute)), o.after)
  {
    var url := s.baseURL.value + ASSET + "/" + id + "/" + attribute + "?" + query;
    RewrittenAssetRoute(s.workflowEnabled, s.baseURL.value, id, attribute, query);
    assert Path(paging, "next") == Present(Str(url));
    RelationshipPageIsRerooted(t, s, paging, url, WithWorkflowMode(s.workflowEnabled, url), attribute);
  }

  /** The draft-workflow rewrite of an asset-route URL is still on the asset route
      and names the same relationship: the suffix only extends the query. */
  lemma RewrittenAssetRoute(enabled: bool, base: string, id: string, attribute: string, query: string)
    requires |id| > 0 && '/' !in id && '?' !in id && '?' !in attribute
    ensures var sent := WithWorkflowMode(enabled, base + ASSET + "/" + id + "/" + attribute + "?" + query);
      Contains(sent, ASSET) && RelationshipName(Some(base), sent) == Ok(attribute)
  {
    var url := base + ASSET + "/" + id + "/" + attribute + "?" + query;
    var sent := WithWorkflowMode(enabled, url);
    WorkflowModeIdempotent(enabled, url);
    var query' := if sent == url then query else query + DRAFT_SUFFIX;
    assert sent == base + ASSET + "/" + id + "/" + attribute + "?" + query';
    AssetRouteIsAssetRoute(base, id, attribute, query');
    RelationshipNameOfAssetRoute(base, id, attribute, query');
  }

  /** One fetch of a next URL whose rewrite is on the asset route with
      relationship name `attribute`: the response re-rooted at that attribute. */
  lemma RelationshipPageIsRerooted(t: Transport, s: Session, paging: Node, next: string, url: string, attribute: string)
    requires !paging.NullRef? && Path(paging, "next") == Present(Str(next)) && next != "null"
    requires url == WithWorkflowMode(s.workflowEnabled, next)
    requires Contains(url, ASSET) && RelationshipName(s.baseURL, url) == Ok(attribute)
    requires Exchange(t, s, url, Get, None).result.Ok? && Exchange(t, s, url, Get, None).result.value.Present?
    ensures var o := Exchange(t, s, url, Get, None);
      NextPageJson(t, s, paging) == Outcome(Ok(Path(o.result.value, attribute)), o.after)
  {
    assert AsText(Path(paging, "next")) == next;
  }

  /** An asset-route URL contains the asset route. */
  lemma AssetRouteIsAssetRoute(base: string, id: string, attribute: string, query: string)
    ensures Contains(base + ASSET + "/" + id + "/" + attribute + "?" + query, ASSET)
  {
    var url := base + ASSET + "/" + id + "/" + attribute + "?" + query;
    assert url == base + (ASSET + "/" + id + "/" + attribute + "?" + query);
    assert url[|base|..|base| + |ASSET|] == ASSET;
    assert OccursAt(url, ASSET, |base|);
  }

  /** Whether getNextPage fetches depends on the cursor's "next" alone. */
  lemma NextPageJsonReadsOnlyNext(t: Transport, s: Session, m: map<string, Json>, m': map<string, Json>)
    requires ("next" in m <==> "next" in m') && ("next" in m ==> m["next"] == m'["next"])
    ensures NextPageJson(t, s, Present(Obj(m))) == NextPageJson(t, s, Present(Obj(m')))
  {
  }

  // ---------------------------------------------------------------- pages as ReferenceLists

  /** getNextPage(Paging): the cursor as a tree, the next page, read as a
      ReferenceList; a page that cannot be read answers null (None). */
  function NextPage(t: Transport, registry: Registry, s: Session, c: Cursor): (o: Outcome<Option<Page>>)
    ensures Continues(s, o.after) && |o.after.sent| <= |s.sent| + 1
    ensures o.result.Ok? && o.result.value.Some? ==>
      NextPageJson(t, s, Present(CursorJson(c))).result.Ok?
      && NextPageJson(t, s, Present(CursorJson(c))).result.value.Present?
      && DecodePage(registry, NextPageJson(t, s, Present(CursorJson(c))).result.value.json) == Ok(o.result.value.value)
    ensures var n := NextPageJson(t, s, Present(CursorJson(c)));
      && o.after == n.after
      && (n.result.Err? ==> o.result == Err(n.result.error))
      && (n.result.Ok? && n.result.value.NullRef? ==> o.result == Err(NullDereference))
      && (n.result.Ok? && n.result.value.Missing? ==> o.result == Ok(None))
      && (n.result.Ok? && n.result.value.Present? ==>
            var d := DecodePage(registry, n.result.value.json);
            o.result == Ok(if d.Ok? then Some(d.value) else None))
  {
    var o := NextPageJson(t, s, Present(CursorJson(c)));
    match o.result
    case Err(e) => Outcome(Err(e), o.after)
    case Ok(node) =>
      match node
      case NullRef => Outcome(Err(NullDereference), o.after)
      case Missing => Outcome(Ok(None), o.after)
      case Present(j) =>
        Outcome(Ok(match DecodePage(registry, j) case Ok(p) => Some(p) case Err(_) => None), o.after)
  }

  /** Whether getNextPage(Paging) fetches depends on the cursor's next URL alone. */
  lemma NextPageReadsOnlyNext(t: Transport, registry: Registry, s: Session, c: Cursor, c': Cursor)
    requires c.next == c'.next
    ensures NextPage(t, registry, s, c) == NextPage(t, registry, s, c')
  {
    NextPageJsonReadsOnlyNext(t, s, CursorJson(c).fields, CursorJson(c').fields);
  }

  /** A cursor with no next URL (or the text "null") yields an empty page without a request. */
  lemma NextPageWithoutNext(t: Transport, registry: Registry, s: Session, c: Cursor)
    requires c.next.None? || c.next == Some("null")
    ensures NextPage(t, registry, s, c) == Outcome(Ok(Some(Page([], DefaultCursor()))), s)
  {
    assert CursorJson(c).fields["next"] == TextNode(c.next);
    NextPageJsonRequests(t, s, Present(CursorJson(c)));
    assert DecodePage(registry, EMPTY_PAGE) == Ok(Page([], DefaultCursor()));
  }

  // ---------------------------------------------------------------- getAllPages(ArrayList, Paging)

  /** One getNextPage(Paging) call, as the list drain sees it. */
  type ListStep = (Session, Cursor) -> Outcome<Option<Page>>

  function ListFetch(t: Transport, registry: Registry): (step: ListStep)
    ensures forall s, c :: step(s, c) == NextPage(t, registry, s, c)
  {
    (s: Session, c: Cursor) => NextPage(t, registry, s, c)
  }

  /** getAllPages(items, paging): each non-empty next page is placed before what has
      been gathered so far; the first empty page ends the drain, and an unreadable
      page (null) is dereferenced. `fuel` bounds the number of pages followed. */
  function DrainList(step: ListStep, s: Session, items: seq<Asset>, c: Cursor, fuel: nat): (o: Outcome<seq<Asset>>)
    ensures o.result.Ok? ==> |items| <= |o.result.value| && o.result.value[|o.result.value| - |items|..] == items
    decreases fuel
  {
    var o := step(s, c);
    match o.result
    case Err(e) => Outcome(Err(e), o.after)
    case Ok(None) => Outcome(Err(NullDereference), o.after)
    case Ok(Some(page)) =>
      if |page.items| == 0 then Outcome(Ok(items), o.after)
      else if fuel == 0 then Outcome(Err(OutOfFuel), o.after)
      else DrainList(step, o.after, page.items + items, page.paging, fuel - 1)
  }

  /** The first step of the list drain, case by case: an exception or an unreadable
      page ends it, an empty page returns the items, a non-empty page continues from
      that page's cursor with the page placed first. */
  lemma DrainListFirstStep(step: ListStep, s: Session, items: seq<Asset>, c: Cursor, fuel: nat)
    ensures var o := step(s, c);
      o.result.Err? ==> DrainList(step, s, items, c, fuel) == Outcome(Err(o.result.error), o.after)
    ensures var o := step(s, c);
      o.result == Ok(None) ==> DrainList(step, s, items, c, fuel) == Outcome(Err(NullDereference), o.after)
    ensures var o := step(s, c);
      o.result.Ok? && o.result.value.Some? && |o.result.value.value.items| == 0 ==>
      DrainList(step, s, items, c, fuel) == Outcome(Ok(items), o.after)
    ensures var o := step(s, c);
      o.result.Ok? && o.result.value.Some? && |o.result.value.value.items| > 0 && fuel == 0 ==>
      DrainList(step, s, items, c, fuel) == Outcome(Err(OutOfFuel), o.after)
    ensures var o := step(s, c);
      o.result.Ok? && o.result.value.Some? && |o.result.value.value.items| > 0 && fuel > 0 ==>
      DrainList(step, s, items, c, fuel)
        == DrainList(step, o.after, o.result.value.value.items + items, o.result.value.value.paging, fuel - 1)
  {
  }

  /** The pages a drain fetches, in fetch order, and how it ends. */
  datatype Chain<T> = Chain(pages: seq<seq<T>>, end: Result<()>, after: Session)

  /** The reference sequence of pages for the list drain, independent of how they are merged. */
  function ListChain(step: ListStep, s: Session, c: Cursor, fuel: nat): (ch: Chain<Asset>)
    ensures forall i :: 0 <= i < |ch.pages| ==> |ch.pages[i]| > 0
    decreases fuel
  {
    var o := step(s, c);
    match o.result
    case Err(e) => Chain([], Err(e), o.after)
    case Ok(None) => Chain([], Err(NullDereference), o.after)
    case Ok(Some(page)) =>
      if |page.items| == 0 then Chain([], Ok(()), o.after)
      else if fuel == 0 then Chain([], Err(OutOfFuel), o.after)
      else
        var rest := ListChain(step, o.after, page.paging, fuel - 1);
        Chain([page.items] + rest.pages, rest.end, rest.after)
  }

  /** The list drain yields the fetched pages in REVERSE fetch order, each page's own
      order kept, followed by the caller's items; the caller's items are not altered. */
  lemma {:induction false} DrainListReversesPages(step: ListStep, s: Session, items: seq<Asset>, c: Cursor, fuel: nat)
    ensures var ch := ListChain(step, s, c, fuel);
      DrainList(step, s, items, c, fuel)
        == Outcome(if ch.end.Ok? then Ok(Flatten(Reverse(ch.pages)) + items) else Err(ch.end.error), ch.after)
    decreases fuel
  {
    var o := step(s, c);
    if o.result.Ok? && o.result.value.Some? {
      var page := o.result.value.value;
      if |page.items| > 0 && fuel > 0 {
        var rest := ListChain(step, o.after, page.paging, fuel - 1);
        DrainListReversesPages(step, o.after, page.items + items, page.paging, fuel - 1);
        assert Reverse([page.items] + rest.pages) == Reverse(rest.pages) + [page.items] by {
          assert ([page.items] + rest.pages)[1..] == rest.pages;
        }
        FlattenSnoc(Reverse(rest.pages), page.items);
        assert ListChain(step, s, c, fuel) == Chain([page.items] + rest.pages, rest.end, rest.after);
        var back := Flatten(Reverse(rest.pages));
        assert back + (page.items + items) == (back + page.items) + items;
      } else {
        assert Flatten(Reverse<Asset>([])) + items == items;
      }
    }
  }

  /** A cursor without a next URL: the items come back as given and nothing is sent. */
  lemma DrainListWithoutNext(t: Transport, registry: Registry, s: Session, items: seq<Asset>, c: Cursor, fuel: nat)
    requires c.next.None? || c.next == Some("null")
    ensures DrainList(ListFetch(t, registry), s, items, c, fuel) == Outcome(Ok(items), s)
  {
    NextPageWithoutNext(t, registry, s, c);
  }

  /** The drain follows "next" only: two cursors with the same next URL drain alike,
      whatever their counts say (hasMore is never consulted). */
  lemma DrainListIgnoresCounts(t: Transport, registry: Registry, s: Session, items: seq<Asset>,
                               c: Cursor, c': Cursor, fuel: nat)
    requires c.next == c'.next
    ensures DrainList(ListFetch(t, registry), s, items, c, fuel) == DrainList(ListFetch(t, registry), s, items, c', fuel)
  {
    NextPageReadsOnlyNext(t, registry, s, c, c');
  }

  /** The fuel bound is immaterial once it suffices. */
  lemma {:induction false} DrainListFuelMonotone(step: ListStep, s: Session, items: seq<Asset>, c: Cursor,
                                                 fuel: nat, more: nat)
    requires fuel <= more
    requires DrainList(step, s, items, c, fuel).result != Err(OutOfFuel)
    ensures DrainList(step, s, items, c, more) == DrainList(step, s, items, c, fuel)
    decreases fuel
  {
    var o := step(s, c);
    if o.result.Ok? && o.result.value.Some? {
      var page := o.result.value.value;
      if |page.items| > 0 {
        DrainListFuelMonotone(step, o.after, page.items + items, page.paging, fuel - 1, more - 1);
      }
    }
  }

  // ---------------------------------------------------------------- getAllPages(ArrayNode, JsonNode)

  /** One getNextPage(JsonNode) call, as the in-place drain sees it. */
  type NodeStep = (Session, Node) -> Outcome<Node>

  function NodeFetch(t: Transport): (step: NodeStep)
    ensures forall s, paging :: step(s, paging) == NextPageJson(t, s, paging)
  {
    (s: Session, paging: Node) => NextPageJson(t, s, paging)
  }

  /** The in-place drain's effect: how it ended, the caller's array afterwards
      (pages appended before a failure stay appended), and the session. */
  datatype NodeDrain = NodeDrain(result: Result<()>, elems: seq<Json>, after: Session)

  /** getAllPages(items, paging): each fetched page's "items" array is appended to the
      caller's array in place, until a page with no items; a page whose "items" is
      not an array is a ClassCastException. */
  function DrainNode(step: NodeStep, s: Session, elems: seq<Json>, paging: Node, fuel: nat): (d: NodeDrain)
    ensures |elems| <= |d.elems| && d.elems[..|elems|] == elems
    decreases fuel
  {
    var o := step(s, paging);
    match o.result
    case Err(e) => NodeDrain(Err(e), elems, o.after)
    case Ok(results) =>
      if results.NullRef? then NodeDrain(Err(NullDereference), elems, o.after)
      else match Path(results, "items")
        case Present(Arr(es)) =>
          if |es| == 0 then NodeDrain(Ok(()), elems, o.after)
          else if fuel == 0 then NodeDrain(Err(OutOfFuel), elems + es, o.after)
          else DrainNode(step, o.after, elems + es, Path(results, "paging"), fuel - 1)
        case _ => NodeDrain(Err(ClassCast), elems, o.after)
  }

  /** The reference sequence of pages for the in-place drain. */
  function NodeChain(step: NodeStep, s: Session, paging: Node, fuel: nat): (ch: Chain<Json>)
    ensures forall i :: 0 <= i < |ch.pages| ==> |ch.pages[i]| > 0
    decreases fuel
  {
    var o := step(s, paging);
    match o.result
    case Err(e) => Chain([], Err(e), o.after)
    case Ok(results) =>
      if results.NullRef? then Chain([], Err(NullDereference), o.after)
      else match Path(results, "items")
        case Present(Arr(es)) =>
          if |es| == 0 then Chain([], Ok(()), o.after)
          else if fuel == 0 then Chain([es], Err(OutOfFuel), o.after)
          else
            var rest := NodeChain(step, o.after, Path(results, "paging"), fuel - 1);
            Chain([es] + rest.pages, rest.end, rest.after)
        case _ => Chain([], Err(ClassCast), o.after)
  }

  /** The in-place drain appends the fetched pages in fetch order, also when it
      ends in an exception. */
  lemma {:induction false} DrainNodeAppendsInOrder(step: NodeStep, s: Session, elems: seq<Json>, paging: Node, fuel: nat)
    ensures var ch := NodeChain(step, s, paging, fuel);
      DrainNode(step, s, elems, paging, fuel) == NodeDrain(ch.end, elems + Flatten(ch.pages), ch.after)
    decreases fuel
  {
    var o := step(s, paging);
    if o.result.Ok? && !o.result.value.NullRef? && fuel > 0
       && Path(o.result.value, "items").Present? && Path(o.result.value, "items").json.Arr?
       && |Path(o.result.value, "items").json.elems| > 0
    {
      var es := Path(o.result.value, "items").json.elems;
      var next := Path(o.result.value, "paging");
      var rest := NodeChain(step, o.after, next, fuel - 1);
      DrainNodeContinues(step, s, elems, paging, fuel, es);
      DrainNodeAppendsInOrder(step, o.after, elems + es, next, fuel - 1);
      assert ([es] + rest.pages)[1..] == rest.pages;
      assert Flatten([es] + rest.pages) == es + Flatten(rest.pages);
      assert elems + es + Flatten(rest.pages) == elems + Flatten([es] + rest.pages);
    } else {
      DrainNodeStops(step, s, elems, paging, fuel);
    }
  }

  /** When the drain does not go on, it ends with the chain's single step. */
  lemma DrainNodeStops(step: NodeStep, s: Session, elems: seq<Json>, paging: Node, fuel: nat)
    requires var o := step(s, paging);
      !(o.result.Ok? && !o.result.value.NullRef? && fuel > 0
        && Path(o.result.value, "items").Present? && Path(o.result.value, "items").json.Arr?
        && |Path(o.result.value, "items").json.elems| > 0)
    ensures var ch := NodeChain(step, s, paging, fuel);
      DrainNode(step, s, elems, paging, fuel) == NodeDrain(ch.end, elems + Flatten(ch.pages), ch.after)
  {
    var o := step(s, paging);
    if o.result.Ok? && !o.result.value.NullRef? {
      var items := Path(o.result.value, "items");
      if items.Present? && items.json.Arr? && |items.json.elems| > 0 {
        assert Flatten([items.json.elems]) == items.json.elems + Flatten<Json>([]);
      }
    }
  }

  /** A non-empty page with fuel left: both the drain and the chain go on from
      the page's paging, the drain with the page appended. */
  lemma DrainNodeContinues(step: NodeStep, s: Session, elems: seq<Json>, paging: Node, fuel: nat, es: seq<Json>)
    requires fuel > 0 && |es| > 0
    requires step(s, paging).result.Ok? && !step(s, paging).result.value.NullRef?
    requires Path(step(s, paging).result.value, "items") == Present(Arr(es))
    ensures var o := step(s, paging); var next := Path(o.result.value, "paging");
      && DrainNode(step, s, elems, paging, fuel) == DrainNode(step, o.after, elems + es, next, fuel - 1)
      && NodeChain(step, s, paging, fuel)
         == var rest := NodeChain(step, o.after, next, fuel - 1); Chain([es] + rest.pages, rest.end, rest.after)
  {
  }

  /** The fuel bound is immaterial once it suffices. */
  lemma {:induction false} DrainNodeFuelMonotone(step: NodeStep, s: Session, elems: seq<Json>, paging: Node,
                                                 fuel: nat, more: nat)
    requires fuel <= more
    requires DrainNode(step, s, elems, paging, fuel).result != Err(OutOfFuel)
    ensures DrainNode(step, s, elems, paging, more) == DrainNode(step, s, elems, paging, fuel)
    decreases fuel
  {
    var o := step(s, paging);
    if o.result.Ok? && !o.result.value.NullRef? {
      var results := o.result.value;
      var items := Path(results, "items");
      if items.Present? && items.json.Arr? && |items.json.elems| > 0 {
        DrainNodeFuelMonotone(step, o.after, elems + items.json.elems, Path(results, "paging"), fuel - 1, more - 1);
      }
    }
  }

  /** Without a "next", the in-place drain leaves the array as it is and sends nothing. */
  lemma DrainNodeWithoutNext(t: Transport, s: Session, elems: seq<Json>, paging: Node, fuel: nat)
    requires !paging.NullRef? && Path(paging, "next").Missing?
    ensures DrainNode(NodeFetch(t), s, elems, paging, fuel) == NodeDrain(Ok(()), elems, s)
  {
    NextPageJsonRequests(t, s, paging);
  }

  // ---------------------------------------------------------------- the client object

  /** The caller's ArrayNode, which getAllPages grows in place. */
  class JsonArray {
    var elems: seq<Json>

    constructor (elems: seq<Json>)
      ensures this.elems == elems
    {
      this.elems := elems;
    }
  }

  class RestClient {
    const transport: Transport
    const baseURL: Option<string>
    const authorization: Option<string>
    var workflowEnabled: bool
    var cookies: Option<seq<string>>
    /** The discriminator-to-class registrations: the two the constructor makes. */
    const registry: Registry
    /** Every request sent, oldest first. */
    ghost var sent: seq<Request>

    ghost function State(): Session
      reads this
    {
      Session(baseURL, authorization, workflowEnabled, cookies, sent)
    }

    /** The fields as the constructor sets them before its probe; the type
        registrations it makes afterwards do not affect the probe. */
    constructor Init(transport: Transport, baseURL: Option<string>, authorization: Option<string>)
      ensures this.transport == transport && registry == SEEDED_REGISTRY
      ensures State() == Session(baseURL, authorization, false, None, [])
    {
      this.transport := transport;
      this.baseURL := baseURL;
      this.authorization := authorization;
      workflowEnabled := false;
      cookies := None;
      registry := map["paging" := Shape(PAGING_CLASS, NotAReference)]["label" := Shape(LABEL_CLASS, LabelKind)];
      sent := [];
    }

    /** new IGCRestClient(baseURL, authorization): the probe, then the two seeded
        registrations; an exception during the probe means no client. */
    static method Connect(transport: Transport, baseURL: Option<string>, authorization: Option<string>)
      returns (r: Result<RestClient>)
      ensures var o := Connected(transport, baseURL, authorization);
        (r.Ok? <==> o.result.Ok?)
        && (r.Err? ==> r.error == o.result.error)
        && (r.Ok? ==> fresh(r.value) && r.value.transport == transport
                      && r.value.State() == o.after && r.value.registry == SEEDED_REGISTRY)
    {
      var client := new RestClient.Init(transport, baseURL, authorization);
      if baseURL.Some? && authorization.Some? {
        var response := client.MakeRequest(baseURL.value + SEARCH, Post, Some(PROBE_QUERY));
        if response.Err? {
          return Err(response.error);
        }
        if response.value.NullRef? {
          return Err(NullDereference);
        }
        client.workflowEnabled := AsIntOrZero(Path(Path(response.value, "paging"), "numTotal")) > 0;
      }
      r := Ok(client);
    }

    /** setCookiesFromResponse. */
    method SetCookiesFromResponse(status: int, setCookie: Option<seq<string>>)
      modifies this`cookies
      ensures cookies == CookiesAfter(old(cookies), status, setCookie)
    {
      if status == HTTP_OK && setCookie.Some? {
        cookies := setCookie;
      }
    }

    /** _makeRequest. */
    method MakeRequest(url: string, verb: HttpMethod, payload: Option<Query>) returns (r: Result<Node>)
      modifies this`cookies, this`sent
      ensures Outcome(r, State()) == Exchange(transport, old(State()), url, verb, payload)
    {
      var request := Request(url, verb, Headers(cookies, authorization), payload);
      sent := sent + [request];
      var response := transport(request);
      if response.Failed? {
        return Err(TransportFailure);
      }
      SetCookiesFromResponse(response.status, response.setCookie);
      r := Ok(if response.body.Some? then Present(response.body.value) else NullRef);
    }

    /** getNextPage(JsonNode). */
    method GetNextPageJson(paging: Node) returns (r: Result<Node>)
      modifies this`cookies, this`sent
      ensures Outcome(r, State()) == NextPageJson(transport, old(State()), paging)
    {
      if paging.NullRef? {
        return Err(NullDereference);
      }
      r := Ok(Present(EMPTY_PAGE));
      var nextURL := Path(paging, "next");
      if !nextURL.Missing? {
        var url := AsText(nextURL);
        if url != "null" {
          url := WithWorkflowMode(workflowEnabled, url);
          r := MakeRequest(url, Get, None);
          if r.Ok? && Contains(url, ASSET) {
            var attribute := RelationshipName(baseURL, url);
            if attribute.Err? {
              return Err(attribute.error);
            }
            if r.value.NullRef? {
              return Err(NullDereference);
            }
            r := Ok(Path(r.value, attribute.value));
          }
        }
      }
    }

    /** getNextPage(Paging). */
    method GetNextPage(paging: Paging) returns (r: Result<Option<Page>>)
      modifies this`cookies, this`sent
      ensures Outcome(r, State()) == NextPage(transport, registry, old(State()), paging.Value())
    {
      var node := GetNextPageJson(Present(CursorJson(paging.Value())));
      if node.Err? {
        return Err(node.error);
      }
      match node.value
      case NullRef =>
        r := Err(NullDereference);
      case Missing =>
        r := Ok(None);
      case Present(j) =>
        var page := DecodePage(registry, j);
        r := Ok(if page.Ok? then Some(page.value) else None);
    }

    /** `step` is this client's getNextPage(Paging). */
    ghost predicate FetchesPages(step: ListStep)
      reads this
    {
      forall s, c {:trigger NextPage(transport, registry, s, c)} :: step(s, c) == NextPage(transport, registry, s, c)
    }

    /** ListFetch is this client's getNextPage(Paging). */
    lemma ListFetchFetchesPages()
      ensures FetchesPages(ListFetch(transport, registry))
    {
    }

    /** `step` is this client's getNextPage(JsonNode). */
    ghost predicate FetchesNodes(step: NodeStep)
      reads this
    {
      forall s, paging {:trigger NextPageJson(transport, s, paging)} :: step(s, paging) == NextPageJson(transport, s, paging)
    }

    /** getAllPages(ArrayList, Paging): fetch the next page; if it has items, put
        them before the accumulated ones and continue from its paging. `step`
        stands for getNextPage(Paging) in the specification. */
    method GetAllPagesList(items: seq<Asset>, paging: Paging, ghost step: ListStep, ghost fuel: nat)
      returns (r: Result<seq<Asset>>)
      requires FetchesPages(step)
      requires DrainList(step, State(), items, paging.Value(), fuel).result != Err(OutOfFuel)
      modifies this`cookies, this`sent
      ensures Outcome(r, State()) == DrainList(step, old(State()), items, paging.Value(), fuel)
      decreases fuel, 2
    {
      ghost var before := State();
      var results := GetNextPage(paging);
      r := MergeList(items, paging.Value(), results, before, step, fuel);
    }

    /** The rest of getAllPages(ArrayList, Paging) once the next page is in. */
    method MergeList(items: seq<Asset>, c: Cursor, results: Result<Option<Page>>,
                     ghost before: Session, ghost step: ListStep, ghost fuel: nat)
      returns (r: Result<seq<Asset>>)
      requires FetchesPages(step)
      requires step(before, c) == Outcome(results, State())
      requires DrainList(step, before, items, c, fuel).result != Err(OutOfFuel)
      modifies this`cookies, this`sent
      ensures Outcome(r, State()) == DrainList(step, before, items, c, fuel)
      decreases fuel, 1
    {
      DrainListFirstStep(step, before, items, c, fuel);
      if results.Err? {
        return Err(results.error);
      }
      if results.value.None? {
        return Err(NullDereference);
      }
      var page := results.value.value;
      if |page.items| == 0 {
        return Ok(items);
      }
      var next := new Paging.FromCursor(page.paging);
      r := GetAllPagesList(page.items + items, next, step, fuel - 1);
    }

    /** getAllPages(ArrayNode, JsonNode): append each fetched page to `items` in
        place, continuing from the page's paging; the answer is `items` itself.
        `step` stands for getNextPage(JsonNode) in the specification. */
    method GetAllPagesNode(items: JsonArray, paging: Node, ghost step: NodeStep, ghost fuel: nat)
      returns (r: Result<JsonArray>)
      requires FetchesNodes(step)
      requires DrainNode(step, State(), items.elems, paging, fuel).result != Err(OutOfFuel)
      modifies this`cookies, this`sent, items`elems
      ensures var d := DrainNode(step, old(State()), old(items.elems), paging, fuel);
        && items.elems == d.elems && State() == d.after
        && (r.Ok? <==> d.result.Ok?)
        && (r.Ok? ==> r.value == items)
        && (r.Err? ==> r.error == d.result.error)
      decreases fuel, 2
    {
      ghost var before := State();
      var results := GetNextPageJson(paging);
      r := MergeNode(items, paging, results, before, step, fuel);
    }

    /** The rest of getAllPages(ArrayNode, JsonNode) once the next page is in. */
    method MergeNode(items: JsonArray, paging: Node, results: Result<Node>,
                     ghost before: Session, ghost step: NodeStep, ghost fuel: nat)
      returns (r: Result<JsonArray>)
      requires FetchesNodes(step)
      requires step(before, paging) == Outcome(results, State())
      requires DrainNode(step, before, items.elems, paging, fuel).result != Err(OutOfFuel)
      modifies this`cookies, this`sent, items`elems
      ensures var d := DrainNode(step, before, old(items.elems), paging, fuel);
        && items.elems == d.elems && State() == d.after
        && (r.Ok? <==> d.result.Ok?)
        && (r.Ok? ==> r.value == items)
        && (r.Err? ==> r.error == d.result.error)
      decreases fuel, 1
    {
      if results.Err? {
        return Err(results.error);
      }
      if results.value.NullRef? {
        return Err(NullDereference);
      }
      var found := Path(results.value, "items");
      if !(found.Present? && found.json.Arr?) {
        return Err(ClassCast);
      }
      if |found.json.elems| == 0 {
        return Ok(items);
      }
      items.elems := items.elems + found.json.elems;
      r := GetAllPagesNode(items, Path(results.value, "paging"), step, fuel - 1);
    }

    /** isWorkflowEnabled. */
    function IsWorkflowEnabled(): (enabled: bool)
      reads this
      ensures enabled == State().workflowEnabled
    {
      workflowEnabled
    }
  }
}

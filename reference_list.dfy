/** ReferenceList: one page of a relationship (its paging cursor and its items),
    able to fetch the remaining pages through a client. */
module ReferenceLists {
  import opened Wrappers
  import opened Assets
  import opened Pagings
  import opened Sessions
  import opened Client

  class ReferenceList {
    var paging: Paging
    var items: seq<Asset>

    /** A fresh list: a default cursor and no items. */
    constructor ()
      ensures items == [] && fresh(paging) && paging.Value() == DefaultCursor()
      ensures !HasMorePages()
    {
      paging := new Paging();
      items := [];
    }

    /** hasMorePages(): the cursor says results exist beyond its end. */
    predicate HasMorePages()
      reads this, paging
      ensures HasMorePages() <==> paging.numTotal > paging.end
    {
      paging.HasMore()
    }

    method SetPaging(p: Paging)
      modifies this`paging
      ensures paging == p && items == old(items)
    {
      paging := p;
    }

    method SetItems(s: seq<Asset>)
      modifies this`items
      ensures items == s && paging == old(paging)
    {
      items := s;
    }

    /** getAllPages(client): replace the items by everything the client's drain
        gathers from this list's cursor, then replace the cursor by a "full" one
        covering them, so no more pages remain. An exception leaves both fields
        as they were. */
    method GetAllPages(client: RestClient, ghost fuel: nat) returns (r: Result<()>)
      requires DrainList(ListFetch(client.transport, client.registry), client.State(), items, paging.Value(), fuel).result
               != Err(OutOfFuel)
      modifies this`items, this`paging, client`cookies, client`sent
      ensures var o := DrainList(ListFetch(client.transport, client.registry), old(client.State()), old(items),
                                 old(paging.Value()), fuel);
        && client.State() == o.after
        && (r.Ok? <==> o.result.Ok?)
        && (r.Err? ==> r.error == o.result.error && items == old(items) && paging == old(paging))
        && (r.Ok? ==> items == o.result.value && fresh(paging) && paging.Value() == FullCursor(|items|))
      ensures r.Ok? ==> !HasMorePages()
    {
      ghost var step := ListFetch(client.transport, client.registry);
      ghost var o := DrainList(step, client.State(), items, paging.Value(), fuel);
      client.ListFetchFetchesPages();
      var all := client.GetAllPagesList(items, paging, step, fuel);
      assert all == o.result && client.State() == o.after;
      if all.Err? {
        return Err(all.error);
      }
      items := all.value;
      paging := new Paging.Full(|items|);
      r := Ok(());
    }
  }
}

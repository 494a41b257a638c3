/**
 * The page state `main.js` keeps: the global `allLocations` list, the
 * location-list panel, the image-tag panel and the detail panel, with the
 * handlers that update them. Network requests are not modelled: a load or
 * a detail fetch is split into the step that starts it and the steps that
 * apply its success or its failure, which the caller invokes in any order.
 */
module Dashboard {
  import opened Basics
  import opened Locations
  import opened LocationSearch
  import opened ImageTags
  import opened Lookup
  import opened Views
  import opened Shuffle

  /** The location-list panel: "Loading…", an error message, or a rendered list. */
  datatype ListPanel = ListLoading | ListError(message: string) | ListShowing(view: ListView)

  /** The detail panel's body. */
  datatype DetailPanel =
    | Prompt
    | LocationNotFound
    | DetailLoading
    | DetailShown(view: DetailView)
    | DetailError(message: string)

  const PromptHeading := "Select a city"

  class Page {
    /** `allLocations` */
    var all: array<Location>
    var list: ListPanel
    var tags: seq<TagItem>
    var heading: string
    var detail: DetailPanel
    /** The locations the list panel's tiles were rendered from. */
    ghost var shown: seq<Location>

    /** A rendered list shows locations that are all in `allLocations`, one tile each, in order. */
    ghost predicate Valid()
      reads this, all
    {
      list.ListShowing? ==> Shows(list.view, shown) && forall x :: x in shown ==> x in all[..]
    }

    /**
     * Boot: `allLocations = []`, then `loadLocations()` puts up its loading
     * message. The "Select a city" heading, the prompt and the empty tag
     * panel are the page's initial markup, which is not part of this model.
     */
    constructor ()
      ensures Valid() && all.Length == 0 && list == ListLoading && tags == []
      ensures heading == PromptHeading && detail == Prompt
    {
      all := new Location[0];
      list := ListLoading;
      tags := [];
      heading := PromptHeading;
      detail := Prompt;
      shown := [];
    }

    /** The start of `loadLocations(limit)`. */
    method BeginLoad()
      requires Valid()
      modifies this
      ensures Valid() && list == ListLoading
      ensures all == old(all) && tags == old(tags) && heading == old(heading) && detail == old(detail)
    {
      list := ListLoading;
    }

    /** A successful `loadLocations`: the response replaces `allLocations` wholesale and both panels are redrawn from it. */
    method LoadSucceeded(data: array<Location>)
      requires Valid()
      modifies this
      ensures Valid() && all == data
      ensures list.ListShowing? && Shows(list.view, data[..])
      ensures |tags| == |Tags(data[..])| && forall k :: 0 <= k < |tags| ==> tags[k] == TagItemFor(Tags(data[..])[k])
      ensures heading == old(heading) && detail == old(detail)
    {
      all := data;
      var v := RenderLocations(data[..]);
      list := ListShowing(v);
      shown := data[..];
      tags := RenderImageTags(data[..]);
    }

    /** A failed `loadLocations`: the list panel shows the error and `allLocations` keeps its old value. */
    method LoadFailed(message: string)
      requires Valid()
      modifies this
      ensures Valid() && list == ListError(message)
      ensures all == old(all) && tags == old(tags) && heading == old(heading) && detail == old(detail)
    {
      list := ListError(message);
    }

    /**
     * `allLocations = data` has already run when `renderLocations` or
     * `renderImageTags` throws on a location it cannot draw: the catch shows
     * the error, `allLocations` keeps the new data, and a tag panel the
     * renderer did not reach keeps its old items.
     */
    method LoadRenderFailed(data: array<Location>, message: string)
      requires Valid()
      modifies this
      ensures Valid() && all == data && list == ListError(message)
      ensures tags == old(tags) && heading == old(heading) && detail == old(detail)
    {
      all := data;
      list := ListError(message);
    }

    /** `runSearch(q)` */
    method RunSearch(q: Option<string>)
      requires Valid()
      modifies this
      ensures Valid() && list.ListShowing? && Shows(list.view, Search(all[..], q))
      ensures all == old(all) && tags == old(tags) && heading == old(heading) && detail == old(detail)
    {
      var results := Search(all[..], q);
      var v := RenderLocations(results);
      list := ListShowing(v);
      shown := results;
    }

    /** The shuffle button: shuffle `allLocations` in place, then show its first 20 entries. */
    method ShuffleAll()
      requires Valid()
      modifies this, all
      ensures Valid() && all == old(all) && multiset(all[..]) == multiset(old(all[..]))
      ensures list.ListShowing? && Shows(list.view, all[..Min(all.Length, InitialCount)])
      ensures tags == old(tags) && heading == old(heading) && detail == old(detail)
    {
      ghost var picks := ShuffleInPlace(all);
      var head := all[..Min(all.Length, InitialCount)];
      var v := RenderLocations(head);
      list := ListShowing(v);
      shown := head;
    }

    /** The synchronous part of `showDetail(id)`; `request` is the detail fetch it starts, if any. */
    method ShowDetail(id: Id) returns (request: Option<Id>)
      requires Valid()
      modifies this
      ensures Valid()
      ensures StartDetail(all[..], id).NotFound? ==>
        request.None? && detail == LocationNotFound && heading == old(heading)
      ensures StartDetail(all[..], id).Fetching? ==>
        request == Some(id) && detail == DetailLoading && heading == StartDetail(all[..], id).heading
      ensures all == old(all) && list == old(list) && tags == old(tags)
    {
      var found := Find(all[..], id);
      if found.None? {
        detail := LocationNotFound;
        request := None;
      } else {
        heading := Heading(found.value);
        detail := DetailLoading;
        request := Some(id);
      }
    }

    /**
     * A click on the `k`-th tile on screen (or its View button) runs
     * `showDetail` with the tile's id. Every tile on screen was drawn from a
     * location of `allLocations`, so the lookup succeeds: the panel never
     * says "not found" and the detail fetch for that id starts.
     */
    method ClickTile(k: int) returns (request: Option<Id>)
      requires Valid() && list.ListShowing? && list.view.Tiles? && 0 <= k < |list.view.tiles|
      modifies this
      ensures Valid() && detail == DetailLoading && request == Some(old(list.view.tiles[k].id))
      ensures StartDetail(all[..], old(list.view.tiles[k].id)).Fetching?
      ensures heading == StartDetail(all[..], old(list.view.tiles[k].id)).heading
      ensures all == old(all) && list == old(list) && tags == old(tags)
    {
      var id := list.view.tiles[k].id;
      TileLeadsToLocation(all[..], shown, list.view, k);
      request := ShowDetail(id);
    }

    /** A detail fetch completed: its data replaces the detail panel, whatever the panel shows by then. */
    method DetailLoaded(d: LocationDetail)
      requires Valid()
      modifies this
      ensures Valid() && detail == DetailShown(RenderDetail(d))
      ensures all == old(all) && list == old(list) && tags == old(tags) && heading == old(heading)
    {
      detail := DetailShown(RenderDetail(d));
    }

    /** A detail fetch failed: the detail panel shows the error. */
    method DetailFailed(message: string)
      requires Valid()
      modifies this
      ensures Valid() && detail == DetailError(message)
      ensures all == old(all) && list == old(list) && tags == old(tags) && heading == old(heading)
    {
      detail := DetailError(message);
    }

    /** The close button of the detail panel. */
    method CloseDetail()
      requires Valid()
      modifies this
      ensures Valid() && heading == PromptHeading && detail == Prompt
      ensures all == old(all) && list == old(list) && tags == old(tags)
    {
      heading := PromptHeading;
      detail := Prompt;
    }
  }
}

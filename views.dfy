/**
 * The list and detail renderers, returning view-models (plain records)
 * where the page builds DOM nodes and HTML strings.
 */
module Views {
  import opened Basics
  import opened Locations
  import opened Fallback
  import opened Lookup

  /**
   * One location tile: its `data-id`, its image element right after
   * `setImgWithFallback`, the image's `alt` text, the "city, state" line, and
   * the condition and temperature line (the temperature is not rounded here).
   * Clicking the tile or its View button calls `showDetail(id)`.
   */
  datatype Tile = Tile(id: Id, image: ImgState, alt: string, title: string, condition: string, temp: real)

  function TileOf(l: Location): Tile {
    Tile(l.id, Load("images/" + ImageText(l.image), Placeholder), l.city + " image", Heading(l),
         l.condition, l.current.temp)
  }

  /** The list panel after `renderLocations`: the "No results" message, or the tiles. */
  datatype ListView = NoResults | Tiles(tiles: seq<Tile>)

  /** `v` is what rendering `ls` shows: "No results" for an empty list, else one tile per location in list order. */
  ghost predicate Shows(v: ListView, ls: seq<Location>) {
    (v.NoResults? <==> ls == [])
    && (v.Tiles? ==> |v.tiles| == |ls| && forall i :: 0 <= i < |ls| ==> v.tiles[i] == TileOf(ls[i]))
  }

  /** `renderLocations(locations)` */
  method RenderLocations(ls: seq<Location>) returns (v: ListView)
    ensures Shows(v, ls)
  {
    if |ls| == 0 {
      return NoResults;
    }
    var tiles := [];
    for i := 0 to |ls|
      invariant |tiles| == i
      invariant forall j :: 0 <= j < i ==> tiles[j] == TileOf(ls[j])
    {
      tiles := tiles + [TileOf(ls[i])];
    }
    v := Tiles(tiles);
  }

  /**
   * A tile drawn from locations that all belong to the in-memory list leads,
   * when clicked, to a location with the tile's id: the lookup in
   * `showDetail` finds one and does not report "not found".
   */
  lemma TileLeadsToLocation(all: seq<Location>, shown: seq<Location>, v: ListView, k: int)
    requires Shows(v, shown) && forall x :: x in shown ==> x in all
    requires v.Tiles? && 0 <= k < |v.tiles|
    ensures Find(all, v.tiles[k].id).Some? && Find(all, v.tiles[k].id).value.id == shown[k].id
    ensures StartDetail(all, v.tiles[k].id).Fetching?
  {
    assert shown[k] in all;
  }

  /** How many hourly entries the detail view shows. */
  const HourlyCount := 8

  /** `(d.hourly || []).slice(0, 8)` */
  function NextHours(hourly: Option<seq<Hour>>): seq<Hour> {
    var h := hourly.GetOr([]);
    h[..Min(|h|, HourlyCount)]
  }

  /**
   * The detail panel after `renderDetail(d)`: the hero image (its source and
   * the placeholder its inline handler switches to), the current conditions,
   * the next hours and every daily entry.
   */
  datatype DetailView = DetailView(
    heroSrc: string,
    heroFallback: string,
    heroAlt: string,
    condition: string,
    current: Current,
    hourly: seq<Hour>,
    daily: seq<Day>)

  function RenderDetail(d: LocationDetail): DetailView {
    DetailView("images/" + ImageText(d.loc.image), Placeholder, d.loc.city, d.loc.condition, d.loc.current,
               NextHours(d.hourly), d.daily.GetOr([]))
  }

  /**
   * The hourly list is the first min(|hourly|, 8) entries of the forecast,
   * in order (none when the forecast is absent); the daily list is the whole
   * daily forecast (none when absent).
   */
  lemma RenderDetailSpec(d: LocationDetail)
    ensures d.hourly.None? ==> RenderDetail(d).hourly == []
    ensures d.hourly.Some? ==>
      RenderDetail(d).hourly <= d.hourly.value
      && |RenderDetail(d).hourly| == Min(|d.hourly.value|, HourlyCount)
    ensures d.daily.None? ==> RenderDetail(d).daily == []
    ensures d.daily.Some? ==> RenderDetail(d).daily == d.daily.value
    ensures RenderDetail(d).heroSrc == "images/" + ImageText(d.loc.image) && RenderDetail(d).heroFallback == Placeholder
  {
  }
}

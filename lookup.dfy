/**
 * The synchronous start of `showDetail(id)`: find the location in the
 * in-memory list; without one, show "not found" and fetch nothing.
 */
module Lookup {
  import opened Basics
  import opened Locations

  /** `ls.find(l => l.id === id)` */
  function Find(ls: seq<Location>, id: Id): (r: Option<Location>)
    ensures r.None? <==> forall i :: 0 <= i < |ls| ==> ls[i].id != id
    ensures r.Some? ==> r.value in ls && r.value.id == id
  {
    if ls == [] then None
    else if ls[0].id == id then Some(ls[0])
    else Find(ls[1..], id)
  }

  /** What `find` returns is the first location carrying the id. */
  lemma {:induction false} FindFirst(ls: seq<Location>, id: Id) returns (i: nat)
    requires Find(ls, id).Some?
    ensures i < |ls| && ls[i] == Find(ls, id).value
    ensures forall j :: 0 <= j < i ==> ls[j].id != id
  {
    if ls[0].id == id {
      i := 0;
    } else {
      var k := FindFirst(ls[1..], id);
      i := k + 1;
      assert forall j :: 1 <= j < |ls| ==> ls[j] == ls[1..][j - 1];
    }
  }

  /** The heading the detail panel shows for a location: `${city}, ${state}`. */
  function Heading(l: Location): string {
    l.city + ", " + l.state
  }

  /**
   * What `showDetail` does before it awaits anything: either "Location not
   * found" with no request, or a heading, a loading placeholder and a
   * request for `/locations/<id>`.
   */
  datatype DetailStart = NotFound | Fetching(heading: string, request: Id)

  function StartDetail(all: seq<Location>, id: Id): DetailStart {
    match Find(all, id)
    case None => NotFound
    case Some(l) => Fetching(Heading(l), id)
  }

  /**
   * The detail view reports "not found", and requests nothing, exactly when
   * no location carries the id; otherwise it requests that very id and is
   * headed by the first location that carries it.
   */
  lemma StartDetailSpec(all: seq<Location>, id: Id) returns (i: nat)
    ensures StartDetail(all, id).NotFound? <==> forall j :: 0 <= j < |all| ==> all[j].id != id
    ensures StartDetail(all, id).Fetching? ==>
      StartDetail(all, id).request == id
      && i < |all| && all[i].id == id && StartDetail(all, id).heading == Heading(all[i])
      && forall j :: 0 <= j < i ==> all[j].id != id
  {
    i := 0;
    if Find(all, id).Some? {
      i := FindFirst(all, id);
    }
  }
}

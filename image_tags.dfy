/**
 * `renderImageTags`: the distinct image file names the list refers to, in
 * order of first occurrence (a JavaScript `Set` keeps insertion order), each
 * shown with a hint about where to put the file.
 */
module ImageTags {
  import opened Basics
  import opened Locations

  /** `locations.map(l => l.image).filter(Boolean)` */
  function ImageNames(ls: seq<Location>): (r: seq<string>)
    ensures |r| <= |ls|
    ensures forall k :: 0 <= k < |r| ==> r[k] != ""
  {
    if ls == [] then []
    else
      var last := ls[|ls| - 1];
      ImageNames(ls[..|ls| - 1]) + if HasImage(last) then [last.image.value] else []
  }

  /**
   * `names` are the images of the locations at the strictly increasing
   * positions `idx`, and those positions are exactly the locations whose
   * image is truthy: repeats are kept and list order is preserved.
   */
  ghost predicate NamesAt(ls: seq<Location>, names: seq<string>, idx: seq<int>) {
    |idx| == |names|
    && (forall k :: 0 <= k < |idx| ==> 0 <= idx[k] < |ls| && ls[idx[k]].image == Some(names[k]))
    && (forall k, m :: 0 <= k < m < |idx| ==> idx[k] < idx[m])
    && (forall i :: 0 <= i < |ls| ==> (HasImage(ls[i]) <==> i in idx))
  }

  /** The image names are the truthy images of the list, one per such location, in list order. */
  lemma {:induction false} ImageNamesSelects(ls: seq<Location>) returns (idx: seq<int>)
    ensures NamesAt(ls, ImageNames(ls), idx)
  {
    if ls == [] {
      idx := [];
      return;
    }
    var init, last := ls[..|ls| - 1], ls[|ls| - 1];
    var prev := ImageNamesSelects(init);
    var r, q := ImageNames(ls), ImageNames(init);
    assert forall k :: 0 <= k < |prev| ==> prev[k] < |init| && ls[prev[k]].image == Some(q[k]);
    assert |ls| - 1 !in prev;
    if HasImage(last) {
      idx := prev + [|ls| - 1];
      assert r == q + [last.image.value];
      forall i | 0 <= i < |ls| - 1
        ensures HasImage(ls[i]) <==> i in idx
      {
        assert ls[i] == init[i];
        assert i in idx <==> i in prev;
      }
    } else {
      idx := prev;
      assert r == q;
      forall i | 0 <= i < |ls| - 1
        ensures HasImage(ls[i]) <==> i in idx
      {
        assert ls[i] == init[i];
      }
    }
  }

  /** Location `l` has the truthy image `n`. */
  predicate Carries(l: Location, n: string) {
    HasImage(l) && l.image.value == n
  }

  /** A name is among the image names exactly when some location carries it as a truthy image. */
  lemma ImageNamesIff(ls: seq<Location>, n: string)
    ensures n in ImageNames(ls) <==> exists i :: 0 <= i < |ls| && Carries(ls[i], n)
  {
    var idx := ImageNamesSelects(ls);
    var names := ImageNames(ls);
    if n in names {
      var k :| 0 <= k < |names| && names[k] == n;
      assert idx[k] in idx;
      assert Carries(ls[idx[k]], n);
    }
    if exists i :: 0 <= i < |ls| && Carries(ls[i], n) {
      var i :| 0 <= i < |ls| && Carries(ls[i], n);
      assert i in idx;
      var k :| 0 <= k < |idx| && idx[k] == i;
      assert names[k] == n;
    }
  }

  /** The position of the first location in `ls` that carries the image `n`. */
  function FirstCarrier(ls: seq<Location>, n: string): (i: nat)
    requires exists i :: 0 <= i < |ls| && Carries(ls[i], n)
    ensures i < |ls| && Carries(ls[i], n)
    ensures forall j :: 0 <= j < i ==> !Carries(ls[j], n)
  {
    if Carries(ls[0], n) then 0
    else
      var i :| 0 <= i < |ls| && Carries(ls[i], n);
      assert ls[1..][i - 1] == ls[i];
      1 + FirstCarrier(ls[1..], n)
  }

  predicate NoDuplicates(s: seq<string>) {
    forall k, m :: 0 <= k < m < |s| ==> s[k] != s[m]
  }

  /** `[...new Set(s)]`: each distinct element once, where it first occurs. */
  function Dedup(s: seq<string>): (r: seq<string>)
    ensures NoDuplicates(r)
    ensures forall x :: x in r <==> x in s
  {
    if s == [] then []
    else
      var r := Dedup(s[..|s| - 1]);
      if s[|s| - 1] in r then r else r + [s[|s| - 1]]
  }

  /** The position of the first occurrence of `x` in `s`. */
  function FirstIndex(s: seq<string>, x: string): (i: nat)
    requires x in s
    ensures i < |s| && s[i] == x
    ensures forall j :: 0 <= j < i ==> s[j] != x
  {
    if s[0] == x then 0 else 1 + FirstIndex(s[1..], x)
  }

  /** Dedup lists the distinct elements in the order of their first occurrences. */
  lemma {:induction false} DedupInFirstOccurrenceOrder(s: seq<string>)
    ensures forall k, m :: 0 <= k < m < |Dedup(s)| ==> FirstIndex(s, Dedup(s)[k]) < FirstIndex(s, Dedup(s)[m])
  {
    if s != [] {
      var init := s[..|s| - 1];
      var r := Dedup(init);
      DedupInFirstOccurrenceOrder(init);
      forall x | x in init
        ensures FirstIndex(s, x) == FirstIndex(init, x)
      {
        assert s[FirstIndex(init, x)] == x;
      }
      if s[|s| - 1] !in r {
        assert FirstIndex(s, s[|s| - 1]) == |s| - 1;
      }
    }
  }

  /** The names `renderImageTags` lists. */
  function Tags(ls: seq<Location>): seq<string> {
    Dedup(ImageNames(ls))
  }

  /**
   * The first location carrying a name is the one whose image is the name's
   * first occurrence among the image names.
   */
  lemma FirstCarrierIsFirstName(ls: seq<Location>, idx: seq<int>, n: string)
    requires NamesAt(ls, ImageNames(ls), idx) && n in ImageNames(ls)
    ensures exists i :: 0 <= i < |ls| && Carries(ls[i], n)
    ensures FirstCarrier(ls, n) == idx[FirstIndex(ImageNames(ls), n)]
  {
  }

  /**
   * The tags are free of duplicates and of empty names; a name is a tag
   * exactly when some location carries it as its image; and the tags come in
   * the order in which the names first appear on locations of the list.
   */
  lemma TagsSpec(ls: seq<Location>)
    ensures NoDuplicates(Tags(ls))
    ensures forall t :: t in Tags(ls) ==> t != ""
    ensures forall n :: n in Tags(ls) <==> exists i :: 0 <= i < |ls| && Carries(ls[i], n)
    ensures forall k :: 0 <= k < |Tags(ls)| ==> exists i :: 0 <= i < |ls| && Carries(ls[i], Tags(ls)[k])
    ensures forall k, m :: 0 <= k < m < |Tags(ls)| ==> FirstCarrier(ls, Tags(ls)[k]) < FirstCarrier(ls, Tags(ls)[m])
  {
    forall n {
      ImageNamesIff(ls, n);
    }
    var idx := ImageNamesSelects(ls);
    var names, tags := ImageNames(ls), Tags(ls);
    DedupInFirstOccurrenceOrder(names);
    forall k | 0 <= k < |tags|
      ensures exists i :: 0 <= i < |ls| && Carries(ls[i], tags[k])
    {
      assert tags[k] in tags;
    }
    forall k, m | 0 <= k < m < |tags|
      ensures FirstCarrier(ls, tags[k]) < FirstCarrier(ls, tags[m])
    {
      FirstCarrierIsFirstName(ls, idx, tags[k]);
      FirstCarrierIsFirstName(ls, idx, tags[m]);
    }
  }

  /** One list item of the image-tag panel. */
  datatype TagItem = TagItem(name: string, hint: string)

  function TagItemFor(t: string): TagItem {
    TagItem(t, t + "  — put your file in /images/" + t)
  }

  /** `renderImageTags`: one item per tag, in tag order. */
  method RenderImageTags(ls: seq<Location>) returns (items: seq<TagItem>)
    ensures |items| == |Tags(ls)|
    ensures forall k :: 0 <= k < |items| ==> items[k].name == Tags(ls)[k] && items[k] == TagItemFor(items[k].name)
  {
    var tags := Tags(ls);
    items := [];
    for k := 0 to |tags|
      invariant |items| == k
      invariant forall j :: 0 <= j < k ==> items[j] == TagItemFor(tags[j])
    {
      items := items + [TagItemFor(tags[k])];
    }
  }
}

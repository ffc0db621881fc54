/** The contour supersession and the rebuilt site versions: an interval on each contour against a lookup
    at a point in time. */
module SiteContours {
  import opened Basics

  datatype Contour = Contour(id: nat, source: nat, createdAt: int, supersededAt: Option<int>)

  /** Primary keys. */
  predicate Keyed(rows: seq<Contour>) {
    forall i, j :: 0 <= i < j < |rows| ==> rows[i].id != rows[j].id
  }

  /** `a` was drawn after `b` on the same source; ids settle a tie. */
  predicate After(a: Contour, b: Contour) {
    a.source == b.source && (a.createdAt > b.createdAt || (a.createdAt == b.createdAt && a.id > b.id))
  }

  /** The next contour of the same source, which the LEAD window reads. */
  function Next(rows: seq<Contour>, c: Contour): Option<Contour> {
    if rows == [] then None
    else
      var best, r := Next(Init(rows), c), Last(rows);
      if After(r, c) && (best.None? || After(best.value, r)) then Some(r) else best
  }

  lemma {:induction false} NextIsNearest(rows: seq<Contour>, c: Contour)
    requires Keyed(rows)
    ensures Next(rows, c).None? <==> forall r :: r in rows ==> !After(r, c)
    ensures var next := Next(rows, c);
            next.Some? ==> next.value in rows && After(next.value, c)
                           && forall r :: r in rows && After(r, c) ==> r == next.value || After(r, next.value)
  {
    if rows != [] {
      NextIsNearest(Init(rows), c);
      assert rows == Init(rows) + [Last(rows)];
      forall r | r in Init(rows) ensures r.id != Last(rows).id {
        var i :| 0 <= i < |rows| - 1 && rows[i] == r;
      }
    }
  }

  function Retired(rows: seq<Contour>, c: Contour): Contour {
    var next := Next(rows, c);
    if next.Some? then c.(supersededAt := Some(next.value.createdAt)) else c
  }

  function Superseded(rows: seq<Contour>): (updated: seq<Contour>)
    ensures |updated| == |rows| && forall i :: 0 <= i < |rows| ==> updated[i] == Retired(rows, rows[i])
  {
    seq(|rows|, i requires 0 <= i < |rows| => Retired(rows, rows[i]))
  }

  /** The bulk update: every row reads the table as it was. */
  method Supersede(rows: array<Contour>)
    modifies rows
    ensures rows[..] == Superseded(old(rows[..]))
  {
    var was := rows[..];
    forall i | 0 <= i < rows.Length {
      rows[i] := Retired(was, was[i]);
    }
  }

  // ---- The lookup at a point in time

  predicate DrawnBy(c: Contour, source: nat, at: int) {
    c.source == source && c.createdAt <= at
  }

  /** The latest contour drawn on a source up to an instant. */
  function Latest(rows: seq<Contour>, source: nat, at: int): Option<Contour> {
    if rows == [] then None
    else
      var best, r := Latest(Init(rows), source, at), Last(rows);
      if DrawnBy(r, source, at) && (best.None? || After(r, best.value)) then Some(r) else best
  }

  lemma {:induction false} LatestIsLast(rows: seq<Contour>, source: nat, at: int)
    requires Keyed(rows)
    ensures Latest(rows, source, at).None? <==> forall r :: r in rows ==> !DrawnBy(r, source, at)
    ensures var latest := Latest(rows, source, at);
            latest.Some? ==> latest.value in rows && DrawnBy(latest.value, source, at)
                             && forall r :: r in rows && DrawnBy(r, source, at) ==>
                                  r == latest.value || After(latest.value, r)
  {
    if rows != [] {
      LatestIsLast(Init(rows), source, at);
      assert rows == Init(rows) + [Last(rows)];
      forall r | r in Init(rows) ensures r.id != Last(rows).id {
        var i :| 0 <= i < |rows| - 1 && rows[i] == r;
      }
    }
  }

  /** The instant is in the contour's interval. */
  predicate Covers(c: Contour, at: int) {
    c.createdAt <= at && (c.supersededAt.Some? ==> at < c.supersededAt.value)
  }

  ghost predicate AllLive(rows: seq<Contour>) {
    forall i :: 0 <= i < |rows| ==> rows[i].supersededAt.None?
  }

  /** A contour's interval holds an instant exactly when the lookup at that instant finds it, ties on the
      drawing time included. */
  lemma IntervalIsLookup(rows: seq<Contour>, i: nat, at: int)
    requires Keyed(rows) && AllLive(rows) && i < |rows|
    ensures Covers(Superseded(rows)[i], at)
            <==> Latest(Superseded(rows), rows[i].source, at) == Some(Superseded(rows)[i])
  {
    var updated := Superseded(rows);
    NextIsNearest(rows, rows[i]);
    LatestIsLast(updated, rows[i].source, at);
    assert rows[i] in rows && updated[i] in updated;
    var latest := Latest(updated, rows[i].source, at);
    if latest.Some? {
      var k :| 0 <= k < |updated| && updated[k] == latest.value;
      assert rows[k] in rows;
      assert k != i ==> rows[k].id != rows[i].id;
    }
    var next := Next(rows, rows[i]);
    if next.Some? {
      var n :| 0 <= n < |rows| && rows[n] == next.value;
      assert updated[n] in updated;
    }
  }

  /** From its first contour on, a source has exactly one contour in force at any instant. */
  lemma ExactlyOneCovers(rows: seq<Contour>, first: nat, at: int) returns (k: nat)
    requires Keyed(rows) && AllLive(rows) && first < |rows| && rows[first].createdAt <= at
    ensures k < |rows| && rows[k].source == rows[first].source && Covers(Superseded(rows)[k], at)
    ensures forall i :: 0 <= i < |rows| && rows[i].source == rows[first].source && Covers(Superseded(rows)[i], at) ==>
            i == k
  {
    var updated := Superseded(rows);
    LatestIsLast(updated, rows[first].source, at);
    assert updated[first] in updated && DrawnBy(updated[first], rows[first].source, at);
    var latest := Latest(updated, rows[first].source, at);
    k :| 0 <= k < |updated| && updated[k] == latest.value;
    IntervalIsLookup(rows, k, at);
    forall i | 0 <= i < |rows| && rows[i].source == rows[first].source && Covers(updated[i], at) ensures i == k {
      IntervalIsLookup(rows, i, at);
      assert updated[i] == updated[k] && rows[i].id == rows[k].id;
    }
  }

  /** Exactly one contour of a drawn source stays live: the latest. */
  lemma ExactlyOneLive(rows: seq<Contour>, drawn: nat) returns (k: nat)
    requires Keyed(rows) && AllLive(rows) && drawn < |rows|
    ensures k < |rows| && rows[k].source == rows[drawn].source && Superseded(rows)[k].supersededAt.None?
    ensures forall i :: 0 <= i < |rows| && rows[i].source == rows[drawn].source ==>
              i == k || (After(rows[k], rows[i]) && Superseded(rows)[i].supersededAt.Some?)
  {
    var at := Horizon(rows);
    LatestIsLast(rows, rows[drawn].source, at);
    assert rows[drawn] in rows && DrawnBy(rows[drawn], rows[drawn].source, at);
    var latest := Latest(rows, rows[drawn].source, at);
    k :| 0 <= k < |rows| && rows[k] == latest.value;
    NextIsNearest(rows, rows[k]);
    forall i | 0 <= i < |rows| && rows[i].source == rows[drawn].source
      ensures i == k || (After(rows[k], rows[i]) && Superseded(rows)[i].supersededAt.Some?)
    {
      assert rows[i] in rows && DrawnBy(rows[i], rows[drawn].source, at);
      NextIsNearest(rows, rows[i]);
      assert i != k ==> rows[i].id != rows[k].id;
    }
    assert forall r :: r in rows && After(r, rows[k]) ==> DrawnBy(r, rows[drawn].source, at);
  }

  /** An instant by which every contour was drawn. */
  function Horizon(rows: seq<Contour>): (at: int)
    ensures forall r :: r in rows ==> r.createdAt <= at
  {
    if rows == [] then 0
    else
      assert rows == Init(rows) + [Last(rows)];
      var at := Horizon(Init(rows));
      if at < Last(rows).createdAt then Last(rows).createdAt else at
  }

  // ---- The rebuilt versions

  datatype SiteSource = SiteSource(id: nat, site: nat, capturedAt: Option<int>, createdAt: int)

  datatype Entry = Entry(source: nat, contour: Option<nat>)

  datatype Snapshot = Snapshot(name: string, kind: string, sources: seq<Entry>)

  datatype Version = Version(id: nat, site: nat, createdAt: int, snapshot: Snapshot)

  predicate Filed(s: SiteSource, site: nat, at: int) {
    s.site == site && s.createdAt <= at
  }

  /** Capture time, the unknown ones last, then filing time, then id. */
  predicate Earlier(a: SiteSource, b: SiteSource) {
    if a.capturedAt != b.capturedAt then
      b.capturedAt.None? || (a.capturedAt.Some? && a.capturedAt.value < b.capturedAt.value)
    else a.createdAt < b.createdAt || (a.createdAt == b.createdAt && a.id < b.id)
  }

  predicate InOrder(list: seq<SiteSource>) {
    forall i, j :: 0 <= i < j < |list| ==> Earlier(list[i], list[j])
  }

  function Place(s: SiteSource, list: seq<SiteSource>): seq<SiteSource> {
    if list == [] || Earlier(s, list[0]) then [s] + list else [list[0]] + Place(s, list[1..])
  }

  /** The sources of a site filed up to an instant, in order. */
  function Listing(sources: seq<SiteSource>, site: nat, at: int): seq<SiteSource> {
    if sources == [] then []
    else if Filed(Last(sources), site, at) then Place(Last(sources), Listing(Init(sources), site, at))
    else Listing(Init(sources), site, at)
  }

  lemma {:induction false} PlaceKeepsOrder(s: SiteSource, list: seq<SiteSource>)
    requires InOrder(list) && forall x :: x in list ==> x.id != s.id
    ensures InOrder(Place(s, list))
    ensures forall x :: x in Place(s, list) <==> x == s || x in list
  {
    if list != [] {
      assert list == [list[0]] + list[1..] && list[0] in list;
      if !Earlier(s, list[0]) {
        PlaceKeepsOrder(s, list[1..]);
        var rest := Place(s, list[1..]);
        forall j | 0 <= j < |rest| ensures Earlier(list[0], rest[j]) {
          assert rest[j] in rest;
        }
      }
    }
  }

  /** The listing holds exactly the sources filed by then, each once, in order. */
  lemma {:induction false} ListingIsExact(sources: seq<SiteSource>, site: nat, at: int)
    requires forall i, j :: 0 <= i < j < |sources| ==> sources[i].id != sources[j].id
    ensures InOrder(Listing(sources, site, at))
    ensures forall s :: s in Listing(sources, site, at) <==> s in sources && s.site == site && s.createdAt <= at
  {
    if sources != [] {
      ListingIsExact(Init(sources), site, at);
      assert sources == Init(sources) + [Last(sources)];
      if Filed(Last(sources), site, at) {
        forall x | x in Listing(Init(sources), site, at) ensures x.id != Last(sources).id {
          assert x in Init(sources);
        }
        PlaceKeepsOrder(Last(sources), Listing(Init(sources), site, at));
      }
    }
  }

  function Drawn(contours: seq<Contour>, source: nat, at: int): Option<nat> {
    var latest := Latest(contours, source, at);
    if latest.Some? then Some(latest.value.id) else None
  }

  function Rebuilt(v: Version, sources: seq<SiteSource>, contours: seq<Contour>): Version {
    var list := Listing(sources, v.site, v.createdAt);
    v.(snapshot := Snapshot(v.snapshot.name, v.snapshot.kind,
                            seq(|list|, i requires 0 <= i < |list| =>
                                Entry(list[i].id, Drawn(contours, list[i].id, v.createdAt)))))
  }

  /** A rebuilt version keeps all but its list, which has one entry per source filed by then, in order. */
  lemma RebuiltKeepsTheRest(v: Version, sources: seq<SiteSource>, contours: seq<Contour>)
    ensures var list, r := Listing(sources, v.site, v.createdAt), Rebuilt(v, sources, contours);
            && r.id == v.id && r.site == v.site && r.createdAt == v.createdAt
            && r.snapshot.name == v.snapshot.name && r.snapshot.kind == v.snapshot.kind
            && |r.snapshot.sources| == |list|
            && forall i :: 0 <= i < |list| ==> r.snapshot.sources[i].source == list[i].id
  {
  }

  /** An entry names no contour exactly when none was drawn on its source by then. */
  lemma UndrawnEntries(v: Version, sources: seq<SiteSource>, rows: seq<Contour>, i: nat)
    requires Keyed(rows) && i < |Rebuilt(v, sources, rows).snapshot.sources|
    ensures var e := Rebuilt(v, sources, rows).snapshot.sources[i];
            e.contour.None? <==> forall r :: r in rows && r.source == e.source ==> r.createdAt > v.createdAt
  {
    LatestIsLast(rows, Rebuilt(v, sources, rows).snapshot.sources[i].source, v.createdAt);
  }

  /** The order of a listing: by capture time with the unknown ones last, then by filing time, then by id. */
  lemma ListedBefore(a: SiteSource, b: SiteSource)
    ensures Earlier(a, b) <==>
              || (a.capturedAt.Some? && b.capturedAt.None?)
              || (a.capturedAt.Some? && b.capturedAt.Some? && a.capturedAt.value < b.capturedAt.value)
              || (a.capturedAt == b.capturedAt && a.createdAt < b.createdAt)
              || (a.capturedAt == b.capturedAt && a.createdAt == b.createdAt && a.id < b.id)
  {
  }

  /** Rewrite every stored snapshot, row by row. */
  method RebuildSnapshots(versions: array<Version>, sources: seq<SiteSource>, contours: seq<Contour>)
    modifies versions
    ensures forall i :: 0 <= i < versions.Length ==> versions[i] == Rebuilt(old(versions[i]), sources, contours)
  {
    for i := 0 to versions.Length
      invariant forall j :: 0 <= j < i ==> versions[j] == Rebuilt(old(versions[j]), sources, contours)
      invariant forall j :: i <= j < versions.Length ==> versions[j] == old(versions[j])
    {
      var v := versions[i];
      var list := Listing(sources, v.site, v.createdAt);
      var entries: seq<Entry> := [];
      for k := 0 to |list|
        invariant |entries| == k
        invariant forall j :: 0 <= j < k ==> entries[j] == Entry(list[j].id, Drawn(contours, list[j].id, v.createdAt))
      {
        entries := entries + [Entry(list[k].id, Drawn(contours, list[k].id, v.createdAt))];
      }
      assert entries == Rebuilt(v, sources, contours).snapshot.sources;
      versions[i] := v.(snapshot := Snapshot(v.snapshot.name, v.snapshot.kind, entries));
    }
  }

  /** A rebuilt version names, for each of its sources, exactly the contour whose interval holds the
      version's own time. */
  lemma RebuiltNamesTheContourInForce(v: Version, sources: seq<SiteSource>, rows: seq<Contour>, e: Entry, k: nat)
    requires Keyed(rows) && AllLive(rows) && k < |rows|
    requires e in Rebuilt(v, sources, Superseded(rows)).snapshot.sources && rows[k].source == e.source
    ensures e.contour == Some(rows[k].id) <==> Covers(Superseded(rows)[k], v.createdAt)
  {
    var updated := Superseded(rows);
    IntervalIsLookup(rows, k, v.createdAt);
    LatestIsLast(updated, e.source, v.createdAt);
    var latest := Latest(updated, e.source, v.createdAt);
    if latest.Some? && latest.value.id == rows[k].id {
      var n :| 0 <= n < |updated| && updated[n] == latest.value;
      assert n == k;
    }
  }
}

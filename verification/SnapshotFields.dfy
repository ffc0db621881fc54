/** What each conversion of a snapshot yields, field by field and for every snapshot, faithful or not. */
module SnapshotFields {
  import opened Basics
  import opened EventSources

  // ---- The primary source

  /** Whether a source has media: a record that is not empty. */
  predicate Filmed(s: Source) {
    s.media.Some? && s.media.value != map[]
  }

  lemma {:induction false} PrimaryFrom(sources: seq<Source>, from: nat)
    requires sources != [] && from <= |sources|
    ensures var p := Primary(sources, from);
            if exists i :: from <= i < |sources| && Filmed(sources[i])
            then from <= p && Filmed(sources[p]) && forall i :: from <= i < p ==> !Filmed(sources[i])
            else p == 0
    decreases |sources| - from
  {
    if from < |sources| && !HasMedia(sources[from]) {
      PrimaryFrom(sources, from + 1);
    }
  }

  /** The first source with media, or the first of all when none has any. */
  lemma PrimaryIs(sources: seq<Source>)
    requires sources != []
    ensures var p := Primary(sources, 0);
            if exists s :: s in sources && Filmed(s)
            then Filmed(sources[p]) && forall i :: 0 <= i < p ==> !Filmed(sources[i])
            else p == 0
  {
    PrimaryFrom(sources, 0);
  }

  /** A list of links is every source's, in the order of the sources. */
  lemma {:induction false} LinksJoin(a: seq<Source>, b: seq<Source>)
    ensures LinksOf(a + b) == LinksOf(a) + LinksOf(b)
  {
    if b == [] {
      assert a + b == a;
    } else {
      assert Init(a + b) == a + Init(b) && Last(a + b) == Last(b);
      LinksJoin(a, Init(b));
      Regroup(LinksOf(a), LinksOf(Init(b)), Last(b).links);
    }
  }

  lemma LinksOfOne(s: Source)
    ensures LinksOf([s]) == s.links
  {
    assert Init([s]) == [];
  }

  /** The links the downgrade reads: the primary source's, then the other sources' in their order. */
  lemma PrimaryLinksFirst(sources: seq<Source>)
    requires sources != []
    ensures var p := Primary(sources, 0);
            LinksOf(PrimaryFirst(sources)) == sources[p].links + LinksOf(sources[..p]) + LinksOf(sources[p + 1..])
  {
    var p := Primary(sources, 0);
    var head, before, rest := [sources[p]], sources[..p], sources[p + 1..];
    LinksJoin(head + before, rest);
    LinksJoin(head, before);
    LinksOfOne(sources[p]);
    assert PrimaryFirst(sources) == head + before + rest;
  }

  // ---- The secondary URLs

  /** A use of `v` comes before every use of `u`. */
  predicate ComesFirst(links: seq<Link>, v: string, u: string) {
    exists j :: 0 <= j < |links| && links[j].url == v && forall i :: 0 <= i < |links| && links[i].url == u ==> j < i
  }

  predicate OtherUrl(links: seq<Link>, sourceUrl: Option<string>, url: string) {
    Some(url) != sourceUrl && exists i :: 0 <= i < |links| && links[i].url == url
  }

  /** `urls` are the other URLs, each once, by first use. */
  ghost predicate ByFirstUse(urls: seq<string>, links: seq<Link>, sourceUrl: Option<string>) {
    && Distinct(urls)
    && (forall u :: u in urls <==> OtherUrl(links, sourceUrl, u))
    && forall a, b :: 0 <= a < b < |urls| ==> ComesFirst(links, urls[a], urls[b])
  }

  lemma OneMoreUse(urls: seq<string>, links: seq<Link>, sourceUrl: Option<string>, link: Link)
    returns (more: seq<string>)
    requires ByFirstUse(urls, links, sourceUrl)
    ensures more == if Some(link.url) == sourceUrl || link.url in urls then urls else urls + [link.url]
    ensures ByFirstUse(more, links + [link], sourceUrl)
  {
    var longer := links + [link];
    more := if Some(link.url) == sourceUrl || link.url in urls then urls else urls + [link.url];
    assert longer[|links|] == link && forall i :: 0 <= i < |links| ==> longer[i] == links[i];
    forall u ensures u in more <==> OtherUrl(longer, sourceUrl, u) {
      if OtherUrl(links, sourceUrl, u) {
        var i :| 0 <= i < |links| && links[i].url == u;
        assert longer[i].url == u;
      }
    }
    forall a, b | 0 <= a < b < |more| ensures ComesFirst(longer, more[a], more[b]) {
      if b < |urls| {
        StillFirst(links, link, urls[a], urls[b], sourceUrl, urls);
      } else {
        assert urls[a] in urls;
        var j :| 0 <= j < |links| && links[j].url == urls[a];
        assert longer[j].url == more[a];
        assert forall i :: 0 <= i < |longer| && longer[i].url == link.url ==> j < i;
      }
    }
  }

  lemma StillFirst(links: seq<Link>, link: Link, v: string, u: string, sourceUrl: Option<string>, urls: seq<string>)
    requires ComesFirst(links, v, u)
    ensures ComesFirst(links + [link], v, u)
  {
    var longer := links + [link];
    var j :| 0 <= j < |links| && links[j].url == v && forall i :: 0 <= i < |links| && links[i].url == u ==> j < i;
    assert longer[j].url == v;
    forall i | 0 <= i < |longer| && longer[i].url == u ensures j < i {
      if i < |links| {
        assert links[i].url == u;
      }
    }
  }

  /** The secondary URLs are the first ten of the other URLs, each once and by first use. */
  lemma {:induction false} OthersAreFirstTen(links: seq<Link>, sourceUrl: Option<string>) returns (all: seq<string>)
    ensures ByFirstUse(all, links, sourceUrl)
    ensures Others(links, sourceUrl) == if |all| <= 10 then all else all[..10]
  {
    if links == [] {
      all := [];
    } else {
      var before := OthersAreFirstTen(Init(links), sourceUrl);
      all := OneMoreUse(before, Init(links), sourceUrl, Last(links));
      assert Init(links) + [Last(links)] == links;
    }
  }

  // ---- The archives

  predicate HasSnapshot(link: Link) {
    link.snapshotUrl.Some? && link.snapshotUrl.value != ""
  }

  /** The first link of its URL with a snapshot. */
  predicate FirstSnapshot(links: seq<Link>, i: nat)
    requires i < |links|
  {
    HasSnapshot(links[i]) && forall j :: 0 <= j < i && links[j].url == links[i].url ==> !HasSnapshot(links[j])
  }

  /** The archive a link's snapshot becomes: where its URL stands, and which service took it. */
  predicate Becomes(link: Link, sourceUrl: Option<string>, a: Archive) {
    && HasSnapshot(link)
    && a.originalUrl == link.url && a.snapshotUrl == link.snapshotUrl.value && a.createdAt == link.archivedAt
    && a.origin == (if sourceUrl == Some(link.url) then "source_url" else "secondary_source")
    && a.provider == if "https://web.archive.org/" <= link.snapshotUrl.value then "wayback"
                     else if "https://ghostarchive.org/" <= link.snapshotUrl.value then "ghostarchive"
                     else "archive_today"
  }

  predicate Carried(url: string, sourceUrl: Option<string>, secondary: seq<string>) {
    url != "" && (sourceUrl == Some(url) || url in secondary)
  }

  predicate AnySnapshot(links: seq<Link>, url: string) {
    exists i :: 0 <= i < |links| && links[i].url == url && HasSnapshot(links[i])
  }

  lemma OneMoreLink(links: seq<Link>, link: Link, url: string)
    ensures AnySnapshot(links + [link], url) <==> AnySnapshot(links, url) || (link.url == url && HasSnapshot(link))
  {
    var longer := links + [link];
    assert longer[|links|] == link && forall i :: 0 <= i < |links| ==> longer[i] == links[i];
    if AnySnapshot(links, url) {
      var i :| 0 <= i < |links| && links[i].url == url && HasSnapshot(links[i]);
      assert longer[i].url == url;
    }
  }

  lemma FirstIsNoOther(links: seq<Link>, link: Link, i: nat)
    requires i <= |links| && FirstSnapshot(links + [link], i)
    ensures if i < |links| then FirstSnapshot(links, i) else !AnySnapshot(links, link.url)
  {
    var longer := links + [link];
    assert longer[|links|] == link && forall j :: 0 <= j < |links| ==> longer[j] == links[j];
  }

  /** The URLs that have an archive are those carried over of which some link has a snapshot. */
  lemma {:induction false} ArchivedUrls(links: seq<Link>, sourceUrl: Option<string>, secondary: seq<string>)
    ensures forall u :: u in Archives(links, sourceUrl, secondary)
                   <==> Carried(u, sourceUrl, secondary) && AnySnapshot(links, u)
  {
    if links != [] {
      var before, link := Init(links), Last(links);
      ArchivedUrls(before, sourceUrl, secondary);
      assert before + [link] == links;
      forall u ensures AnySnapshot(links, u) <==> AnySnapshot(before, u) || (link.url == u && HasSnapshot(link)) {
        OneMoreLink(before, link, u);
      }
    }
  }

  /** And it is the first such link's. */
  lemma {:induction false} ArchivedIsFirst(links: seq<Link>, sourceUrl: Option<string>, secondary: seq<string>, i: nat)
    requires i < |links| && FirstSnapshot(links, i) && Carried(links[i].url, sourceUrl, secondary)
    ensures links[i].url in Archives(links, sourceUrl, secondary)
    ensures Becomes(links[i], sourceUrl, Archives(links, sourceUrl, secondary)[links[i].url])
  {
    var before, link := Init(links), Last(links);
    assert before + [link] == links;
    FirstIsNoOther(before, link, i);
    ArchivedUrls(before, sourceUrl, secondary);
    if i < |before| {
      assert before[i] == links[i];
      ArchivedIsFirst(before, sourceUrl, secondary, i);
    }
  }

  lemma SortedFinds(archives: map<string, Archive>)
    requires forall u :: u in archives ==> archives[u].originalUrl == u
    ensures var list := Sorted(archives);
            && (forall i, j :: 0 <= i < j < |list| ==> Before(list[i].originalUrl, list[j].originalUrl))
            && (forall a :: a in list <==> a.originalUrl in archives && archives[a.originalUrl] == a)
  {
    SortedLists(archives);
  }

  // ---- The downgrade, whole

  lemma KindsAndTags(kind: string, name: string)
    ensures TagOf(kind) == match kind
                           case "smartphone" => "Smartphone"
                           case "satellite" => "Satellite"
                           case "drone" => "Drone"
                           case "static_camera" => "Static camera"
                           case "dashcam" => "Dashcam"
                           case "body_cam" => "Body / helmet cam"
                           case _ => "Unknown"
    ensures KindOf(name) == match name
                            case "Smartphone" => "smartphone"
                            case "Satellite" => "satellite"
                            case "Drone" => "drone"
                            case "Static camera" => "static_camera"
                            case "Dashcam" => "dashcam"
                            case "Body / helmet cam" => "body_cam"
                            case _ => "unknown"
  {
  }

  /** The primary source's fields, for any snapshot with sources. */
  lemma LegacyMain(snapshot: Snapshot, ids: string -> string)
    requires snapshot.sources != []
    ensures var was, p := ToLegacy(snapshot, ids), snapshot.sources[Primary(snapshot.sources, 0)];
            && was.sourceUrl == (if p.links == [] then None else Some(p.links[0].url))
            && was.postedAt == (if p.links == [] then None else p.links[0].postedAt)
            && was.sourceMedia == (if Filmed(p) then [p.media.value] else [])
            && was.position == p.position
            && (was.sourceMedia == [] <==> forall s :: s in snapshot.sources ==> !Filmed(s))
            && (was.isGraphic <==> exists s :: s in snapshot.sources && s.isGraphic)
  {
    PrimaryIs(snapshot.sources);
  }

  /** The capture tag of the primary source's kind. */
  function KindTag(sources: seq<Source>, ids: string -> string): seq<LegacyTag> {
    if sources == [] || sources[Primary(sources, 0)].kind == "" then []
    else
      var name := TagOf(sources[Primary(sources, 0)].kind);
      [LegacyTag(ids(name), name, "capture_source")]
  }

  /** The fields that are not a source's: the free tags in order and then the primary's capture tag, and what is
      copied over. */
  lemma LegacyRest(snapshot: Snapshot, ids: string -> string)
    ensures var was, n := ToLegacy(snapshot, ids), |snapshot.tags|;
            && was.proofMedia == snapshot.proofMedia && was.rest == snapshot.rest
            && |was.tags| >= n
            && (forall i :: 0 <= i < n ==> was.tags[i] == LegacyTag(snapshot.tags[i].id, snapshot.tags[i].name, "free"))
            && was.tags[n..] == KindTag(snapshot.sources, ids)
            && (snapshot.sources == [] ==> was.sourceUrl.None? && was.sourceMedia == [] && was.position.None?
                                           && was.postedAt.None? && !was.isGraphic && was.secondary == []
                                           && was.archives == [])
  {
  }

  /** An archive is the first snapshot of a URL carried over. */
  predicate FromSnapshot(a: Archive, links: seq<Link>, sourceUrl: Option<string>, secondary: seq<string>) {
    exists i :: 0 <= i < |links| && FirstSnapshot(links, i) && Carried(links[i].url, sourceUrl, secondary)
                && Becomes(links[i], sourceUrl, a)
  }

  /** The archives carried over: sorted by URL, one for each URL kept that has a snapshot, its first. */
  ghost predicate CarriesOver(list: seq<Archive>, links: seq<Link>, sourceUrl: Option<string>, secondary: seq<string>) {
    && (forall i, j :: 0 <= i < j < |list| ==> Before(list[i].originalUrl, list[j].originalUrl))
    && (forall a :: a in list ==> FromSnapshot(a, links, sourceUrl, secondary))
    && forall u :: Carried(u, sourceUrl, secondary) && AnySnapshot(links, u) ==>
         exists a :: a in list && a.originalUrl == u
  }

  lemma ArchivesCarryOver(links: seq<Link>, sourceUrl: Option<string>, secondary: seq<string>)
    ensures CarriesOver(Sorted(Archives(links, sourceUrl, secondary)), links, sourceUrl, secondary)
  {
    var archives := Archives(links, sourceUrl, secondary);
    ArchivedUrls(links, sourceUrl, secondary);
    ArchivesHold(links, sourceUrl, secondary);
    SortedFinds(archives);
    forall a | a in Sorted(archives) ensures FromSnapshot(a, links, sourceUrl, secondary) {
      FirstOf(links, a.originalUrl);
      var i :| 0 <= i < |links| && links[i].url == a.originalUrl && FirstSnapshot(links, i);
      ArchivedIsFirst(links, sourceUrl, secondary, i);
    }
    forall u | Carried(u, sourceUrl, secondary) && AnySnapshot(links, u)
      ensures exists a :: a in Sorted(archives) && a.originalUrl == u
    {
      assert archives[u] in Sorted(archives);
    }
  }

  /** The fields that come of the links: the first ten distinct URLs besides the source's, and the first
      snapshot of each URL kept. */
  ghost predicate OfLinks(secondary: seq<string>, archives: seq<Archive>, links: seq<Link>, sourceUrl: Option<string>,
                          all: seq<string>)
  {
    && ByFirstUse(all, links, sourceUrl) && secondary == (if |all| <= 10 then all else all[..10])
    && CarriesOver(archives, links, sourceUrl, secondary)
  }

  lemma LinkFields(links: seq<Link>, sourceUrl: Option<string>) returns (all: seq<string>)
    ensures var secondary := Others(links, sourceUrl);
            OfLinks(secondary, Sorted(Archives(links, sourceUrl, secondary)), links, sourceUrl, all)
  {
    all := OthersAreFirstTen(links, sourceUrl);
    ArchivesCarryOver(links, sourceUrl, Others(links, sourceUrl));
  }

  /** For any snapshot with sources, they come of the primary's links and then the others' in order. */
  lemma LegacyLinks(snapshot: Snapshot, ids: string -> string) returns (links: seq<Link>, all: seq<string>)
    requires snapshot.sources != []
    ensures var p := Primary(snapshot.sources, 0);
            links == snapshot.sources[p].links + LinksOf(snapshot.sources[..p]) + LinksOf(snapshot.sources[p + 1..])
    ensures var was := ToLegacy(snapshot, ids); OfLinks(was.secondary, was.archives, links, was.sourceUrl, all)
  {
    links := LinksOf(PrimaryFirst(snapshot.sources));
    PrimaryLinksFirst(snapshot.sources);
    all := LinkFields(links, ToLegacy(snapshot, ids).sourceUrl);
    LegacyParts(snapshot, ids);
  }

  lemma LegacyParts(snapshot: Snapshot, ids: string -> string)
    requires snapshot.sources != []
    ensures var was, links := ToLegacy(snapshot, ids), LinksOf(PrimaryFirst(snapshot.sources));
            && was.secondary == Others(links, was.sourceUrl)
            && was.archives == Sorted(Archives(links, was.sourceUrl, was.secondary))
  {
  }

  lemma {:induction false} FirstOf(links: seq<Link>, url: string)
    requires AnySnapshot(links, url)
    ensures exists i :: 0 <= i < |links| && links[i].url == url && FirstSnapshot(links, i)
  {
    var k :| 0 <= k < |links| && links[k].url == url && HasSnapshot(links[k]);
    if exists j :: 0 <= j < k && links[j].url == url && HasSnapshot(links[j]) {
      var before := links[..k];
      assert AnySnapshot(before, url) by {
        var j :| 0 <= j < k && links[j].url == url && HasSnapshot(links[j]);
        assert before[j] == links[j];
      }
      FirstOf(before, url);
      var i :| 0 <= i < |before| && before[i].url == url && FirstSnapshot(before, i);
      assert FirstSnapshot(links, i) by {
        assert forall j :: 0 <= j < i ==> before[j] == links[j];
        assert before[i] == links[i];
      }
    }
  }

  // ---- The upgrade, whole

  /** The link a URL becomes, with the last archive that claims it. */
  predicate LinkedTo(link: Link, url: string, postedAt: Option<string>, archives: seq<Archive>) {
    && link.url == url && link.postedAt == postedAt
    && ((forall a :: a in archives ==> a.originalUrl != url) ==> link.snapshotUrl.None? && link.archivedAt.None?)
    && ((exists a :: a in archives && a.originalUrl == url) ==>
          exists k :: 0 <= k < |archives| && archives[k].originalUrl == url
                      && (forall j :: k < j < |archives| ==> archives[j].originalUrl != url)
                      && link.snapshotUrl == Some(archives[k].snapshotUrl) && link.archivedAt == archives[k].createdAt)
  }

  lemma {:induction false} LinkToLast(archives: seq<Archive>, url: string, postedAt: Option<string>)
    ensures LinkedTo(LinkTo(archives, url, postedAt), url, postedAt, archives)
  {
    if archives != [] {
      var before, n := Init(archives), |archives| - 1;
      assert archives == before + [Last(archives)];
      LinkToLast(before, url, postedAt);
      if archives[n].originalUrl != url && exists a :: a in archives && a.originalUrl == url {
        var a :| a in archives && a.originalUrl == url;
        assert a in before;
        var k :| 0 <= k < |before| && before[k].originalUrl == url
                 && (forall j :: k < j < |before| ==> before[j].originalUrl != url)
                 && LinkTo(before, url, postedAt).snapshotUrl == Some(before[k].snapshotUrl)
                 && LinkTo(before, url, postedAt).archivedAt == before[k].createdAt;
        assert archives[k] == before[k];
        forall j | k < j < |archives| ensures archives[j].originalUrl != url {
          if j < n {
            assert before[j] == archives[j];
          }
        }
      }
    }
  }

  /** The names of the capture tags. */
  lemma {:induction false} CaptureNamesAre(tags: seq<LegacyTag>)
    ensures forall n :: n in CaptureNames(tags)
                   <==> exists i :: 0 <= i < |tags| && tags[i] == LegacyTag(tags[i].id, n, "capture_source")
  {
    if tags != [] {
      var before := Init(tags);
      CaptureNamesAre(before);
      assert tags == before + [Last(tags)];
      forall n ensures n in CaptureNames(tags)
                       <==> exists i :: 0 <= i < |tags| && tags[i] == LegacyTag(tags[i].id, n, "capture_source")
      {
        if n in CaptureNames(before) {
          var i :| 0 <= i < |before| && before[i] == LegacyTag(before[i].id, n, "capture_source");
          assert tags[i] == before[i];
        }
      }
    }
  }

  /** The tags that stay of a list are those of its parts in turn. */
  lemma {:induction false} OtherTagsJoin(a: seq<LegacyTag>, b: seq<LegacyTag>)
    ensures OtherTags(a + b) == OtherTags(a) + OtherTags(b)
  {
    if b == [] {
      assert a + b == a;
    } else {
      var t := Last(b);
      var before, tail := OtherTags(Init(b)), if t.category == "capture_source" then [] else [Tag(t.id, t.name)];
      OtherTagsJoin(a, Init(b));
      assert Init(a + b) == a + Init(b) && Last(a + b) == t;
      Regroup(OtherTags(a), before, tail);
    }
  }

  /** And of one tag, its id and name exactly when it is not a capture tag. */
  lemma OneOtherTag(t: LegacyTag)
    ensures OtherTags([]) == [] && OtherTags([t]) == if t.category != "capture_source" then [Tag(t.id, t.name)] else []
  {
    assert Init([t]) == [];
  }

  /** The upgraded sources: one for the source link and the media, if there is either, and one per secondary URL
      there is room for. */
  lemma UpgradedSources(was: Legacy)
    ensures var sources := ToSources(was).sources;
            var linked := was.sourceUrl.Some? && was.sourceUrl.value != "";
            var heads := if linked || was.sourceMedia != [] then 1 else 0;
            var room := 10 - heads;
            && |sources| == heads + (if |was.secondary| <= room then |was.secondary| else room)
            && (heads == 1 ==> UpgradedHead(sources[0], was, linked))
            && forall k :: heads <= k < |sources| ==> UpgradedOther(sources[k], was.secondary[k - heads], was)
    ensures ToSources(was).proofMedia == was.proofMedia && ToSources(was).rest == was.rest
    ensures ToSources(was).tags == OtherTags(was.tags)
  {
    var sources, others := ToSources(was).sources, Secondaries(Plain(was.archives, Room(was)), was.isGraphic);
    var head := if HasMain(was) then [Main(was)] else [];
    assert sources == head + others;
    if HasMain(was) {
      UpgradedMain(was);
    }
    LinkToLastAll(was);
    forall k | |head| <= k < |sources| ensures UpgradedOther(sources[k], was.secondary[k - |head|], was) {
      assert sources[k] == others[k - |head|];
      assert sources[k] == Secondary(LinkTo(was.archives, was.secondary[k - |head|], None), was.isGraphic);
    }
  }

  lemma UpgradedMain(was: Legacy)
    requires HasMain(was)
    ensures UpgradedHead(Main(was), was, was.sourceUrl.Some? && was.sourceUrl.value != "")
  {
    LinkToLastAll(was);
  }

  lemma LinkToLastAll(was: Legacy)
    ensures was.sourceUrl.Some? ==>
              var url := was.sourceUrl.value;
              LinkedTo(LinkTo(was.archives, url, was.postedAt), url, was.postedAt, was.archives)
    ensures forall k :: 0 <= k < |was.secondary| ==>
              LinkedTo(LinkTo(was.archives, was.secondary[k], None), was.secondary[k], None, was.archives)
  {
    if was.sourceUrl.Some? {
      LinkToLast(was.archives, was.sourceUrl.value, was.postedAt);
    }
    forall k | 0 <= k < |was.secondary|
      ensures LinkedTo(LinkTo(was.archives, was.secondary[k], None), was.secondary[k], None, was.archives)
    {
      LinkToLast(was.archives, was.secondary[k], None);
    }
  }

  ghost predicate UpgradedHead(s: Source, was: Legacy, linked: bool)
    requires linked ==> was.sourceUrl.Some?
  {
    && s.title == "" && s.level == "direct" && s.capturedAt.None? && s.position == was.position
    && s.isGraphic == was.isGraphic && s.tags == []
    && s.media == (if was.sourceMedia == [] then None else Some(was.sourceMedia[0]))
    && s.kind == CaptureKind(CaptureNames(was.tags))
    && |s.links| == (if linked then 1 else 0)
    && (linked ==> LinkedTo(s.links[0], was.sourceUrl.value, was.postedAt, was.archives))
  }

  ghost predicate UpgradedOther(s: Source, url: string, was: Legacy) {
    && s.title == "" && s.level == "direct" && s.kind == "unknown" && s.capturedAt.None? && s.position.None?
    && s.isGraphic == was.isGraphic && s.tags == [] && s.media.None?
    && |s.links| == 1 && LinkedTo(s.links[0], url, None, was.archives)
  }

  predicate HasCapture(tags: seq<LegacyTag>, name: string) {
    exists i :: 0 <= i < |tags| && tags[i] == LegacyTag(tags[i].id, name, "capture_source")
  }

  /** The main source's kind: that of the capture tag first by name, Unknown last, and unknown without one. */
  lemma UpgradedKind(was: Legacy) returns (name: Option<string>)
    ensures name.None? ==> CaptureKind(CaptureNames(was.tags)) == "unknown"
                           && forall i :: 0 <= i < |was.tags| ==> was.tags[i].category != "capture_source"
    ensures name.Some? ==> CaptureKind(CaptureNames(was.tags)) == KindOf(name.value)
                           && HasCapture(was.tags, name.value)
                           && forall other :: HasCapture(was.tags, other) && other != name.value ==>
                                if other == "Unknown" || name.value == "Unknown" then other == "Unknown"
                                else Before(name.value, other)
  {
    var names := CaptureNames(was.tags);
    CaptureNamesAre(was.tags);
    forall i | 0 <= i < |was.tags| && was.tags[i].category == "capture_source" ensures was.tags[i].name in names {
      assert was.tags[i] == LegacyTag(was.tags[i].id, was.tags[i].name, "capture_source");
    }
    if names == [] {
      name := None;
    } else {
      ChosenIsLeast(names);
      name := Some(Chosen(names));
    }
  }
}

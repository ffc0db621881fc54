/** The two shapes of an event version's snapshot, before and after sources became rows of their own,
    and the conversions between them. A list that is absent or null is the empty list here. */
module EventSources {
  import opened Basics

  const MAX_SECONDARY_LINKS := 10
  const MAX_SOURCES_PER_EVENT := 10

  type Media = map<string, string>

  datatype Archive = Archive(originalUrl: string, origin: string, snapshotUrl: string, provider: string,
                             createdAt: Option<string>)

  datatype LegacyTag = LegacyTag(id: string, name: string, category: string)

  datatype Legacy = Legacy(sourceUrl: Option<string>, sourceMedia: seq<Media>, position: Option<string>,
                           postedAt: Option<string>, isGraphic: bool, secondary: seq<string>, archives: seq<Archive>,
                           tags: seq<LegacyTag>, proofMedia: Option<seq<Media>>, rest: map<string, string>)

  datatype Link = Link(url: string, postedAt: Option<string>, snapshotUrl: Option<string>, archivedAt: Option<string>)

  datatype Source = Source(title: string, level: string, kind: string, capturedAt: Option<string>,
                           position: Option<string>,
                           isGraphic: bool, links: seq<Link>, tags: seq<string>, media: Option<Media>)

  datatype Tag = Tag(id: string, name: string)

  datatype Snapshot = Snapshot(sources: seq<Source>, tags: seq<Tag>, proofMedia: Option<seq<Media>>,
                               rest: map<string, string>)

  // ---- Capture tags and source kinds

  const TAG_NAMES := {"Smartphone", "Satellite", "Drone", "Static camera", "Dashcam", "Body / helmet cam", "Unknown"}

  function KindOf(name: string): string {
    if name == "Smartphone" then "smartphone"
    else if name == "Satellite" then "satellite"
    else if name == "Drone" then "drone"
    else if name == "Static camera" then "static_camera"
    else if name == "Dashcam" then "dashcam"
    else if name == "Body / helmet cam" then "body_cam"
    else "unknown"
  }

  function TagOf(kind: string): string {
    if kind == "smartphone" then "Smartphone"
    else if kind == "satellite" then "Satellite"
    else if kind == "drone" then "Drone"
    else if kind == "static_camera" then "Static camera"
    else if kind == "dashcam" then "Dashcam"
    else if kind == "body_cam" then "Body / helmet cam"
    else "Unknown"
  }

  /** The frozen table is one to one: a known name survives the trip through its kind, and any other
      comes back as Unknown. */
  lemma NamesSurvive(name: string)
    ensures TagOf(KindOf(name)) == if name in TAG_NAMES then name else "Unknown"
    ensures KindOf(TagOf(KindOf(name))) == KindOf(name) != ""
  {
  }

  /** A capture name's place in the order: Unknown last, the others by code point. */
  predicate Ranks(a: string, b: string) {
    if (a == "Unknown") != (b == "Unknown") then b == "Unknown" else Before(a, b)
  }

  /** The first of the names once sorted. */
  function Chosen(names: seq<string>): string
    requires names != []
  {
    if |names| == 1 then names[0]
    else
      var best := Chosen(Init(names));
      if Ranks(Last(names), best) then Last(names) else best
  }

  lemma {:induction false} ChosenIsLeast(names: seq<string>)
    requires names != []
    ensures Chosen(names) in names
    ensures forall n :: n in names ==> n == Chosen(names) || Ranks(Chosen(names), n)
  {
    if |names| == 1 {
      assert names == [names[0]];
    } else {
      ChosenIsLeast(Init(names));
      var best := Chosen(Init(names));
      assert names == Init(names) + [Last(names)];
      BeforeTotal(Last(names), best);
      forall n | n in names ensures n == Chosen(names) || Ranks(Chosen(names), n) {
        if n in Init(names) && n != best && Chosen(names) == Last(names) != best {
          if (best == "Unknown") == (n == "Unknown") == (Last(names) == "Unknown") {
            BeforeTransitive(Last(names), best, n);
          }
        }
      }
    }
  }

  // ---- Legacy to sources

  /** The archive of a URL; when several claim it the last one wins. */
  function Archived(archives: seq<Archive>, url: string): Option<Archive> {
    if archives == [] then None
    else if Last(archives).originalUrl == url then Some(Last(archives))
    else Archived(Init(archives), url)
  }

  function LinkTo(archives: seq<Archive>, url: string, postedAt: Option<string>): Link {
    match Archived(archives, url)
    case Some(a) => Link(url, postedAt, Some(a.snapshotUrl), a.createdAt)
    case None => Link(url, postedAt, None, None)
  }

  function Plain(archives: seq<Archive>, urls: seq<string>): (links: seq<Link>)
    ensures |links| == |urls|
    ensures forall i :: 0 <= i < |urls| ==> links[i] == LinkTo(archives, urls[i], None)
  {
    seq(|urls|, i requires 0 <= i < |urls| => LinkTo(archives, urls[i], None))
  }

  function CaptureNames(tags: seq<LegacyTag>): seq<string> {
    if tags == [] then []
    else CaptureNames(Init(tags)) + if Last(tags).category == "capture_source" then [Last(tags).name] else []
  }

  function OtherTags(tags: seq<LegacyTag>): seq<Tag> {
    if tags == [] then []
    else OtherTags(Init(tags)) + if Last(tags).category == "capture_source" then []
                                 else [Tag(Last(tags).id, Last(tags).name)]
  }

  function CaptureKind(names: seq<string>): string {
    if names == [] then "unknown" else KindOf(Chosen(names))
  }

  predicate HasUrl(was: Legacy) {
    was.sourceUrl.Some? && was.sourceUrl.value != ""
  }

  /** Whether a legacy snapshot has a main source. */
  predicate HasMain(was: Legacy) {
    HasUrl(was) || was.sourceMedia != []
  }

  function Main(was: Legacy): Source
    requires HasMain(was)
  {
    Source("", "direct", CaptureKind(CaptureNames(was.tags)), None, was.position, was.isGraphic,
           if HasUrl(was) then [LinkTo(was.archives, was.sourceUrl.value, was.postedAt)] else [], [],
           if was.sourceMedia != [] then Some(was.sourceMedia[0]) else None)
  }

  function Secondary(link: Link, isGraphic: bool): Source {
    Source("", "direct", "unknown", None, None, isGraphic, [link], [], None)
  }

  function Secondaries(links: seq<Link>, isGraphic: bool): (sources: seq<Source>)
    ensures |sources| == |links|
    ensures forall i :: 0 <= i < |links| ==> sources[i] == Secondary(links[i], isGraphic)
  {
    seq(|links|, i requires 0 <= i < |links| => Secondary(links[i], isGraphic))
  }

  function Take(urls: seq<string>, n: nat): seq<string> {
    if |urls| <= n then urls else urls[..n]
  }

  /** The secondary links there is room for. */
  function Room(was: Legacy): seq<string> {
    Take(was.secondary, if HasMain(was) then MAX_SOURCES_PER_EVENT - 1 else MAX_SOURCES_PER_EVENT)
  }

  function SourcesOf(was: Legacy): seq<Source> {
    (if HasMain(was) then [Main(was)] else []) + Secondaries(Plain(was.archives, Room(was)), was.isGraphic)
  }

  function ToSources(was: Legacy): Snapshot {
    Snapshot(SourcesOf(was), OtherTags(was.tags), was.proofMedia, was.rest)
  }

  // ---- Sources to legacy

  predicate HasMedia(s: Source) {
    s.media.Some? && s.media.value != map[]
  }

  /** The primary source: the first with media, else the first. */
  function Primary(sources: seq<Source>, from: nat): (p: nat)
    requires from <= |sources| && sources != []
    ensures p < |sources|
    decreases |sources| - from
  {
    if from == |sources| then 0 else if HasMedia(sources[from]) then from else Primary(sources, from + 1)
  }

  function PrimaryFirst(sources: seq<Source>): seq<Source> {
    if sources == [] then []
    else
      var p := Primary(sources, 0);
      [sources[p]] + sources[..p] + sources[p + 1..]
  }

  function LinksOf(sources: seq<Source>): seq<Link> {
    if sources == [] then [] else LinksOf(Init(sources)) + Last(sources).links
  }

  /** The links after the source link, without repeats, up to the cap. */
  function Others(links: seq<Link>, sourceUrl: Option<string>): seq<string> {
    if links == [] then []
    else
      var before, url := Others(Init(links), sourceUrl), Last(links).url;
      if Some(url) != sourceUrl && url !in before && |before| < MAX_SECONDARY_LINKS then before + [url] else before
  }

  function Provider(snapshotUrl: string): string {
    if "https://web.archive.org/" <= snapshotUrl then "wayback"
    else if "https://ghostarchive.org/" <= snapshotUrl then "ghostarchive"
    else "archive_today"
  }

  function Origin(url: string, sourceUrl: Option<string>): string {
    if Some(url) == sourceUrl then "source_url" else "secondary_source"
  }

  predicate Snapped(link: Link) {
    link.snapshotUrl.Some? && link.snapshotUrl.value != ""
  }

  function ArchiveOf(link: Link, sourceUrl: Option<string>): Archive
    requires Snapped(link)
  {
    Archive(link.url, Origin(link.url, sourceUrl), link.snapshotUrl.value, Provider(link.snapshotUrl.value),
            link.archivedAt)
  }

  /** The URLs whose archives are carried over. */
  predicate Kept(url: string, sourceUrl: Option<string>, secondary: seq<string>) {
    url != "" && (Some(url) == sourceUrl || url in secondary)
  }

  /** The first snapshot of each kept URL. */
  function Archives(links: seq<Link>, sourceUrl: Option<string>, secondary: seq<string>): map<string, Archive> {
    if links == [] then map[]
    else
      var before, link := Archives(Init(links), sourceUrl, secondary), Last(links);
      if Kept(link.url, sourceUrl, secondary) && Snapped(link) && link.url !in before
      then before[link.url := ArchiveOf(link, sourceUrl)] else before
  }

  predicate IsFirst(u: string, urls: set<string>) {
    u in urls && forall v :: v in urls ==> v == u || Before(u, v)
  }

  lemma {:induction false} FirstExists(urls: set<string>)
    requires urls != {}
    ensures exists u :: IsFirst(u, urls)
  {
    var x :| x in urls;
    var rest := urls - {x};
    if rest == {} {
      assert urls == {x};
      assert IsFirst(x, urls);
    } else {
      FirstExists(rest);
      var m :| IsFirst(m, rest);
      BeforeTotal(x, m);
      forall v | v in rest && Before(x, m) ensures Before(x, v) {
        if v != m {
          BeforeTransitive(x, m, v);
        }
      }
      assert IsFirst(if Before(x, m) then x else m, urls);
    }
  }

  lemma FirstUnique(urls: set<string>, u: string, v: string)
    requires IsFirst(u, urls) && IsFirst(v, urls)
    ensures u == v
  {
    if u != v {
      BeforeTransitive(u, v, u);
      BeforeIrreflexive(u);
    }
  }

  function First(urls: set<string>): (u: string)
    requires urls != {}
    ensures IsFirst(u, urls)
  {
    FirstExists(urls);
    assert forall u, v :: IsFirst(u, urls) && IsFirst(v, urls) ==> u == v by {
      forall u, v | IsFirst(u, urls) && IsFirst(v, urls) ensures u == v {
        FirstUnique(urls, u, v);
      }
    }
    var u :| u in urls && IsFirst(u, urls);
    u
  }

  function Sorted(archives: map<string, Archive>): seq<Archive>
    decreases |archives|
  {
    if archives == map[] then []
    else
      var u := First(archives.Keys);
      [archives[u]] + Sorted(archives - {u})
  }

  function AsFree(tags: seq<Tag>): (legacy: seq<LegacyTag>)
    ensures |legacy| == |tags|
    ensures forall i :: 0 <= i < |tags| ==> legacy[i] == LegacyTag(tags[i].id, tags[i].name, "free")
  {
    seq(|tags|, i requires 0 <= i < |tags| => LegacyTag(tags[i].id, tags[i].name, "free"))
  }

  function CaptureTag(kind: string, ids: string -> string): LegacyTag
  {
    LegacyTag(ids(TagOf(kind)), TagOf(kind), "capture_source")
  }

  function SourceLink(sources: seq<Source>): Option<Link> {
    if sources == [] || sources[Primary(sources, 0)].links == [] then None
    else Some(sources[Primary(sources, 0)].links[0])
  }

  predicate AnyGraphic(sources: seq<Source>) {
    exists s :: s in sources && s.isGraphic
  }

  function ToLegacy(snapshot: Snapshot, ids: string -> string): Legacy
  {
    var sources := snapshot.sources;
    var links := LinksOf(PrimaryFirst(sources));
    var link := SourceLink(sources);
    var sourceUrl := if link.Some? then Some(link.value.url) else None;
    var secondary := Others(links, sourceUrl);
    var archives := Sorted(Archives(links, sourceUrl, secondary));
    if sources == [] then Legacy(None, [], None, None, false, secondary, archives, AsFree(snapshot.tags),
                                 snapshot.proofMedia, snapshot.rest)
    else
      var p := sources[Primary(sources, 0)];
      Legacy(sourceUrl, if HasMedia(p) then [p.media.value] else [], p.position,
             if link.Some? then link.value.postedAt else None, AnyGraphic(sources), secondary, archives,
             AsFree(snapshot.tags) + if p.kind != "" then [CaptureTag(p.kind, ids)] else [],
             snapshot.proofMedia, snapshot.rest)
  }

  // ---- The sorted archives

  predicate StrictlySorted(archives: seq<Archive>) {
    forall i, j :: 0 <= i < j < |archives| ==> Before(archives[i].originalUrl, archives[j].originalUrl)
  }

  ghost predicate Keyed(archives: map<string, Archive>) {
    forall u :: u in archives ==> archives[u].originalUrl == u
  }

  /** `list` holds the map's archives and nothing else. */
  ghost predicate Lists(list: seq<Archive>, archives: map<string, Archive>) {
    && (forall a :: a in list ==> a.originalUrl in archives && archives[a.originalUrl] == a)
    && (forall u :: u in archives ==> archives[u] in list)
  }

  lemma SortedCons(a: Archive, list: seq<Archive>)
    requires StrictlySorted(list) && forall x :: x in list ==> Before(a.originalUrl, x.originalUrl)
    ensures StrictlySorted([a] + list)
  {
  }

  lemma ListsCons(list: seq<Archive>, archives: map<string, Archive>, u: string)
    requires Keyed(archives) && u in archives && Lists(list, archives - {u})
    ensures Lists([archives[u]] + list, archives)
  {
    forall v | v in archives ensures archives[v] in [archives[u]] + list {
      assert v != u ==> v in archives - {u} && (archives - {u})[v] in list;
    }
  }

  lemma {:induction false} SortedLists(archives: map<string, Archive>)
    requires Keyed(archives)
    ensures StrictlySorted(Sorted(archives)) && Lists(Sorted(archives), archives)
    decreases |archives|
  {
    if archives != map[] {
      var u := First(archives.Keys);
      SortedLists(archives - {u});
      SortedCons(archives[u], Sorted(archives - {u}));
      ListsCons(Sorted(archives - {u}), archives, u);
    }
  }

  lemma HeadIsFirst(list: seq<Archive>, archives: map<string, Archive>)
    requires Keyed(archives) && StrictlySorted(list) && Lists(list, archives) && archives != map[]
    ensures list != [] && list[0] == archives[First(archives.Keys)]
  {
    var u := First(archives.Keys);
    var k :| 0 <= k < |list| && list[k] == archives[u];
    if k != 0 {
      assert list[0] in list;
      BeforeTransitive(list[0].originalUrl, u, list[0].originalUrl);
      BeforeIrreflexive(list[0].originalUrl);
    }
  }

  lemma TailLists(list: seq<Archive>, archives: map<string, Archive>, u: string)
    requires Keyed(archives) && StrictlySorted(list) && Lists(list, archives)
    requires list != [] && u in archives && list[0] == archives[u]
    ensures StrictlySorted(list[1..]) && Lists(list[1..], archives - {u})
  {
    forall a | a in list[1..] ensures a in list && a.originalUrl != u {
      BeforeIrreflexive(u);
    }
    forall v | v in archives - {u} ensures archives[v] in list[1..] {
      assert archives[v] in list && archives[v] != list[0];
    }
  }

  /** There is one sorted list of a map's archives. */
  lemma {:induction false} SortedUnique(list: seq<Archive>, archives: map<string, Archive>)
    requires Keyed(archives) && StrictlySorted(list) && Lists(list, archives)
    ensures Sorted(archives) == list
    decreases list
  {
    if list == [] {
      assert archives == map[];
    } else {
      assert list[0] in list;
      var u := First(archives.Keys);
      HeadIsFirst(list, archives);
      TailLists(list, archives, u);
      SortedUnique(list[1..], archives - {u});
      assert Sorted(archives) == [archives[u]] + Sorted(archives - {u});
    }
  }

  lemma {:induction false} ArchivedFinds(list: seq<Archive>, url: string)
    requires StrictlySorted(list)
    ensures forall a :: a in list && a.originalUrl == url ==> Archived(list, url) == Some(a)
    ensures Archived(list, url).Some? ==>
            Archived(list, url).value in list && Archived(list, url).value.originalUrl == url
  {
    if list != [] {
      ArchivedFinds(Init(list), url);
      assert list == Init(list) + [Last(list)];
      forall a | a in Init(list) ensures a.originalUrl != Last(list).originalUrl {
        BeforeIrreflexive(a.originalUrl);
      }
    }
  }

  /** What the carried archives are: each is the snapshot of a kept link. */
  lemma {:induction false} ArchivesHold(links: seq<Link>, sourceUrl: Option<string>, secondary: seq<string>)
    ensures Keyed(Archives(links, sourceUrl, secondary))
    ensures forall u :: u in Archives(links, sourceUrl, secondary) ==>
              && Kept(u, sourceUrl, secondary)
              && exists link :: link in links && link.url == u && Snapped(link)
                                && Archives(links, sourceUrl, secondary)[u] == ArchiveOf(link, sourceUrl)
  {
    if links != [] {
      ArchivesHold(Init(links), sourceUrl, secondary);
      assert links == Init(links) + [Last(links)];
      assert Last(links) in links;
    }
  }

  function Urls(links: seq<Link>): (urls: seq<string>)
    ensures |urls| == |links|
    ensures forall i :: 0 <= i < |links| ==> urls[i] == links[i].url
  {
    seq(|links|, i requires 0 <= i < |links| => links[i].url)
  }

  /** With distinct URLs, every kept link keeps its own snapshot. */
  lemma {:induction false} ArchivesFind(links: seq<Link>, sourceUrl: Option<string>, secondary: seq<string>, i: nat)
    requires Distinct(Urls(links)) && i < |links|
    ensures links[i].url in Archives(links, sourceUrl, secondary)
            <==> Kept(links[i].url, sourceUrl, secondary) && Snapped(links[i])
    ensures links[i].url in Archives(links, sourceUrl, secondary) ==>
              Archives(links, sourceUrl, secondary)[links[i].url] == ArchiveOf(links[i], sourceUrl)
  {
    var n := |links| - 1;
    assert Urls(Init(links)) == Init(Urls(links));
    if i < n {
      assert Urls(links)[i] != Urls(links)[n];
      ArchivesFind(Init(links), sourceUrl, secondary, i);
    } else {
      ArchivesHold(Init(links), sourceUrl, secondary);
      forall j | 0 <= j < n ensures Init(links)[j].url != links[n].url {
        assert Urls(links)[j] != Urls(links)[n];
      }
    }
  }

  // ---- The sources a legacy snapshot becomes

  /** A first source, with a link or media, and then one secondary source per further link. */
  ghost predicate Imaged(sources: seq<Source>) {
    sources != [] ==>
      && |sources| <= MAX_SOURCES_PER_EVENT && Headed(sources[0])
      && forall i :: 0 < i < |sources| ==> Follows(sources[i], sources[0].isGraphic)
  }

  predicate Stamped(link: Link) {
    link.snapshotUrl.None? ==> link.archivedAt.None?
  }

  predicate Bare(s: Source) {
    s.title == "" && s.level == "direct" && s.capturedAt.None? && s.tags == []
  }

  predicate Headed(s: Source) {
    && Bare(s) && s.kind == KindOf(TagOf(s.kind))
    && |s.links| <= 1 && (s.links != [] || s.media.Some?) && forall link :: link in s.links ==> Stamped(link)
  }

  predicate Follows(s: Source, isGraphic: bool) {
    |s.links| == 1 && s.links[0].postedAt.None? && Stamped(s.links[0]) && s == Secondary(s.links[0], isGraphic)
  }

  lemma SecondariesFollow(was: Legacy)
    ensures forall s :: s in Secondaries(Plain(was.archives, Room(was)), was.isGraphic) ==> Follows(s, was.isGraphic)
    ensures |Room(was)| <= MAX_SOURCES_PER_EVENT - if HasMain(was) then 1 else 0
  {
  }

  lemma UnknownKind()
    ensures "unknown" == KindOf(TagOf("unknown"))
  {
  }

  lemma MainHeads(was: Legacy)
    requires HasMain(was)
    ensures Headed(Main(was)) && Main(was).isGraphic == was.isGraphic
  {
  }

  lemma SourcesImaged(was: Legacy)
    ensures Imaged(SourcesOf(was))
    ensures forall s :: s in SourcesOf(was) ==> s.isGraphic == was.isGraphic
  {
    UnknownKind();
    SecondariesFollow(was);
    var rest := Secondaries(Plain(was.archives, Room(was)), was.isGraphic);
    forall i | 0 <= i < |rest| ensures rest[i] in rest {
    }
    if HasMain(was) {
      MainHeads(was);
      assert SourcesOf(was) == [Main(was)] + rest;
    } else {
      assert SourcesOf(was) == rest;
    }
  }

  lemma PrimaryIsFirst(sources: seq<Source>, from: nat)
    requires Imaged(sources) && sources != [] && from <= |sources|
    requires from > 0 ==> !HasMedia(sources[0])
    ensures Primary(sources, from) == 0
    decreases |sources| - from
  {
    if 0 < from < |sources| {
      PrimaryIsFirst(sources, from + 1);
    } else if from == 0 && !HasMedia(sources[0]) {
      PrimaryIsFirst(sources, 1);
    }
  }

  lemma ImagedPrimary(sources: seq<Source>)
    requires Imaged(sources) && sources != []
    ensures Primary(sources, 0) == 0 && PrimaryFirst(sources) == sources
  {
    PrimaryIsFirst(sources, 0);
  }

  // ---- The other links

  lemma {:induction false} OthersHold(links: seq<Link>, sourceUrl: Option<string>)
    ensures Distinct(Others(links, sourceUrl)) && |Others(links, sourceUrl)| <= MAX_SECONDARY_LINKS
    ensures |Others(links, sourceUrl)| <= |links|
    ensures links != [] && sourceUrl == Some(links[0].url) ==> |Others(links, sourceUrl)| < |links|
    ensures forall u :: u in Others(links, sourceUrl) ==> Some(u) != sourceUrl && u in Urls(links)
  {
    if links != [] {
      OthersHold(Init(links), sourceUrl);
      assert Urls(links) == Urls(Init(links)) + [Last(links).url];
    }
  }

  /** With distinct URLs and room for all, they are the links after the source link. */
  lemma {:induction false} OthersExact(links: seq<Link>, sourceUrl: Option<string>)
    requires Distinct(Urls(links)) && |links| <= MAX_SECONDARY_LINKS
    requires sourceUrl.Some? ==> links != [] && links[0].url == sourceUrl.value
    ensures Others(links, sourceUrl) == if sourceUrl.Some? then Urls(links)[1..] else Urls(links)
  {
    if links != [] && (sourceUrl.None? || |links| > 1) {
      var url := Last(links).url;
      assert Urls(links) == Urls(Init(links)) + [url];
      forall i | 0 <= i < |links| - 1 ensures Urls(Init(links))[i] != url {
        assert Urls(links)[i] != Urls(links)[|links| - 1];
      }
      OthersExact(Init(links), sourceUrl);
    } else if links != [] {
      assert Others(Init(links), sourceUrl) == [];
    }
  }

  // ---- The tags

  lemma {:induction false} FreeTagsForward(tags: seq<Tag>)
    ensures OtherTags(AsFree(tags)) == tags && CaptureNames(AsFree(tags)) == []
  {
    if tags != [] {
      FreeTagsForward(Init(tags));
      assert Init(AsFree(tags)) == AsFree(Init(tags));
    }
  }

  lemma TagsForward(tags: seq<Tag>, capture: LegacyTag)
    requires capture.category == "capture_source"
    ensures OtherTags(AsFree(tags) + [capture]) == tags
    ensures CaptureNames(AsFree(tags) + [capture]) == [capture.name]
  {
    FreeTagsForward(tags);
    assert Init(AsFree(tags) + [capture]) == AsFree(tags);
  }

  /** Free tags, then one capture tag with a known name and its own id if there is a main source. */
  predicate WellTagged(tags: seq<LegacyTag>, main: bool, ids: string -> string) {
    if main then
      && tags != [] && (forall i :: 0 <= i < |tags| - 1 ==> tags[i].category == "free")
      && Last(tags).name in TAG_NAMES
      && Last(tags) == LegacyTag(ids(Last(tags).name), Last(tags).name, "capture_source")
    else forall t :: t in tags ==> t.category == "free"
  }

  lemma {:induction false} FreeTagsBack(tags: seq<LegacyTag>)
    requires forall t :: t in tags ==> t.category == "free"
    ensures AsFree(OtherTags(tags)) == tags && CaptureNames(tags) == []
  {
    if tags != [] {
      FreeTagsBack(Init(tags));
      assert tags == Init(tags) + [Last(tags)];
    }
  }

  /** The tags after the trip there and back, main source or not. */
  function TagsRound(tags: seq<LegacyTag>, main: bool, ids: string -> string): seq<LegacyTag>
  {
    AsFree(OtherTags(tags)) + if main then [CaptureTag(CaptureKind(CaptureNames(tags)), ids)] else []
  }

  lemma WellTaggedReturns(tags: seq<LegacyTag>, main: bool, ids: string -> string)
    requires WellTagged(tags, main, ids)
    ensures TagsRound(tags, main, ids) == tags
  {
    if main {
      forall t | t in Init(tags) ensures t.category == "free" {
      }
      FreeTagsBack(Init(tags));
      NamesSurvive(Last(tags).name);
      assert CaptureNames(tags) == [Last(tags).name];
      assert tags == Init(tags) + [Last(tags)];
    } else {
      FreeTagsBack(tags);
    }
  }

  lemma ReturnedIsWellTagged(free: seq<Tag>, kind: string, main: bool, ids: string -> string)
    ensures WellTagged(AsFree(free) + if main then [CaptureTag(kind, ids)] else [], main, ids)
  {
  }

  // ---- Sources to legacy and back

  /** The sources are the first and one secondary per link of `rest`. */
  ghost predicate Continues(sources: seq<Source>, rest: seq<Link>) {
    && sources != [] && |sources[0].links| <= 1 && |rest| < MAX_SOURCES_PER_EVENT
    && sources == [sources[0]] + Secondaries(rest, sources[0].isGraphic)
    && LinksOf(sources) == sources[0].links + rest
    && forall link :: link in rest ==> link.postedAt.None? && Stamped(link)
  }

  lemma ContinuesMore(sources: seq<Source>, before: seq<Link>)
    requires |sources| > 1 && Continues(Init(sources), before) && Follows(Last(sources), sources[0].isGraphic)
    requires |before| + 1 < MAX_SOURCES_PER_EVENT
    ensures Continues(sources, before + Last(sources).links)
  {
  }

  lemma {:induction false} Decompose(sources: seq<Source>) returns (rest: seq<Link>)
    requires Imaged(sources) && sources != []
    ensures Continues(sources, rest) && |rest| == |sources| - 1
  {
    if |sources| == 1 {
      rest := [];
      assert LinksOf(Init(sources)) == [];
      assert Secondaries(rest, sources[0].isGraphic) == [];
    } else {
      var before := Decompose(Init(sources));
      ContinuesMore(sources, before);
      rest := before + Last(sources).links;
    }
  }

  function OwnUrl(own: seq<Link>): Option<string> {
    if own == [] then None else Some(own[0].url)
  }

  /** What an imaged snapshot comes back as: `head` is its first source, `rest` the links after its own. */
  function Returned(head: Source, rest: seq<Link>, snapshot: Snapshot, ids: string -> string): Legacy {
    var sourceUrl := OwnUrl(head.links);
    var secondary := Others(head.links + rest, sourceUrl);
    Legacy(sourceUrl, if HasMedia(head) then [head.media.value] else [], head.position,
           if head.links == [] then None else head.links[0].postedAt, head.isGraphic, secondary,
           Sorted(Archives(head.links + rest, sourceUrl, secondary)),
           AsFree(snapshot.tags) + [CaptureTag(head.kind, ids)], snapshot.proofMedia, snapshot.rest)
  }

  lemma HeadedKind(s: Source)
    requires Headed(s)
    ensures s.kind != ""
  {
  }

  lemma SameGraphic(sources: seq<Source>, rest: seq<Link>)
    requires Continues(sources, rest)
    ensures AnyGraphic(sources) == sources[0].isGraphic
  {
  }

  lemma LegacyIsReturned(snapshot: Snapshot, ids: string -> string) returns (rest: seq<Link>)
    requires Imaged(snapshot.sources) && snapshot.sources != []
    ensures Continues(snapshot.sources, rest)
    ensures ToLegacy(snapshot, ids) == Returned(snapshot.sources[0], rest, snapshot, ids)
  {
    rest := Decompose(snapshot.sources);
    HeadedKind(snapshot.sources[0]);
    SameGraphic(snapshot.sources, rest);
    ImagedPrimary(snapshot.sources);
  }

  /** Looking a URL up in the sorted archives is looking it up in the map. */
  lemma LookUp(links: seq<Link>, sourceUrl: Option<string>, secondary: seq<string>, url: string)
    ensures var archives := Archives(links, sourceUrl, secondary);
            Archived(Sorted(archives), url) == if url in archives then Some(archives[url]) else None
  {
    ArchivesHold(links, sourceUrl, secondary);
    SortedLists(Archives(links, sourceUrl, secondary));
    ArchivedFinds(Sorted(Archives(links, sourceUrl, secondary)), url);
  }

  lemma LinkRestored(links: seq<Link>, sourceUrl: Option<string>, secondary: seq<string>, i: nat,
                     postedAt: Option<string>)
    requires Distinct(Urls(links)) && i < |links| && Stamped(links[i])
    requires links[i].snapshotUrl.Some? ==> Snapped(links[i]) && Kept(links[i].url, sourceUrl, secondary)
    ensures LinkTo(Sorted(Archives(links, sourceUrl, secondary)), links[i].url, postedAt)
            == links[i].(postedAt := postedAt)
  {
    ArchivesFind(links, sourceUrl, secondary, i);
    LookUp(links, sourceUrl, secondary, links[i].url);
  }

  predicate Safe(link: Link) {
    link.snapshotUrl.Some? ==> Snapped(link) && link.url != ""
  }

  /** When a snapshot in the sources shape survives: distinct URLs, a source URL that is not empty, no
      empty snapshot URL, and no snapshot of an empty URL. */
  ghost predicate SafeLinks(own: seq<Link>, rest: seq<Link>) {
    && Distinct(Urls(own + rest))
    && (own != [] ==> own[0].url != "")
    && (forall link :: link in own ==> Safe(link))
    && (forall link :: link in rest ==> Safe(link))
  }

  lemma OthersAreRest(own: seq<Link>, rest: seq<Link>)
    requires |own| <= 1 && |rest| < MAX_SECONDARY_LINKS && Distinct(Urls(own + rest))
    ensures Others(own + rest, OwnUrl(own)) == Urls(rest)
  {
    OthersExact(own + rest, OwnUrl(own));
    assert Urls(own + rest)[|own|..] == Urls(rest);
    assert own == [] ==> own + rest == rest;
  }

  lemma RestRestored(own: seq<Link>, rest: seq<Link>)
    requires SafeLinks(own, rest)
    requires forall link :: link in rest ==> link.postedAt.None? && Stamped(link)
    ensures Plain(Sorted(Archives(own + rest, OwnUrl(own), Urls(rest))), Urls(rest)) == rest
  {
    forall i | 0 <= i < |rest|
      ensures LinkTo(Sorted(Archives(own + rest, OwnUrl(own), Urls(rest))), rest[i].url, None) == rest[i]
    {
      assert (own + rest)[|own| + i] == rest[i] && rest[i] in rest && Urls(rest)[i] == rest[i].url;
      LinkRestored(own + rest, OwnUrl(own), Urls(rest), |own| + i, None);
    }
  }

  lemma OwnRestored(own: seq<Link>, rest: seq<Link>)
    requires SafeLinks(own, rest) && own != [] && Stamped(own[0])
    ensures LinkTo(Sorted(Archives(own + rest, OwnUrl(own), Urls(rest))), own[0].url, own[0].postedAt) == own[0]
  {
    assert (own + rest)[0] == own[0] && own[0] in own;
    LinkRestored(own + rest, OwnUrl(own), Urls(rest), 0, own[0].postedAt);
  }

  lemma KindRestored(tags: seq<Tag>, kind: string, ids: string -> string)
    requires kind == KindOf(TagOf(kind))
    ensures CaptureKind(CaptureNames(AsFree(tags) + [CaptureTag(kind, ids)])) == kind
  {
    TagsForward(tags, CaptureTag(kind, ids));
  }

  lemma RoomReturns(head: Source, rest: seq<Link>, snapshot: Snapshot, ids: string -> string)
    requires |head.links| <= 1 && SafeLinks(head.links, rest) && |rest| < MAX_SOURCES_PER_EVENT
    requires if head.links == [] then HasMedia(head) else true
    ensures var back := Returned(head, rest, snapshot, ids);
            && HasMain(back) && (HasUrl(back) <==> head.links != [])
            && Room(back) == Urls(rest) == back.secondary
  {
    OthersAreRest(head.links, rest);
    assert head.links != [] ==> head.links[0] in head.links;
  }

  /** A legacy snapshot whose main source reads as `head` field by field. */
  lemma MainIs(head: Source, back: Legacy)
    requires Bare(head) && HasMain(back) && CaptureKind(CaptureNames(back.tags)) == head.kind
    requires back.position == head.position && back.isGraphic == head.isGraphic
    requires head.links == if HasUrl(back) then [LinkTo(back.archives, back.sourceUrl.value, back.postedAt)] else []
    requires head.media == if back.sourceMedia != [] then Some(back.sourceMedia[0]) else None
    ensures Main(back) == head
  {
  }

  lemma MainReturns(head: Source, rest: seq<Link>, snapshot: Snapshot, ids: string -> string)
    requires Headed(head) && SafeLinks(head.links, rest) && (head.media.Some? ==> HasMedia(head))
    requires |rest| < MAX_SOURCES_PER_EVENT
    ensures HasMain(Returned(head, rest, snapshot, ids)) && Main(Returned(head, rest, snapshot, ids)) == head
  {
    var back := Returned(head, rest, snapshot, ids);
    RoomReturns(head, rest, snapshot, ids);
    KindRestored(snapshot.tags, head.kind, ids);
    if head.links != [] {
      OwnRestored(head.links, rest);
      assert head.links == [head.links[0]];
    }
    MainIs(head, back);
  }

  lemma SafeReturns(snapshot: Snapshot, ids: string -> string, rest: seq<Link>)
    requires Continues(snapshot.sources, rest) && Headed(snapshot.sources[0])
             && SafeLinks(snapshot.sources[0].links, rest)
    requires snapshot.sources[0].media.Some? ==> HasMedia(snapshot.sources[0])
    ensures ToSources(Returned(snapshot.sources[0], rest, snapshot, ids)) == snapshot
  {
    var head := snapshot.sources[0];
    MainReturns(head, rest, snapshot, ids);
    RoomReturns(head, rest, snapshot, ids);
    TagsForward(snapshot.tags, CaptureTag(head.kind, ids));
    RestRestored(head.links, rest);
  }

  /** What the trip back through legacy guarantees of the links it rebuilds. */
  lemma RebuiltLinks(links: seq<Link>, sourceUrl: Option<string>, secondary: seq<string>, url: string,
                     postedAt: Option<string>)
    ensures Safe(LinkTo(Sorted(Archives(links, sourceUrl, secondary)), url, postedAt))
  {
    LookUp(links, sourceUrl, secondary, url);
    ArchivesHold(links, sourceUrl, secondary);
  }

  /** Distinct secondary links, none of them the source's own. */
  lemma DistinctAfterOwn(own: seq<Link>, rest: seq<Link>)
    requires |own| <= 1 && Distinct(Urls(rest)) && forall u :: u in Urls(rest) ==> Some(u) != OwnUrl(own)
    ensures Distinct(Urls(own + rest))
  {
    var all, n := Urls(own + rest), |own|;
    forall i, j | 0 <= i < j < |all| ensures all[i] != all[j] {
      assert all[j] == Urls(rest)[j - n] && all[j] in Urls(rest);
      if i >= n {
        assert all[i] == Urls(rest)[i - n];
      }
    }
  }

  lemma DistinctPrefix(urls: seq<string>, n: nat)
    requires Distinct(urls)
    ensures Distinct(Take(urls, n)) && forall u :: u in Take(urls, n) ==> u in urls
  {
  }

  /** A snapshot that survives the trip has a main source on the legacy side: a promoted link is never
      its own secondary. */
  lemma SurvivorHasMain(head: Source, rest: seq<Link>, snapshot: Snapshot, ids: string -> string)
    requires SourcesOf(Returned(head, rest, snapshot, ids)) != []
    requires SourcesOf(Returned(head, rest, snapshot, ids))[0] == head
    ensures HasMain(Returned(head, rest, snapshot, ids))
  {
    var back := Returned(head, rest, snapshot, ids);
    if !HasMain(back) {
      var url := Room(back)[0];
      assert head.links == [LinkTo(back.archives, url, None)] && url in back.secondary;
      OthersHold(head.links + rest, OwnUrl(head.links));
      assert false;
    }
  }

  lemma SurvivorRest(snapshot: Snapshot, ids: string -> string, rest: seq<Link>)
    requires Continues(snapshot.sources, rest)
    requires SourcesOf(Returned(snapshot.sources[0], rest, snapshot, ids)) == snapshot.sources
    ensures var back := Returned(snapshot.sources[0], rest, snapshot, ids);
            && HasMain(back) && snapshot.sources[0] == Main(back)
            && rest == Plain(back.archives, Room(back)) && Urls(rest) == Room(back)
  {
    var head := snapshot.sources[0];
    var back := Returned(head, rest, snapshot, ids);
    SurvivorHasMain(head, rest, snapshot, ids);
    assert head == Main(back);
    SameSecondaries(rest, Plain(back.archives, Room(back)), head.isGraphic, head);
  }

  lemma SurvivorIsSafe(snapshot: Snapshot, ids: string -> string, rest: seq<Link>)
    requires Continues(snapshot.sources, rest)
    requires SourcesOf(Returned(snapshot.sources[0], rest, snapshot, ids)) == snapshot.sources
    ensures SafeLinks(snapshot.sources[0].links, rest)
    ensures snapshot.sources[0].media.Some? ==> HasMedia(snapshot.sources[0])
  {
    SurvivorRest(snapshot, ids, rest);
    RebuiltIsSafe(snapshot.sources[0], Returned(snapshot.sources[0], rest, snapshot, ids), rest);
  }

  lemma RebuiltIsSafe(head: Source, back: Legacy, rest: seq<Link>)
    requires HasMain(back) && head == Main(back) && |head.links| <= 1
    requires back.secondary == Others(head.links + rest, OwnUrl(head.links))
    requires back.archives == Sorted(Archives(head.links + rest, OwnUrl(head.links), back.secondary))
    requires rest == Plain(back.archives, Room(back)) && Urls(rest) == Room(back)
    ensures SafeLinks(head.links, rest)
  {
    OthersHold(head.links + rest, OwnUrl(head.links));
    DistinctPrefix(back.secondary, MAX_SOURCES_PER_EVENT - 1);
    DistinctAfterOwn(head.links, rest);
    forall i | 0 <= i < |rest| ensures Safe(rest[i]) {
      RebuiltLinks(head.links + rest, OwnUrl(head.links), back.secondary, Room(back)[i], None);
    }
    if head.links != [] {
      RebuiltLinks(head.links + rest, OwnUrl(head.links), back.secondary, back.sourceUrl.value, back.postedAt);
    }
  }

  lemma SameSecondaries(a: seq<Link>, b: seq<Link>, isGraphic: bool, head: Source)
    requires [head] + Secondaries(a, isGraphic) == [head] + Secondaries(b, isGraphic)
    ensures a == b
  {
    assert Secondaries(a, isGraphic) == ([head] + Secondaries(a, isGraphic))[1..] == Secondaries(b, isGraphic);
    forall i | 0 <= i < |a| ensures a[i] == b[i] {
      assert Secondaries(a, isGraphic)[i].links == Secondaries(b, isGraphic)[i].links;
    }
  }

  /** When a snapshot in the sources shape survives: distinct URLs, no empty media record, a source URL
      that is not empty, no empty snapshot URL, and no snapshot of an empty URL. */
  ghost predicate Faithful(sources: seq<Source>) {
    && Distinct(Urls(LinksOf(sources)))
    && (forall s :: s in sources && s.media.Some? ==> HasMedia(s))
    && (sources != [] && sources[0].links != [] ==> sources[0].links[0].url != "")
    && forall link :: link in LinksOf(sources) ==> Safe(link)
  }

  lemma FaithfulParts(sources: seq<Source>, rest: seq<Link>)
    requires Continues(sources, rest)
    ensures Faithful(sources)
            <==> SafeLinks(sources[0].links, rest) && (sources[0].media.Some? ==> HasMedia(sources[0]))
  {
  }

  lemma NoSourcesSurvive(snapshot: Snapshot, ids: string -> string)
    requires snapshot.sources == []
    ensures ToSources(ToLegacy(snapshot, ids)) == snapshot && Faithful(snapshot.sources)
  {
    FreeTagsForward(snapshot.tags);
    var back := ToLegacy(snapshot, ids);
    assert back.secondary == [] && !HasMain(back);
  }

  /** Down and up again: a snapshot in the image of the upgrade survives the downgrade and a second
      upgrade, promoted links included, if and only if it is faithful. */
  lemma SourcesSurvive(snapshot: Snapshot, ids: string -> string)
    requires Imaged(snapshot.sources)
    ensures ToSources(ToLegacy(snapshot, ids)) == snapshot <==> Faithful(snapshot.sources)
  {
    if snapshot.sources == [] {
      NoSourcesSurvive(snapshot, ids);
    } else {
      var rest := LegacyIsReturned(snapshot, ids);
      FaithfulParts(snapshot.sources, rest);
      if Faithful(snapshot.sources) {
        SafeReturns(snapshot, ids, rest);
      }
      if ToSources(ToLegacy(snapshot, ids)) == snapshot {
        SurvivorIsSafe(snapshot, ids, rest);
      }
    }
  }

  /** The same of whatever a legacy snapshot was upgraded to. */
  lemma UpgradedSurvives(was: Legacy, ids: string -> string)
    ensures ToSources(ToLegacy(ToSources(was), ids)) == ToSources(was) <==> Faithful(ToSources(was).sources)
  {
    SourcesImaged(was);
    SourcesSurvive(ToSources(was), ids);
  }

  // ---- Legacy to sources and back

  /** The archive is of a URL the snapshot keeps, with the origin and provider it has. */
  predicate Belongs(a: Archive, sourceUrl: Option<string>, secondary: seq<string>) {
    && Kept(a.originalUrl, sourceUrl, secondary) && a.snapshotUrl != ""
    && a.origin == Origin(a.originalUrl, sourceUrl) && a.provider == Provider(a.snapshotUrl)
  }

  predicate WellArchived(was: Legacy) {
    StrictlySorted(was.archives) && forall a :: a in was.archives ==> Belongs(a, was.sourceUrl, was.secondary)
  }

  /** A source URL that is not empty, and distinct other links that fit under the cap with it. */
  predicate WellLinked(was: Legacy) {
    && was.sourceUrl != Some("")
    && Distinct(was.secondary) && |was.secondary| < MAX_SOURCES_PER_EVENT
    && (was.sourceUrl.Some? ==> was.sourceUrl.value !in was.secondary)
  }

  /** When a legacy snapshot survives. */
  predicate WellFormed(was: Legacy, ids: string -> string) {
    && WellLinked(was) && WellArchived(was)
    && (was.sourceUrl.None? ==> was.postedAt.None?)
    && |was.sourceMedia| <= 1 && (forall m :: m in was.sourceMedia ==> m != map[])
    && WellTagged(was.tags, HasMain(was), ids)
    && (!HasMain(was) ==> was.secondary == [] && was.position.None? && !was.isGraphic)
  }

  /** The archives a downgrade rebuilds are in order and kept. */
  lemma RebuiltArchives(links: seq<Link>, was: Legacy)
    requires was.archives == Sorted(Archives(links, was.sourceUrl, was.secondary))
    ensures WellArchived(was)
  {
    ArchivesHold(links, was.sourceUrl, was.secondary);
    SortedLists(Archives(links, was.sourceUrl, was.secondary));
  }

  lemma SameArchive(a: Archive, link: Link, sourceUrl: Option<string>, secondary: seq<string>)
    requires Belongs(a, sourceUrl, secondary)
             && link == Link(a.originalUrl, link.postedAt, Some(a.snapshotUrl), a.createdAt)
    ensures Snapped(link) && Kept(link.url, sourceUrl, secondary) && ArchiveOf(link, sourceUrl) == a
  {
  }

  /** A link that was given an archive gives it back. */
  lemma ArchiveReturns(a: Option<Archive>, links: seq<Link>, sourceUrl: Option<string>, secondary: seq<string>, i: nat)
    requires Distinct(Urls(links)) && i < |links| && links[i].snapshotUrl.Some? == a.Some?
    requires a.Some? ==> Belongs(a.value, sourceUrl, secondary)
                         && links[i] == Link(a.value.originalUrl, links[i].postedAt, Some(a.value.snapshotUrl),
                                             a.value.createdAt)
    ensures links[i].url in Archives(links, sourceUrl, secondary) <==> a.Some?
    ensures a.Some? ==> links[i].url in Archives(links, sourceUrl, secondary)
                        && Archives(links, sourceUrl, secondary)[links[i].url] == a.value
  {
    ArchivesFind(links, sourceUrl, secondary, i);
    if a.Some? {
      SameArchive(a.value, links[i], sourceUrl, secondary);
    }
  }

  lemma ArchivesReturn(was: Legacy, links: seq<Link>)
    requires WellArchived(was) && Distinct(Urls(links))
    requires forall link :: link in links ==> link == LinkTo(was.archives, link.url, link.postedAt)
    requires forall u :: Kept(u, was.sourceUrl, was.secondary) ==> u in Urls(links)
    ensures Sorted(Archives(links, was.sourceUrl, was.secondary)) == was.archives
  {
    var archives := Archives(links, was.sourceUrl, was.secondary);
    ArchivesHold(links, was.sourceUrl, was.secondary);
    forall a | a in was.archives ensures a.originalUrl in archives && archives[a.originalUrl] == a {
      var i :| 0 <= i < |links| && Urls(links)[i] == a.originalUrl;
      ArchivedFinds(was.archives, a.originalUrl);
      assert links[i] in links;
      ArchiveReturns(Some(a), links, was.sourceUrl, was.secondary, i);
    }
    forall u | u in archives ensures archives[u] in was.archives {
      var link :| link in links && link.url == u;
      var i :| 0 <= i < |links| && links[i] == link;
      ArchivedFinds(was.archives, u);
      ArchiveReturns(Archived(was.archives, u), links, was.sourceUrl, was.secondary, i);
    }
    SortedUnique(was.archives, archives);
  }

  lemma FreeTagsOnly(tags: seq<LegacyTag>)
    ensures AsFree(OtherTags(tags)) == tags <==> forall t :: t in tags ==> t.category == "free"
  {
  }

  lemma NothingKept(was: Legacy)
    requires was.sourceUrl.None? && was.secondary == []
    ensures WellArchived(was) <==> was.archives == []
  {
    if was.archives != [] {
      assert was.archives[0] in was.archives && !Kept(was.archives[0].originalUrl, was.sourceUrl, was.secondary);
    }
  }

  lemma EmptySurvives(was: Legacy, ids: string -> string)
    requires SourcesOf(was) == []
    ensures ToLegacy(ToSources(was), ids) == was <==> WellFormed(was, ids)
  {
    assert !HasMain(was) && was.secondary == [];
    FreeTagsOnly(was.tags);
    if was.sourceUrl.None? {
      NothingKept(was);
    }
  }

  /** The main source of a well-formed snapshot and the links after it. */
  lemma WellLinkedParts(was: Legacy, rest: seq<Link>)
    requires WellLinked(was) && HasMain(was) && Continues(SourcesOf(was), rest)
    ensures SourcesOf(was)[0] == Main(was) && OwnUrl(Main(was).links) == was.sourceUrl
    ensures rest == Plain(was.archives, was.secondary) && Urls(rest) == was.secondary
    ensures Distinct(Urls(Main(was).links + rest))
  {
    SameSecondaries(rest, Plain(was.archives, was.secondary), was.isGraphic, Main(was));
    DistinctAfterOwn(Main(was).links, rest);
  }

  lemma PlainLinks(archives: seq<Archive>, urls: seq<string>)
    ensures forall link :: link in Plain(archives, urls) ==> link == LinkTo(archives, link.url, link.postedAt)
  {
  }

  lemma WellLinkedArchives(was: Legacy, rest: seq<Link>)
    requires WellLinked(was) && WellArchived(was) && HasMain(was) && Continues(SourcesOf(was), rest)
    ensures Sorted(Archives(Main(was).links + rest, was.sourceUrl, was.secondary)) == was.archives
  {
    WellLinkedParts(was, rest);
    PlainLinks(was.archives, was.secondary);
    var links := Main(was).links + rest;
    assert Urls(links) == Urls(Main(was).links) + was.secondary;
    forall u | Kept(u, was.sourceUrl, was.secondary) ensures u in Urls(links) {
      if Some(u) == was.sourceUrl {
        assert Urls(links)[0] == u;
      }
    }
    ArchivesReturn(was, links);
  }

  lemma WellFormedMain(was: Legacy, ids: string -> string)
    requires WellFormed(was, ids) && HasMain(was)
    ensures var head := Main(was);
            && was.sourceMedia == (if HasMedia(head) then [head.media.value] else [])
            && was.postedAt == (if head.links == [] then None else head.links[0].postedAt)
    ensures AsFree(OtherTags(was.tags)) + [CaptureTag(Main(was).kind, ids)] == was.tags
  {
    WellTaggedReturns(was.tags, true, ids);
    assert was.sourceMedia != [] ==> was.sourceMedia[0] in was.sourceMedia && was.sourceMedia == [was.sourceMedia[0]];
  }

  lemma WellFormedReturns(was: Legacy, ids: string -> string, rest: seq<Link>)
    requires WellFormed(was, ids) && SourcesOf(was) != [] && Continues(SourcesOf(was), rest)
    ensures Returned(SourcesOf(was)[0], rest, ToSources(was), ids) == was
  {
    WellLinkedParts(was, rest);
    WellLinkedArchives(was, rest);
    WellFormedMain(was, ids);
    OthersAreRest(Main(was).links, rest);
  }

  lemma ReturnedLinks(was: Legacy, head: Source, rest: seq<Link>, snapshot: Snapshot, ids: string -> string)
    requires Returned(head, rest, snapshot, ids) == was && |head.links| <= 1 && |rest| < MAX_SOURCES_PER_EVENT
    ensures Distinct(was.secondary) && |was.secondary| < MAX_SOURCES_PER_EVENT
    ensures was.sourceUrl.Some? ==> was.sourceUrl.value !in was.secondary
    ensures WellArchived(was)
  {
    OthersHold(head.links + rest, OwnUrl(head.links));
    assert head.links != [] ==> (head.links + rest)[0] == head.links[0];
    RebuiltArchives(head.links + rest, was);
  }

  lemma ReturnedIsWellFormed(was: Legacy, ids: string -> string, rest: seq<Link>)
    requires SourcesOf(was) != [] && Continues(SourcesOf(was), rest)
    requires Returned(SourcesOf(was)[0], rest, ToSources(was), ids) == was
    ensures WellFormed(was, ids)
  {
    SurvivorHasMain(SourcesOf(was)[0], rest, ToSources(was), ids);
    assert SourcesOf(was)[0] == Main(was);
    ReturnedLinks(was, Main(was), rest, ToSources(was), ids);
    ReturnedIsWellTagged(OtherTags(was.tags), Main(was).kind, true, ids);
  }

  /** Up and down again: a legacy snapshot survives the upgrade and the downgrade if and only if it is
      well formed. */
  lemma LegacySurvives(was: Legacy, ids: string -> string)
    ensures ToLegacy(ToSources(was), ids) == was <==> WellFormed(was, ids)
  {
    SourcesImaged(was);
    if SourcesOf(was) == [] {
      EmptySurvives(was, ids);
    } else {
      var rest := LegacyIsReturned(ToSources(was), ids);
      if WellFormed(was, ids) {
        WellFormedReturns(was, ids, rest);
      }
      if ToLegacy(ToSources(was), ids) == was {
        ReturnedIsWellFormed(was, ids, rest);
      }
    }
  }

  // ---- The conversions as they run

  lemma OneMoreSecondary(archives: seq<Archive>, urls: seq<string>, i: nat, isGraphic: bool)
    requires i < |urls|
    ensures Secondaries(Plain(archives, urls[..i + 1]), isGraphic)
            == Secondaries(Plain(archives, urls[..i]), isGraphic)
               + [Secondary(LinkTo(archives, urls[i], None), isGraphic)]
  {
  }

  method SourcesSnapshot(was: Legacy) returns (snapshot: Snapshot)
    ensures snapshot == ToSources(was)
  {
    var room := Room(was);
    var sources := [];
    if HasMain(was) {
      sources := [Main(was)];
    }
    ghost var main := sources;
    for i := 0 to |room|
      invariant sources == main + Secondaries(Plain(was.archives, room[..i]), was.isGraphic)
    {
      OneMoreSecondary(was.archives, room, i, was.isGraphic);
      var source := Secondary(LinkTo(was.archives, room[i], None), was.isGraphic);
      Regroup(main, Secondaries(Plain(was.archives, room[..i]), was.isGraphic), [source]);
      sources := sources + [source];
    }
    assert room[..|room|] == room;
    snapshot := Snapshot(sources, OtherTags(was.tags), was.proofMedia, was.rest);
  }

  /** The loop over the links that collects the secondary ones. */
  method CollectOthers(links: seq<Link>, sourceUrl: Option<string>) returns (secondary: seq<string>)
    ensures secondary == Others(links, sourceUrl)
  {
    secondary := [];
    for i := 0 to |links|
      invariant secondary == Others(links[..i], sourceUrl)
    {
      assert Init(links[..i + 1]) == links[..i];
      var url := links[i].url;
      if Some(url) != sourceUrl && url !in secondary && |secondary| < MAX_SECONDARY_LINKS {
        secondary := secondary + [url];
      }
    }
    assert links[..|links|] == links;
  }

  /** The loop over the links that collects the archives. */
  method CollectArchives(links: seq<Link>, sourceUrl: Option<string>, secondary: seq<string>)
    returns (archived: map<string, Archive>)
    ensures archived == Archives(links, sourceUrl, secondary)
  {
    archived := map[];
    for i := 0 to |links|
      invariant archived == Archives(links[..i], sourceUrl, secondary)
    {
      assert Init(links[..i + 1]) == links[..i];
      var link := links[i];
      if Kept(link.url, sourceUrl, secondary) && Snapped(link) && link.url !in archived {
        archived := archived[link.url := ArchiveOf(link, sourceUrl)];
      }
    }
    assert links[..|links|] == links;
  }

  method LegacySnapshot(snapshot: Snapshot, ids: string -> string) returns (was: Legacy)
    ensures was == ToLegacy(snapshot, ids)
  {
    var links, link := LinksOf(PrimaryFirst(snapshot.sources)), SourceLink(snapshot.sources);
    var sourceUrl := if link.Some? then Some(link.value.url) else None;
    var secondary := CollectOthers(links, sourceUrl);
    var archived := CollectArchives(links, sourceUrl, secondary);
    was := Legacy(sourceUrl, [], None, if link.Some? then link.value.postedAt else None, AnyGraphic(snapshot.sources),
                  secondary, Sorted(archived), AsFree(snapshot.tags), snapshot.proofMedia, snapshot.rest);
    if snapshot.sources != [] {
      var primary := snapshot.sources[Primary(snapshot.sources, 0)];
      was := was.(sourceMedia := if HasMedia(primary) then [primary.media.value] else [], position := primary.position);
      if primary.kind != "" {
        was := was.(tags := was.tags + [CaptureTag(primary.kind, ids)]);
      }
    }
  }
}

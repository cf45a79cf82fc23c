/** The workspace store: the editor's state is saved under one key of an
    object store. Before saving, the object URLs of the segments are
    stripped (they die with the page); after loading, they are recreated
    from the segments' blobs. Records are modelled as maps from field names
    to values, because the code copies them with object spread and drops
    or sets single fields by name. */
module WorkspaceStorage {
  import opened Common
  import opened EditorData

  /** The key every operation uses. */
  const KEY: string := "current"
  const URL_FIELD: string := "url"
  const BLOB_FIELD: string := "blob"

  /** A JavaScript value as far as the store cares. */
  datatype Value = Null | Bool(b: bool) | Num(n: int) | Str(s: string) | BlobValue(blob: Blob)

  predicate Truthy(v: Value) {
    match v
    case Null => false
    case Bool(b) => b
    case Num(n) => n != 0
    case Str(s) => s != ""
    case BlobValue(_) => true
  }

  type Fields = map<string, Value>

  /** A group: its own fields and its segments. */
  datatype GroupRecord = GroupRecord(fields: Fields, segments: seq<Fields>)

  /** The saved object: `audioGroups` (None when absent or falsy; an empty
      array is truthy and so is Some([])) and every other top-level field. */
  datatype WorkspaceData = WorkspaceData(audioGroups: Option<seq<GroupRecord>>, rest: Fields)

  // ---------------------------------------------------------------------------
  // Sanitising and rehydrating
  // ---------------------------------------------------------------------------

  function StripSegment(seg: Fields): Fields {
    seg - {URL_FIELD}
  }

  function StripGroup(g: GroupRecord): GroupRecord {
    GroupRecord(g.fields, seq(|g.segments|, j requires 0 <= j < |g.segments| => StripSegment(g.segments[j])))
  }

  /** _sanitizeData: the data as it is when there are no groups, otherwise
      a copy whose segments have lost their url. */
  function Sanitize(data: WorkspaceData): WorkspaceData {
    match data.audioGroups
    case None => data
    case Some(gs) =>
      WorkspaceData(Some(seq(|gs|, i requires 0 <= i < |gs| => StripGroup(gs[i]))), data.rest)
  }

  /** The url a rehydrated segment gets: a new object URL of its blob when
      the blob is truthy, null otherwise. */
  function RehydratedUrl(seg: Fields, createObjectUrl: Value -> string): Value {
    if BLOB_FIELD in seg && Truthy(seg[BLOB_FIELD]) then Str(createObjectUrl(seg[BLOB_FIELD])) else Null
  }

  function RehydrateSegment(seg: Fields, createObjectUrl: Value -> string): Fields {
    seg[URL_FIELD := RehydratedUrl(seg, createObjectUrl)]
  }

  function RehydrateGroup(g: GroupRecord, createObjectUrl: Value -> string): GroupRecord {
    GroupRecord(g.fields,
      seq(|g.segments|, j requires 0 <= j < |g.segments| => RehydrateSegment(g.segments[j], createObjectUrl)))
  }

  /** _rehydrateData: the data as it is when there are no groups, otherwise
      a copy whose every segment has its url recreated. */
  function Rehydrate(data: WorkspaceData, createObjectUrl: Value -> string): WorkspaceData {
    match data.audioGroups
    case None => data
    case Some(gs) =>
      WorkspaceData(Some(seq(|gs|, i requires 0 <= i < |gs| => RehydrateGroup(gs[i], createObjectUrl))), data.rest)
  }

  /** Group g, segment j of a workspace. */
  predicate IsSegment(data: WorkspaceData, i: int, j: int) {
    data.audioGroups.Some? && 0 <= i < |data.audioGroups.value|
    && 0 <= j < |data.audioGroups.value[i].segments|
  }

  function SegmentAt(data: WorkspaceData, i: int, j: int): Fields
    requires IsSegment(data, i, j)
  {
    data.audioGroups.value[i].segments[j]
  }

  /** Sanitising keeps everything but the segments' url: the same top-level
      fields, the same groups in the same order with the same own fields,
      the same segments in the same order, each with every field but url. */
  lemma SanitizeStripsOnlyUrl(data: WorkspaceData)
    ensures var s := Sanitize(data);
      s.rest == data.rest && s.audioGroups.Some? == data.audioGroups.Some?
      && (data.audioGroups.Some? ==> |s.audioGroups.value| == |data.audioGroups.value|)
    ensures data.audioGroups.None? ==> Sanitize(data) == data
    ensures forall i | data.audioGroups.Some? && 0 <= i < |data.audioGroups.value| ::
      Sanitize(data).audioGroups.value[i].fields == data.audioGroups.value[i].fields
      && |Sanitize(data).audioGroups.value[i].segments| == |data.audioGroups.value[i].segments|
    ensures forall i, j | IsSegment(data, i, j) ::
      URL_FIELD !in SegmentAt(Sanitize(data), i, j)
      && SegmentAt(Sanitize(data), i, j).Keys == SegmentAt(data, i, j).Keys - {URL_FIELD}
      && forall k | k in SegmentAt(Sanitize(data), i, j) :: SegmentAt(Sanitize(data), i, j)[k] == SegmentAt(data, i, j)[k]
  {
  }

  /** Rehydrating gives every segment a url: a fresh object URL of its blob
      iff it has a truthy blob, null otherwise; nothing else changes. */
  lemma RehydrateSetsUrl(data: WorkspaceData, createObjectUrl: Value -> string)
    ensures var r := Rehydrate(data, createObjectUrl);
      r.rest == data.rest && r.audioGroups.Some? == data.audioGroups.Some?
      && (data.audioGroups.Some? ==> |r.audioGroups.value| == |data.audioGroups.value|)
    ensures data.audioGroups.None? ==> Rehydrate(data, createObjectUrl) == data
    ensures forall i | data.audioGroups.Some? && 0 <= i < |data.audioGroups.value| ::
      Rehydrate(data, createObjectUrl).audioGroups.value[i].fields == data.audioGroups.value[i].fields
      && |Rehydrate(data, createObjectUrl).audioGroups.value[i].segments| == |data.audioGroups.value[i].segments|
    ensures forall i, j | IsSegment(data, i, j) ::
      var before := SegmentAt(data, i, j);
      var after := SegmentAt(Rehydrate(data, createObjectUrl), i, j);
      URL_FIELD in after
      && (after[URL_FIELD].Str? <==> BLOB_FIELD in before && Truthy(before[BLOB_FIELD]))
      && (after[URL_FIELD].Str? ==> after[URL_FIELD] == Str(createObjectUrl(before[BLOB_FIELD])))
      && (!after[URL_FIELD].Str? ==> after[URL_FIELD] == Null)
      && after.Keys == before.Keys + {URL_FIELD}
      && forall k | k in before && k != URL_FIELD :: after[k] == before[k]
  {
  }

  lemma {:induction false} StripThenRehydrateSegment(seg: Fields, createObjectUrl: Value -> string)
    ensures RehydrateSegment(StripSegment(seg), createObjectUrl) == RehydrateSegment(seg, createObjectUrl)
  {
    var a := RehydrateSegment(StripSegment(seg), createObjectUrl);
    var b := RehydrateSegment(seg, createObjectUrl);
    assert BLOB_FIELD != URL_FIELD;
    assert RehydratedUrl(StripSegment(seg), createObjectUrl) == RehydratedUrl(seg, createObjectUrl);
    assert a.Keys == b.Keys;
  }

  lemma {:induction false} StripThenRehydrateGroup(g: GroupRecord, createObjectUrl: Value -> string)
    ensures RehydrateGroup(StripGroup(g), createObjectUrl) == RehydrateGroup(g, createObjectUrl)
  {
    var a := RehydrateGroup(StripGroup(g), createObjectUrl);
    var b := RehydrateGroup(g, createObjectUrl);
    forall j | 0 <= j < |g.segments|
      ensures a.segments[j] == b.segments[j]
    {
      StripThenRehydrateSegment(g.segments[j], createObjectUrl);
    }
  }

  /** Nothing is lost by saving that loading needs: rehydrating sanitised
      data gives exactly what rehydrating the original would. */
  lemma {:induction false} SaveLoadRoundTrip(data: WorkspaceData, createObjectUrl: Value -> string)
    ensures Rehydrate(Sanitize(data), createObjectUrl) == Rehydrate(data, createObjectUrl)
  {
    if data.audioGroups.Some? {
      var gs := data.audioGroups.value;
      var a := Rehydrate(Sanitize(data), createObjectUrl).audioGroups.value;
      var b := Rehydrate(data, createObjectUrl).audioGroups.value;
      forall i | 0 <= i < |gs|
        ensures a[i] == b[i]
      {
        StripThenRehydrateGroup(gs[i], createObjectUrl);
      }
      assert |a| == |b|;
      assert a == b;
    }
  }

  // ---------------------------------------------------------------------------
  // The save payload
  // ---------------------------------------------------------------------------

  /** The number of groups of the sanitised data, 0 when there are none. */
  function GroupCount(data: WorkspaceData): nat {
    if data.audioGroups.Some? then |data.audioGroups.value| else 0
  }

  /** What saveWorkspace stores: the sanitised data with a timestamp and
      the group count written over any fields of those names. */
  function Payload(data: WorkspaceData, now: int): WorkspaceData {
    var clean := Sanitize(data);
    WorkspaceData(clean.audioGroups, clean.rest["timestamp" := Num(now)]["count" := Num(GroupCount(clean))])
  }

  /** The payload counts the groups of the data (0 when absent), carries
      the clock's time, and keeps the groups as sanitised. */
  lemma PayloadCount(data: WorkspaceData, now: int)
    ensures var p := Payload(data, now);
      "count" in p.rest && "timestamp" in p.rest
      && p.rest["count"] == Num(if data.audioGroups.Some? then |data.audioGroups.value| else 0)
      && p.rest["timestamp"] == Num(now)
      && p.audioGroups == Sanitize(data).audioGroups
  {
  }

  // ---------------------------------------------------------------------------
  // The object store
  // ---------------------------------------------------------------------------

  /** The 'workspace' object store, of which only KEY is ever used. */
  class Store {
    var entries: map<string, WorkspaceData>

    constructor (initial: map<string, WorkspaceData>)
      ensures entries == initial
    {
      entries := initial;
    }

    /** saveWorkspace: the payload overwrites whatever was under KEY. */
    method SaveWorkspace(data: WorkspaceData, now: int)
      modifies this
      ensures entries == old(entries)[KEY := Payload(data, now)]
    {
      entries := entries[KEY := Payload(data, now)];
    }

    /** loadWorkspace: the stored value rehydrated, or null when the key
        holds nothing. */
    method LoadWorkspace(createObjectUrl: Value -> string) returns (r: Option<WorkspaceData>)
      ensures KEY in entries ==> r == Some(Rehydrate(entries[KEY], createObjectUrl))
      ensures KEY !in entries ==> r == None
    {
      if KEY in entries {
        r := Some(Rehydrate(entries[KEY], createObjectUrl));
      } else {
        r := None;
      }
    }

    /** clearWorkspace: the key is deleted; nothing else is touched. */
    method ClearWorkspace()
      modifies this
      ensures entries == old(entries) - {KEY}
    {
      entries := entries - {KEY};
    }
  }

  /** A save followed by a load gives back the data with its urls
      recreated and the timestamp and count added; a clear followed by a
      load gives null. */
  method SaveLoadClear(s: Store, data: WorkspaceData, now: int, createObjectUrl: Value -> string)
    returns (loaded: Option<WorkspaceData>, afterClear: Option<WorkspaceData>)
    modifies s
    ensures loaded.Some? && loaded.value.audioGroups == Rehydrate(data, createObjectUrl).audioGroups
    ensures afterClear == None
  {
    s.SaveWorkspace(data, now);
    loaded := s.LoadWorkspace(createObjectUrl);
    SaveLoadRoundTrip(data, createObjectUrl);
    s.ClearWorkspace();
    afterClear := s.LoadWorkspace(createObjectUrl);
  }
}

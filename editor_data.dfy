/** The records the editor passes between its parts: corpus items as the
    Baize script service returns them, the entries its corpus lists show,
    and the audio groups of the workspace with their segments. JavaScript
    fields that may be missing or falsy are written as Option, or as the
    empty string where the code only ever tests a text for truthiness. */
module EditorData {
  import opened Common

  /** A script unit content of the Baize service; "" is an absent field. */
  datatype RawItem = RawItem(
    id: string, corpusId: string, content: string, contentName: string,
    audioStatus: string, corpusType: string, canvasName: string, audioPath: string)

  /** A reference to one Baize content: what an upload is sent to. */
  datatype BaizeRef = BaizeRef(id: string, corpusId: string, text: string, originalData: RawItem)

  /** uniqueId: the primary item's id, or, when it has none, the position
      of the first item of the entry. */
  datatype UniqueId = ItemId(id: string) | FirstPosition(position: nat)

  /** How many items of an entry are verified ('1'), marked ('2') or
      neither. */
  datatype StatusStats = StatusStats(verified: nat, marked: nat, unverified: nat, total: nat)

  /** An entry of a corpus list: items of the service merged by text. */
  datatype CorpusEntry = CorpusEntry(
    index: string, text: string, corpusType: string, canvasName: string,
    audioStatus: string, statusStats: Option<StatusStats>, audioPath: string,
    baizeData: Option<BaizeRef>, baizeTargets: Option<seq<BaizeRef>>, uniqueId: UniqueId)

  /** An audio Blob, known by an opaque handle. */
  datatype Blob = Blob(handle: nat)

  /** One synthesised piece of a group: the audio or the error it failed
      with, the object URL it plays from, and its flags. */
  datatype Segment = Segment(
    text: string, blob: Option<Blob>, url: Option<string>,
    played: bool, recent: bool, error: Option<string>)

  /** A script of the Baize service. */
  datatype Script = Script(id: string, scriptName: string, primaryIndustry: string)

  /** A group of the workspace: one corpus name and its segments. */
  datatype AudioGroup = AudioGroup(
    index: string, text: string, segments: seq<Segment>,
    baizeData: Option<BaizeRef>, baizeTargets: Option<seq<BaizeRef>>,
    isUploaded: bool, hasUploadedHistory: bool)
}

/** src/hooks/useSingleUpload.js: uploading the merged audio of one group
    to every Baize content its matched corpus entry stands for. The hook
    keeps the set of groups being uploaded, the group waiting for a target
    script to be confirmed and whether one has been; the Baize service, the
    merging of audio and the dialogs are given as inputs. */
module SingleUpload {
  import opened Common
  import opened EditorData
  import opened CorpusUtils
  import TtsEditor

  const LOCKED: string := "锁定"
  const SUCCESS_CODE: string := "2000"
  const LOCKED_CODE: string := "666"

  /** What uploadAudio gives for one target: a reply with its code and
      message, nothing, or the error it threw. */
  datatype UploadReply = Replied(code: string, msg: string) | NoReply | Threw(message: string)

  /** The Baize service and the inputs of one upload run. */
  datatype Service = Service(
    token: string,
    lockSucceeds: bool,                       // lockScript resolves
    reply: BaizeRef -> UploadReply,           // uploadAudio for a target
    syncError: BaizeRef -> Option<string>,    // updateScriptText throws this, if anything
    merge: seq<Segment> -> Option<Blob>,      // mergeAudioSegments, None when it fails
    syncTextEnabled: bool)

  datatype TargetResult = Succeeded | LockedOut | UploadFailed

  /** One target: the upload succeeds on code "2000" unless the text sync
      that follows throws; code "666" or a message mentioning 锁定 is a
      lock; any other reply, no reply or an error is a failure. */
  function TargetOutcome(t: BaizeRef, s: Service, doSync: bool): TargetResult {
    match s.reply(t)
    case Replied(code, msg) =>
      if code == SUCCESS_CODE then
        if doSync && s.syncError(t).Some? then
          (if Contains(s.syncError(t).value, LOCKED) then LockedOut else UploadFailed)
        else Succeeded
      else if code == LOCKED_CODE || Contains(msg, LOCKED) then LockedOut
      else UploadFailed
    case NoReply => UploadFailed
    case Threw(message) => if Contains(message, LOCKED) then LockedOut else UploadFailed
  }

  /** Whether the text is synchronised after a target's upload. */
  predicate Syncs(t: BaizeRef, s: Service, doSync: bool) {
    doSync && s.reply(t).Replied? && s.reply(t).code == SUCCESS_CODE
  }

  datatype Tally = Tally(success: nat, fail: nat, locked: bool, synced: seq<BaizeRef>)

  /** The counters of the loop over the targets. */
  function TallyOf(targets: seq<BaizeRef>, s: Service, doSync: bool): Tally {
    if targets == [] then Tally(0, 0, false, [])
    else
      var t := TallyOf(targets[..|targets| - 1], s, doSync);
      var last := targets[|targets| - 1];
      var r := TargetOutcome(last, s, doSync);
      Tally(t.success + (if r == Succeeded then 1 else 0), t.fail + (if r == Succeeded then 0 else 1),
        t.locked || r == LockedOut, t.synced + (if Syncs(last, s, doSync) then [last] else []))
  }

  /** The name a target's file is uploaded under. */
  function UploadName(t: BaizeRef, group: AudioGroup): string {
    (if t.originalData.contentName != "" then t.originalData.contentName else group.index) + ".wav"
  }

  datatype Upload = Upload(contentId: string, filename: string)

  lemma TallySnoc(targets: seq<BaizeRef>, s: Service, doSync: bool)
    requires targets != []
    ensures var init := targets[..|targets| - 1];
      forall i | 0 <= i < |init| :: init[i] == targets[i]
    ensures targets == targets[..|targets| - 1] + [targets[|targets| - 1]]
  {
  }

  /** Every target is counted once, as a success or a failure. */
  lemma {:induction false} TallyCounts(targets: seq<BaizeRef>, s: Service, doSync: bool)
    ensures TallyOf(targets, s, doSync).success + TallyOf(targets, s, doSync).fail == |targets|
    ensures TallyOf(targets, s, doSync).fail == 0 <==> forall i | 0 <= i < |targets| :: TargetOutcome(targets[i], s, doSync) == Succeeded
  {
    if targets != [] {
      TallySnoc(targets, s, doSync);
      TallyCounts(targets[..|targets| - 1], s, doSync);
    }
  }

  /** A lock is reported exactly when some target was locked. */
  lemma {:induction false} TallyLocked(targets: seq<BaizeRef>, s: Service, doSync: bool)
    ensures TallyOf(targets, s, doSync).locked <==> exists i | 0 <= i < |targets| :: TargetOutcome(targets[i], s, doSync) == LockedOut
  {
    if targets != [] {
      TallySnoc(targets, s, doSync);
      TallyLocked(targets[..|targets| - 1], s, doSync);
    }
  }

  /** The text is synchronised after exactly the uploads answered "2000",
      and never when syncing is off. */
  lemma {:induction false} TallySynced(targets: seq<BaizeRef>, s: Service, doSync: bool)
    ensures forall x :: x in TallyOf(targets, s, doSync).synced <==> x in targets && Syncs(x, s, doSync)
    ensures !doSync ==> TallyOf(targets, s, doSync).synced == []
  {
    if targets != [] {
      TallySnoc(targets, s, doSync);
      TallySynced(targets[..|targets| - 1], s, doSync);
    }
  }

  /** matchedCorpus.baizeTargets || [matchedCorpus.baizeData]; None when
      neither is there, where reading the target's id throws. */
  function TargetsOf(m: CorpusEntry): Option<seq<BaizeRef>> {
    if m.baizeTargets.Some? then m.baizeTargets
    else if m.baizeData.Some? then Some([m.baizeData.value])
    else None
  }

  /** The audio to upload: the cached merge of the group, else the merge of
      its usable segments when it has any. */
  function AudioOf(group: AudioGroup, groupIndex: nat, cache: map<nat, Blob>, merge: seq<Segment> -> Option<Blob>): Option<Blob> {
    if groupIndex in cache then Some(cache[groupIndex])
    else
      var valid := Filter(group.segments, TtsEditor.Usable);
      if valid != [] then merge(valid) else None
  }

  /** The whole text of the group differs from the matched text other than
      in whitespace. */
  predicate TextChanged(group: AudioGroup, matched: CorpusEntry) {
    RemoveSpaces(Concat(SegmentTexts(group.segments))) != RemoveSpaces(matched.text)
  }

  function SegmentTexts(segments: seq<Segment>): (r: seq<string>)
    ensures |r| == |segments|
  {
    seq(|segments|, i requires 0 <= i < |segments| => segments[i].text)
  }

  datatype Outcome =
    | NoGroup                 // no group at that position
    | NotInScript             // no entry of the script matches the group
    | NoAudio                 // nothing to upload
    | Aborted                 // locking the script failed, or there is no target
    | Finished(tally: Tally, targetCount: nat)

  /** The group after a fully successful upload: marked uploaded, with the
      matched entry's Baize references. */
  function MarkedUploaded(group: AudioGroup, matched: CorpusEntry): AudioGroup {
    group.(isUploaded := true, hasUploadedHistory := true, baizeData := matched.baizeData, baizeTargets := matched.baizeTargets)
  }

  /** What one run of executeSingleUpload ends with: its outcome, the
      groups afterwards and the uploads made. */
  datatype UploadRun = UploadRun(outcome: Outcome, groups: seq<AudioGroup>, uploads: seq<Upload>)

  /** executeSingleUpload stated declaratively. Only the uploaded group can
      change, and it does exactly when every one of at least one target
      succeeded, when it is marked uploaded. */
  function SingleUploadRun(groups: seq<AudioGroup>, groupIndex: int, corpusList: seq<CorpusEntry>,
                           cache: map<nat, Blob>, s: Service): (r: UploadRun)
    ensures |r.groups| == |groups|
    ensures forall j | 0 <= j < |groups| && j != groupIndex :: r.groups[j] == groups[j]
    ensures r.outcome.Finished? && r.outcome.tally.success > 0 && r.outcome.tally.fail == 0 ==>
      0 <= groupIndex < |groups| && r.groups[groupIndex].isUploaded && r.groups[groupIndex].hasUploadedHistory
    ensures !(r.outcome.Finished? && r.outcome.tally.success > 0 && r.outcome.tally.fail == 0) ==> r.groups == groups
    ensures !r.outcome.Finished? ==> r.uploads == []
    ensures r.outcome.Finished? ==> |r.uploads| == r.outcome.targetCount
  {
    if !(0 <= groupIndex < |groups|) then UploadRun(NoGroup, groups, [])
    else
      var group := groups[groupIndex];
      var m := FindMatchedCorpus(group, corpusList);
      if m.None? then UploadRun(NotInScript, groups, [])
      else if AudioOf(group, groupIndex, cache, s.merge).None? then UploadRun(NoAudio, groups, [])
      else if !s.lockSucceeds || TargetsOf(m.value).None? then UploadRun(Aborted, groups, [])
      else
        var targets := TargetsOf(m.value).value;
        var tally := TallyOf(targets, s, TextChanged(group, m.value) && s.syncTextEnabled);
        UploadRun(Finished(tally, |targets|),
          if tally.success > 0 && tally.fail == 0 then groups[groupIndex := MarkedUploaded(group, m.value)] else groups,
          seq(|targets|, i requires 0 <= i < |targets| => Upload(targets[i].id, UploadName(targets[i], group))))
  }

  /** The loop over the targets: one upload each, in order, under the
      target's file name. */
  method UploadTargets(targets: seq<BaizeRef>, group: AudioGroup, s: Service, doSync: bool)
    returns (tally: Tally, uploads: seq<Upload>)
    ensures tally == TallyOf(targets, s, doSync)
    ensures |uploads| == |targets|
    ensures forall i | 0 <= i < |targets| :: uploads[i] == Upload(targets[i].id, UploadName(targets[i], group))
  {
    var successCount := 0;
    var failCount := 0;
    var locked := false;
    var synced: seq<BaizeRef> := [];
    uploads := [];
    var i := 0;
    while i < |targets|
      invariant 0 <= i <= |targets| && |uploads| == i
      invariant Tally(successCount, failCount, locked, synced) == TallyOf(targets[..i], s, doSync)
      invariant forall k | 0 <= k < i :: uploads[k] == Upload(targets[k].id, UploadName(targets[k], group))
    {
      assert targets[..i + 1][..i] == targets[..i];
      var target := targets[i];
      var specificName := if target.originalData.contentName != "" then target.originalData.contentName else group.index;
      uploads := uploads + [Upload(target.id, specificName + ".wav")];
      var r, syncedNow := UploadOne(target, s, doSync);
      if syncedNow {
        synced := synced + [target];
      }
      if r == Succeeded {
        successCount := successCount + 1;
      } else {
        if r == LockedOut {
          locked := true;
        }
        failCount := failCount + 1;
      }
      i := i + 1;
    }
    assert targets[..i] == targets;
    tally := Tally(successCount, failCount, locked, synced);
  }

  /** The body of the loop for one target: the upload, the text sync after
      a "2000" reply when it is due, and what the target counts as. */
  method UploadOne(target: BaizeRef, s: Service, doSync: bool) returns (r: TargetResult, syncedNow: bool)
    ensures r == TargetOutcome(target, s, doSync)
    ensures syncedNow == Syncs(target, s, doSync)
  {
    syncedNow := false;
    var res := s.reply(target);
    if res.Replied? && res.code == SUCCESS_CODE {
      if doSync {
        syncedNow := true;
        var e := s.syncError(target);
        if e.Some? {
          r := if Contains(e.value, LOCKED) then LockedOut else UploadFailed;
          return;
        }
      }
      r := Succeeded;
    } else if res.Replied? && (res.code == LOCKED_CODE || Contains(res.msg, LOCKED)) {
      r := LockedOut;
    } else if res.Threw? && Contains(res.message, LOCKED) {
      r := LockedOut;
    } else {
      r := UploadFailed;
    }
  }

  /** The hook's own state. */
  class UploadState {
    var uploading: set<int>
    var pendingGroupIndex: Option<int>
    var confirmed: bool
    var loginRequested: bool
    var dialogRequested: bool

    constructor()
      ensures uploading == {} && pendingGroupIndex == None && !confirmed && !loginRequested && !dialogRequested
    {
      uploading := {};
      pendingGroupIndex := None;
      confirmed := false;
      loginRequested := false;
      dialogRequested := false;
    }

    /** executeSingleUpload: every exit takes the group out of the
        uploading set. A missing group, no match, no audio, a failed lock
        or a missing target end the run with no upload; otherwise every
        target is uploaded and the group is marked uploaded exactly when at
        least one succeeded and none failed. */
    method ExecuteSingleUpload(groups: seq<AudioGroup>, groupIndex: int, activeCorpusList: seq<CorpusEntry>,
                               cache: map<nat, Blob>, s: Service)
      returns (outcome: Outcome, newGroups: seq<AudioGroup>, uploads: seq<Upload>)
      modifies this
      ensures uploading == old(uploading) - {groupIndex}
      ensures pendingGroupIndex == old(pendingGroupIndex) && confirmed == old(confirmed)
      ensures loginRequested == old(loginRequested) && dialogRequested == old(dialogRequested)
      ensures !(0 <= groupIndex < |groups|) ==> outcome == NoGroup
      ensures outcome.Finished? ==> 0 <= groupIndex < |groups|
      ensures 0 <= groupIndex < |groups| ==>
        var group := groups[groupIndex];
        var m := FindMatchedCorpus(group, activeCorpusList);
        (m.None? ==> outcome == NotInScript)
        && (m.Some? ==>
          var audio := AudioOf(group, groupIndex, cache, s.merge);
          (audio.None? ==> outcome == NoAudio)
          && (audio.Some? && (!s.lockSucceeds || TargetsOf(m.value).None?) ==> outcome == Aborted)
          && (audio.Some? && s.lockSucceeds && TargetsOf(m.value).Some? ==>
            var targets := TargetsOf(m.value).value;
            var tally := TallyOf(targets, s, TextChanged(group, m.value) && s.syncTextEnabled);
            outcome == Finished(tally, |targets|)
            && |uploads| == |targets|
            && (forall i | 0 <= i < |targets| :: uploads[i] == Upload(targets[i].id, UploadName(targets[i], group)))
            && newGroups == (if tally.success > 0 && tally.fail == 0 then groups[groupIndex := MarkedUploaded(group, m.value)] else groups)))
      ensures !outcome.Finished? ==> newGroups == groups && uploads == []
      ensures UploadRun(outcome, newGroups, uploads) == SingleUploadRun(groups, groupIndex, activeCorpusList, cache, s)
    {
      newGroups := groups;
      uploads := [];
      if !(0 <= groupIndex < |groups|) {
        uploading := uploading - {groupIndex};
        return NoGroup, newGroups, uploads;
      }
      var group := groups[groupIndex];
      var matchedCorpus := FindMatchedCorpus(group, activeCorpusList);
      if matchedCorpus.None? {
        uploading := uploading - {groupIndex};
        return NotInScript, newGroups, uploads;
      }
      var mergedBlob: Option<Blob> := None;
      if groupIndex in cache {
        mergedBlob := Some(cache[groupIndex]);
      } else {
        var validSegments := Filter(group.segments, TtsEditor.Usable);
        if |validSegments| > 0 {
          mergedBlob := s.merge(validSegments);
        }
      }
      if mergedBlob.None? {
        uploading := uploading - {groupIndex};
        return NoAudio, newGroups, uploads;
      }
      var targets := TargetsOf(matchedCorpus.value);
      if !s.lockSucceeds || targets.None? {
        outcome := Aborted;
      } else {
        var isTextChanged := RemoveSpaces(Concat(SegmentTexts(group.segments))) != RemoveSpaces(matchedCorpus.value.text);
        var tally;
        tally, uploads := UploadTargets(targets.value, group, s, isTextChanged && s.syncTextEnabled);
        if tally.success > 0 && tally.fail == 0 {
          newGroups := groups[groupIndex := MarkedUploaded(group, matchedCorpus.value)];
        }
        outcome := Finished(tally, |targets.value|);
      }
      uploading := uploading - {groupIndex};
    }

    /** handleSingleGroupUpload: without a token only the login dialog is
        asked for. Otherwise the group joins the uploading set; without a
        confirmed target script it is remembered and the script dialog is
        asked for (leaving the set again if that fails); with one it is
        uploaded at once. */
    method HandleSingleGroupUpload(groups: seq<AudioGroup>, groupIndex: int, targetScript: Option<Script>,
                                   targetScriptCorpusList: seq<CorpusEntry>, cache: map<nat, Blob>, s: Service, dialogFails: bool)
      returns (outcome: Option<Outcome>, newGroups: seq<AudioGroup>)
      modifies this
      ensures s.token == "" ==>
        outcome == None && newGroups == groups && loginRequested && uploading == old(uploading)
        && pendingGroupIndex == old(pendingGroupIndex) && dialogRequested == old(dialogRequested)
      ensures s.token != "" && (targetScript.None? || !old(confirmed)) ==>
        outcome == None && newGroups == groups && pendingGroupIndex == Some(groupIndex) && dialogRequested
        && uploading == (if dialogFails then old(uploading) + {groupIndex} - {groupIndex} else old(uploading) + {groupIndex})
      ensures s.token != "" && targetScript.Some? && old(confirmed) ==>
        var run := SingleUploadRun(groups, groupIndex, targetScriptCorpusList, cache, s);
        outcome == Some(run.outcome) && newGroups == run.groups
        && uploading == old(uploading) + {groupIndex} - {groupIndex}
        && pendingGroupIndex == old(pendingGroupIndex)
      ensures s.token != "" ==> loginRequested == old(loginRequested)
      ensures confirmed == old(confirmed)
    {
      newGroups := groups;
      if s.token == "" {
        loginRequested := true;
        return None, newGroups;
      }
      uploading := uploading + {groupIndex};
      if targetScript.None? || !confirmed {
        pendingGroupIndex := Some(groupIndex);
        dialogRequested := true;
        if dialogFails {
          uploading := uploading - {groupIndex};
        }
        return None, newGroups;
      }
      var o, g, _ := ExecuteSingleUpload(groups, groupIndex, targetScriptCorpusList, cache, s);
      return Some(o), g;
    }

    /** handleSingleUploadConfirm: the script counts as confirmed, and a
        waiting group is uploaded against it and no longer waits. */
    method HandleSingleUploadConfirm(groups: seq<AudioGroup>, corpusList: seq<CorpusEntry>, cache: map<nat, Blob>, s: Service)
      returns (outcome: Option<Outcome>, newGroups: seq<AudioGroup>)
      modifies this
      ensures confirmed && pendingGroupIndex == None
      ensures old(pendingGroupIndex).None? ==> outcome == None && newGroups == groups && uploading == old(uploading)
      ensures old(pendingGroupIndex).Some? ==>
        var run := SingleUploadRun(groups, old(pendingGroupIndex).value, corpusList, cache, s);
        outcome == Some(run.outcome) && newGroups == run.groups
        && uploading == old(uploading) - {old(pendingGroupIndex).value}
      ensures loginRequested == old(loginRequested) && dialogRequested == old(dialogRequested)
    {
      confirmed := true;
      newGroups := groups;
      outcome := None;
      if pendingGroupIndex.Some? {
        var o, g, _ := ExecuteSingleUpload(groups, pendingGroupIndex.value, corpusList, cache, s);
        outcome, newGroups := Some(o), g;
        pendingGroupIndex := None;
      }
    }
  }

  /** A group is marked uploaded only when it had targets and every one of
      them succeeded. */
  lemma MarkedIffAllSucceeded(targets: seq<BaizeRef>, s: Service, doSync: bool)
    ensures var t := TallyOf(targets, s, doSync);
      (t.success > 0 && t.fail == 0) <==>
        (targets != [] && forall i | 0 <= i < |targets| :: TargetOutcome(targets[i], s, doSync) == Succeeded)
  {
    TallyCounts(targets, s, doSync);
  }
}

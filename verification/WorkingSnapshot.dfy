/** run/working_snapshot.py: the patched theory and the localization anchor of one run.
    A theory text is modelled as the sequence of its lines. */
module WorkingSnapshot {
  import opened RepairModel

  datatype PatchEntry = PatchEntry(
    patchEntryId: nat,
    taskId: TaskId,
    line: int,
    kind: ArtifactKind,
    text: string,
    originalText: string,
    artifactRecordId: Option<nat>)

  /** The text most recently patched onto a line. */
  function LastFor(entries: seq<PatchEntry>, line: int): (r: Option<string>)
    ensures r.None? <==> forall k :: 0 <= k < |entries| ==> entries[k].line != line
  {
    if entries == [] then None
    else
      var last := entries[|entries| - 1];
      if last.line == line then Some(last.text) else LastFor(entries[..|entries| - 1], line)
  }

  /** `lines` is the patched theory: on each line its latest patch, else the original line. */
  ghost predicate IsRendered(lines: seq<string>, original: seq<string>, entries: seq<PatchEntry>) {
    && |lines| == |original|
    && forall i :: 0 <= i < |lines| ==>
         lines[i] == (match LastFor(entries, i + 1)
                      case Some(text) => text
                      case None => original[i])
  }

  /** What a consumer of the exported patch does: write the entries into the text one by one. */
  function Reapply(original: seq<string>, entries: seq<PatchEntry>): (lines: seq<string>)
    ensures |lines| == |original|
  {
    if entries == [] then original
    else
      var lines := Reapply(original, entries[..|entries| - 1]);
      var last := entries[|entries| - 1];
      if 0 < last.line <= |lines| then lines[last.line - 1 := last.text] else lines
  }

  /** The exported entries reproduce the rendered text. */
  lemma {:induction false} ReapplyReproducesRendered(original: seq<string>, entries: seq<PatchEntry>)
    ensures IsRendered(Reapply(original, entries), original, entries)
  {
    if entries != [] {
      ReapplyReproducesRendered(original, entries[..|entries| - 1]);
    }
  }

  /** The effect of linking an artifact record to the newest unlinked entry of its task. */
  function Linked(entries: seq<PatchEntry>, taskId: TaskId, recordId: nat): (r: seq<PatchEntry>)
    ensures |r| == |entries|
  {
    if entries == [] then []
    else
      var last := entries[|entries| - 1];
      var rest := entries[..|entries| - 1];
      if last.taskId == taskId && last.artifactRecordId.None? then
        rest + [last.(artifactRecordId := Some(recordId))]
      else
        Linked(rest, taskId, recordId) + [last]
  }

  /** Linking changes no text that a reader of the patch could see. */
  lemma {:induction false} LinkingKeepsReplacements(entries: seq<PatchEntry>, taskId: TaskId, recordId: nat, line: int)
    ensures LastFor(Linked(entries, taskId, recordId), line) == LastFor(entries, line)
  {
    if entries != [] {
      var n := |entries| - 1;
      LinkingKeepsReplacements(entries[..n], taskId, recordId, line);
      var linked := Linked(entries, taskId, recordId);
      assert linked[..n] == if entries[n].taskId == taskId && entries[n].artifactRecordId.None?
                            then entries[..n] else Linked(entries[..n], taskId, recordId);
    }
  }

  /** A patch that has just gone in is the one that is linked. */
  lemma LinksTheLatest(entries: seq<PatchEntry>, latest: PatchEntry, recordId: nat)
    requires latest.artifactRecordId.None?
    ensures Linked(entries + [latest], latest.taskId, recordId) ==
            entries + [latest.(artifactRecordId := Some(recordId))]
  {
    assert (entries + [latest])[..|entries|] == entries;
  }

  lemma LinkingKeepsRendered(lines: seq<string>, original: seq<string>, entries: seq<PatchEntry>, taskId: TaskId,
                             recordId: nat)
    requires IsRendered(lines, original, entries)
    ensures IsRendered(lines, original, Linked(entries, taskId, recordId))
  {
    forall line | 0 < line <= |original|
      ensures LastFor(Linked(entries, taskId, recordId), line) == LastFor(entries, line)
    {
      LinkingKeepsReplacements(entries, taskId, recordId, line);
    }
  }

  class WorkingTheorySnapshot {
    const originalLines: seq<string>
    var currentLines: seq<string>
    var appliedArtifacts: seq<(ArtifactKind, string)>
    var anchor: Option<StateId>
    var cursor: int
    var mode: Option<StateMode>
    var proofLevel: Option<int>
    var replacements: seq<PatchEntry>
    var lastDrift: Option<DriftReason>

    /** The displayed text is the original with the latest patch on each patched line, and the
        two histories of what was applied agree. */
    ghost predicate Valid()
      reads this
    {
      && cursor >= -1
      && IsRendered(currentLines, originalLines, replacements)
      && |appliedArtifacts| == |replacements|
      && (forall k :: 0 <= k < |replacements| ==>
           && appliedArtifacts[k] == (replacements[k].kind, replacements[k].text)
           && replacements[k].patchEntryId == k + 1)
    }

    constructor (lines: seq<string>)
      ensures Valid() && originalLines == lines && currentLines == lines
      ensures replacements == [] && anchor == None && cursor == -1
    {
      originalLines, currentLines := lines, lines;
      appliedArtifacts, replacements := [], [];
      anchor, cursor, mode, proofLevel := None, -1, None, None;
      lastDrift := None;
    }

    /** The source raises an error unless the cursor is monotonic. */
    method SetAnchor(stateId: StateId, newCursor: int, newMode: StateMode, newLevel: int)
      requires newCursor >= cursor
      modifies this`anchor, this`cursor, this`mode, this`proofLevel
      ensures anchor == Some(stateId) && cursor == newCursor
      ensures mode == Some(newMode) && proofLevel == Some(newLevel)
    {
      anchor, cursor := Some(stateId), newCursor;
      mode, proofLevel := Some(newMode), Some(newLevel);
    }

    method ApplyArtifact(kind: ArtifactKind, text: string, taskId: TaskId, line: int, originalText: string)
      requires Valid()
      modifies this`appliedArtifacts, this`replacements, this`currentLines
      ensures Valid()
      ensures replacements ==
              old(replacements) + [PatchEntry(|old(replacements)| + 1, taskId, line, kind, text, originalText, None)]
      ensures appliedArtifacts == old(appliedArtifacts) + [(kind, text)]
      ensures currentLines == if 0 < line <= |originalLines| then old(currentLines)[line - 1 := text]
                              else old(currentLines)
    {
      appliedArtifacts := appliedArtifacts + [(kind, text)];
      replacements := replacements + [PatchEntry(|replacements| + 1, taskId, line, kind, text, originalText, None)];
      assert replacements[..|replacements| - 1] == old(replacements);
      currentLines := RenderPatchedText();
    }

    method ReplacementForLine(line: int) returns (r: Option<string>)
      ensures r == LastFor(replacements, line)
    {
      var i := |replacements|;
      assert replacements[..i] == replacements;
      while i > 0
        invariant 0 <= i <= |replacements|
        invariant LastFor(replacements, line) == LastFor(replacements[..i], line)
      {
        i := i - 1;
        assert replacements[..i + 1][..i] == replacements[..i];
        if replacements[i].line == line {
          return Some(replacements[i].text);
        }
      }
      return None;
    }

    method AttachArtifactRecordId(taskId: TaskId, recordId: nat)
      requires Valid()
      modifies this`replacements
      ensures Valid()
      ensures replacements == Linked(old(replacements), taskId, recordId)
    {
      ghost var before := replacements;
      var i := |replacements|;
      assert before[..i] == before;
      while i > 0
        invariant 0 <= i <= |before|
        invariant replacements == before
        invariant Linked(before, taskId, recordId) == Linked(before[..i], taskId, recordId) + before[i..]
      {
        i := i - 1;
        assert before[..i + 1][..i] == before[..i];
        if replacements[i].taskId == taskId && replacements[i].artifactRecordId.None? {
          replacements := replacements[i := replacements[i].(artifactRecordId := Some(recordId))];
          assert replacements == Linked(before, taskId, recordId);
          break;
        }
      }
      assert replacements == Linked(before, taskId, recordId);
      LinkingKeepsRendered(currentLines, originalLines, before, taskId, recordId);
      LinkedPointwise(before, taskId, recordId);
    }

    /** The source visits the patched lines in ascending order; here any order will do. */
    method RenderPatchedText() returns (lines: seq<string>)
      ensures IsRendered(lines, originalLines, replacements)
    {
      lines := originalLines;
      var byLine: map<int, string> := map[];
      for i := 0 to |replacements|
        invariant forall l :: l in byLine <==> l > 0 && LastFor(replacements[..i], l).Some?
        invariant forall l :: l in byLine ==> LastFor(replacements[..i], l) == Some(byLine[l])
      {
        assert replacements[..i + 1][..i] == replacements[..i];
        var entry := replacements[i];
        if entry.line > 0 {
          byLine := byLine[entry.line := entry.text];
        }
      }
      assert replacements[..|replacements|] == replacements;
      var pending := byLine.Keys;
      while pending != {}
        invariant pending <= byLine.Keys
        invariant |lines| == |originalLines|
        invariant forall k :: 0 <= k < |lines| ==>
          lines[k] == if k + 1 in byLine.Keys - pending then byLine[k + 1] else originalLines[k]
        decreases pending
      {
        assert (forall l :: l !in pending) ==> pending == {};
        var lineNumber :| lineNumber in pending;
        var index := lineNumber - 1;
        if 0 <= index < |lines| {
          lines := lines[index := byLine[lineNumber]];
        }
        pending := pending - {lineNumber};
      }
    }
  }

  lemma {:induction false} LinkedPointwise(entries: seq<PatchEntry>, taskId: TaskId, recordId: nat)
    ensures forall k :: 0 <= k < |entries| ==>
      Linked(entries, taskId, recordId)[k].(artifactRecordId := None) == entries[k].(artifactRecordId := None)
  {
    if entries != [] {
      LinkedPointwise(entries[..|entries| - 1], taskId, recordId);
    }
  }
}

/**
 * engine.js's `DialogueManager` object: its fields updated in place by
 * `start`, `update` and `nextLine`, each tied to the value model.
 */
module Dialogue {
  import opened Wrappers
  import M = DialogueModel

  class DialogueManager {
    var lines: seq<string>
    var currentLine: nat
    var currentChar: nat
    var visible: bool
    var lastCharTime: int
    var onComplete: Option<M.CallbackId>
    /** Invocations of `onComplete` made so far, oldest first. */
    var completions: seq<M.CallbackId>

    function Snapshot(): M.State
      reads this
    {
      M.State(lines, currentLine, currentChar, visible, lastCharTime, onComplete, completions)
    }

    constructor ()
      ensures Snapshot() == M.Initial
    {
      lines, currentLine, currentChar := [], 0, 0;
      visible, lastCharTime := false, 0;
      onComplete, completions := None, [];
    }

    method Start(script: seq<string>, callback: Option<M.CallbackId>)
      modifies this
      ensures Snapshot() == M.Start(old(Snapshot()), script, callback)
    {
      lines := script;
      currentLine := 0;
      currentChar := 0;
      visible := true;
      onComplete := callback;
    }

    /** Returns whether the source would throw (empty script). */
    method Update(time: int) returns (threw: bool)
      modifies this
      ensures M.Step(Snapshot(), threw) == M.Update(old(Snapshot()), time)
    {
      threw := false;
      if !visible {
        return;
      }
      if time - lastCharTime > M.Speed {
        currentChar := currentChar + 1;
        lastCharTime := time;
        if currentLine >= |lines| {
          threw := true;
          return;
        }
        if currentChar > |lines[currentLine]| {
          currentChar := |lines[currentLine]|;
        }
      }
    }

    /** Returns whether the source would throw (empty script). */
    method NextLine() returns (threw: bool)
      modifies this
      ensures M.Step(Snapshot(), threw) == M.NextLine(old(Snapshot()))
    {
      threw := false;
      if !visible {
        return;
      }
      if currentLine >= |lines| {
        threw := true;
        return;
      }
      if currentChar < |lines[currentLine]| {
        currentChar := |lines[currentLine]|;
      } else if currentLine < |lines| - 1 {
        currentLine := currentLine + 1;
        currentChar := 0;
      } else {
        visible := false;
        match onComplete {
          case Some(id) => completions := completions + [id];
          case None =>
        }
      }
    }
  }
}

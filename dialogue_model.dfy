/**
 * The typewriter state machine of engine.js's `DialogueManager` as a value:
 * `start`, `update(time)` and `nextLine` as functions from state to state,
 * and the text `draw` shows. Times are integer milliseconds.
 *
 * When the script is empty, `lines[currentLine]` is `undefined` and the source
 * throws a TypeError on reading its `length`; `Step.threw` records that.
 */
module DialogueModel {
  import opened Wrappers

  /** Identity of an `onComplete` callback; its invocations are logged in `completions`. */
  type CallbackId = nat

  /** `DialogueManager.speed`: milliseconds between two revealed characters. */
  const Speed: int := 30

  datatype State = State(
    lines: seq<string>,
    currentLine: nat,
    currentChar: nat,
    visible: bool,
    lastCharTime: int,
    onComplete: Option<CallbackId>,
    completions: seq<CallbackId>)

  /** The state after a call, and whether the call threw. */
  datatype Step = Step(next: State, threw: bool)

  /** What `draw` puts in the dialogue box. */
  datatype Drawn = Hidden | Shown(text: string) | Threw

  /** The object literal's initial field values. */
  const Initial: State := State([], 0, 0, false, 0, None, [])

  function Min(a: int, b: int): int { if a <= b then a else b }

  predicate LineDefined(s: State) { s.currentLine < |s.lines| }

  function CurrentLength(s: State): nat
    requires LineDefined(s)
  {
    |s.lines[s.currentLine]|
  }

  /** While the box is shown, the current line exists and the reveal count is within it. */
  predicate Inv(s: State) {
    s.visible ==> LineDefined(s) && s.currentChar <= CurrentLength(s)
  }

  /** `onComplete?.()`: a stored callback runs once; a `null` one runs nothing. */
  function Fired(cb: Option<CallbackId>): (r: seq<CallbackId>)
    ensures |r| <= 1 && (|r| == 1 <==> cb.Some?)
  {
    match cb
    case None => []
    case Some(id) => [id]
  }

  /** `start(lines, onComplete)`. */
  function Start(s: State, lines: seq<string>, onComplete: Option<CallbackId>): (r: State)
    ensures Inv(r) <==> |lines| > 0
    ensures r.visible && r.completions == s.completions
  {
    s.(lines := lines, currentLine := 0, currentChar := 0, visible := true, onComplete := onComplete)
  }

  /** `update(time)`: at most one character per call once the interval has passed. */
  function Update(s: State, time: int): (r: Step)
    ensures r.next.lines == s.lines && r.next.currentLine == s.currentLine
    ensures r.next.visible == s.visible && r.next.completions == s.completions
    ensures r.next.currentChar <= s.currentChar + 1
    ensures Inv(s) ==> !r.threw && Inv(r.next)
  {
    if !s.visible || time - s.lastCharTime <= Speed then
      Step(s, false)
    else
      var bumped := s.(currentChar := s.currentChar + 1, lastCharTime := time);
      if !LineDefined(s) then
        Step(bumped, true)
      else
        Step(bumped.(currentChar := Min(bumped.currentChar, CurrentLength(s))), false)
  }

  /** `nextLine()`: finish the line, go to the next one, or close and run `onComplete`. */
  function NextLine(s: State): (r: Step)
    ensures r.next.lines == s.lines && r.next.onComplete == s.onComplete
    ensures r.next.lastCharTime == s.lastCharTime
    ensures r.next.currentLine <= s.currentLine + 1
    ensures r.next.completions == if s.visible && !r.next.visible
                                  then s.completions + Fired(s.onComplete) else s.completions
    ensures Inv(s) ==> !r.threw && Inv(r.next)
  {
    if !s.visible then
      Step(s, false)
    else if !LineDefined(s) then
      Step(s, true)
    else if s.currentChar < CurrentLength(s) then
      Step(s.(currentChar := CurrentLength(s)), false)
    else if s.currentLine < |s.lines| - 1 then
      Step(s.(currentLine := s.currentLine + 1, currentChar := 0), false)
    else
      Step(s.(visible := false, completions := s.completions + Fired(s.onComplete)), false)
  }

  /** The text `draw` shows: `lines[currentLine].substring(0, currentChar)`. */
  function VisibleText(s: State): (r: Drawn)
    ensures r.Hidden? <==> !s.visible
    ensures r.Threw? <==> s.visible && !LineDefined(s)
    ensures r.Shown? ==> LineDefined(s) && r.text <= s.lines[s.currentLine]
    ensures r.Shown? && Inv(s) ==> |r.text| == s.currentChar
  {
    if !s.visible then Hidden
    else if !LineDefined(s) then Threw
    else Shown(s.lines[s.currentLine][..Min(s.currentChar, CurrentLength(s))])
  }

  // ---------------------------------------------------------------------------
  // Presses still needed to close the box

  /** Presses a line costs when `revealed` of its characters are shown: reveal, then advance. */
  function LineCost(line: string, revealed: nat): nat {
    if revealed < |line| then 2 else 1
  }

  /** Presses the lines from index `i` on cost, each entered with nothing revealed. */
  function TailCost(lines: seq<string>, i: nat): (r: nat)
    requires i <= |lines|
    ensures |lines| - i <= r <= 2 * (|lines| - i)
    decreases |lines| - i
  {
    if i == |lines| then 0 else LineCost(lines[i], 0) + TailCost(lines, i + 1)
  }

  /** The number of `nextLine` calls that close the box from `s`. */
  function PressesToClose(s: State): (r: nat)
    requires Inv(s)
    ensures !s.visible ==> r == 0
    ensures s.visible ==> 1 <= r <= 2 * (|s.lines| - s.currentLine)
  {
    if !s.visible then 0
    else LineCost(s.lines[s.currentLine], s.currentChar) + TailCost(s.lines, s.currentLine + 1)
  }

  /** `k` successive `nextLine` calls. */
  function Presses(s: State, k: nat): State
    decreases k
  {
    if k == 0 then s else Presses(NextLine(s).next, k - 1)
  }

  // ---------------------------------------------------------------------------
  // start

  lemma StartLoadsScript(s: State, lines: seq<string>, cb: Option<CallbackId>)
    ensures var r := Start(s, lines, cb);
      && r.lines == lines && r.currentLine == 0 && r.currentChar == 0
      && r.visible && r.onComplete == cb
      && r.lastCharTime == s.lastCharTime
      && r.completions == s.completions
      && (Inv(r) <==> |lines| > 0)
  {
  }

  /** A fresh script costs the presses of its lines; each line needs one or two. */
  lemma StartPressesToClose(s: State, lines: seq<string>, cb: Option<CallbackId>)
    requires |lines| > 0
    ensures Inv(Start(s, lines, cb))
    ensures PressesToClose(Start(s, lines, cb)) == TailCost(lines, 0)
    ensures |lines| <= PressesToClose(Start(s, lines, cb)) <= 2 * |lines|
  {
  }

  /** An empty script is accepted, and the next reveal, advance or draw throws. */
  lemma StartEmptyScriptThrows(s: State, cb: Option<CallbackId>, time: int)
    ensures var r := Start(s, [], cb);
      && NextLine(r) == Step(r, true)
      && VisibleText(r) == Threw
      && (time - s.lastCharTime > Speed <==> Update(r, time).threw)
  {
  }

  // ---------------------------------------------------------------------------
  // update

  /**
   * With the invariant, `update` never throws; once the interval has passed
   * it shows exactly one more character (none on a finished line) and
   * restarts the interval, and otherwise it changes nothing.
   */
  lemma UpdateRevealsOneCharacter(s: State, time: int)
    requires Inv(s)
    ensures var r := Update(s, time);
      && !r.threw && Inv(r.next)
      && (!s.visible || time - s.lastCharTime <= Speed ==> r.next == s)
      && (s.visible && time - s.lastCharTime > Speed ==>
            r.next == s.(currentChar := Min(s.currentChar + 1, CurrentLength(s)), lastCharTime := time))
  {
  }

  /** Revealing never costs presses and the shown text only grows, by at most one character. */
  lemma UpdateOnlyExtendsText(s: State, time: int)
    requires Inv(s) && s.visible
    ensures var t := Update(s, time).next;
      && Inv(t)
      && PressesToClose(t) <= PressesToClose(s)
      && VisibleText(s).Shown? && VisibleText(t).Shown?
      && VisibleText(s).text <= VisibleText(t).text
      && |VisibleText(t).text| <= |VisibleText(s).text| + 1
      && t.currentLine == s.currentLine && t.visible && t.completions == s.completions
  {
    UpdateRevealsOneCharacter(s, time);
    var t := Update(s, time).next;
    var line := s.lines[s.currentLine];
    assert VisibleText(s).text == line[..s.currentChar];
    assert VisibleText(t).text == line[..t.currentChar];
  }

  // ---------------------------------------------------------------------------
  // nextLine

  lemma NextLineWhenHiddenDoesNothing(s: State)
    requires !s.visible
    ensures NextLine(s) == Step(s, false)
  {
  }

  /** The three branches of `nextLine` on a shown box, under the invariant. */
  lemma NextLineBranches(s: State)
    requires Inv(s) && s.visible
    ensures var r := NextLine(s);
      && !r.threw && Inv(r.next)
      && r.next.lines == s.lines && r.next.onComplete == s.onComplete
      && r.next.lastCharTime == s.lastCharTime
      && (s.currentChar < CurrentLength(s) ==>
            r.next == s.(currentChar := CurrentLength(s)) &&
            VisibleText(r.next) == Shown(s.lines[s.currentLine]))
      && (s.currentChar == CurrentLength(s) && s.currentLine < |s.lines| - 1 ==>
            r.next.visible && r.next.currentLine == s.currentLine + 1 &&
            r.next.currentChar == 0 && r.next.completions == s.completions)
      && (s.currentChar == CurrentLength(s) && s.currentLine == |s.lines| - 1 ==>
            !r.next.visible && r.next.completions == s.completions + Fired(s.onComplete))
  {
    if s.currentChar < CurrentLength(s) {
      var line := s.lines[s.currentLine];
      assert line[..|line|] == line;
    }
  }

  /**
   * Every call on a shown box uses up exactly one press; the box closes exactly
   * when one press was left, and only closing runs the callback.
   */
  lemma NextLineUsesOnePress(s: State)
    requires Inv(s) && s.visible
    ensures var t := NextLine(s).next;
      && Inv(t)
      && PressesToClose(t) == PressesToClose(s) - 1
      && t.onComplete == s.onComplete
      && t.completions == if t.visible then s.completions else s.completions + Fired(s.onComplete)
  {
  }

  lemma {:induction false} PressesWhenHidden(s: State, k: nat)
    requires !s.visible
    ensures Presses(s, k) == s
    decreases k
  {
    if k > 0 {
      PressesWhenHidden(NextLine(s).next, k - 1);
    }
  }

  lemma {:induction false} PressesAdd(s: State, a: nat, b: nat)
    ensures Presses(s, a + b) == Presses(Presses(s, a), b)
    decreases a
  {
    if a > 0 {
      PressesAdd(NextLine(s).next, a - 1, b);
    }
  }

  /** Fewer presses than `PressesToClose` leave the box open and run nothing. */
  lemma {:induction false} OpenBeforeLastPress(s: State, k: nat)
    requires Inv(s) && k < PressesToClose(s)
    ensures var t := Presses(s, k);
      Inv(t) && t.visible && t.completions == s.completions && t.onComplete == s.onComplete
    decreases k
  {
    if k > 0 {
      NextLineUsesOnePress(s);
      OpenBeforeLastPress(NextLine(s).next, k - 1);
    }
  }

  /** `PressesToClose` presses close the box, running its callback exactly once. */
  lemma {:induction false} ClosedAtLastPress(s: State)
    requires Inv(s)
    ensures var t := Presses(s, PressesToClose(s));
      && !t.visible
      && t.completions == if s.visible then s.completions + Fired(s.onComplete) else s.completions
    decreases PressesToClose(s)
  {
    if s.visible {
      NextLineUsesOnePress(s);
      var t := NextLine(s).next;
      if t.visible {
        ClosedAtLastPress(t);
      }
    }
  }

  /**
   * A script of n lines is closed by any 2n or more presses after `start`, and
   * its callback has then run exactly once; further presses run nothing.
   */
  lemma {:induction false} ScriptClosesWithinTwicePerLine(s: State, lines: seq<string>, cb: Option<CallbackId>, k: nat)
    requires |lines| > 0 && k >= 2 * |lines|
    ensures var t := Presses(Start(s, lines, cb), k);
      !t.visible && t.completions == s.completions + Fired(cb)
  {
    var st := Start(s, lines, cb);
    StartPressesToClose(s, lines, cb);
    var p := PressesToClose(st);
    ClosedAtLastPress(st);
    PressesAdd(st, p, k - p);
    PressesWhenHidden(Presses(st, p), k - p);
  }

  /** `start(["Hi", "Bye"])` closes on the fourth `nextLine`, passing through line 1 with nothing shown. */
  lemma HiByeScenario(s: State)
    ensures var s0 := Start(s, ["Hi", "Bye"], None);
      && s0.currentLine == 0 && s0.currentChar == 0
      && Presses(s0, 1).currentLine == 0 && Presses(s0, 1).currentChar == 2
      && Presses(s0, 2).currentLine == 1 && Presses(s0, 2).currentChar == 0 && Presses(s0, 2).visible
      && Presses(s0, 3).visible && Presses(s0, 3).currentLine == 1 && Presses(s0, 3).currentChar == 3
      && VisibleText(Presses(s0, 3)) == Shown("Bye")
      && !Presses(s0, 4).visible
  {
    var s0 := Start(s, ["Hi", "Bye"], None);
    assert Presses(s0, 4) == Presses(Presses(s0, 3), 1) by { PressesAdd(s0, 3, 1); }
    assert Presses(s0, 3) == Presses(Presses(s0, 2), 1) by { PressesAdd(s0, 2, 1); }
    assert Presses(s0, 2) == Presses(Presses(s0, 1), 1) by { PressesAdd(s0, 1, 1); }
    assert "Bye"[..3] == "Bye";
  }
}

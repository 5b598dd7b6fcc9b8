/**
 * The scene of engine.js (the wall, the old tree, their scripts) and the
 * interaction part of `update(dt)`. The player box after `moveBody` is an
 * input. A run of browser events drives the whole game.
 */
module Game {
  import opened Wrappers
  import opened Collision
  import IM = InputModel
  import DM = DialogueModel
  import Input
  import Dialogue

  const Wall: Box := Box(300, 100, 100, 100)
  const OldTree: Box := Box(200, 300, 20, 100)
  /** `playerValues` before any movement; `moveBody` changes only x and y. */
  const PlayerStart: Box := Box(100, 100, 50, 50)

  const WallScript: seq<string> := [
    "This is a wall.",
    "You just tried to talk to a wall.",
    "You okay, champ?"
  ]

  const OldTreeScript: seq<string> := [
    "This is one very old tree.",
    "Local folktales say it's been here for 700 years.",
    "...",
    "I'll remember this. It might help later."
  ]

  const InteractKey: IM.Key := "z"

  /** The default `onComplete = () => {}` that `update` passes to `start`. */
  const DefaultCallback: DM.CallbackId := 0

  datatype World = World(dialogue: DM.State, input: IM.Keyboard)

  const InitialWorld: World := World(DM.Initial, IM.NoKeys)

  predicate Triggers(w: World, player: Box, target: Box) {
    IsColliding(player, target) && IM.JustPressed(w.input, InteractKey)
  }

  /** The interaction part of `update(dt)`, with `player` the box after movement. */
  function Dispatch(w: World, player: Box): (r: World)
    ensures w.dialogue.visible ==> r == w
    ensures !w.dialogue.visible ==> forall k :: !IM.JustPressed(r.input, k)
    ensures r.input.keys == w.input.keys
    ensures r.dialogue.completions == w.dialogue.completions
    ensures DM.Inv(w.dialogue) ==> DM.Inv(r.dialogue)
  {
    if w.dialogue.visible then
      w
    else
      var d1 := if Triggers(w, player, Wall)
                then DM.Start(w.dialogue, WallScript, Some(DefaultCallback)) else w.dialogue;
      var d2 := if Triggers(w, player, OldTree)
                then DM.Start(d1, OldTreeScript, Some(DefaultCallback)) else d1;
      World(d2, IM.ResetInputFlags(w.input))
  }

  method Update(dm: Dialogue.DialogueManager, input: Input.InputState, player: Box)
    modifies dm, input
    ensures World(dm.Snapshot(), input.Snapshot()) ==
            Dispatch(World(old(dm.Snapshot()), old(input.Snapshot())), player)
  {
    if dm.visible {
      return;
    }
    var z := InteractKey in input.justPressed && input.justPressed[InteractKey];
    if IsColliding(player, Wall) && z {
      dm.Start(WallScript, Some(DefaultCallback));
    }
    if IsColliding(player, OldTree) && z {
      dm.Start(OldTreeScript, Some(DefaultCallback));
    }
    input.ResetInputFlags();
  }

  /** While a dialogue is shown nothing happens, and edge flags are not cleared. */
  lemma DispatchFrozenWhileVisible(w: World, player: Box)
    requires w.dialogue.visible
    ensures Dispatch(w, player) == w
  {
  }

  /**
   * Otherwise a script starts exactly when the `z` edge fired over an object,
   * the tree's script wins over the wall's, nothing completes, and every edge
   * flag ends cleared with the held keys untouched.
   */
  lemma DispatchStartsMatchingScript(w: World, player: Box)
    requires !w.dialogue.visible
    ensures var r := Dispatch(w, player);
      && (r.dialogue.visible <==> Triggers(w, player, Wall) || Triggers(w, player, OldTree))
      && (Triggers(w, player, OldTree) ==>
            r.dialogue == DM.Start(w.dialogue, OldTreeScript, Some(DefaultCallback)))
      && (Triggers(w, player, Wall) && !Triggers(w, player, OldTree) ==>
            r.dialogue == DM.Start(w.dialogue, WallScript, Some(DefaultCallback)))
      && (!r.dialogue.visible ==> r.dialogue == w.dialogue)
      && r.dialogue.completions == w.dialogue.completions
      && DM.Inv(r.dialogue) == (r.dialogue.visible || DM.Inv(w.dialogue))
      && r.input == IM.ResetInputFlags(w.input)
      && (forall k :: !IM.JustPressed(r.input, k))
      && r.input.keys == w.input.keys
  {
    IM.ResetClearsEveryEdge(w.input);
  }

  /** A box large enough to overlap both objects gets the old tree's script. */
  lemma LaterCheckOverwrites(w: World)
    requires !w.dialogue.visible && IM.JustPressed(w.input, InteractKey)
    ensures var big := Box(200, 100, 200, 300);
      && IsColliding(big, Wall) && IsColliding(big, OldTree)
      && Dispatch(w, big).dialogue.lines == OldTreeScript
  {
  }

  /** The 50 by 50 player can never overlap both objects, wherever it moves. */
  lemma PlayerNeverTouchesBoth(px: int, py: int)
    ensures var p := PlayerStart.(x := px, y := py);
      !(IsColliding(p, Wall) && IsColliding(p, OldTree))
  {
  }

  /**
   * A `z` edge raised while a dialogue is shown survives until the box is
   * closed with `nextLine`; the first frame after that, with the player still
   * over the wall, starts the wall script again.
   */
  lemma {:induction false} StaleEdgeRestartsDialogue(w: World, player: Box)
    requires w.dialogue.visible && DM.Inv(w.dialogue) && !IM.Held(w.input, InteractKey)
    requires IsColliding(player, Wall) && !IsColliding(player, OldTree)
    ensures var pressed := w.(input := IM.KeyDown(w.input, InteractKey));
      var during := Dispatch(pressed, player);
      var closed := during.(dialogue := DM.Presses(w.dialogue, DM.PressesToClose(w.dialogue)));
      var after := Dispatch(closed, player);
      && IM.JustPressed(during.input, InteractKey)
      && !closed.dialogue.visible
      && after.dialogue.visible && after.dialogue.lines == WallScript
  {
    DM.ClosedAtLastPress(w.dialogue);
  }

  // ---------------------------------------------------------------------------
  // Runs of events

  /**
   * What the browser delivers: key events, an animation frame (`update(dt)`
   * with the moved player box, then `draw` at time `now`), and a call of
   * `nextLine` as the Enter listener makes.
   */
  datatype Event = KeyDown(key: IM.Key) | KeyUp(key: IM.Key) | Frame(player: Box, now: int) | Advance

  datatype Outcome = Outcome(world: World, threw: bool)

  /**
   * One event. A frame throws when `update(time)` throws, or when `draw` then
   * reads the undefined current line of a shown box.
   */
  function Apply(w: World, e: Event): (r: Outcome)
    ensures e.KeyDown? || e.KeyUp? ==> r.world.dialogue == w.dialogue && !r.threw
    ensures e.Advance? ==> r.world.input == w.input
    ensures w.dialogue.completions <= r.world.dialogue.completions
  {
    match e
    case KeyDown(k) => Outcome(w.(input := IM.KeyDown(w.input, k)), false)
    case KeyUp(k) => Outcome(w.(input := IM.KeyUp(w.input, k)), false)
    case Frame(player, now) =>
      var moved := Dispatch(w, player);
      var step := DM.Update(moved.dialogue, now);
      Outcome(moved.(dialogue := step.next), step.threw || DM.VisibleText(step.next).Threw?)
    case Advance =>
      var step := DM.NextLine(w.dialogue);
      Outcome(w.(dialogue := step.next), step.threw)
  }

  /** The events in order; the run threw if any event threw. */
  function Run(w: World, events: seq<Event>): (r: Outcome)
    ensures events == [] ==> r == Outcome(w, false)
    ensures w.dialogue.completions <= r.world.dialogue.completions
    decreases |events|
  {
    if events == [] then Outcome(w, false)
    else
      var first := Apply(w, events[0]);
      var rest := Run(first.world, events[1..]);
      Outcome(rest.world, first.threw || rest.threw)
  }

  lemma ApplyKeepsInv(w: World, e: Event)
    requires DM.Inv(w.dialogue)
    ensures !Apply(w, e).threw && DM.Inv(Apply(w, e).world.dialogue)
  {
    match e
    case Frame(player, now) =>
      var moved := Dispatch(w, player);
      if !w.dialogue.visible {
        DispatchStartsMatchingScript(w, player);
      }
      DM.UpdateRevealsOneCharacter(moved.dialogue, now);
    case Advance =>
      if w.dialogue.visible {
        DM.NextLineUsesOnePress(w.dialogue);
      }
    case _ =>
  }

  /** From a state satisfying the invariant no run of events ever throws. */
  lemma {:induction false} RunKeepsInv(w: World, events: seq<Event>)
    requires DM.Inv(w.dialogue)
    ensures !Run(w, events).threw && DM.Inv(Run(w, events).world.dialogue)
    decreases |events|
  {
    if events != [] {
      ApplyKeepsInv(w, events[0]);
      RunKeepsInv(Apply(w, events[0]).world, events[1..]);
    }
  }

  /** The game as loaded never reaches the empty-script TypeError, whatever the player does. */
  lemma GameNeverThrows(events: seq<Event>)
    ensures !Run(InitialWorld, events).threw
  {
    RunKeepsInv(InitialWorld, events);
  }
}

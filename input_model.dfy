/**
 * The keyboard state of engine.js as a value: the `keys` object (key held) and
 * the `keyJustPressed` object (key went down since the flags were last reset),
 * with the keydown and keyup handlers and `resetInputFlags` as functions on it.
 */
module InputModel {

  /** The `KeyboardEvent.key` string, e.g. "z" or "ArrowUp". */
  type Key = string

  datatype Keyboard = Keyboard(keys: map<Key, bool>, justPressed: map<Key, bool>)

  /** Both objects start as `{}`. */
  const NoKeys: Keyboard := Keyboard(map[], map[])

  /**
   * Reading `m[k]` of a plain object yields `undefined`, which is falsy, for a
   * missing key. Inherited names such as "constructor" or "toString" would read
   * as truthy on `{}`; no `KeyboardEvent.key` value is such a name.
   */
  predicate Truthy(m: map<Key, bool>, k: Key) { k in m && m[k] }

  predicate Held(kb: Keyboard, k: Key) { Truthy(kb.keys, k) }

  predicate JustPressed(kb: Keyboard, k: Key) { Truthy(kb.justPressed, k) }

  /** The keydown handler: the edge flag is raised only if the key was not already held. */
  function KeyDown(kb: Keyboard, k: Key): (r: Keyboard)
    ensures Held(r, k)
    ensures JustPressed(r, k) <==> !Held(kb, k) || JustPressed(kb, k)
    ensures r.keys - {k} == kb.keys - {k} && r.justPressed - {k} == kb.justPressed - {k}
  {
    Keyboard(kb.keys[k := true],
             if Held(kb, k) then kb.justPressed else kb.justPressed[k := true])
  }

  /** The keyup handler. */
  function KeyUp(kb: Keyboard, k: Key): (r: Keyboard)
    ensures !Held(r, k)
    ensures r.justPressed == kb.justPressed && r.keys - {k} == kb.keys - {k}
  {
    kb.(keys := kb.keys[k := false])
  }

  /** `resetInputFlags`: every key present in `keyJustPressed` is set to false. */
  function ResetInputFlags(kb: Keyboard): (r: Keyboard)
    ensures forall j :: !JustPressed(r, j)
    ensures r.keys == kb.keys && r.justPressed.Keys == kb.justPressed.Keys
  {
    kb.(justPressed := map j | j in kb.justPressed :: false)
  }

  lemma KeyDownRaisesEdgeOnlyOnPress(kb: Keyboard, k: Key)
    ensures var r := KeyDown(kb, k);
      && Held(r, k)
      && (JustPressed(r, k) <==> !Held(kb, k) || JustPressed(kb, k))
      && (Held(kb, k) ==> r.justPressed == kb.justPressed)
      && r.keys - {k} == kb.keys - {k}
      && r.justPressed - {k} == kb.justPressed - {k}
  {
  }

  lemma KeyUpReleasesOnly(kb: Keyboard, k: Key)
    ensures var r := KeyUp(kb, k);
      && !Held(r, k)
      && r.justPressed == kb.justPressed
      && r.keys - {k} == kb.keys - {k}
  {
  }

  lemma ResetClearsEveryEdge(kb: Keyboard)
    ensures var r := ResetInputFlags(kb);
      && (forall j :: !JustPressed(r, j))
      && r.keys == kb.keys
      && r.justPressed.Keys == kb.justPressed.Keys
      && ResetInputFlags(r) == r
  {
  }

  /**
   * A key that stays down fires its edge once: the repeated keydown events
   * that follow the first frame's reset raise nothing.
   */
  lemma HeldKeyFiresOnce(kb: Keyboard, k: Key)
    requires !Held(kb, k)
    ensures JustPressed(KeyDown(kb, k), k)
    ensures var again := KeyDown(ResetInputFlags(KeyDown(kb, k)), k);
      Held(again, k) && !JustPressed(again, k)
  {
  }

  /** Releasing and pressing again fires a new edge. */
  lemma PressAfterReleaseFiresAgain(kb: Keyboard, k: Key)
    ensures JustPressed(KeyDown(KeyUp(ResetInputFlags(kb), k), k), k)
  {
  }

  /** keyup does not clear the edge: a tap within one frame is still seen by the frame. */
  lemma TapWithinFrameRegisters(kb: Keyboard, k: Key)
    requires !Held(kb, k)
    ensures JustPressed(KeyUp(KeyDown(kb, k), k), k)
  {
  }
}

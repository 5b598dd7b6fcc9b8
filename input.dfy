/**
 * The two input objects of engine.js with their handlers, updated in place.
 */
module Input {
  import M = InputModel

  class InputState {
    var keys: map<M.Key, bool>
    var justPressed: map<M.Key, bool>

    function Snapshot(): M.Keyboard
      reads this
    {
      M.Keyboard(keys, justPressed)
    }

    constructor ()
      ensures Snapshot() == M.NoKeys
    {
      keys, justPressed := map[], map[];
    }

    method KeyDown(k: M.Key)
      modifies this
      ensures Snapshot() == M.KeyDown(old(Snapshot()), k)
    {
      if !(k in keys && keys[k]) {
        justPressed := justPressed[k := true];
      }
      keys := keys[k := true];
    }

    method KeyUp(k: M.Key)
      modifies this
      ensures Snapshot() == M.KeyUp(old(Snapshot()), k)
    {
      keys := keys[k := false];
    }

    /** The `for (let key in keyJustPressed)` loop, one key at a time. */
    method ResetInputFlags()
      modifies this
      ensures Snapshot() == M.ResetInputFlags(old(Snapshot()))
    {
      var pending := justPressed.Keys;
      while pending != {}
        invariant keys == old(keys)
        invariant justPressed.Keys == old(justPressed).Keys
        invariant pending <= justPressed.Keys
        invariant forall j :: j in justPressed && j !in pending ==> !justPressed[j]
        invariant forall j :: j in pending ==> justPressed[j] == old(justPressed)[j]
        decreases pending
      {
        var k :| k in pending;
        justPressed := justPressed[k := false];
        pending := pending - {k};
      }
    }
  }
}

/** `content.js`: the content script that remembers the page's current
    selection and writes it, with a timestamp, to extension storage only
    when it changes. */
module SelectionCapture {
  import opened Wrappers
  import opened Text

  /** The selection a handler writes, if any, given the remembered one and
      the page's selection: the trimmed text, when it is not empty and
      differs from the remembered one. */
  function Capture(current: string, raw: string): (w: Option<string>)
    ensures w.Some? <==> JsTrim(raw) != "" && JsTrim(raw) != current
    ensures w.Some? ==> w.value == JsTrim(raw)
  {
    var selection := JsTrim(raw);
    if selection != "" && selection != current then Some(selection) else None
  }

  /** Seeing the same selection again writes nothing. */
  lemma CaptureIdempotent(current: string, raw: string)
    ensures var next := if Capture(current, raw).Some? then Capture(current, raw).value else current;
      Capture(next, raw).None?
  {
  }

  /** The selections written while the events `raws` arrive, starting from
      the remembered selection `current`. */
  function Replay(current: string, raws: seq<string>): (writes: seq<string>)
    decreases |raws|
  {
    if raws == [] then []
    else match Capture(current, raws[0])
      case Some(s) => [s] + Replay(s, raws[1..])
      case None => Replay(current, raws[1..])
  }

  /** The remembered selection after the events `raws`. */
  function Remembered(current: string, raws: seq<string>): string
    decreases |raws|
  {
    if raws == [] then current
    else match Capture(current, raws[0])
      case Some(s) => Remembered(s, raws[1..])
      case None => Remembered(current, raws[1..])
  }

  /** Over any run of events, every write is non-empty and differs from
      the one before it (the first from the starting selection). */
  lemma {:induction false} ReplayWritesChanges(current: string, raws: seq<string>)
    ensures var w := Replay(current, raws);
      && (forall k :: 0 <= k < |w| ==> w[k] != "")
      && (w != [] ==> w[0] != current)
      && (forall k :: 0 < k < |w| ==> w[k] != w[k - 1])
    decreases |raws|
  {
    if raws != [] {
      var c := Capture(current, raws[0]);
      if c.Some? {
        var s := c.value;
        ReplayWritesChanges(s, raws[1..]);
        var rest := Replay(s, raws[1..]);
        var w := [s] + rest;
        assert Replay(current, raws) == w;
        forall k | 0 < k < |w| ensures w[k] != w[k - 1] {
          assert w[k] == rest[k - 1];
          if k > 1 {
            assert w[k - 1] == rest[k - 2];
          }
        }
      } else {
        ReplayWritesChanges(current, raws[1..]);
      }
    }
  }

  /** The remembered selection is the last one written, or the starting
      one when nothing was written. */
  lemma {:induction false} RememberedIsLastWrite(current: string, raws: seq<string>)
    ensures var w := Replay(current, raws);
      Remembered(current, raws) == if w == [] then current else w[|w| - 1]
    decreases |raws|
  {
    if raws != [] {
      var c := Capture(current, raws[0]);
      if c.Some? {
        RememberedIsLastWrite(c.value, raws[1..]);
      } else {
        RememberedIsLastWrite(current, raws[1..]);
      }
    }
  }

  /** One storage write: the selection and the time it was written. */
  datatype Write = Write(selection: string, timestamp: int)

  /** The content script: the module-level `currentSelection` and the
      storage writes it has made. */
  class ContentScript {
    var currentSelection: string
    var writes: seq<Write>

    /** The remembered selection is the last one written, and "" before
        the first write. */
    ghost predicate Valid()
      reads this
    {
      && (writes == [] ==> currentSelection == "")
      && (writes != [] ==> currentSelection == writes[|writes| - 1].selection != "")
    }

    constructor ()
      ensures Valid() && currentSelection == "" && writes == []
    {
      currentSelection := "";
      writes := [];
    }

    /** The `mouseup` handler, with the page's selection and the clock. */
    method OnMouseUp(raw: string, now: int)
      requires Valid()
      modifies this
      ensures Valid()
      ensures match Capture(old(currentSelection), raw)
        case Some(s) => currentSelection == s && writes == old(writes) + [Write(s, now)]
        case None => currentSelection == old(currentSelection) && writes == old(writes)
    {
      var selection := JsTrim(raw);
      if selection != "" && selection != currentSelection {
        currentSelection := selection;
        writes := writes + [Write(selection, now)];
      }
    }

    /** The `selectionchange` handler: the same as `mouseup`. */
    method OnSelectionChange(raw: string, now: int)
      requires Valid()
      modifies this
      ensures Valid()
      ensures match Capture(old(currentSelection), raw)
        case Some(s) => currentSelection == s && writes == old(writes) + [Write(s, now)]
        case None => currentSelection == old(currentSelection) && writes == old(writes)
    {
      var selection := JsTrim(raw);
      if selection != "" && selection != currentSelection {
        currentSelection := selection;
        writes := writes + [Write(selection, now)];
      }
    }

    /** `checkInitialSelection`: any non-empty selection is written, even
        one equal to the remembered selection. */
    method CheckInitialSelection(raw: string, now: int)
      requires Valid()
      modifies this
      ensures Valid()
      ensures JsTrim(raw) != "" ==>
        currentSelection == JsTrim(raw) && writes == old(writes) + [Write(JsTrim(raw), now)]
      ensures JsTrim(raw) == "" ==> currentSelection == old(currentSelection) && writes == old(writes)
    {
      var selection := JsTrim(raw);
      if selection != "" {
        currentSelection := selection;
        writes := writes + [Write(selection, now)];
      }
    }
  }
}

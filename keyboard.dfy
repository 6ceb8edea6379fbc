/**
 * Keyboard input (src/input.ts): the set of keys currently held down, the
 * `keydown` and `keyup` handlers that keep it and call the `onkeydown` and
 * `onkeyup` callbacks on real transitions only, and the callback slots.
 */
module Keyboard {
  import opened Wrappers

  /** A `keydown` or `keyup` event from the window, carrying the key's `code`. */
  datatype KeyEvent = Down(code: string) | Up(code: string)

  /** The identity of a callback function stored in a slot. */
  datatype Handler = Handler(id: nat)

  /** A call of a callback: which function was called, for which event. */
  datatype Call = Call(handler: Handler, event: KeyEvent)

  /**
   * One handler run on the held set: whether the event is a transition (a
   * press of a key not held, a release of a key held) and the new held set.
   */
  function Step(held: set<string>, e: KeyEvent): (r: (set<string>, bool))
    ensures e.code in r.0 <==> e.Down?
    ensures forall k :: k != e.code ==> (k in r.0 <==> k in held)
    ensures r.1 <==> (e.code in held) != (e.code in r.0)
  {
    match e
    case Down(k) => if k in held then (held, false) else (held + {k}, true)
    case Up(k) => if k !in held then (held, false) else (held - {k}, true)
  }

  /** The codes of the keys a sequence of events is about. */
  function Codes(events: seq<KeyEvent>): set<string> {
    set i | 0 <= i < |events| :: events[i].code
  }

  /** `a` is `b` with some of its elements left out, the rest kept in order. */
  predicate Subsequence(a: seq<KeyEvent>, b: seq<KeyEvent>)
    decreases |b|
  {
    a == [] || (b != [] && ((a[0] == b[0] && Subsequence(a[1..], b[1..])) || Subsequence(a, b[1..])))
  }

  /**
   * The listeners run over a sequence of events: the held set at the end,
   * and the transitions among the events, each event reported at most once
   * and in the order the events came. Keys no event is about
   * keep their state, and the key of the last event is held exactly when
   * that event was a press.
   */
  function Run(held: set<string>, events: seq<KeyEvent>): (r: (set<string>, seq<KeyEvent>))
    ensures Subsequence(r.1, events)
    ensures |r.1| <= |events|
    ensures forall e :: e in r.1 ==> e in events
    ensures forall k :: k !in Codes(events) ==> (k in r.0 <==> k in held)
    ensures events != [] ==> (events[|events| - 1].code in r.0 <==> events[|events| - 1].Down?)
    decreases |events|
  {
    if events == [] then (held, [])
    else
      var (next, moved) := Step(held, events[0]);
      var (final, transitions) := Run(next, events[1..]);
      var reported := (if moved then [events[0]] else []) + transitions;
      assert Subsequence(transitions, events[1..]);
      assert moved ==> reported[0] == events[0] && reported[1..] == transitions;
      assert !moved ==> reported == transitions;
      (final, reported)
  }

  /** The events of one key among a sequence. */
  function Of(events: seq<KeyEvent>, k: string): (r: seq<KeyEvent>)
    ensures forall i :: 0 <= i < |r| ==> r[i].code == k
  {
    if events == [] then []
    else (if events[0].code == k then [events[0]] else []) + Of(events[1..], k)
  }

  /** Presses and releases alternate, the first one being a press when `startDown` holds. */
  predicate Alternates(events: seq<KeyEvent>, startDown: bool) {
    forall i :: 0 <= i < |events| ==> (events[i].Down? <==> (i % 2 == 0) == startDown)
  }

  lemma AlternatesCons(e: KeyEvent, rest: seq<KeyEvent>, startDown: bool)
    requires e.Down? == startDown
    requires Alternates(rest, !startDown)
    ensures Alternates([e] + rest, startDown)
  {
    var es := [e] + rest;
    forall i | 0 <= i < |es| ensures (es[i].Down? <==> (i % 2 == 0) == startDown) {
      if i > 0 {
        assert es[i] == rest[i - 1];
      }
    }
  }

  /**
   * For every key, the transitions reported for it alternate between press and
   * release, beginning with a press when the key was not held; and the key is
   * held at the end exactly when it was held at the start and an even number
   * of transitions happened, or it was not held and an odd number did.
   */
  lemma {:induction false} TransitionsAlternate(held: set<string>, events: seq<KeyEvent>, k: string)
    ensures Alternates(Of(Run(held, events).1, k), k !in held)
    ensures k in Run(held, events).0 <==> (k in held) == (|Of(Run(held, events).1, k)| % 2 == 0)
    decreases |events|
  {
    if events != [] {
      var e := events[0];
      var (next, moved) := Step(held, e);
      var (final, rest) := Run(next, events[1..]);
      assert Run(held, events) == (final, (if moved then [e] else []) + rest);
      TransitionsAlternate(next, events[1..], k);
      AlternateStep(held, e, next, moved, rest, k, final);
    }
  }

  /** One event in front of a run keeps the alternation and the parity relation. */
  lemma {:induction false} AlternateStep(held: set<string>, e: KeyEvent, next: set<string>, moved: bool,
                      rest: seq<KeyEvent>, k: string, final: set<string>)
    requires (next, moved) == Step(held, e)
    requires Alternates(Of(rest, k), k !in next)
    requires k in final <==> (k in next) == (|Of(rest, k)| % 2 == 0)
    ensures Alternates(Of((if moved then [e] else []) + rest, k), k !in held)
    ensures k in final <==> (k in held) == (|Of((if moved then [e] else []) + rest, k)| % 2 == 0)
  {
    OfAppend(if moved then [e] else [], rest, k);
    if moved && e.code == k {
      assert Of([e], k) == [e] + Of([], k);
      AlternatesCons(e, Of(rest, k), k !in held);
    } else if moved {
      assert Of([e], k) == [] + Of([], k);
    }
  }

  lemma {:induction false} OfAppend(a: seq<KeyEvent>, b: seq<KeyEvent>, k: string)
    ensures Of(a + b, k) == Of(a, k) + Of(b, k)
  {
    if a == [] {
      assert a + b == b;
    } else {
      assert (a + b)[1..] == a[1..] + b;
      OfAppend(a[1..], b, k);
    }
  }

  class Input {
    /** The codes of the keys currently held down. */
    var keys: set<string>
    /** The callback slots; `None` stands for null, undefined or a missing option. */
    var onkeydown: Option<Handler>
    var onkeyup: Option<Handler>

    /** Missing callbacks default to null; no key is held. */
    constructor (initialOnKeyDown: Option<Handler>, initialOnKeyUp: Option<Handler>)
      ensures keys == {}
      ensures onkeydown == initialOnKeyDown && onkeyup == initialOnKeyUp
    {
      keys := {};
      onkeydown := initialOnKeyDown;
      onkeyup := initialOnKeyUp;
    }

    /**
     * The `keydown` listener: a key already held is ignored; otherwise it is
     * added to the held set and `onkeydown`, if set, is called once with its code.
     */
    method KeyDown(code: string) returns (call: Option<Call>)
      modifies this`keys
      ensures keys == Step(old(keys), Down(code)).0
      ensures call.Some? <==> Step(old(keys), Down(code)).1 && onkeydown.Some?
      ensures call == if old(code in keys) || onkeydown.None? then None else Some(Call(onkeydown.value, Down(code)))
    {
      if code in keys {
        return None;
      }
      keys := keys + {code};
      if onkeydown.Some? {
        call := Some(Call(onkeydown.value, Down(code)));
      } else {
        call := None;
      }
    }

    /**
     * The `keyup` listener: a key not held is ignored; otherwise it is removed
     * from the held set and `onkeyup`, if set, is called once with its code.
     */
    method KeyUp(code: string) returns (call: Option<Call>)
      modifies this`keys
      ensures keys == Step(old(keys), Up(code)).0
      ensures call.Some? <==> Step(old(keys), Up(code)).1 && onkeyup.Some?
      ensures call == if old(code !in keys) || onkeyup.None? then None else Some(Call(onkeyup.value, Up(code)))
    {
      if code !in keys {
        return None;
      }
      keys := keys - {code};
      if onkeyup.Some? {
        call := Some(Call(onkeyup.value, Up(code)));
      } else {
        call := None;
      }
    }

    /** `isDown`: whether the key is held. */
    method IsDown(code: string) returns (down: bool)
      ensures down <==> code in keys
    {
      down := code in keys;
    }

    /** The `onkeydown` setter; the held keys are untouched. */
    method SetOnKeyDown(h: Option<Handler>)
      modifies this`onkeydown
      ensures onkeydown == h && keys == old(keys) && onkeyup == old(onkeyup)
    {
      onkeydown := h;
    }

    /** The `onkeyup` setter; the held keys are untouched. */
    method SetOnKeyUp(h: Option<Handler>)
      modifies this`onkeyup
      ensures onkeyup == h && keys == old(keys) && onkeydown == old(onkeydown)
    {
      onkeyup := h;
    }
  }
}

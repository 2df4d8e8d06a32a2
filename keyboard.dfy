/** The key adapter of src/hooks/useKeyboard.js: the `handleKeyDown`
    switch from a key name to one optional callback and a
    `preventDefault` call. */
module Keyboard {
  import opened Wrappers

  datatype Handler = OnNext | OnPrevious | OnFirst | OnLast

  /** What one keydown does: whether the browser default is suppressed and
      which callback, if any, is invoked. */
  datatype KeyEffect = KeyEffect(preventDefault: bool, called: Option<Handler>)

  /** The `switch (e.key)`: the callback a key is bound to. */
  function Binding(key: string): Option<Handler>
  {
    if key == "ArrowRight" || key == " " || key == "PageDown" then Some(OnNext)
    else if key == "ArrowLeft" || key == "PageUp" then Some(OnPrevious)
    else if key == "Home" then Some(OnFirst)
    else if key == "End" then Some(OnLast)
    else None
  }

  /** `handleKeyDown` with the set of callbacks the caller passed: a bound
      key always prevents the default, and calls its callback when that
      callback was passed (`onNext?.()`). */
  function HandleKeyDown(key: string, provided: set<Handler>): (e: KeyEffect)
    ensures e.preventDefault <==> Binding(key).Some?
    ensures e.called.Some? <==> Binding(key).Some? && Binding(key).value in provided
    ensures e.called.Some? ==> e.called == Binding(key)
  {
    var b := Binding(key);
    KeyEffect(b.Some?, if b.Some? && b.value in provided then b else None)
  }

  /** The three forward keys. */
  lemma ForwardKeys(provided: set<Handler>)
    requires OnNext in provided
    ensures forall k :: k in {"ArrowRight", " ", "PageDown"} ==> HandleKeyDown(k, provided) == KeyEffect(true, Some(OnNext))
  {
  }

  /** The two backward keys. */
  lemma BackwardKeys(provided: set<Handler>)
    requires OnPrevious in provided
    ensures forall k :: k in {"ArrowLeft", "PageUp"} ==> HandleKeyDown(k, provided) == KeyEffect(true, Some(OnPrevious))
  {
  }

  lemma HomeAndEnd(provided: set<Handler>)
    requires OnFirst in provided && OnLast in provided
    ensures HandleKeyDown("Home", provided) == KeyEffect(true, Some(OnFirst))
    ensures HandleKeyDown("End", provided) == KeyEffect(true, Some(OnLast))
  {
  }

  /** A key outside the switch calls nothing and lets the browser act. */
  lemma UnboundKey(key: string, provided: set<Handler>)
    requires key !in {"ArrowRight", " ", "PageDown", "ArrowLeft", "PageUp", "Home", "End"}
    ensures HandleKeyDown(key, provided) == KeyEffect(false, None)
  {
  }

  /** A bound key whose callback was not passed still prevents the default. */
  lemma MissingCallback(key: string, provided: set<Handler>)
    requires Binding(key).Some? && Binding(key).value !in provided
    ensures HandleKeyDown(key, provided) == KeyEffect(true, None)
  {
  }
}

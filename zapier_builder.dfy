/** The trigger/action builder (src/components/ZapierBuilder/ZapierBuilder.jsx):
    pick a trigger app, then an action app; the 2000 ms timeout that ends
    the animation is the method `AnimationEnds`. */
module ZapierBuilder {
  import opened Wrappers
  import opened Strings

  /** An entry of `triggers` or `actions`, without its icon and colour. */
  datatype App = App(id: string, name: string, event: string)

  const Triggers: seq<App> := [
    App("gmail", "Gmail", "New Email"),
    App("calendar", "Google Calendar", "New Event"),
    App("sheets", "Google Sheets", "New Row")
  ]

  const Actions: seq<App> := [
    App("slack", "Slack", "Send Message"),
    App("database", "Database", "Insert Record"),
    App("sheets", "Google Sheets", "Add Row")
  ]

  /** The sentence of the success message, with JSX's line joining: the
      line break inside the paragraph becomes one space. The trigger half
      comes first, then the action half, each with its event in lower case. */
  function Summary(trigger: App, action: App): (s: string)
    ensures StartsWith(s, TriggerHalf(trigger)) && EndsWith(s, ActionHalf(action))
    ensures |s| == |TriggerHalf(trigger)| + |ActionHalf(action)|
  {
    var head := TriggerHalf(trigger);
    var tail := ActionHalf(action);
    var s := head + tail;
    assert s[..|head|] == head;
    assert s[|s| - |tail|..] == tail;
    s
  }

  function TriggerHalf(trigger: App): string
  {
    "When " + ToLower(trigger.event) + " in " + trigger.name + ", it will "
  }

  function ActionHalf(action: App): string
  {
    ToLower(action.event) + " in " + action.name
  }

  /** The sentence names all four fields, each where the message puts
      it: the trigger's event in lower case right after "When ", the
      trigger's app after " in ", the action's event in lower case after
      ", it will ", and the action's app after " in ", at the end. */
  lemma SummaryNames(trigger: App, action: App)
    ensures var s := Summary(trigger, action);
      var te, ae := ToLower(trigger.event), ToLower(action.event);
      var p := 5 + |te| + 4;
      var q := p + |trigger.name| + 10;
      && StartsWith(s, "When ")
      && OccursAt(s, te, 5)
      && OccursAt(s, " in ", 5 + |te|)
      && OccursAt(s, trigger.name, p)
      && OccursAt(s, ", it will ", p + |trigger.name|)
      && OccursAt(s, ae, q)
      && OccursAt(s, " in ", q + |ae|)
      && OccursAt(s, action.name, q + |ae| + 4)
      && |s| == q + |ae| + 4 + |action.name|
  {
    var s := Summary(trigger, action);
    var te, ae := ToLower(trigger.event), ToLower(action.event);
    var tn, an := trigger.name, action.name;
    assert s == "When " + te + " in " + tn + ", it will " + ae + " in " + an;
    var p := 5 + |te| + 4;
    var q := p + |tn| + 10;
    assert s[..5] == "When ";
    assert s[5..5 + |te|] == te;
    assert s[5 + |te|..p] == " in ";
    assert s[p..p + |tn|] == tn;
    assert s[p + |tn|..q] == ", it will ";
    assert s[q..q + |ae|] == ae;
    assert s[q + |ae|..q + |ae| + 4] == " in ";
    assert s[q + |ae| + 4..] == an;
  }

  /** The `ZapierBuilder` component. */
  class Builder {
    var selectedTrigger: Option<App>
    var selectedAction: Option<App>
    var isAnimating: bool

    constructor ()
      ensures selectedTrigger == None && selectedAction == None && !isAnimating
    {
      selectedTrigger := None;
      selectedAction := None;
      isAnimating := false;
    }

    /** `handleTriggerSelect(trigger)`: a new trigger always drops the
        action chosen for the old one. */
    method SelectTrigger(trigger: App)
      modifies this
      ensures selectedTrigger == Some(trigger) && selectedAction == None
      ensures isAnimating == old(isAnimating)
      ensures !ShowSuccess()
    {
      selectedTrigger := Some(trigger);
      selectedAction := None;
    }

    /** `handleActionSelect(action)`. */
    method SelectAction(action: App)
      modifies this
      ensures selectedAction == Some(action) && isAnimating
      ensures selectedTrigger == old(selectedTrigger)
      ensures ShowSuccess() <==> old(selectedTrigger).Some?
    {
      selectedAction := Some(action);
      isAnimating := true;
    }

    /** The timeout scheduled by `handleActionSelect`; it runs even after a
        reset. */
    method AnimationEnds()
      modifies this
      ensures !isAnimating
      ensures selectedTrigger == old(selectedTrigger) && selectedAction == old(selectedAction)
      ensures ShowSuccess() == old(ShowSuccess())
    {
      isAnimating := false;
    }

    /** `resetZap`. */
    method Reset()
      modifies this
      ensures selectedTrigger == None && selectedAction == None && !isAnimating
      ensures !ShowSuccess()
    {
      selectedTrigger := None;
      selectedAction := None;
      isAnimating := false;
    }

    /** "Change" on the trigger: only the trigger is cleared, so an action
        chosen before stays selected (though hidden). */
    method ChangeTrigger()
      modifies this
      ensures selectedTrigger == None && !ShowSuccess()
      ensures selectedAction == old(selectedAction) && isAnimating == old(isAnimating)
    {
      selectedTrigger := None;
    }

    /** "Change" on the action. */
    method ChangeAction()
      modifies this
      ensures selectedAction == None && !ShowSuccess()
      ensures selectedTrigger == old(selectedTrigger) && isAnimating == old(isAnimating)
    {
      selectedAction := None;
    }

    /** The success message is rendered. */
    function ShowSuccess(): (b: bool)
      reads this
      ensures b <==> selectedTrigger.Some? && selectedAction.Some?
    {
      selectedTrigger.Some? && selectedAction.Some?
    }

  }
}

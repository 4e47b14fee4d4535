/**
 * One OrderedSection: a section whose activation property holds 0 when the
 * section is disabled and its rank among the enabled sections of its group
 * otherwise. Its header offers up, down and delete toggles; the section only
 * records the request (PushState) and the group carries it out.
 */
module Sections {
  import opened MaterialProperty

  /** An entry of AdditionalProperties: the name of the material property it binds. */
  datatype AdditionalProperty = AdditionalProperty(propertyName: string)

  /** What the user does to one section header during one frame: whether the
      up, down and delete toggles were clicked. */
  datatype Clicks = Clicks(up: bool, down: bool, delete: bool)

  const NoClicks := Clicks(false, false, false)

  /** The fields of an OrderedSection that the ordering protocol reads and writes:
      the activation property (AdditionalProperties[0]), PushState, the two
      pending toggle values, Enabled, HasActivatePropertyUpdated and
      HasSectionTurnedOn. */
  datatype SectionState = SectionState(
    activation: FloatProperty,
    pushState: int,
    isUp: bool,
    isDown: bool,
    enabled: bool,
    activationUpdated: bool,
    turnedOn: bool)

  /** PushState is 0 when not moving, -1 when the section must go up and 1 when
      it must go down. */
  predicate ValidPushState(p: int) {
    p == 0 || p == -1 || p == 1
  }

  /** An immediate-mode toggle returns the value it is given, flipped when the
      user clicks it. */
  function Toggle(value: bool, clicked: bool): bool {
    value != clicked
  }

  /** A freshly constructed section whose activation property is not bound to
      any material yet. */
  function Unbound(activatePropertyName: string): SectionState {
    SectionState(FloatProperty(activatePropertyName, 0, false, []), 0, false, false, false, false, false)
  }

  /** PredrawUpdate: Enabled is refreshed from the activation value and the
      per-frame "activation updated" flag is cleared; nothing else changes. */
  function Predrawn(s: SectionState): (r: SectionState)
    ensures r.enabled <==> s.activation.value > 0
    ensures !r.activationUpdated
    ensures r.(enabled := s.enabled, activationUpdated := s.activationUpdated) == s
  {
    s.(enabled := s.activation.value > 0, activationUpdated := false)
  }

  /** DrawSideButtons. The up request has priority over the down request; a
      request that is turned into a PushState is cleared, and a down request
      left behind an up request stays pending. Leaving the delete toggle off
      writes 0 to the activation property, and the change check reports
      exactly whether the delete toggle was clicked. */
  function AfterSideButtons(s: SectionState, c: Clicks): (r: SectionState)
    ensures Toggle(s.isUp, c.up) ==> r.pushState == -1
    ensures !Toggle(s.isUp, c.up) && Toggle(s.isDown, c.down) ==> r.pushState == 1
    ensures !Toggle(s.isUp, c.up) && !Toggle(s.isDown, c.down) ==> r.pushState == s.pushState
    ensures ValidPushState(s.pushState) ==> ValidPushState(r.pushState)
    ensures !r.isUp && (r.isDown ==> r.pushState == -1)
    ensures r.enabled == Toggle(s.enabled, c.delete)
    ensures r.activation == if r.enabled then s.activation else WithValue(s.activation, 0)
    ensures r.activationUpdated == c.delete && r.turnedOn == s.turnedOn
  {
    var isUp := Toggle(s.isUp, c.up);
    var isDown := Toggle(s.isDown, c.down);
    var enabled := Toggle(s.enabled, c.delete);
    var (push, isUp', isDown') :=
      if isUp then (-1, false, isDown)
      else if isDown then (1, isUp, false)
      else (s.pushState, isUp, isDown);
    s.(pushState := push, isUp := isUp', isDown := isDown', enabled := enabled,
       activation := if enabled then s.activation else WithValue(s.activation, 0),
       activationUpdated := c.delete)
  }

  /** The part of ControlGUI that concerns the ordering protocol: the side
      buttons, then a pending "turned on" notice is reported as an activation
      update and consumed. */
  function AfterControlGUI(s: SectionState, c: Clicks): (r: SectionState)
    ensures r.activationUpdated == (c.delete || s.turnedOn)
    ensures !r.turnedOn
    ensures r.(activationUpdated := c.delete, turnedOn := s.turnedOn) == AfterSideButtons(s, c)
  {
    var t := AfterSideButtons(s, c);
    t.(activationUpdated := t.activationUpdated || s.turnedOn, turnedOn := false)
  }

  /** Clicking both arrows in one frame: the up request wins, and the down
      toggle stays on, so a later frame with no clicks at all still moves the
      section down. */
  lemma {:induction false} DownRequestWaitsBehindUp(s: SectionState)
    requires !s.isUp && !s.isDown
    ensures var r := AfterSideButtons(s, Clicks(true, true, false));
            && r.pushState == -1 && r.isDown
            && AfterSideButtons(r.(pushState := 0), NoClicks).pushState == 1
  {
  }

  class OrderedSection {
    var additionalProperties: seq<AdditionalProperty>
    var controlAlias: string
    var activation: FloatProperty
    var pushState: int
    var isUp: bool
    var isDown: bool
    var enabled: bool
    var hasActivatePropertyUpdated: bool
    var hasSectionTurnedOn: bool

    /** The activation property is AdditionalProperties[0], the only entry,
        and PushState is one of 0, -1, 1. */
    ghost predicate Valid()
      reads this
    {
      && |additionalProperties| == 1
      && activation.name == additionalProperties[0].propertyName
      && ValidPushState(pushState)
    }

    function State(): SectionState
      reads this
    {
      SectionState(activation, pushState, isUp, isDown, enabled, hasActivatePropertyUpdated, hasSectionTurnedOn)
    }

    /** The constructor that also takes a fold property: that property and its
        two values go to the Section base class, which is not part of this model. */
    constructor WithShowProperty(activatePropertyName: string, showPropertyName: string,
                                 hideValue: real, showValue: real)
      ensures Valid()
      ensures additionalProperties == [AdditionalProperty(activatePropertyName)]
      ensures State() == Unbound(activatePropertyName)
    {
      additionalProperties := [AdditionalProperty(activatePropertyName)];
      activation := Unbound(activatePropertyName).activation;
      pushState, isUp, isDown := 0, false, false;
      enabled, hasActivatePropertyUpdated, hasSectionTurnedOn := false, false, false;
    }

    /** The default constructor: the activation property name is also the alias. */
    constructor (activatePropertyName: string)
      ensures Valid()
      ensures additionalProperties == [AdditionalProperty(activatePropertyName)]
      ensures controlAlias == activatePropertyName
      ensures State() == Unbound(activatePropertyName)
    {
      additionalProperties := [AdditionalProperty(activatePropertyName)];
      activation := Unbound(activatePropertyName).activation;
      controlAlias := activatePropertyName;
      pushState, isUp, isDown := 0, false, false;
      enabled, hasActivatePropertyUpdated, hasSectionTurnedOn := false, false, false;
    }

    method PredrawUpdate()
      requires Valid()
      modifies this`enabled, this`hasActivatePropertyUpdated
      ensures Valid()
      ensures enabled == (activation.value > 0) && !hasActivatePropertyUpdated
      ensures State() == Predrawn(old(State()))
    {
      enabled := activation.value > 0;
      hasActivatePropertyUpdated := false;
    }

    method DrawSideButtons(c: Clicks)
      requires Valid()
      modifies this`isUp, this`isDown, this`pushState, this`enabled,
               this`activation, this`hasActivatePropertyUpdated
      ensures Valid()
      ensures State() == AfterSideButtons(old(State()), c)
    {
      DrawArrows(c);
      DrawDeleteToggle(c);
    }

    /** The up and down toggles: a toggle that is on becomes a push request
        and is switched back off, up first. */
    method DrawArrows(c: Clicks)
      modifies this`isUp, this`isDown, this`pushState
      ensures var up, down := Toggle(old(isUp), c.up), Toggle(old(isDown), c.down);
              (pushState, isUp, isDown)
              == if up then (-1, false, down) else if down then (1, up, false) else (old(pushState), up, down)
    {
      isUp := Toggle(isUp, c.up);
      isDown := Toggle(isDown, c.down);
      if isUp {
        pushState := -1;
        isUp := false;
      } else if isDown {
        pushState := 1;
        isDown := false;
      }
    }

    /** The delete toggle: turning it off writes 0, and the change check
        reports whether it was clicked. */
    method DrawDeleteToggle(c: Clicks)
      modifies this`enabled, this`activation, this`hasActivatePropertyUpdated
      ensures enabled == Toggle(old(enabled), c.delete) && hasActivatePropertyUpdated == c.delete
      ensures activation == if enabled then old(activation) else WithValue(old(activation), 0)
    {
      enabled := Toggle(enabled, c.delete);
      if !enabled {
        activation := WithValue(activation, 0);
      }
      hasActivatePropertyUpdated := c.delete;
    }

    method ControlGUI(c: Clicks)
      requires Valid()
      modifies this`isUp, this`isDown, this`pushState, this`enabled,
               this`activation, this`hasActivatePropertyUpdated, this`hasSectionTurnedOn
      ensures Valid()
      ensures State() == AfterControlGUI(old(State()), c)
    {
      DrawSideButtons(c);
      if hasSectionTurnedOn {
        hasActivatePropertyUpdated := true;
      }
      hasSectionTurnedOn := false;
    }
  }
}

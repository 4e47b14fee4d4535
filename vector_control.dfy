/**
 * VectorControl: a row of up to four float fields editing a Vector4 material
 * property. Only the components marked visible are drawn; the others are
 * carried over from the current value when the property is written back.
 */
module Vectors {

  datatype Vector4 = Vector4(x: real, y: real, z: real, w: real)

  datatype Component = X | Y | Z | W

  /** The four components in drawing order. */
  const Components: seq<Component> := [X, Y, Z, W]

  function Get(v: Vector4, c: Component): real {
    match c
    case X => v.x
    case Y => v.y
    case Z => v.z
    case W => v.w
  }

  /** A vector material property as the control sees it. */
  datatype VectorProperty = VectorProperty(displayName: string, vectorValue: Vector4, hasMixedValue: bool)

  /** `Property.vectorValue = v`: the value goes to every selected material,
      so the property is no longer mixed. */
  function WithVector(p: VectorProperty, v: Vector4): (r: VectorProperty)
    ensures r.vectorValue == v && !r.hasMixedValue && r.displayName == p.displayName
  {
    p.(vectorValue := v, hasMixedValue := false)
  }

  /** The editor-wide GUI state the control touches, and the material
      editor's undo list (the names of the properties whose changes were
      registered). */
  class EditorState {
    var showMixedValue: bool
    var indentLevel: int
    var undo: seq<string>

    constructor (indentLevel: int)
      ensures this.indentLevel == indentLevel && !showMixedValue && undo == []
    {
      this.indentLevel := indentLevel;
      showMixedValue := false;
      undo := [];
    }
  }

  class VectorControl {
    const isXVisible: bool
    const isYVisible: bool
    const isZVisible: bool
    const isWVisible: bool
    const visibleCount: nat
    var property: VectorProperty
    var hasPropertyUpdated: bool

    predicate IsVisible(c: Component) {
      match c
      case X => isXVisible
      case Y => isYVisible
      case Z => isZVisible
      case W => isWVisible
    }

    /** The visible components, in drawing order. */
    function VisibleComponents(): (r: seq<Component>)
      ensures |r| <= 4
      ensures forall c :: c in r <==> IsVisible(c)
      ensures forall a, b :: 0 <= a < b < |r| ==> r[a] != r[b]
    {
      (if isXVisible then [X] else []) + (if isYVisible then [Y] else [])
      + (if isZVisible then [Z] else []) + (if isWVisible then [W] else [])
    }

    /** The vector written back: visible components from the fields,
        hidden ones from the current value. */
    function Masked(current: Vector4, typed: Vector4): (r: Vector4)
      ensures forall c :: IsVisible(c) ==> Get(r, c) == Get(typed, c)
      ensures forall c :: !IsVisible(c) ==> Get(r, c) == Get(current, c)
    {
      Vector4(if isXVisible then typed.x else current.x,
              if isYVisible then typed.y else current.y,
              if isZVisible then typed.z else current.z,
              if isWVisible then typed.w else current.w)
    }

    /** The constructor counts the visible components one flag at a time. */
    constructor (propertyName: string, current: Vector4, isXVisible: bool, isYVisible: bool,
                 isZVisible: bool, isWVisible: bool)
      ensures this.isXVisible == isXVisible && this.isYVisible == isYVisible
      ensures this.isZVisible == isZVisible && this.isWVisible == isWVisible
      ensures visibleCount == |VisibleComponents()| <= 4
      ensures property == VectorProperty(propertyName, current, false) && !hasPropertyUpdated
    {
      this.isXVisible := isXVisible;
      this.isYVisible := isYVisible;
      this.isZVisible := isZVisible;
      this.isWVisible := isWVisible;
      var count := 0;
      if isXVisible { count := count + 1; }
      if isYVisible { count := count + 1; }
      if isZVisible { count := count + 1; }
      if isWVisible { count := count + 1; }
      visibleCount := count;
      property := VectorProperty(propertyName, current, false);
      hasPropertyUpdated := false;
    }

    /** The component-merge part of ControlGUI: each visible component is
        drawn in the next fragment of the row (the running counter `i`),
        each hidden one copied from the current value. `slots` lists the
        fields drawn, with their fragment indices, and `i` is the counter at
        the end. */
    method MergeComponents(current: Vector4, typed: Vector4)
      returns (vector: Vector4, slots: seq<(Component, nat)>, i: nat)
      requires visibleCount == |VisibleComponents()|
      ensures vector == Masked(current, typed)
      ensures |slots| == visibleCount && i == visibleCount
      ensures forall k :: 0 <= k < |slots| ==> slots[k] == (VisibleComponents()[k], k)
    {
      vector := Vector4(0.0, 0.0, 0.0, 0.0);
      slots := [];
      i := 0;
      if isXVisible {
        vector := vector.(x := typed.x);
        slots, i := slots + [(X, i)], i + 1;
      } else {
        vector := vector.(x := current.x);
      }
      if isYVisible {
        vector := vector.(y := typed.y);
        slots, i := slots + [(Y, i)], i + 1;
      } else {
        vector := vector.(y := current.y);
      }
      if isZVisible {
        vector := vector.(z := typed.z);
        slots, i := slots + [(Z, i)], i + 1;
      } else {
        vector := vector.(z := current.z);
      }
      if isWVisible {
        vector := vector.(w := typed.w);
        slots, i := slots + [(W, i)], i + 1;
      } else {
        vector := vector.(w := current.w);
      }
    }

    /** ControlGUI. `typed` holds what the drawn fields return and `changed`
        what the change check reports. The fields are drawn with the mixed
        flag of the property (`drawnMixed`) and at indent level 0
        (`drawnIndent`); the property is written back, with undo registered
        under its display name, only when a change is reported; the indent
        level is restored and the mixed flag cleared on exit. */
    method ControlGUI(editor: EditorState, typed: Vector4, changed: bool)
      returns (ghost drawnMixed: bool, ghost drawnIndent: int)
      requires visibleCount == |VisibleComponents()|
      modifies this`property, this`hasPropertyUpdated, editor
      ensures drawnMixed == old(property.hasMixedValue) && drawnIndent == 0
      ensures hasPropertyUpdated == changed
      ensures changed ==> property == WithVector(old(property), Masked(old(property.vectorValue), typed))
      ensures changed ==> editor.undo == old(editor.undo) + [old(property.displayName)]
      ensures !changed ==> property == old(property) && editor.undo == old(editor.undo)
      ensures editor.indentLevel == old(editor.indentLevel) && !editor.showMixedValue
    {
      editor.showMixedValue := property.hasMixedValue;
      var oldIndentLevel := editor.indentLevel;
      editor.indentLevel := 0;
      drawnMixed, drawnIndent := editor.showMixedValue, editor.indentLevel;
      var vector, slots, i := MergeComponents(property.vectorValue, typed);
      hasPropertyUpdated := changed;
      if hasPropertyUpdated {
        editor.undo := editor.undo + [property.displayName];
        property := WithVector(property, vector);
      }
      editor.showMixedValue := false;
      editor.indentLevel := oldIndentLevel;
    }

    /** Writing back what the fields show when nothing was typed leaves the
        value as it was. */
    lemma UnchangedFieldsWriteSameValue(current: Vector4)
      ensures Masked(current, current) == current
    {
    }

    /** Writing back twice with the same field values is the same as once. */
    lemma MaskingIsIdempotent(current: Vector4, typed: Vector4)
      ensures Masked(Masked(current, typed), typed) == Masked(current, typed)
    {
    }

    /** With no component visible the written vector is the current one,
        whatever the fields return. */
    lemma HiddenRowKeepsValue(current: Vector4, typed: Vector4)
      requires !isXVisible && !isYVisible && !isZVisible && !isWVisible
      ensures Masked(current, typed) == current && VisibleComponents() == []
    {
    }
  }
}

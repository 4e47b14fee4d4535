/**
 * TextureGeneratorControl: a texture control with a generator panel that
 * packs its inputs into a texture with a compute shader. What is modelled is
 * its bookkeeping: classifying the inputs, assembling the localisation list,
 * opening and closing the panel, and the guards and sizes around the
 * compute dispatch.
 */
module TextureGenerator {
  import opened Wrappers

  /** The texture sizes offered by the generator, named as in the source's
      enum; `Size` is the enum's integer value. */
  datatype Resolution = XS_128x128 | S_256x256 | M_512x512 | L_1024x1024 | XL_2048x2048 | XXL_4096x4096

  function Pow2(k: nat): (r: nat)
    ensures r >= 1
  {
    if k == 0 then 1 else 2 * Pow2(k - 1)
  }

  function Size(r: Resolution): (n: nat)
    ensures 128 <= n <= 4096 && n % 16 == 0
    ensures exists k :: 7 <= k <= 12 && n == Pow2(k)
  {
    match r
    case XS_128x128 => assert Pow2(7) == 128; 128
    case S_256x256 => assert Pow2(8) == 256; 256
    case M_512x512 => assert Pow2(9) == 512; 512
    case L_1024x1024 => assert Pow2(10) == 1024; 1024
    case XL_2048x2048 => assert Pow2(11) == 2048; 2048
    case XXL_4096x4096 => assert Pow2(12) == 4096; 4096
  }

  /** The compute dispatch: `Size / 16` thread groups of 16 threads each way. */
  function ThreadGroups(r: Resolution): (g: nat)
    ensures g * 16 == Size(r) && g >= 8
  {
    Size(r) / 16
  }

  /** Distinct resolutions have distinct sizes, so comparing the target's
      width and height with `Size(resolution)` decides whether the target
      matches the chosen resolution. */
  lemma SizeIdentifiesResolution(a: Resolution, b: Resolution)
    ensures Size(a) == Size(b) <==> a == b
  {
  }

  /** The kinds of compute input. Inputs are produced by parsing the
      generator's options, which is not part of this model. */
  datatype InputKind = TextureInput | ColorInput | OtherInput

  /** A localisation entry, identified by its name. */
  datatype Localization = Localization(name: string)

  const BaseNames: seq<string> := ["GeneratorOpen", "GeneratorSaveButton", "GeneratorCancelButton", "GeneratorTextureSize"]
  const TextureNames: seq<string> := ["TextureInvert"]
  const ColorNames: seq<string> := ["ColorSpace"]

  /** One localisation entry per name, in order. */
  function Localize(names: seq<string>): (r: seq<Localization>)
    ensures |r| == |names| && forall i :: 0 <= i < |names| ==> r[i] == Localization(names[i])
  {
    if names == [] then [] else [Localization(names[0])] + Localize(names[1..])
  }

  // ----- decimal numbers, for the input names -----

  function Digit(d: nat): (c: char)
    requires d < 10
    ensures '0' <= c <= '9' && (c as int) - ('0' as int) == d
  {
    ('0' as int + d) as char
  }

  /** The decimal representation of `n`, as C#'s `int.ToString` writes it. */
  function Decimal(n: nat): (r: string)
    ensures |r| >= 1 && forall i :: 0 <= i < |r| ==> '0' <= r[i] <= '9'
    decreases n
  {
    if n < 10 then [Digit(n)] else Decimal(n / 10) + [Digit(n % 10)]
  }

  /** The value of a string of decimal digits. */
  function DecimalValue(s: string): nat
    requires forall i :: 0 <= i < |s| ==> '0' <= s[i] <= '9'
  {
    if s == [] then 0 else 10 * DecimalValue(s[..|s| - 1]) + ((s[|s| - 1] as int) - ('0' as int))
  }

  lemma {:induction false} DecimalRoundTrip(n: nat)
    ensures DecimalValue(Decimal(n)) == n
    decreases n
  {
    if n >= 10 {
      var s := Decimal(n);
      assert s[..|s| - 1] == Decimal(n / 10);
      DecimalRoundTrip(n / 10);
    }
  }

  /** The name of the `i`-th input (counting from 0): "Input1", "Input2", … */
  function InputName(i: nat): (r: string)
    ensures |r| > 5 && r[..5] == "Input"
  {
    "Input" + Decimal(i + 1)
  }

  /** Different inputs get different names. */
  lemma InputNamesAreDistinct(i: nat, j: nat)
    ensures InputName(i) == InputName(j) <==> i == j
  {
    if InputName(i) == InputName(j) {
      assert Decimal(i + 1) == InputName(i)[5..];
      assert Decimal(j + 1) == InputName(j)[5..];
      DecimalRoundTrip(i + 1);
      DecimalRoundTrip(j + 1);
    }
  }

  // ----- constructor bookkeeping -----

  predicate BothFound(s: seq<InputKind>) {
    TextureInput in s && ColorInput in s
  }

  /** The classification loop of the constructor: scans the inputs, noting
      whether there is a texture input and a colour input, and stops as soon
      as both are found. `scanned` is how many inputs were looked at. */
  method ClassifyInputs(inputs: seq<InputKind>) returns (containsTextures: bool, containsColors: bool, ghost scanned: nat)
    ensures containsTextures <==> TextureInput in inputs
    ensures containsColors <==> ColorInput in inputs
    ensures scanned <= |inputs|
    ensures scanned == |inputs| || BothFound(inputs[..scanned])
    ensures scanned > 0 ==> !BothFound(inputs[..scanned - 1])
  {
    containsTextures, containsColors := false, false;
    scanned := 0;
    var i := 0;
    while i < |inputs|
      invariant 0 <= i <= |inputs| && scanned == i
      invariant containsTextures <==> TextureInput in inputs[..i]
      invariant containsColors <==> ColorInput in inputs[..i]
      invariant !BothFound(inputs[..i])
    {
      assert inputs[..i + 1] == inputs[..i] + [inputs[i]];
      match inputs[i] {
        case TextureInput => containsTextures := true;
        case ColorInput => containsColors := true;
        case OtherInput =>
      }
      i := i + 1;
      scanned := i;
      if containsColors && containsTextures {
        assert inputs == inputs[..i] + inputs[i..];
        break;
      }
    }
    assert i == |inputs| ==> inputs[..i] == inputs;
  }

  /** The constructor's loop filling `_namesContent`, one entry per input. */
  method NameInputs(count: nat) returns (names: seq<Localization>)
    ensures |names| == count
    ensures forall i :: 0 <= i < count ==> names[i] == Localization(InputName(i))
  {
    var a := new Localization[count];
    for i := 0 to count
      invariant forall k :: 0 <= k < i ==> a[k] == Localization(InputName(k))
    {
      a[i] := Localization(InputName(i));
    }
    names := a[..];
  }

  // ----- the AdditionalContent getter -----

  /** `List.AddRange(null)` throws. */
  datatype Error = ArgumentNull

  /** The getter: the base entries, then the texture entries if there are
      texture inputs, then the colour entries if there are colour inputs,
      then the input names. An array that is needed but was never allocated
      (`None`) makes it fail. */
  function AssembleContent(baseContent: seq<Localization>, textureContent: Option<seq<Localization>>,
                           colorContent: Option<seq<Localization>>, namesContent: seq<Localization>,
                           containsTextures: bool, containsColors: bool): (r: Result<seq<Localization>, Error>)
    ensures r.Success? <==> (containsTextures ==> textureContent.Some?) && (containsColors ==> colorContent.Some?)
    ensures r.Success? ==> r.value == baseContent
                                      + (if containsTextures then textureContent.value else [])
                                      + (if containsColors then colorContent.value else [])
                                      + namesContent
  {
    if containsTextures && textureContent.None? then Failure(ArgumentNull)
    else if containsColors && colorContent.None? then Failure(ArgumentNull)
    else
      Success(baseContent + (if containsTextures then textureContent.value else [])
              + (if containsColors then colorContent.value else []) + namesContent)
  }

  /** The entries allocated for an optional part of the content. */
  function Allocated(allocate: bool, names: seq<string>): (r: Option<seq<Localization>>)
    ensures r.Some? <==> allocate
    ensures allocate ==> r.value == Localize(names)
  {
    if allocate then Some(Localize(names)) else None
  }

  /** The colour entries as the constructor allocates them: under the
      texture flag, not the colour flag. */
  function ColorContentAsWritten(inputs: seq<InputKind>): (r: Option<seq<Localization>>)
    ensures r.Some? <==> TextureInput in inputs
  {
    Allocated(TextureInput in inputs, ColorNames)
  }

  /** The getter's result for a generator built from `inputs` as written. */
  function ContentAsWritten(inputs: seq<InputKind>): Result<seq<Localization>, Error> {
    AssembleContent(Localize(BaseNames), Allocated(TextureInput in inputs, TextureNames),
                    ColorContentAsWritten(inputs), NamesFor(|inputs|),
                    TextureInput in inputs, ColorInput in inputs)
  }

  /** The names content for `count` inputs. */
  function NamesFor(count: nat): (r: seq<Localization>)
    ensures |r| == count && forall i :: 0 <= i < count ==> r[i] == Localization(InputName(i))
  {
    if count == 0 then [] else NamesFor(count - 1) + [Localization(InputName(count - 1))]
  }

  /** As written, a generator with a colour input and no texture input
      cannot produce its localisation list: the getter appends the colour
      array, which was never allocated. */
  lemma ColourOnlyInputsBreakContent(inputs: seq<InputKind>)
    requires ColorInput in inputs && TextureInput !in inputs
    ensures ContentAsWritten(inputs).Failure?
  {
  }

  /** The smallest such generator: a single colour input. */
  lemma SingleColourInputBreaksContent()
    ensures ContentAsWritten([ColorInput]) == Failure(ArgumentNull)
  {
    ColourOnlyInputsBreakContent([ColorInput]);
  }

  /** The getter's result with the colour entries allocated under the colour
      flag: it always succeeds, with 4 base entries, one texture entry when
      there are texture inputs, one colour entry when there are colour
      inputs and one name per input. */
  function Content(inputs: seq<InputKind>): (r: Result<seq<Localization>, Error>)
    ensures r.Success?
    ensures |r.value| == 4 + (if TextureInput in inputs then 1 else 0)
                           + (if ColorInput in inputs then 1 else 0) + |inputs|
    ensures r.value[..4] == Localize(BaseNames) && r.value[|r.value| - |inputs|..] == NamesFor(|inputs|)
  {
    var textures := if TextureInput in inputs then Localize(TextureNames) else [];
    var colours := if ColorInput in inputs then Localize(ColorNames) else [];
    var v := Localize(BaseNames) + textures + colours + NamesFor(|inputs|);
    assert v[..4] == Localize(BaseNames);
    assert v[|v| - |inputs|..] == NamesFor(|inputs|);
    Success(v)
  }

  /** Where the as-written getter succeeds, it agrees with the corrected one;
      it fails exactly for colour inputs without texture inputs. */
  lemma AsWrittenDiffersOnlyOnColourOnly(inputs: seq<InputKind>)
    ensures ContentAsWritten(inputs).Failure? <==> (ColorInput in inputs && TextureInput !in inputs)
    ensures ContentAsWritten(inputs).Success? ==> ContentAsWritten(inputs) == Content(inputs)
  {
  }

  // ----- GPU objects, reduced to what the guards look at -----

  class RenderTexture {
    const width: nat
    const height: nat

    constructor (width: nat, height: nat)
      ensures this.width == width && this.height == height
    {
      this.width := width;
      this.height := height;
    }
  }

  class ComputeBuffer {
    const count: nat
    const stride: nat
    var released: bool

    constructor (count: nat, stride: nat)
      ensures this.count == count && this.stride == stride && !released
    {
      this.count := count;
      this.stride := stride;
      released := false;
    }

    method Release()
      modifies this
      ensures released
    {
      released := true;
    }
  }

  /** Bytes per element of the texture metadata and colour buffers. */
  const TextureMetaStride := 20
  const ColorStride := 16

  class TextureGeneratorControl {
    const inputs: seq<InputKind>
    const containsTextures: bool
    const containsColors: bool
    const baseContent: seq<Localization>
    const textureContent: Option<seq<Localization>>
    const colorContent: Option<seq<Localization>>
    const namesContent: seq<Localization>
    var isGeneratorOpen: bool
    var resolution: Resolution
    var result: RenderTexture

    /** What the constructor establishes and nothing changes afterwards. */
    ghost predicate Valid() {
      (containsTextures <==> TextureInput in inputs)
      && (containsColors <==> ColorInput in inputs)
      && baseContent == Localize(BaseNames)
      && textureContent == Allocated(containsTextures, TextureNames)
      && colorContent == Allocated(containsColors, ColorNames)
      && namesContent == NamesFor(|inputs|)
    }

    /** The constructor, with the colour entries allocated under the colour
        flag. `inputs` stands for what parsing the options yields. */
    constructor (inputs: seq<InputKind>)
      ensures Valid() && this.inputs == inputs
      ensures !isGeneratorOpen && resolution == M_512x512
      ensures result.width == result.height == Size(M_512x512) && fresh(result)
    {
      resolution := M_512x512;
      result := new RenderTexture(Size(M_512x512), Size(M_512x512));
      this.inputs := inputs;
      var t, c, _ := ClassifyInputs(inputs);
      containsTextures, containsColors := t, c;
      baseContent := Localize(BaseNames);
      textureContent := Allocated(t, TextureNames);
      colorContent := Allocated(c, ColorNames);
      var names := NameInputs(|inputs|);
      namesContent := names;
      isGeneratorOpen := false;
    }

    /** The AdditionalContent getter. */
    function AdditionalContent(): (r: Result<seq<Localization>, Error>)
      ensures Valid() ==> r == Content(inputs)
    {
      AssembleContent(baseContent, textureContent, colorContent, namesContent, containsTextures, containsColors)
    }

    /** ControlGUI. `openPressed`, `savePressed` and `cancelPressed` are the
        three buttons, `chosen` the resolution picked in the popup and
        `textureMeta`/`colors` the parameter counts the inputs report when a
        texture is generated. The open button opens the panel, which is
        drawn in the same frame; while it is drawn the popup sets the
        resolution, save generates the texture and closes the panel, and
        cancel closes it. */
    method ControlGUI(openPressed: bool, chosen: Resolution, savePressed: bool, cancelPressed: bool,
                      textureMeta: nat, colors: nat)
      returns (generated: bool)
      modifies this`isGeneratorOpen, this`resolution, this`result
      ensures var drawn := old(isGeneratorOpen) || openPressed;
              generated == (drawn && savePressed)
              && isGeneratorOpen == (drawn && !savePressed && !cancelPressed)
              && resolution == (if drawn then chosen else old(resolution))
      ensures generated ==> result.width == result.height == Size(resolution)
      ensures !generated ==> result == old(result)
    {
      if !isGeneratorOpen {
        if openPressed {
          isGeneratorOpen := true;
        }
      }
      generated := false;
      if isGeneratorOpen {
        generated := DrawGenerator(chosen, savePressed, cancelPressed, textureMeta, colors);
      }
    }

    /** DrawGenerator, without the drawing. */
    method DrawGenerator(chosen: Resolution, savePressed: bool, cancelPressed: bool, textureMeta: nat, colors: nat)
      returns (generated: bool)
      modifies this`isGeneratorOpen, this`resolution, this`result
      ensures resolution == chosen && generated == savePressed
      ensures isGeneratorOpen == (old(isGeneratorOpen) && !savePressed && !cancelPressed)
      ensures generated ==> result.width == result.height == Size(chosen)
      ensures !generated ==> result == old(result)
    {
      resolution := chosen;
      generated := false;
      if savePressed {
        var _, _, _ := GenerateTexture(textureMeta, colors);
        generated := true;
        isGeneratorOpen := false;
      }
      if cancelPressed {
        isGeneratorOpen := false;
      }
    }

    /** GenerateTexture, without the GPU work: the render target is replaced
        exactly when its size differs from the chosen resolution; a
        parameter buffer exists only when there are parameters for it, with
        one element per parameter; every buffer that exists is released
        after the dispatch, which has `Size / 16` groups each way. */
    method GenerateTexture(textureMeta: nat, colors: nat)
      returns (groups: (nat, nat, nat), textureParams: ComputeBuffer?, colorParams: ComputeBuffer?)
      modifies this`result
      ensures result.width == result.height == Size(resolution)
      ensures old(result.width) == old(result.height) == Size(resolution) ==> result == old(result)
      ensures !(old(result.width) == old(result.height) == Size(resolution)) ==> fresh(result)
      ensures groups == (ThreadGroups(resolution), ThreadGroups(resolution), 1)
      ensures textureParams != null <==> textureMeta > 0
      ensures textureParams != null ==> fresh(textureParams) && textureParams.count == textureMeta
                                        && textureParams.stride == TextureMetaStride && textureParams.released
      ensures colorParams != null <==> colors > 0
      ensures colorParams != null ==> fresh(colorParams) && colorParams.count == colors
                                      && colorParams.stride == ColorStride && colorParams.released
    {
      if result.width != Size(resolution) || result.height != Size(resolution) {
        result := new RenderTexture(Size(resolution), Size(resolution));
      }
      textureParams, colorParams := null, null;
      if textureMeta > 0 {
        textureParams := new ComputeBuffer(textureMeta, TextureMetaStride);
      }
      if colors > 0 {
        colorParams := new ComputeBuffer(colors, ColorStride);
      }
      groups := (Size(resolution) / 16, Size(resolution) / 16, 1);
      if textureParams != null {
        textureParams.Release();
      }
      if colorParams != null {
        colorParams.Release();
      }
    }
  }
}

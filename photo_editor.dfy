/** The photo editor's state: six adjustment values addressed by option,
    an ordered list of colour filters, and the image being edited. The
    CoreImage filter chain itself is not modelled; its output is recorded
    as a description of the inputs it reads. */
module PhotoEditor {
  import opened Platform

  /** The editor's tools. */
  datatype EditorTool = Filters | Rotate | Crop | Collage

  /** The six adjustments a slider can set. */
  datatype AdjustmentOption = Brightness | Contrast | Saturation | Sharpness | Exposure | Blur

  /** A closed interval `lower ... upper`. */
  datatype ClosedRange = ClosedRange(lower: real, upper: real)
  {
    predicate Contains(v: real) { lower <= v <= upper }
  }

  /** `AdjustmentOption.range`: the slider's bounds for each option. */
  function Range(a: AdjustmentOption): (r: ClosedRange)
    ensures r.lower < r.upper
  {
    match a
    case Brightness => ClosedRange(-1.0, 1.0)
    case Contrast => ClosedRange(0.5, 2.0)
    case Saturation => ClosedRange(0.0, 2.0)
    case Sharpness => ClosedRange(0.0, 2.0)
    case Exposure => ClosedRange(-2.0, 2.0)
    case Blur => ClosedRange(0.0, 10.0)
  }

  /** The value each adjustment starts at. */
  function DefaultValue(a: AdjustmentOption): real
  {
    match a
    case Brightness => 0.0
    case Contrast => 1.0
    case Saturation => 1.0
    case Sharpness => 0.0
    case Exposure => 0.0
    case Blur => 0.0
  }

  /** Every range is a proper interval holding its adjustment's start value. */
  lemma DefaultsInRange(a: AdjustmentOption)
    ensures Range(a).lower < Range(a).upper
    ensures Range(a).Contains(DefaultValue(a))
  {
  }

  /** The colour filters; equal when the case and its payload are equal. */
  datatype ColorFilter =
    | Sepia
    | Grayscale
    | ColorInvert
    | ColorMonochrome(color: Color)
    | ColorPosterize(levels: int)

  /** A text drawn over the photo. */
  datatype OverlayText = OverlayText(text: string, x: real, y: real, fontSize: real, color: UIColor)

  /** What `applyProcessing` renders from: the inputs the filter chain reads,
      standing for the image it produces. */
  datatype Rendering = Rendering(
    source: UIImage,
    brightness: real, contrast: real, saturation: real,
    exposure: real, rotation: real, sharpness: real,
    filters: seq<ColorFilter>, blur: real)

  /** `removeAll { $0 == filter }`: drops every occurrence, keeps the rest in order. */
  function RemoveAll(s: seq<ColorFilter>, f: ColorFilter): (r: seq<ColorFilter>)
    ensures f !in r
    ensures |r| <= |s|
    ensures forall g :: g != f ==> multiset(r)[g] == multiset(s)[g]
  {
    if s == [] then []
    else
      var rest := RemoveAll(s[1..], f);
      assert s == [s[0]] + s[1..];
      if s[0] == f then rest else [s[0]] + rest
  }

  /** Removal works piecewise, so the kept filters keep their order. */
  lemma {:induction false} RemoveAllAppend(s: seq<ColorFilter>, t: seq<ColorFilter>, f: ColorFilter)
    ensures RemoveAll(s + t, f) == RemoveAll(s, f) + RemoveAll(t, f)
  {
    if s != [] {
      assert (s + t)[1..] == s[1..] + t;
      RemoveAllAppend(s[1..], t, f);
    } else {
      assert s + t == t;
    }
  }

  /** A list without the filter is left as it is. */
  lemma {:induction false} RemoveAllAbsent(s: seq<ColorFilter>, f: ColorFilter)
    requires f !in s
    ensures RemoveAll(s, f) == s
  {
    if s != [] {
      RemoveAllAbsent(s[1..], f);
    }
  }

  /** Adding a filter and removing it again restores a list that did not hold it. */
  lemma AddThenRemove(s: seq<ColorFilter>, f: ColorFilter)
    requires f !in s
    ensures RemoveAll(s + [f], f) == s
  {
    RemoveAllAppend(s, [f], f);
    RemoveAllAbsent(s, f);
    assert RemoveAll([f], f) == [];
  }

  class PhotoEditorViewModel {
    var originalImage: UIImage
    var processedImage: Option<Rendering>
    var selectedTool: Option<EditorTool>
    var selectedAdjustment: Option<AdjustmentOption>
    var brightness: real
    var contrast: real
    var saturation: real
    var sharpness: real
    var exposure: real
    var blur: real
    var rotationAngle: real
    var colorFilters: seq<ColorFilter>
    var overlayTexts: seq<OverlayText>

    /** What the filter chain would render from the current state. */
    function CurrentRendering(): Rendering
      reads this
    {
      Rendering(originalImage, brightness, contrast, saturation,
                exposure, rotationAngle, sharpness, colorFilters, blur)
    }

    /** `valueForAdjustment`: the field the option names. */
    function ValueForAdjustment(a: AdjustmentOption): real
      reads this
    {
      match a
      case Brightness => brightness
      case Contrast => contrast
      case Saturation => saturation
      case Sharpness => sharpness
      case Exposure => exposure
      case Blur => blur
    }

    /** `init(image:)`: default adjustments, no filters, then one render. */
    constructor (image: UIImage)
      ensures originalImage == image
      ensures forall a :: ValueForAdjustment(a) == DefaultValue(a)
      ensures brightness == 0.0 && contrast == 1.0 && saturation == 1.0
      ensures sharpness == 0.0 && exposure == 0.0 && blur == 0.0
      ensures rotationAngle == 0.0
      ensures colorFilters == [] && overlayTexts == []
      ensures selectedTool == None && selectedAdjustment == None
      ensures processedImage == Some(CurrentRendering())
    {
      originalImage := image;
      processedImage := None;
      selectedTool := None;
      selectedAdjustment := None;
      brightness := 0.0;
      contrast := 1.0;
      saturation := 1.0;
      sharpness := 0.0;
      exposure := 0.0;
      blur := 0.0;
      rotationAngle := 0.0;
      colorFilters := [];
      overlayTexts := [];
      new;
      ApplyProcessing();
    }

    /** `applyProcessing`: re-renders the processed image from the current state. */
    method ApplyProcessing()
      modifies this`processedImage
      ensures processedImage == Some(CurrentRendering())
    {
      processedImage := Some(CurrentRendering());
    }

    /** `setValueForAdjustment`: sets the one field the option names, then re-renders. */
    method SetValueForAdjustment(a: AdjustmentOption, newValue: real)
      modifies this
      ensures ValueForAdjustment(a) == newValue
      ensures forall b :: b != a ==> ValueForAdjustment(b) == old(ValueForAdjustment(b))
      ensures colorFilters == old(colorFilters) && originalImage == old(originalImage)
      ensures rotationAngle == old(rotationAngle) && overlayTexts == old(overlayTexts)
      ensures selectedTool == old(selectedTool) && selectedAdjustment == old(selectedAdjustment)
      ensures processedImage == Some(CurrentRendering())
    {
      match a {
        case Brightness => brightness := newValue;
        case Contrast => contrast := newValue;
        case Saturation => saturation := newValue;
        case Sharpness => sharpness := newValue;
        case Exposure => exposure := newValue;
        case Blur => blur := newValue;
      }
      ApplyProcessing();
    }

    /** `addColorFilter`: appends the filter, then re-renders. */
    method AddColorFilter(filter: ColorFilter)
      modifies this
      ensures colorFilters == old(colorFilters) + [filter]
      ensures forall a :: ValueForAdjustment(a) == old(ValueForAdjustment(a))
      ensures originalImage == old(originalImage) && rotationAngle == old(rotationAngle)
      ensures overlayTexts == old(overlayTexts)
      ensures selectedTool == old(selectedTool) && selectedAdjustment == old(selectedAdjustment)
      ensures processedImage == Some(CurrentRendering())
    {
      colorFilters := colorFilters + [filter];
      ApplyProcessing();
    }

    /** `removeColorFilter`: drops every equal filter, then re-renders. */
    method RemoveColorFilter(filter: ColorFilter)
      modifies this
      ensures colorFilters == RemoveAll(old(colorFilters), filter)
      ensures forall a :: ValueForAdjustment(a) == old(ValueForAdjustment(a))
      ensures originalImage == old(originalImage) && rotationAngle == old(rotationAngle)
      ensures overlayTexts == old(overlayTexts)
      ensures selectedTool == old(selectedTool) && selectedAdjustment == old(selectedAdjustment)
      ensures processedImage == Some(CurrentRendering())
    {
      colorFilters := RemoveAll(colorFilters, filter);
      ApplyProcessing();
    }

    /** `update(to:)`: a new image to edit, with the adjustments and filters kept. */
    method Update(newImage: UIImage)
      modifies this
      ensures originalImage == newImage
      ensures forall a :: ValueForAdjustment(a) == old(ValueForAdjustment(a))
      ensures colorFilters == old(colorFilters) && rotationAngle == old(rotationAngle)
      ensures overlayTexts == old(overlayTexts)
      ensures selectedTool == old(selectedTool) && selectedAdjustment == old(selectedAdjustment)
      ensures processedImage == Some(CurrentRendering())
    {
      originalImage := newImage;
      ApplyProcessing();
    }
  }

  /** A client run through the editor: what its contracts let a caller conclude. */
  method EditorSession(first: UIImage, second: UIImage)
  {
    var vm := new PhotoEditorViewModel(first);
    assert vm.ValueForAdjustment(Brightness) == 0.0 && vm.ValueForAdjustment(Contrast) == 1.0;
    assert vm.processedImage.Some?;

    vm.SetValueForAdjustment(Brightness, 0.8);
    assert vm.brightness == 0.8 && vm.ValueForAdjustment(Contrast) == 1.0;

    vm.AddColorFilter(Sepia);
    assert Sepia in vm.colorFilters;
    vm.RemoveColorFilter(Sepia);
    assert Sepia !in vm.colorFilters;

    vm.SetValueForAdjustment(Contrast, 1.8);
    vm.Update(second);
    assert vm.originalImage == second && vm.contrast == 1.8 && vm.brightness == 0.8;
    assert vm.processedImage.Some?;
  }
}

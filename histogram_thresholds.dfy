/** The color of a histogram bar: the color of the last threshold step the value reaches, with the
    theme palette and the default colors as fallbacks. */
module HistogramThresholds {
  import opened Base

  datatype ThresholdStep = ThresholdStep(value: real, color: Option<string>)

  /** The threshold options; `steps` is `None` when the options have no steps. */
  datatype ThresholdOptions = ThresholdOptions(steps: Option<seq<ThresholdStep>>, defaultColor: Option<string>)

  /** The palette entry at an index, absent past the end. */
  function PaletteAt(palette: seq<string>, index: nat): (r: Option<string>)
    ensures r.Some? <==> index < |palette|
    ensures r.Some? ==> r.value == palette[index]
  {
    if index < |palette| then Some(palette[index]) else None
  }

  /** A step's color: its own, else the palette entry at its index, else the thresholds' default
      color, else the default color. */
  function StepColor(step: ThresholdStep, index: nat, palette: seq<string>, thresholdsDefault: Option<string>,
                     defaultColor: string): string
  {
    step.color.GetOr(PaletteAt(palette, index).GetOr(thresholdsDefault.GetOr(defaultColor)))
  }

  /** The colors of the steps among the first `n` that the value reaches, in step order. */
  function MatchingColors(steps: seq<ThresholdStep>, value: real, palette: seq<string>,
                          thresholdsDefault: Option<string>, defaultColor: string, n: nat): seq<string>
    requires n <= |steps|
  {
    if n == 0 then []
    else
      MatchingColors(steps, value, palette, thresholdsDefault, defaultColor, n - 1)
      + if value >= steps[n - 1].value then [StepColor(steps[n - 1], n - 1, palette, thresholdsDefault, defaultColor)] else []
  }

  /** No color matches exactly when the value reaches none of the first `n` steps. */
  lemma {:induction false} NoMatchingColor(steps: seq<ThresholdStep>, value: real, palette: seq<string>,
                                           thresholdsDefault: Option<string>, defaultColor: string, n: nat)
    requires n <= |steps|
    ensures MatchingColors(steps, value, palette, thresholdsDefault, defaultColor, n) == []
      <==> forall j :: 0 <= j < n ==> value < steps[j].value
  {
    if n > 0 {
      NoMatchingColor(steps, value, palette, thresholdsDefault, defaultColor, n - 1);
    }
  }

  /** The last matching color is the color of the last of the first `n` steps the value reaches. */
  lemma {:induction false} LastMatchingStep(steps: seq<ThresholdStep>, value: real, palette: seq<string>,
                                            thresholdsDefault: Option<string>, defaultColor: string, n: nat)
    requires n <= |steps|
    requires MatchingColors(steps, value, palette, thresholdsDefault, defaultColor, n) != []
    ensures var m := MatchingColors(steps, value, palette, thresholdsDefault, defaultColor, n);
      exists i :: 0 <= i < n && value >= steps[i].value && (forall j :: i < j < n ==> value < steps[j].value)
        && m[|m| - 1] == StepColor(steps[i], i, palette, thresholdsDefault, defaultColor)
  {
    var m := MatchingColors(steps, value, palette, thresholdsDefault, defaultColor, n);
    if value >= steps[n - 1].value {
      assert m[|m| - 1] == StepColor(steps[n - 1], n - 1, palette, thresholdsDefault, defaultColor);
    } else {
      LastMatchingStep(steps, value, palette, thresholdsDefault, defaultColor, n - 1);
    }
  }

  /** getColorFromThresholds: with steps, the color of the last step the value reaches, or, when it
      reaches none, the thresholds' default color, else the default color; without steps, that same
      fallback. */
  function GetColorFromThresholds(value: real, thresholds: Option<ThresholdOptions>, palette: seq<string>,
                                  defaultColor: string): (c: string)
    ensures var fallback := if thresholds.Some? then thresholds.value.defaultColor.GetOr(defaultColor) else defaultColor;
      (thresholds.None? || thresholds.value.steps.None? ==> c == fallback)
      && (thresholds.Some? && thresholds.value.steps.Some? ==>
            var steps := thresholds.value.steps.value;
            ((forall j :: 0 <= j < |steps| ==> value < steps[j].value) ==> c == fallback)
            && ((exists j :: 0 <= j < |steps| && value >= steps[j].value) ==>
                  exists i :: 0 <= i < |steps| && value >= steps[i].value
                    && (forall j :: i < j < |steps| ==> value < steps[j].value)
                    && c == StepColor(steps[i], i, palette, thresholds.value.defaultColor, defaultColor)))
  {
    if thresholds.Some? && thresholds.value.steps.Some? then
      var steps := thresholds.value.steps.value;
      var matchingColors := MatchingColors(steps, value, palette, thresholds.value.defaultColor, defaultColor, |steps|);
      NoMatchingColor(steps, value, palette, thresholds.value.defaultColor, defaultColor, |steps|);
      if |matchingColors| > 0 then
        LastMatchingStep(steps, value, palette, thresholds.value.defaultColor, defaultColor, |steps|);
        matchingColors[|matchingColors| - 1]
      else thresholds.value.defaultColor.GetOr(defaultColor)
    else if thresholds.Some? then thresholds.value.defaultColor.GetOr(defaultColor)
    else defaultColor
  }

  /** A step without a color of its own takes the palette entry at its index when there is one. */
  lemma StepColorFromPalette(step: ThresholdStep, index: nat, palette: seq<string>, thresholdsDefault: Option<string>,
                             defaultColor: string)
    requires step.color.None?
    ensures index < |palette| ==> StepColor(step, index, palette, thresholdsDefault, defaultColor) == palette[index]
    ensures index >= |palette| ==> StepColor(step, index, palette, thresholdsDefault, defaultColor) == thresholdsDefault.GetOr(defaultColor)
  {
  }
}

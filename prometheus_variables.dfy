/** The Prometheus variable plugins: the values of a label captured from query results, turned into
    variable options, and the datasource choice of their editors. */
module PrometheusVariables {
  import opened Base
  import opened PersesCore

  /** The values of `name` in the samples that carry it, in sample order, repeats included. */
  function Present(metrics: seq<Labels>, name: string): (vs: seq<string>)
    ensures forall v :: v in vs <==> exists i :: 0 <= i < |metrics| && Lookup(metrics[i], name) == Some(v)
  {
    if metrics == [] then []
    else
      var init := metrics[..|metrics| - 1];
      var rest := Present(init, name);
      var last := Lookup(metrics[|metrics| - 1], name);
      assert forall i :: 0 <= i < |init| ==> init[i] == metrics[i];
      if last.Some? then rest + [last.value] else rest
  }

  /** capturingMatrix and capturingVector: the distinct values of the label over the samples' label
      sets, in the order a `Set` keeps them. */
  method Capture(metrics: seq<Labels>, labelName: string) returns (captured: seq<string>)
    ensures captured == Dedupe(Present(metrics, labelName))
  {
    captured := [];
    for i := 0 to |metrics|
      invariant captured == Dedupe(Present(metrics[..i], labelName))
    {
      var value := Lookup(metrics[i], labelName);
      PrefixStep(metrics, i);
      if value.Some? {
        captured := SetAdd(captured, value.value);
      }
    }
    assert metrics[..|metrics|] == metrics;
  }

  /** What a capture holds: no value twice, exactly the values some sample carries for the label,
      and in the order of their first occurrence. */
  lemma CaptureShape(metrics: seq<Labels>, labelName: string)
    ensures var c := Dedupe(Present(metrics, labelName));
      NoDuplicates(c)
      && (forall v :: v in c <==> exists i :: 0 <= i < |metrics| && Lookup(metrics[i], labelName) == Some(v))
      && forall i, j :: 0 <= i < j < |c| ==>
           FirstIndex(Present(metrics, labelName), c[i]) < FirstIndex(Present(metrics, labelName), c[j])
  {
    var p := Present(metrics, labelName);
    DedupeNoDuplicates(p);
    forall i, j | 0 <= i < j < |Dedupe(p)| ensures FirstIndex(p, Dedupe(p)[i]) < FirstIndex(p, Dedupe(p)[j]) {
      DedupeFirstOccurrenceOrder(p, i, j);
    }
  }

  /** A matrix sample: its label set and its values; a vector sample: its label set and one value. */
  datatype MatrixSample = MatrixSample(metric: Labels, values: seq<(real, string)>)
  datatype VectorSample = VectorSample(metric: Labels, value: (real, string))

  method CapturingMatrix(result: seq<MatrixSample>, labelName: string) returns (captured: seq<string>)
    ensures captured == Dedupe(Present(seq(|result|, i requires 0 <= i < |result| => result[i].metric), labelName))
  {
    captured := Capture(seq(|result|, i requires 0 <= i < |result| => result[i].metric), labelName);
  }

  method CapturingVector(result: seq<VectorSample>, labelName: string) returns (captured: seq<string>)
    ensures captured == Dedupe(Present(seq(|result|, i requires 0 <= i < |result| => result[i].metric), labelName))
  {
    captured := Capture(seq(|result|, i requires 0 <= i < |result| => result[i].metric), labelName);
  }

  datatype VariableOption = VariableOption(value: string, labelText: string)

  /** stringArrayToVariableOptions: no list gives no options; otherwise one option per value, in
      order, labelled with the value itself. */
  function StringArrayToVariableOptions(values: Option<seq<string>>): (opts: seq<VariableOption>)
    ensures values.None? ==> opts == []
    ensures values.Some? ==> (|opts| == |values.value|
      && forall i :: 0 <= i < |opts| ==> opts[i].value == values.value[i] && opts[i].labelText == opts[i].value)
  {
    if values.None? then []
    else seq(|values.value|, i requires 0 <= i < |values.value| => VariableOption(values.value[i], values.value[i]))
  }

  /** A datasource selector: the plugin kind and, unless it means the default, a name. */
  datatype Selector = Selector(kind: string, name: Option<string>)

  /** handleDatasourceChange of the variable editors: a Prometheus selector is stored, except the
      default one, which is stored as no datasource at all; any other kind is an error.
      `isPrometheus` and `isDefault` stand for the selector tests of the Prometheus model. */
  function HandleDatasourceChange(next: Selector,
                                  isPrometheus: Selector -> bool, isDefault: Selector -> bool): (r: Result<Option<Selector>>)
    ensures !isPrometheus(next) ==> r == Err("Got unexpected non-Prometheus datasource selector")
    ensures isPrometheus(next) && isDefault(next) ==> r == Ok(None)
    ensures isPrometheus(next) && !isDefault(next) ==> r == Ok(Some(next))
  {
    if isPrometheus(next) then Ok(if isDefault(next) then None else Some(next))
    else Err("Got unexpected non-Prometheus datasource selector")
  }
}

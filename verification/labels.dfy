/**
 * The fixed label table of the job, `{0: "malignant", 1: "benign"}`, and the list
 * comprehension that looks every predicted class code up in it.
 */
module Labels {
  import opened Wrappers

  const Malignant: string := "malignant"
  const Benign: string := "benign"

  /** Class code to diagnosis label; a convention of the job, not read from the model. */
  const LabelMap: map<int, string> := map[0 := Malignant, 1 := Benign]

  /** The dictionary lookup `label_map[code]`; `None` stands for the `KeyError` it raises. */
  function LabelOf(code: int): (r: Option<string>)
    ensures r.Some? <==> code == 0 || code == 1
    ensures code == 0 ==> r == Some("malignant")
    ensures code == 1 ==> r == Some("benign")
  {
    if code in LabelMap then Some(LabelMap[code]) else None
  }

  /** The class code a label stands for: the label table read backwards. */
  function CodeOf(diagnosis: string): Option<int> {
    if diagnosis == Malignant then Some(0)
    else if diagnosis == Benign then Some(1)
    else None
  }

  /** The label table is a bijection between the two codes and the two labels. */
  lemma LabelRoundTrip(code: int, diagnosis: string)
    ensures LabelOf(code) == Some(diagnosis) <==> CodeOf(diagnosis) == Some(code)
  {
  }

  /**
   * `[label_map[p] for p in predictions]`: the labels of all codes in order, or the first
   * code, in row order, that has no label (the `KeyError` that stops the job).
   */
  function LabelAll(codes: seq<int>): (r: Result<seq<string>, int>)
    ensures r.Success? <==> forall i | 0 <= i < |codes| :: codes[i] == 0 || codes[i] == 1
    ensures r.Success? ==> |r.value| == |codes|
    ensures r.Success? ==> forall i | 0 <= i < |codes| :: LabelOf(codes[i]) == Some(r.value[i])
    ensures r.Failure? ==> exists i | 0 <= i < |codes| ::
      (codes[i] == r.error && LabelOf(codes[i]).None? && forall j | 0 <= j < i :: LabelOf(codes[j]).Some?)
  {
    if codes == [] then Success([])
    else
      match LabelOf(codes[0])
      case None => Failure(codes[0])
      case Some(first) =>
        match LabelAll(codes[1..])
        case Failure(code) => Failure(code)
        case Success(rest) => Success([first] + rest)
  }

  /** Each row's label agrees with its code both ways: 0 exactly when "malignant", 1 exactly when "benign". */
  lemma LabelsAgreeWithCodes(codes: seq<int>)
    requires LabelAll(codes).Success?
    ensures forall i | 0 <= i < |codes| :: codes[i] == 0 <==> LabelAll(codes).value[i] == "malignant"
    ensures forall i | 0 <= i < |codes| :: codes[i] == 1 <==> LabelAll(codes).value[i] == "benign"
  {
  }

  /**
   * A worked example of `LabelAll`'s contract on two fixed inputs, not a further property:
   * known codes are labelled in order; the first unknown code stops the lookup.
   */
  lemma LabelAllExamples()
    ensures LabelAll([0, 1, 1]) == Success(["malignant", "benign", "benign"])
    ensures LabelAll([1, 2, 5]) == Failure(2)
  {
    var codes := [0, 1, 1];
    var r := LabelAll(codes).value;
    assert LabelOf(codes[0]) == Some(r[0]) && LabelOf(codes[1]) == Some(r[1]) && LabelOf(codes[2]) == Some(r[2]);
    assert r == ["malignant", "benign", "benign"];
  }
}

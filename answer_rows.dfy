/** The grouped bar chart of a multiple-choice question: the upstream
    per-answer tally becomes chart labels, chart values and table rows, and
    every bar gets a random colour. */
module AnswerRows {

  /** One upstream tuple: an answer with its count and its percentage, both
      computed by the server. */
  datatype AnswerCount = AnswerCount(answer: string, count: int, percentage: real)

  /** One row of the table beside the chart. */
  datatype TableRow = TableRow(answer: string, count: int, percentage: real)

  /** Longest chart-axis label. */
  const LabelLimit: nat := 25

  const HexDigits: string := "0123456789ABCDEF"

  /** `s.substring(0, n)`: the first `n` characters of `s`, or all of `s` when
      it is shorter. */
  function Substring(s: string, n: nat): (r: string)
    ensures r <= s
    ensures |r| == if |s| <= n then |s| else n
  {
    if |s| <= n then s else s[..n]
  }

  /** An axis label has at most 25 characters, agrees with its answer on
      each of them, and is the whole answer when the answer is short. */
  lemma SubstringKeepsShortAnswers(s: string)
    ensures |Substring(s, LabelLimit)| <= LabelLimit
    ensures |s| <= LabelLimit ==> Substring(s, LabelLimit) == s
    ensures forall i :: 0 <= i < |Substring(s, LabelLimit)| ==> Substring(s, LabelLimit)[i] == s[i]
  {
    var r := Substring(s, LabelLimit);
    assert r == s[..|r|];
  }

  /** The forEach over the upstream tuples: one entry of each series per
      tuple, in upstream order. The chart label is the truncated answer, the
      chart value the upstream percentage, the table row the full answer
      with the upstream count and percentage. */
  method BuildRows(responseData: seq<AnswerCount>)
    returns (chartLabels: seq<string>, chartData: seq<real>, tableData: seq<TableRow>)
    ensures |chartLabels| == |chartData| == |tableData| == |responseData|
    ensures forall i :: 0 <= i < |responseData| ==>
      chartLabels[i] <= responseData[i].answer
      && |chartLabels[i]| == (if |responseData[i].answer| <= LabelLimit then |responseData[i].answer| else LabelLimit)
    ensures forall i :: 0 <= i < |responseData| ==> chartData[i] == responseData[i].percentage
    ensures forall i :: 0 <= i < |responseData| ==>
      tableData[i] == TableRow(responseData[i].answer, responseData[i].count, responseData[i].percentage)
  {
    chartLabels, chartData, tableData := [], [], [];
    for i := 0 to |responseData|
      invariant |chartLabels| == |chartData| == |tableData| == i
      invariant forall j :: 0 <= j < i ==> chartLabels[j] == Substring(responseData[j].answer, LabelLimit)
      invariant forall j :: 0 <= j < i ==> chartData[j] == responseData[j].percentage
      invariant forall j :: 0 <= j < i ==>
        tableData[j] == TableRow(responseData[j].answer, responseData[j].count, responseData[j].percentage)
    {
      var item := responseData[i];
      chartLabels := chartLabels + [Substring(item.answer, LabelLimit)];
      chartData := chartData + [item.percentage];
      tableData := tableData + [TableRow(item.answer, item.count, item.percentage)];
    }
  }

  /** An answer of 30 characters is cut to 25 characters on the axis. */
  lemma LongAnswerExample()
    ensures var long := "Better search across all pages";
            |long| == 30 && Substring(long, LabelLimit) == "Better search across all "
  {
  }

  /** A chart colour: "#" followed by six upper-case hexadecimal digits. */
  predicate IsHexColor(s: string)
  {
    |s| == 7 && s[0] == '#' && forall i :: 1 <= i < 7 ==> s[i] in HexDigits
  }

  /** The digit a draw of `Math.random()` selects: `Math.floor(draw * 16)`. */
  function DigitIndex(draw: real): (d: int)
    requires 0.0 <= draw < 1.0
    ensures 0 <= d < |HexDigits|
    ensures d as real <= draw * 16.0 < d as real + 1.0
  {
    (draw * 16.0).Floor
  }

  /** `getRandomColor`: six draws of `Math.random()`, each picking one of the
      sixteen digits, appended to "#". */
  method RandomColor(draws: seq<real>) returns (color: string)
    requires |draws| == 6
    requires forall i :: 0 <= i < 6 ==> 0.0 <= draws[i] < 1.0
    ensures IsHexColor(color)
    ensures forall i :: 0 <= i < 6 ==> color[i + 1] == HexDigits[DigitIndex(draws[i])]
  {
    color := "#";
    for i := 0 to 6
      invariant |color| == i + 1 && color[0] == '#'
      invariant forall j :: 0 <= j < i ==> color[j + 1] == HexDigits[DigitIndex(draws[j])]
      invariant forall j :: 1 <= j <= i ==> color[j] in HexDigits
    {
      color := color + [HexDigits[DigitIndex(draws[i])]];
    }
  }

  /** `chartData.map(() => getRandomColor())`: one colour per bar. */
  method GenerateColors(chartData: seq<real>, draws: seq<seq<real>>) returns (colors: seq<string>)
    requires |draws| == |chartData|
    requires forall k :: 0 <= k < |draws| ==> |draws[k]| == 6
    requires forall k, i :: 0 <= k < |draws| && 0 <= i < 6 ==> 0.0 <= draws[k][i] < 1.0
    ensures |colors| == |chartData|
    ensures forall k :: 0 <= k < |colors| ==> IsHexColor(colors[k])
  {
    colors := [];
    for k := 0 to |chartData|
      invariant |colors| == k
      invariant forall j :: 0 <= j < k ==> IsHexColor(colors[j])
    {
      var color := RandomColor(draws[k]);
      colors := colors + [color];
    }
  }
}

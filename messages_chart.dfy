/**
 * The messages chart: it turns the cumulative `[timestamp, total]` samples of the
 * messages-count response into per-bucket counts of new messages, and it chooses the
 * chart title and the y-axis tick labels.
 */
module MessagesChart {
  import opened Wrappers
  import Decimal

  /** One `[timestamp, total]` pair of `messages_count`: seconds, and a cumulative count. */
  datatype Sample = Sample(timestamp: int, total: int)

  /** One bar of the chart: a date in milliseconds and the messages added in that bucket. */
  datatype Bar = Bar(date: int, numMessages: int)

  /** How the messages-count request completed. */
  datatype MessagesResponse =
    | FetchFailed
    | Fetched(messagesCount: Option<seq<Sample>>)  // None: the field is missing

  function Max(a: int, b: int): int
  {
    if a >= b then a else b
  }

  /** The bars for `rest`, where `prevTotal` is the total just before `rest[0]`. Each bar
      is measured against the immediately preceding raw total, even after a drop. */
  function Deltas(prevTotal: int, rest: seq<Sample>): (r: seq<Bar>)
    ensures |r| == |rest|
    ensures forall i :: 0 <= i < |r| ==> r[i].date == rest[i].timestamp * 1000
    ensures forall i :: 0 <= i < |r| ==>
      r[i].numMessages == Max(rest[i].total - (if i == 0 then prevTotal else rest[i - 1].total), 0)
    ensures forall i :: 0 <= i < |r| ==> r[i].numMessages >= 0
    decreases |rest|
  {
    if rest == [] then []
    else
      [Bar(rest[0].timestamp * 1000, Max(rest[0].total - prevTotal, 0))]
        + Deltas(rest[0].total, rest[1..])
  }

  /** The chart data for one response's samples: sample 0 is the baseline, each later
      sample gives one bar. No samples at all is an error (None). */
  function MessagesData(values: seq<Sample>): (r: Option<seq<Bar>>)
    ensures r.None? <==> values == []
    ensures r.Some? ==> |r.value| == |values| - 1
  {
    if values == [] then None else Some(Deltas(values[0].total, values[1..]))
  }

  /** The sum of the bars' message counts. */
  function TotalMessages(bars: seq<Bar>): int
  {
    if bars == [] then 0 else bars[0].numMessages + TotalMessages(bars[1..])
  }

  predicate NonDecreasing(prevTotal: int, rest: seq<Sample>)
  {
    && (rest != [] ==> prevTotal <= rest[0].total)
    && forall i :: 0 <= i < |rest| - 1 ==> rest[i].total <= rest[i + 1].total
  }

  /** One step of the fold: the first bar, then the bars measured from `rest[0]`. */
  lemma DeltasUnfold(prevTotal: int, rest: seq<Sample>)
    requires rest != []
    ensures TotalMessages(Deltas(prevTotal, rest))
            == Max(rest[0].total - prevTotal, 0) + TotalMessages(Deltas(rest[0].total, rest[1..]))
  {
  }

  /** The bars add up to at least the overall growth of the counter. */
  lemma {:induction false} DeltasCoverGrowth(prevTotal: int, rest: seq<Sample>)
    requires rest != []
    ensures TotalMessages(Deltas(prevTotal, rest)) >= rest[|rest| - 1].total - prevTotal
    decreases |rest|
  {
    DeltasUnfold(prevTotal, rest);
    if |rest| > 1 {
      DeltasCoverGrowth(rest[0].total, rest[1..]);
    }
  }

  /** When the counter never drops, the bars add up exactly to its overall growth:
      the sum telescopes to last total minus first total. */
  lemma {:induction false} DeltasTelescope(prevTotal: int, rest: seq<Sample>)
    requires rest != [] && NonDecreasing(prevTotal, rest)
    ensures TotalMessages(Deltas(prevTotal, rest)) == rest[|rest| - 1].total - prevTotal
    decreases |rest|
  {
    DeltasUnfold(prevTotal, rest);
    if |rest| > 1 {
      assert rest[0].total <= rest[1].total;
      forall i | 0 <= i < |rest[1..]| - 1
        ensures rest[1..][i].total <= rest[1..][i + 1].total
      {
        assert rest[1..][i] == rest[i + 1];
        assert rest[1..][i + 1] == rest[i + 2];
      }
      DeltasTelescope(rest[0].total, rest[1..]);
    }
  }

  /** The bars' dates are in the order of the samples' timestamps. */
  lemma DatesFollowTimestamps(values: seq<Sample>, i: nat, j: nat)
    requires values != [] && i < j < |values| - 1
    ensures var bars := MessagesData(values).value;
      bars[i].date < bars[j].date <==> values[i + 1].timestamp < values[j + 1].timestamp
  {
  }

  /**
   * The bars, computed as the source does: a pass over `values[1..]` that carries the
   * previous raw total in a variable.
   */
  method ComputeMessagesData(values: seq<Sample>) returns (r: Option<seq<Bar>>)
    ensures r == MessagesData(values)
    ensures r.Some? ==> forall i :: 0 <= i < |r.value| ==>
      r.value[i] == Bar(values[i + 1].timestamp * 1000, Max(values[i + 1].total - values[i].total, 0))
  {
    if values == [] {
      return None;
    }
    var prevTotal := values[0].total;
    var bars: seq<Bar> := [];
    var i := 1;
    while i < |values|
      invariant 1 <= i <= |values|
      invariant prevTotal == values[i - 1].total
      invariant |bars| == i - 1
      invariant forall k :: 0 <= k < |bars| ==>
        bars[k] == Bar(values[k + 1].timestamp * 1000, Max(values[k + 1].total - values[k].total, 0))
    {
      var total := values[i].total;
      var numMessages := Max(total - prevTotal, 0);
      prevTotal := total;
      bars := bars + [Bar(values[i].timestamp * 1000, numMessages)];
      i := i + 1;
    }
    r := Some(bars);
    var spec := Deltas(values[0].total, values[1..]);
    assert |spec| == |bars|;
    forall k | 0 <= k < |bars|
      ensures bars[k] == spec[k]
    {
      assert values[1..][k] == values[k + 1];
      if k > 0 {
        assert values[1..][k - 1] == values[k];
      }
    }
    assert bars == spec;
  }

  /** The chart data a response yields: None for a failed request, a missing field or an
      empty sample list, all three of which end in the error handler. */
  function ResponseData(res: MessagesResponse): (r: Option<seq<Bar>>)
    ensures r.Some? <==> res.Fetched? && res.messagesCount.Some? && res.messagesCount.value != []
  {
    match res
    case FetchFailed => None
    case Fetched(count) => if count.Some? then MessagesData(count.value) else None
  }

  const TitleText := "Messages"
  const NetworkErrorSuffix := " - Network Error"

  /** The chart title: the plain title, with the network-error suffix after an error. */
  function Title(error: bool): (t: string)
    ensures !error ==> t == "Messages"
    ensures error ==> t == "Messages - Network Error"
  {
    if error then TitleText + NetworkErrorSuffix else TitleText
  }

  /** A y-axis tick label: the value itself below 1000, otherwise thousands with a "k".
      `OneDecimal` stands for a non-whole number of thousands, rendered with one
      decimal place. */
  datatype TickY = Number(value: int) | Text(text: string) | OneDecimal(value: int)

  function TickLabelY(value: int): (t: TickY)
    ensures value < 1000 <==> t == Number(value)
    ensures value >= 1000 && value % 1000 == 0 ==> t == Text(Decimal.NatToString(value / 1000) + "k")
    ensures value >= 1000 && value % 1000 != 0 ==> t == OneDecimal(value)
  {
    if value >= 1000 then
      if value % 1000 == 0 then Text(Decimal.NatToString(value / 1000) + "k") else OneDecimal(value)
    else
      Number(value)
  }

  /** A label for a whole number of thousands is digits followed by "k", and the digits
      read back give the value in thousands. */
  lemma ThousandsLabelRoundTrip(value: int)
    requires value >= 1000 && value % 1000 == 0
    ensures var t := TickLabelY(value).text;
      && |t| >= 2 && t[|t| - 1] == 'k'
      && Decimal.AllDigits(t[..|t| - 1])
      && Decimal.DigitsValue(t[..|t| - 1]) * 1000 == value
  {
    var digits := Decimal.NatToString(value / 1000);
    var t := digits + "k";
    assert t[..|t| - 1] == digits;
    Decimal.NatToStringRoundTrip(value / 1000);
  }

  /** Distinct whole-thousand ticks get distinct labels. */
  lemma ThousandsLabelsDistinct(v1: int, v2: int)
    requires v1 >= 1000 && v1 % 1000 == 0 && v2 >= 1000 && v2 % 1000 == 0
    requires TickLabelY(v1) == TickLabelY(v2)
    ensures v1 == v2
  {
    var d1, d2 := Decimal.NatToString(v1 / 1000), Decimal.NatToString(v2 / 1000);
    assert d1 == (d1 + "k")[..|d1|] && d2 == (d2 + "k")[..|d2|];
    Decimal.NatToStringInjective(v1 / 1000, v2 / 1000);
  }

  /** The component's state: the bars shown and whether the request failed. */
  class Chart {
    var messagesData: seq<Bar>
    var error: bool

    constructor ()
      ensures messagesData == [] && !error
    {
      messagesData, error := [], false;
    }

    /** Apply the response of the mount-time request: new data replaces the old data
        wholesale and leaves `error` alone; any failure sets `error` and keeps the data. */
    method ComponentDidMount(res: MessagesResponse)
      modifies this
      ensures ResponseData(res).Some? ==> messagesData == ResponseData(res).value && error == old(error)
      ensures ResponseData(res).None? ==> messagesData == old(messagesData) && error
    {
      var data: Option<seq<Bar>> := None;
      if res.Fetched? && res.messagesCount.Some? {
        data := ComputeMessagesData(res.messagesCount.value);
      }
      if data.Some? {
        messagesData := data.value;
      } else {
        error := true;
      }
    }
  }
}

/**
 * The block-height card: a poll state `{blockHeight, prevBlockHeight, error}` that
 * changes once per completed block-height request, the text-or-count-up choice made
 * when the card is drawn, and the block-rate read used to estimate a first baseline.
 *
 * A completed request is one atomic transition (`Next`); `Card` is the component
 * whose fields those transitions update in place.
 */
module BlocksCard {
  import opened Wrappers

  /** How one block-height request completed. */
  datatype PollOutcome =
    | Failure
      // the request was rejected, or the response had no `block_height` field
    | Success(fieldLen: nat, parsed: Option<int>)
      // `fieldLen` is the length of `block_height`; `parsed` is `parseInt` of its
      // element 1 (None stands for NaN), meaningful only when `fieldLen == 2`

  datatype CardState = CardState(blockHeight: int, prevBlockHeight: int, error: nat)

  /** The state the component starts in: no height yet, no errors. */
  const Initial := CardState(-1, -1, 0)

  const NetworkErrorText := "Network error"
  const LoadingText := "Loading..."

  /** The fallback block rate used when the block-rate request cannot be used. */
  const FallbackBlockRate := 45

  /** A response whose height is well formed and strictly above the current one. */
  predicate Accepts(s: CardState, o: PollOutcome)
  {
    o.Success? && o.fieldLen == 2 && o.parsed.Some? && o.parsed.value > s.blockHeight
  }

  /** The state after one completed request; `baselineDelta` is how far below the
      first accepted height the estimated previous height lies. */
  function Next(s: CardState, o: PollOutcome, baselineDelta: int): (t: CardState)
    ensures o.Failure? ==> t == s.(error := s.error + 1)
    ensures o.Success? && !Accepts(s, o) ==> t == s
    ensures Accepts(s, o) ==>
      && t.blockHeight == o.parsed.value > s.blockHeight
      && t.error == 0
      && t.prevBlockHeight ==
           (if s.prevBlockHeight == -1 then o.parsed.value - baselineDelta else s.blockHeight)
    ensures t.blockHeight >= s.blockHeight
    ensures s.blockHeight >= -1 && t.blockHeight != s.blockHeight ==> t.blockHeight >= 0
  {
    match o
    case Failure => s.(error := s.error + 1)
    case Success(fieldLen, parsed) =>
      if fieldLen == 2 && parsed.Some? && parsed.value > s.blockHeight then
        var h := parsed.value;
        CardState(h, if s.prevBlockHeight != -1 then s.blockHeight else h - baselineDelta, 0)
      else
        s
  }

  /** The state after a whole sequence of completed requests, in completion order. */
  function Run(s: CardState, os: seq<PollOutcome>, baselineDelta: int): CardState
    decreases |os|
  {
    if os == [] then s else Run(Next(s, os[0], baselineDelta), os[1..], baselineDelta)
  }

  /** The number of failed requests in `os`. */
  function Failures(os: seq<PollOutcome>): nat
  {
    if os == [] then 0
    else Failures(os[..|os| - 1]) + (if os[|os| - 1].Failure? then 1 else 0)
  }

  /** Request `j` of `os` was accepted when it completed. */
  predicate AcceptedAt(s: CardState, os: seq<PollOutcome>, baselineDelta: int, j: int)
  {
    0 <= j < |os| && Accepts(Run(s, os[..j], baselineDelta), os[j])
  }

  lemma {:induction false} RunConcat(s: CardState, a: seq<PollOutcome>, b: seq<PollOutcome>, d: int)
    ensures Run(s, a + b, d) == Run(Run(s, a, d), b, d)
    decreases |a|
  {
    if a == [] {
      assert a + b == b;
    } else {
      assert (a + b)[0] == a[0];
      assert (a + b)[1..] == a[1..] + b;
      RunConcat(Next(s, a[0], d), a[1..], b, d);
    }
  }

  /** The run through `os` is the run up to request `j`, then request `j`, then the rest. */
  lemma RunSplitAt(s: CardState, os: seq<PollOutcome>, j: nat, d: int)
    requires j < |os|
    ensures Run(s, os, d) == Run(Next(Run(s, os[..j], d), os[j], d), os[j + 1..], d)
  {
    assert os == os[..j] + os[j..];
    RunConcat(s, os[..j], os[j..], d);
    assert os[j..][0] == os[j];
    assert os[j..][1..] == os[j + 1..];
  }

  /** No outcome lowers the block height. */
  lemma {:induction false} RunHeightMonotone(s: CardState, os: seq<PollOutcome>, d: int)
    ensures Run(s, os, d).blockHeight >= s.blockHeight
    decreases |os|
  {
    if os != [] {
      RunHeightMonotone(Next(s, os[0], d), os[1..], d);
    }
  }

  /** Over any sequence of outcomes, the block height seen after a longer prefix is
      at least the one seen after a shorter prefix. */
  lemma HeightNeverDecreases(s: CardState, os: seq<PollOutcome>, d: int, i: nat, j: nat)
    requires i <= j <= |os|
    ensures Run(s, os[..i], d).blockHeight <= Run(s, os[..j], d).blockHeight
  {
    assert os[..j] == os[..i] + os[i..j];
    RunConcat(s, os[..i], os[i..j], d);
    RunHeightMonotone(Run(s, os[..i], d), os[i..j], d);
  }

  /** A sequence in which nothing is accepted leaves both heights alone and adds one
      error per failed request. */
  lemma {:induction false} NoAcceptance(s: CardState, os: seq<PollOutcome>, d: int)
    requires forall j :: 0 <= j < |os| ==> !AcceptedAt(s, os, d, j)
    ensures Run(s, os, d) == s.(error := s.error + Failures(os))
    decreases |os|
  {
    if os != [] {
      var n := |os| - 1;
      var init := os[..n];
      forall j | 0 <= j < |init|
        ensures !AcceptedAt(s, init, d, j)
      {
        assert init[..j] == os[..j];
        assert !AcceptedAt(s, os, d, j);
      }
      NoAcceptance(s, init, d);
      RunSplitAt(s, os, n, d);
      assert os[n + 1..] == [];
      assert !AcceptedAt(s, os, d, n);
    }
  }

  /** After the last accepted request `k`, the state is fixed by that request alone,
      except that `error` counts the failures that completed since. */
  lemma LastAcceptanceDeterminesState(s: CardState, os: seq<PollOutcome>, d: int, k: nat)
    requires AcceptedAt(s, os, d, k)
    requires forall j :: k < j < |os| ==> !AcceptedAt(s, os, d, j)
    ensures var p := Run(s, os[..k], d);
      && Run(s, os, d).blockHeight == os[k].parsed.value
      && Run(s, os, d).prevBlockHeight ==
           (if p.prevBlockHeight == -1 then os[k].parsed.value - d else p.blockHeight)
      && Run(s, os, d).error == Failures(os[k + 1..])
  {
    var t := Next(Run(s, os[..k], d), os[k], d);
    var rest := os[k + 1..];
    assert os[..k + 1] == os[..k] + [os[k]];
    forall j | 0 <= j < |rest|
      ensures !AcceptedAt(t, rest, d, j)
    {
      assert os[..k + 1 + j] == os[..k] + [os[k]] + rest[..j];
      RunConcat(s, os[..k] + [os[k]], rest[..j], d);
      RunConcat(s, os[..k], [os[k]], d);
      assert Run(s, os[..k + 1 + j], d) == Run(t, rest[..j], d);
      assert rest[j] == os[k + 1 + j];
      assert !AcceptedAt(s, os, d, k + 1 + j);
    }
    NoAcceptance(t, rest, d);
    RunSplitAt(s, os, k, d);
  }

  /** From the initial state, the height stays -1 exactly as long as nothing has been
      accepted, and is never below -1; so the card shows the loading text exactly when
      nothing has been accepted and `error` is still below the threshold. */
  lemma LoadingUntilFirstAcceptance(os: seq<PollOutcome>, d: int, threshold: int)
    ensures Run(Initial, os, d).blockHeight >= -1
    ensures Run(Initial, os, d).blockHeight == -1 <==>
            forall j :: 0 <= j < |os| ==> !AcceptedAt(Initial, os, d, j)
    ensures DisplayValue(Run(Initial, os, d), threshold) == Text(LoadingText) <==>
            && (forall j :: 0 <= j < |os| ==> !AcceptedAt(Initial, os, d, j))
            && Run(Initial, os, d).error < threshold
  {
    RunHeightMonotone(Initial, os, d);
    if exists j :: 0 <= j < |os| && AcceptedAt(Initial, os, d, j) {
      var j :| 0 <= j < |os| && AcceptedAt(Initial, os, d, j);
      var p := Run(Initial, os[..j], d);
      RunHeightMonotone(Initial, os[..j], d);
      RunSplitAt(Initial, os, j, d);
      RunHeightMonotone(Next(p, os[j], d), os[j + 1..], d);
    } else {
      NoAcceptance(Initial, os, d);
    }
  }

  /** `k` failures in a row add exactly `k` to `error`, and the card shows the network
      error once the count reaches the threshold. */
  lemma {:induction false} ConsecutiveFailures(s: CardState, k: nat, d: int, threshold: int)
    ensures Run(s, seq(k, _ => Failure), d) == s.(error := s.error + k)
    ensures DisplayValue(Run(s, seq(k, _ => Failure), d), threshold) == Text(NetworkErrorText)
            <==> s.error + k >= threshold
    decreases k
  {
    var fs := seq(k, _ => Failure);
    if k > 0 {
      assert fs[0] == Failure;
      assert fs[1..] == seq(k - 1, _ => Failure);
      ConsecutiveFailures(Next(s, Failure, d), k - 1, d, threshold);
    }
  }

  /** What the card shows: a fixed text, or a count-up animation between two heights. */
  datatype CardValue = Text(text: string) | CountUp(start: int, end: int)

  /** The text choice made when the card is drawn: the network error text beats the
      loading text, which beats the count-up from the previous to the current height. */
  function DisplayValue(s: CardState, threshold: int): (v: CardValue)
    ensures v == Text(NetworkErrorText) <==> s.error >= threshold
    ensures v == Text(LoadingText) <==> s.error < threshold && s.blockHeight == -1
    ensures v.CountUp? <==> s.error < threshold && s.blockHeight != -1
    ensures v.CountUp? ==> v.start == s.prevBlockHeight && v.end == s.blockHeight
  {
    if s.error >= threshold then Text(NetworkErrorText)
    else if s.blockHeight == -1 then Text(LoadingText)
    else CountUp(s.prevBlockHeight, s.blockHeight)
  }

  /** An accepted response clears any network error at once (for a positive
      threshold) and shows the count-up to the new height. */
  lemma AcceptanceShowsCountUp(s: CardState, o: PollOutcome, d: int, threshold: int)
    requires s.blockHeight >= -1 && threshold > 0 && Accepts(s, o)
    ensures DisplayValue(Next(s, o, d), threshold) == CountUp(Next(s, o, d).prevBlockHeight, o.parsed.value)
  {
  }

  /** How the block-rate request completed. */
  datatype RateResponse =
    | RateFailure
      // the request was rejected, or the response had no `block_rate` field
    | RateFetched(rateLen: nat, firstLen: nat, rate: int)
      // `rateLen` is the length of `block_rate`, `firstLen` that of its element 0
      // (read only when `rateLen == 1`), `rate` the parsed value of that element's element 1

  /** The block rate: the fetched value when the response has the expected shape, the
      fallback otherwise. */
  function BlockRate(r: RateResponse): (rate: int)
    ensures r.RateFetched? && r.rateLen == 1 && r.firstLen == 2 ==> rate == r.rate
    ensures !(r.RateFetched? && r.rateLen == 1 && r.firstLen == 2) ==> rate == FallbackBlockRate
  {
    match r
    case RateFetched(rateLen, firstLen, rate) =>
      if rateLen == 1 && firstLen == 2 then rate else FallbackBlockRate
    case RateFailure => FallbackBlockRate
  }

  /** How many blocks are expected in one poll interval: the estimated distance from
      the first accepted height back to the previous one. */
  function BaselineDelta(blocksPerSecond: int, pollIntervalSeconds: nat): int
  {
    blocksPerSecond * pollIntervalSeconds
  }

  /** The first accepted height `h` gets the previous height `h - rate * seconds`: the
      height the chain had one poll interval earlier at the given block rate. */
  lemma FirstAcceptanceBaseline(h: int, blocksPerSecond: int, pollIntervalSeconds: nat)
    requires h >= 0
    ensures Next(Initial, Success(2, Some(h)), BaselineDelta(blocksPerSecond, pollIntervalSeconds))
            == CardState(h, h - blocksPerSecond * pollIntervalSeconds, 0)
  {
  }

  /** The component. Its three fields are the poll state. Each poll takes the block
      rate as an argument, as the component's own poll method does; the caller that
      mounts the component reads the rate once and passes that same value to every poll. */
  class Card {
    var blockHeight: int
    var prevBlockHeight: int
    var error: nat

    function State(): CardState
      reads this
    {
      CardState(blockHeight, prevBlockHeight, error)
    }

    constructor ()
      ensures State() == Initial
    {
      blockHeight, prevBlockHeight, error := -1, -1, 0;
    }

    /** Apply one completed block-height request. */
    method PollForBlockHeight(o: PollOutcome, blocksPerSecond: int, pollIntervalSeconds: nat)
      modifies this
      ensures State() == Next(old(State()), o, BaselineDelta(blocksPerSecond, pollIntervalSeconds))
    {
      match o {
        case Failure =>
          error := error + 1;
        case Success(fieldLen, parsed) =>
          if fieldLen == 2 {
            if parsed.Some? && parsed.value > blockHeight {
              var newBlockHeight := parsed.value;
              prevBlockHeight :=
                if prevBlockHeight != -1 then blockHeight
                else newBlockHeight - BaselineDelta(blocksPerSecond, pollIntervalSeconds);
              blockHeight := newBlockHeight;
              error := 0;
            }
          }
      }
    }
  }
}

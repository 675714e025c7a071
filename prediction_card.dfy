/**
 * The values a prediction card derives from its props and the current time
 * (app/components/PredictionCard.tsx): the vote total, the rounded
 * percentages, the expiry flag, the time-left label, the footer and the ring
 * colour.  Times are whole milliseconds, deadlines whole seconds, votes
 * naturals; the clock reading `now` is a parameter.
 */
module PredictionCard {
  import opened JsText
  import opened Calls

  /** A prediction as the market reports it and the card receives it. */
  datatype Prediction = Prediction(
    id: int,
    question: string,
    creator: string,
    options: seq<string>,
    votes: seq<nat>,
    deadline: int,
    resolved: bool,
    winningOption: int)

  const DayMs: nat := 86400000
  const HourMs: nat := 3600000

  // ---------------------------------------------------------------- totals

  /** The sum of the vote counts: the reference definition. */
  function SumVotes(votes: seq<nat>): nat {
    if votes == [] then 0 else votes[0] + SumVotes(votes[1..])
  }

  /** `reduce((acc, curr) => acc + curr, acc)`: a left fold from the first entry. */
  function FoldVotes(acc: nat, votes: seq<nat>): nat
    decreases |votes|
  {
    if votes == [] then acc else FoldVotes(acc + votes[0], votes[1..])
  }

  function TotalVotes(votes: seq<nat>): nat {
    FoldVotes(0, votes)
  }

  /** The left fold started at `acc` adds `acc` to the sum. */
  lemma {:induction false} FoldIsSum(acc: nat, votes: seq<nat>)
    ensures FoldVotes(acc, votes) == acc + SumVotes(votes)
    decreases |votes|
  {
    if votes != [] {
      FoldIsSum(acc + votes[0], votes[1..]);
    }
  }

  /** The total is the sum of every entry, and no entry exceeds it. */
  lemma {:induction false} TotalIsSum(votes: seq<nat>)
    ensures TotalVotes(votes) == SumVotes(votes)
    ensures forall i :: 0 <= i < |votes| ==> votes[i] <= TotalVotes(votes)
  {
    FoldIsSum(0, votes);
    EntryBelowSum(votes);
  }

  lemma {:induction false} EntryBelowSum(votes: seq<nat>)
    ensures forall i :: 0 <= i < |votes| ==> votes[i] <= SumVotes(votes)
  {
    if votes != [] {
      EntryBelowSum(votes[1..]);
      assert forall i :: 1 <= i < |votes| ==> votes[i] == votes[1..][i - 1];
    }
  }

  /** The total of two tallies is the sum of the totals. */
  lemma {:induction false} SumAppend(a: seq<nat>, b: seq<nat>)
    ensures SumVotes(a + b) == SumVotes(a) + SumVotes(b)
  {
    if a != [] {
      assert (a + b)[0] == a[0] && (a + b)[1..] == a[1..] + b;
      SumAppend(a[1..], b);
    } else {
      assert a + b == b;
    }
  }

  // ----------------------------------------------------------- percentages

  /** `Math.round(n / d)` for a non-negative quotient: halves round up. */
  function RoundHalfUp(n: nat, d: nat): (r: nat)
    requires d > 0
    ensures 2 * d * r <= 2 * n + d < 2 * d * r + 2 * d
  {
    (2 * n + d) / (2 * d)
  }

  /** A percentage as the card computes it: a number, or NaN when the entry
      `votes[i]` does not exist but the total is positive. */
  datatype Percent = Value(p: nat) | NotANumber

  function Percentage(votes: seq<nat>, i: int): Percent {
    var total := TotalVotes(votes);
    if total == 0 then Value(0)
    else if 0 <= i < |votes| then Value(RoundHalfUp(100 * votes[i], total))
    else NotANumber
  }

  /** Zero total gives 0 and a missing entry NaN; any number produced is at
      most 100. */
  lemma PercentageCases(votes: seq<nat>, i: int)
    ensures TotalVotes(votes) == 0 ==> Percentage(votes, i) == Value(0)
    ensures TotalVotes(votes) > 0 && !(0 <= i < |votes|) ==> Percentage(votes, i) == NotANumber
    ensures Percentage(votes, i).Value? ==> Percentage(votes, i).p <= 100
  {
    if TotalVotes(votes) > 0 && 0 <= i < |votes| {
      PercentageOfEntry(votes, i);
    }
  }

  /** An existing entry of a positive tally gets the nearest integer to its
      share in percent, halves rounded up, and at most 100. */
  lemma PercentageOfEntry(votes: seq<nat>, i: int)
    requires TotalVotes(votes) > 0 && 0 <= i < |votes|
    ensures Percentage(votes, i).Value?
    ensures var t := TotalVotes(votes); var p := Percentage(votes, i).p;
      2 * t * p <= 200 * votes[i] + t < 2 * t * p + 2 * t
    ensures Percentage(votes, i).p <= 100
  {
    TotalIsSum(votes);
    ShareBound(votes[i], TotalVotes(votes));
  }

  /** A share of at most the whole rounds to at most 100 percent. */
  lemma ShareBound(v: nat, t: nat)
    requires 0 < t && v <= t
    ensures RoundHalfUp(100 * v, t) <= 100
  {
    var p := RoundHalfUp(100 * v, t);
    assert 2 * t * p <= 2 * (100 * v) + t;
    assert 2 * (100 * v) + t <= 2 * t * 100 + t;
    MulMono(2 * t, 101, p);
  }

  /** Multiplying by a positive factor keeps the order. */
  lemma {:induction false} MulLe(t: int, x: int, y: int)
    requires t > 0 && x <= y
    ensures t * x <= t * y
    decreases y - x
  {
    if x < y {
      MulLe(t, x, y - 1);
      assert t * y == t * (y - 1) + t;
    }
  }

  lemma MulMono(t: int, x: int, y: int)
    requires t > 0
    ensures x <= y ==> t * x <= t * y
  {
    if x <= y {
      MulLe(t, x, y);
    }
  }

  /** With exactly two options and some votes, the two percentages add up to
      100, or to 101 exactly when both shares end in exactly one half, that
      is when `200 * yes` is an odd multiple of the total. */
  lemma TwoPercentagesSum(yes: nat, no: nat)
    requires yes + no > 0
    ensures Percentage([yes, no], 0).Value? && Percentage([yes, no], 1).Value?
    ensures var s := Percentage([yes, no], 0).p + Percentage([yes, no], 1).p;
      (s == 100 || s == 101) && (s == 101 <==> (200 * yes) % (2 * (yes + no)) == yes + no)
  {
    var votes := [yes, no];
    TotalIsSum(votes);
    assert votes[1..] == [no] && votes[1..][1..] == [];
    assert SumVotes(votes) == yes + SumVotes([no]) == yes + no + SumVotes([]);
    RoundedPairSum(100 * yes, 100 * no, TotalVotes(votes));
    assert 2 * (100 * yes) == 200 * yes;
  }

  /** Two shares of a whole of `100 * d`, each rounded half up, add up to 100,
      or to 101 exactly when the first share, hence also the second, lies
      exactly halfway between two integers. */
  lemma RoundedPairSum(x: nat, y: nat, d: nat)
    requires d > 0 && x + y == 100 * d
    ensures var s := RoundHalfUp(x, d) + RoundHalfUp(y, d);
      (s == 100 || s == 101) && (s == 101 <==> (2 * x) % (2 * d) == d)
  {
    var D := 2 * d;
    var a := RoundHalfUp(x, d);
    var b := RoundHalfUp(y, d);
    assert 2 * d * (a + b) == 2 * d * a + 2 * d * b;
    assert 2 * d * (a + b) <= 2 * d * 101;
    assert 2 * d * 99 < 2 * d * (a + b);
    MulMono(2 * d, 102, a + b);
    MulMono(2 * d, a + b, 99);
    var r1 := (2 * x + d) % D;
    var r2 := (2 * y + d) % D;
    DivMod(2 * x + d, D);
    DivMod(2 * y + d, D);
    assert D * a + r1 + D * b + r2 == D * 101 by {
      assert D * a + D * b == D * (a + b);
    }
    assert (a + b == 101) == (r1 == 0);
    HalfRemainder(x, d);
  }

  lemma DivMod(n: int, D: int)
    requires D > 0
    ensures n == D * (n / D) + n % D && 0 <= n % D < D
  {
  }

  /** A remainder in range that writes `n` as `D * q + r` is the one `%` gives. */
  lemma ModUnique(n: int, D: int, q: int, r: int)
    requires D > 0 && 0 <= r < D && n == D * q + r
    ensures n % D == r
  {
    DivMod(n, D);
    var k := q - n / D;
    assert D * k == n % D - r by {
      assert D * k == D * q - D * (n / D);
    }
    MulMono(D, 1, k);
    MulMono(D, k, -1);
  }

  /** `2x + d` is a multiple of `2d` exactly when `2x` leaves the remainder `d`. */
  lemma HalfRemainder(x: int, d: int)
    requires d > 0
    ensures (2 * x + d) % (2 * d) == 0 <==> (2 * x) % (2 * d) == d
  {
    var D := 2 * d;
    DivMod(2 * x, D);
    var q, m := (2 * x) / D, (2 * x) % D;
    if m == d {
      ModUnique(2 * x + d, D, q + 1, 0);
    } else if m + d < D {
      ModUnique(2 * x + d, D, q, m + d);
    } else {
      ModUnique(2 * x + d, D, q + 1, m + d - D);
    }
  }

  /** The ring and the yes percentage are green when `yesPercentage >= 50`;
      NaN compares false. */
  datatype Tone = Green | Red

  function RingTone(yes: Percent): Tone {
    if yes.Value? && yes.p >= 50 then Green else Red
  }

  /** The width the progress bar gets: `${p || 0}%`, so NaN draws as 0. */
  function BarWidth(p: Percent): nat {
    match p
    case Value(v) => v
    case NotANumber => 0
  }

  /** The ring is green exactly when there are votes and the first option
      holds at least 49.5% of them (the share that rounds to 50). */
  lemma GreenIffHalf(votes: seq<nat>)
    ensures RingTone(Percentage(votes, 0)) == Green <==>
      TotalVotes(votes) > 0 && |votes| > 0 && 200 * votes[0] >= 99 * TotalVotes(votes)
  {
    var t := TotalVotes(votes);
    if t > 0 && |votes| > 0 {
      var p := RoundHalfUp(100 * votes[0], t);
      assert Percentage(votes, 0) == Value(p);
      assert 2 * t * p <= 200 * votes[0] + t < 2 * t * p + 2 * t;
      MulMono(2 * t, 50, p);
      MulMono(2 * t, p, 49);
    }
  }

  // ------------------------------------------------------------------ time

  /** A prediction is expired once `now / 1000 > deadline` (strict), read in
      exact arithmetic. */
  predicate IsExpired(deadline: int, nowMs: int) {
    nowMs > deadline * 1000
  }

  lemma IsExpiredExact(deadline: int, nowMs: int)
    ensures IsExpired(deadline, nowMs) <==> (nowMs as real) / 1000.0 > deadline as real
  {
  }

  /** `Math.ceil(a / b)` for a positive divisor. */
  function CeilDiv(a: int, b: nat): (r: int)
    requires b > 0
    ensures b * (r - 1) < a <= b * r
  {
    -((-a) / b)
  }

  /** The label the card shows under the outcomes. */
  datatype TimeLeft = DaysLeft(days: int) | HoursLeft(hours: int) | ResolvedLabel | ExpiredLabel

  /** The largest distance from the epoch, in milliseconds, that a `Date`
      can hold (section 21.4.1.1 of ECMA-262). */
  const MaxDateMs: int := 8_640_000_000_000_000

  /** `new Date(ms)` is a valid date; outside this range `TimeClip` makes
      it an invalid date whose time is NaN. */
  predicate InDateRange(ms: int) {
    -MaxDateMs <= ms <= MaxDateMs
  }

  /** The label chain. For a deadline `new Date` cannot represent,
      `diffTime` and `diffDays` are NaN, so both `> 0` tests fail and the
      chain falls through to "Resolved" or "Expired". */
  function TimeLeftOf(deadline: int, resolved: bool, nowMs: int): TimeLeft {
    var valid := InDateRange(deadline * 1000);
    var diffTime := deadline * 1000 - nowMs;
    var diffDays := CeilDiv(diffTime, DayMs);
    if valid && diffDays > 0 then DaysLeft(diffDays)
    else if valid && diffTime > 0 then HoursLeft(CeilDiv(diffTime, HourMs))
    else if resolved then ResolvedLabel
    else ExpiredLabel
  }

  function Plural(n: int): string {
    if n > 1 then "s" else ""
  }

  function LabelText(t: TimeLeft): string {
    match t
    case DaysLeft(n) => IntString(n) + " day" + Plural(n) + " left"
    case HoursLeft(n) => IntString(n) + " hour" + Plural(n) + " left"
    case ResolvedLabel => "Resolved"
    case ExpiredLabel => "Expired"
  }

  /** A deadline in the future that a `Date` can hold gets the day label,
      with the day count rounded up and at least 1; the hour label never
      appears. */
  lemma FutureDeadlineShowsDays(deadline: int, resolved: bool, nowMs: int)
    ensures deadline * 1000 > nowMs && InDateRange(deadline * 1000) <==> TimeLeftOf(deadline, resolved, nowMs).DaysLeft?
    ensures !TimeLeftOf(deadline, resolved, nowMs).HoursLeft?
    ensures TimeLeftOf(deadline, resolved, nowMs).DaysLeft? ==>
      var n := TimeLeftOf(deadline, resolved, nowMs).days;
      n >= 1 && DayMs * (n - 1) < deadline * 1000 - nowMs <= DayMs * n
  {
  }

  /** "Resolved" appears exactly when the prediction is resolved and its
      deadline is not in the future or is beyond what a `Date` can hold;
      "Expired" in the same cases for an unresolved prediction. */
  lemma EndLabels(deadline: int, resolved: bool, nowMs: int)
    ensures TimeLeftOf(deadline, resolved, nowMs) == ResolvedLabel <==>
      resolved && (deadline * 1000 <= nowMs || !InDateRange(deadline * 1000))
    ensures TimeLeftOf(deadline, resolved, nowMs) == ExpiredLabel <==>
      !resolved && (deadline * 1000 <= nowMs || !InDateRange(deadline * 1000))
  {
    FutureDeadlineShowsDays(deadline, resolved, nowMs);
  }

  /** The card reads the clock twice: `expiryMs` for the expiry flag and,
      just after, `labelMs` for the label. The label says the time is up
      while the card is not yet expired exactly when the deadline falls
      between the two readings, or lies ahead of the expiry reading but
      beyond what a `Date` can hold; with one reading and a representable
      deadline, only at the deadline millisecond itself. */
  lemma LabelFlagMismatch(deadline: int, resolved: bool, expiryMs: int, labelMs: int)
    ensures (!TimeLeftOf(deadline, resolved, labelMs).DaysLeft? && !IsExpired(deadline, expiryMs))
      <==> expiryMs <= deadline * 1000 && (deadline * 1000 <= labelMs || !InDateRange(deadline * 1000))
    ensures expiryMs == labelMs && InDateRange(deadline * 1000) ==>
      ((!TimeLeftOf(deadline, resolved, labelMs).DaysLeft? && !IsExpired(deadline, expiryMs))
       <==> deadline * 1000 == labelMs)
  {
    FutureDeadlineShowsDays(deadline, resolved, labelMs);
  }

  /** A deadline ten trillion seconds ahead (about the year 318857) is beyond
      what a `Date` can hold: the card labels it "Expired" and still offers
      the vote buttons. */
  lemma FarDeadlineLooksExpired(p: Prediction, nowMs: int)
    requires p.deadline == 10_000_000_000_000 && !p.resolved
    requires 0 <= nowMs <= MaxDateMs
    ensures TimeLeftOf(p.deadline, p.resolved, nowMs) == ExpiredLabel
    ensures LabelText(TimeLeftOf(p.deadline, p.resolved, nowMs)) == "Expired"
    ensures FooterOf(p, nowMs).VoteButtons?
  {
    EndLabels(p.deadline, p.resolved, nowMs);
  }

  /** The label reads "N day left" for one day and "N days left" otherwise. */
  lemma DayLabelText(n: nat)
    requires n >= 1
    ensures LabelText(DaysLeft(n)) == DecimalString(n) + (if n == 1 then " day left" else " days left")
  {
  }

  // ---------------------------------------------------------------- footer

  /** Either the two vote buttons (option 0 is "Buy Yes", 1 is "Buy No") or
      the banner; `resolvedStyle` is the banner's green styling. */
  datatype Footer = VoteButtons(buyYes: ContractCall, buyNo: ContractCall) | Banner(text: string, resolvedStyle: bool)

  /** `options[winningOption]`, which renders as "undefined" out of range. */
  function OptionText(options: seq<string>, i: int): string {
    if 0 <= i < |options| then options[i] else "undefined"
  }

  function BannerText(p: Prediction): string {
    if p.resolved then "Resolved: " + OptionText(p.options, p.winningOption) + " won"
    else "Waiting for resolution"
  }

  function FooterOf(p: Prediction, nowMs: int): Footer {
    if !p.resolved && !IsExpired(p.deadline, nowMs) then VoteButtons(VoteCall(p.id, 0), VoteCall(p.id, 1))
    else Banner(BannerText(p), p.resolved)
  }

  /** Exactly one footer: the buttons while the prediction is open, each a
      vote call on this prediction for its option; the banner otherwise,
      naming the winner once resolved. */
  lemma FooterChoice(p: Prediction, nowMs: int)
    ensures FooterOf(p, nowMs).VoteButtons? <==> !p.resolved && !IsExpired(p.deadline, nowMs)
    ensures FooterOf(p, nowMs).Banner? <==> p.resolved || IsExpired(p.deadline, nowMs)
    ensures FooterOf(p, nowMs).VoteButtons? ==>
      && FooterOf(p, nowMs).buyYes.functionName == "vote" && FooterOf(p, nowMs).buyYes.args == [UintArg(p.id), UintArg(0)]
      && FooterOf(p, nowMs).buyNo.functionName == "vote" && FooterOf(p, nowMs).buyNo.args == [UintArg(p.id), UintArg(1)]
    ensures FooterOf(p, nowMs).Banner? ==>
      && FooterOf(p, nowMs).resolvedStyle == p.resolved
      && (p.resolved && 0 <= p.winningOption < |p.options| ==>
            FooterOf(p, nowMs).text == "Resolved: " + p.options[p.winningOption] + " won")
      && (p.resolved && !(0 <= p.winningOption < |p.options|) ==> FooterOf(p, nowMs).text == "Resolved: undefined won")
      && (!p.resolved ==> FooterOf(p, nowMs).text == "Waiting for resolution")
  {
  }

  /** The derived values of one card. */
  datatype CardView = CardView(
    totalVotes: nat,
    yes: Percent,
    no: Percent,
    tone: Tone,
    expired: bool,
    timeLeft: string,
    footer: Footer)

  /** One render: `expiryMs` is the `Date.now()` reading behind the expiry
      flag and the footer, `labelMs` the `new Date()` reading behind the label. */
  function View(p: Prediction, expiryMs: int, labelMs: int): CardView {
    var yes := Percentage(p.votes, 0);
    CardView(TotalVotes(p.votes), yes, Percentage(p.votes, 1), RingTone(yes),
             IsExpired(p.deadline, expiryMs), LabelText(TimeLeftOf(p.deadline, p.resolved, labelMs)),
             FooterOf(p, expiryMs))
  }

  /** A card with no votes shows 0% twice, in red. */
  lemma NoVotesView(p: Prediction, expiryMs: int, labelMs: int)
    requires SumVotes(p.votes) == 0
    ensures var v := View(p, expiryMs, labelMs); v.yes == Value(0) && v.no == Value(0) && v.tone == Red
  {
    TotalIsSum(p.votes);
  }
}

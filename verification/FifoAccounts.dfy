/**
 * First-in first-out accounts: what replaying one symbol's timeline means, from `replay_fifo` in
 * `services/reconstruction/fifo.py`.
 */
module FifoAccounts {
  import opened Basics
  import opened Sorting

  /** What the code divides by and multiplies with. */
  type Ratio = r: real | r > 0.0 witness 1.0

  datatype Side = Buy | Sell

  datatype Entry =
    | Opening(symbol: string, date: int, quantity: real, price: real)
    | Split(symbol: string, date: int, ratioNew: Ratio, ratioOld: Ratio)
    | Trade(symbol: string, date: int, quantity: real, price: real, side: Side)

  /** What is left of an open lot. */
  datatype Slice = Slice(quantity: real, cost: real)

  /** Open lots, oldest first; profit so far; the excess of every oversell. */
  datatype Account = Account(queue: seq<Slice>, realized: real, oversold: seq<real>)

  function Min(a: real, b: real): real { if a <= b then a else b }

  function Max(a: real, b: real): real { if a >= b then a else b }

  function Times(a: real, b: real): real { a * b }

  function Quantity(): Slice -> real { (s: Slice) => s.quantity }

  function Cost(): Slice -> real { (s: Slice) => Times(s.quantity, s.cost) }

  /** Shares held. */
  function Held(queue: seq<Slice>): real { Sum(queue, Quantity()) }

  /** Invested capital. */
  function Invested(queue: seq<Slice>): real { Sum(queue, Cost()) }

  function Factor(e: Entry): Ratio
    requires e.Split?
  {
    Quotient(e.ratioNew, e.ratioOld);
    e.ratioNew / e.ratioOld
  }

  lemma Quotient(a: real, b: real)
    requires a > 0.0 && b > 0.0
    ensures a / b > 0.0
  {
  }

  datatype Match = Match(left: seq<Slice>, realized: real, unmatched: real)

  /** Selling `quantity` at `price`: the oldest slices go first. */
  function Consume(queue: seq<Slice>, quantity: real, price: real): Match
  {
    if quantity <= 0.0 || queue == [] then Match(queue, 0.0, quantity) else
      var head, matched := queue[0], Min(queue[0].quantity, quantity);
      var gain := Times(matched, price - head.cost);
      if head.quantity - matched == 0.0 then
        var rest := Consume(queue[1..], quantity - matched, price);
        rest.(realized := gain + rest.realized)
      else
        Match([Slice(head.quantity - matched, head.cost)] + queue[1..], gain, quantity - matched)
  }

  function Scaled(factor: Ratio): Slice -> Slice
  {
    (s: Slice) => Slice(Times(s.quantity, factor), s.cost / factor)
  }

  function Sold(a: Account, quantity: real, price: real): Account
  {
    var m := Consume(a.queue, quantity, price);
    if m.unmatched > 0.0
    then Account(m.left, a.realized + (m.realized + Times(m.unmatched, price)), a.oversold + [m.unmatched])
    else Account(m.left, a.realized + m.realized, a.oversold)
  }

  function Step(a: Account, e: Entry): Account
  {
    match e
    case Opening(_, _, quantity, price) => a.(queue := a.queue + [Slice(quantity, price)])
    case Split(_, _, _, _) => if Held(a.queue) == 0.0 then a else a.(queue := Map(a.queue, Scaled(Factor(e))))
    case Trade(_, _, quantity, price, side) =>
      if side == Buy then a.(queue := a.queue + [Slice(quantity, price)]) else Sold(a, quantity, price)
  }

  const NOTHING: Account := Account([], 0.0, [])

  function Run(es: seq<Entry>): Account
  {
    if es == [] then NOTHING else Step(Run(es[..|es| - 1]), es[|es| - 1])
  }

  // ------------------------------------------------------------------- profit

  function Spent(): Entry -> real
  {
    (e: Entry) => if e.Opening? || (e.Trade? && e.side == Buy) then Times(e.quantity, e.price) else 0.0
  }

  function Proceeds(): Entry -> real
  {
    (e: Entry) => if e.Trade? && e.side == Sell && e.quantity > 0.0 then Times(e.quantity, e.price) else 0.0
  }

  lemma SumCons<T>(x: T, s: seq<T>, f: T -> real)
    ensures Sum([x] + s, f) == f(x) + Sum(s, f)
  {
    SumConcat([x], s, f);
    assert [x][..0] == [];
  }

  lemma SumHead<T>(s: seq<T>, f: T -> real)
    requires s != []
    ensures Sum(s, f) == f(s[0]) + Sum(s[1..], f)
  {
    assert s == [s[0]] + s[1..];
    SumCons(s[0], s[1..], f);
  }

  /** A part of a lot sold: its gain is its proceeds less its cost. */
  lemma PartSold(lot: real, part: real, wanted: real, price: real, cost: real)
    ensures Times(part, price - cost)
            == Times(wanted, price) - Times(wanted - part, price) - (Times(lot, cost) - Times(lot - part, cost))
    ensures Times(0.0, price) == 0.0 && Times(0.0, cost) == 0.0
  {
  }

  /** The gain and the proceeds of what found no lot make up the proceeds less the cost of what was consumed. */
  ghost predicate Balances(queue: seq<Slice>, quantity: real, price: real, m: Match)
  {
    m.realized + Times(m.unmatched, price) == Times(quantity, price) - (Invested(queue) - Invested(m.left))
  }

  lemma HeadBalances(head: Slice, tail: seq<Slice>, matched: real, quantity: real, price: real)
    ensures var left := [Slice(head.quantity - matched, head.cost)] + tail;
            Balances([head] + tail, quantity, price, Match(left, Times(matched, price - head.cost), quantity - matched))
  {
    PartSold(head.quantity, matched, quantity, price, head.cost);
    SumCons(head, tail, Cost());
    SumCons(Slice(head.quantity - matched, head.cost), tail, Cost());
  }

  lemma PopBalances(head: Slice, tail: seq<Slice>, quantity: real, price: real, rest: Match)
    requires Balances(tail, quantity - head.quantity, price, rest)
    ensures Balances([head] + tail, quantity, price,
                     rest.(realized := Times(head.quantity, price - head.cost) + rest.realized))
  {
    PartSold(head.quantity, head.quantity, quantity, price, head.cost);
    SumCons(head, tail, Cost());
  }

  lemma {:induction false} ConsumeBalances(queue: seq<Slice>, quantity: real, price: real)
    requires quantity >= 0.0
    ensures Balances(queue, quantity, price, Consume(queue, quantity, price))
    decreases |queue|
  {
    if quantity > 0.0 && queue != [] {
      var head, tail, matched := queue[0], queue[1..], Min(queue[0].quantity, quantity);
      assert queue == [head] + tail;
      if head.quantity - matched == 0.0 {
        ConsumeBalances(tail, quantity - matched, price);
        PopBalances(head, tail, quantity, price, Consume(tail, quantity - matched, price));
      } else {
        HeadBalances(head, tail, matched, quantity, price);
      }
    }
  }

  lemma ScaleKeepsCost(s: Slice, factor: Ratio)
    ensures Cost()(Scaled(factor)(s)) == Cost()(s)
  {
    var c := s.cost / factor;
    assert c * factor == s.cost;
    assert (s.quantity * factor) * c == s.quantity * (factor * c);
  }

  /** A split conserves invested capital. */
  lemma {:induction false} SplitConserves(queue: seq<Slice>, factor: Ratio)
    ensures Invested(Map(queue, Scaled(factor))) == Invested(queue)
  {
    if queue != [] {
      var init, last := queue[..|queue| - 1], queue[|queue| - 1];
      SplitConserves(init, factor);
      ScaleKeepsCost(last, factor);
      assert queue == init + [last];
      MapAppend(init, last, Scaled(factor));
      SumAppend(Map(init, Scaled(factor)), Scaled(factor)(last), Cost());
    }
  }

  lemma SoldBalances(a: Account, quantity: real, price: real)
    ensures Sold(a, quantity, price).realized - a.realized
         == (if quantity > 0.0 then Times(quantity, price) else 0.0)
            - (Invested(a.queue) - Invested(Sold(a, quantity, price).queue))
  {
    var m := Consume(a.queue, quantity, price);
    if quantity > 0.0 {
      ConsumeBalances(a.queue, quantity, price);
      UnmatchedIsNonNegative(a.queue, quantity, price);
    }
  }

  lemma {:induction false} UnmatchedIsNonNegative(queue: seq<Slice>, quantity: real, price: real)
    requires quantity > 0.0
    ensures Consume(queue, quantity, price).unmatched >= 0.0
    ensures Consume(queue, quantity, price).unmatched == 0.0
            ==> Times(Consume(queue, quantity, price).unmatched, price) == 0.0
    decreases |queue|
  {
    if queue != [] {
      var matched := Min(queue[0].quantity, quantity);
      if queue[0].quantity - matched == 0.0 && quantity - matched > 0.0 {
        UnmatchedIsNonNegative(queue[1..], quantity - matched, price);
      }
    }
  }

  lemma StepBalances(a: Account, e: Entry)
    ensures Step(a, e).realized - a.realized
            == Proceeds()(e) - Spent()(e) + Invested(Step(a, e).queue) - Invested(a.queue)
  {
    match e
    case Opening(_, _, quantity, price) =>
      SumAppend(a.queue, Slice(quantity, price), Cost());
    case Split(_, _, _, _) =>
      SplitConserves(a.queue, Factor(e));
    case Trade(_, _, quantity, price, side) =>
      if side == Buy {
        SumAppend(a.queue, Slice(quantity, price), Cost());
      } else {
        SoldBalances(a, quantity, price);
      }
  }

  /**
   * For every timeline the realized profit is the proceeds of the sells less the cost of the lots
   * consumed: all that was spent, less what is still invested.
   */
  lemma {:induction false} ProfitIsProceedsLessCost(es: seq<Entry>)
    ensures Run(es).realized == Sum(es, Proceeds()) - (Sum(es, Spent()) - Invested(Run(es).queue))
  {
    if es != [] {
      ProfitIsProceedsLessCost(es[..|es| - 1]);
      StepBalances(Run(es[..|es| - 1]), es[|es| - 1]);
    }
  }

  // ------------------------------------------------------------------- shares

  ghost predicate NonNegative(queue: seq<Slice>)
  {
    forall s | s in queue :: s.quantity >= 0.0
  }

  /** No negative quantity is bought, opened or sold. */
  ghost predicate Sensible(es: seq<Entry>)
  {
    forall e | e in es :: !e.Split? ==> e.quantity >= 0.0
  }

  lemma {:induction false} HeldIsNonNegative(queue: seq<Slice>)
    requires NonNegative(queue)
    ensures Held(queue) >= 0.0
  {
    if queue != [] {
      assert forall s | s in queue[..|queue| - 1] :: s in queue;
      HeldIsNonNegative(queue[..|queue| - 1]);
    }
  }

  lemma {:induction false} ConsumeLeavesNonNegative(queue: seq<Slice>, quantity: real, price: real)
    requires NonNegative(queue)
    ensures NonNegative(Consume(queue, quantity, price).left)
    decreases |queue|
  {
    if quantity > 0.0 && queue != [] {
      var matched := Min(queue[0].quantity, quantity);
      assert forall s | s in queue[1..] :: s in queue;
      if queue[0].quantity - matched == 0.0 {
        ConsumeLeavesNonNegative(queue[1..], quantity - matched, price);
      }
    }
  }

  /** Selling takes what there is; only what exceeds the shares held finds no lot. */
  lemma {:induction false} ConsumeTakes(queue: seq<Slice>, quantity: real, price: real)
    requires NonNegative(queue) && quantity >= 0.0
    ensures var m := Consume(queue, quantity, price);
            && Held(m.left) == Max(0.0, Held(queue) - quantity)
            && m.unmatched == Max(0.0, quantity - Held(queue))
    decreases |queue|
  {
    HeldIsNonNegative(queue);
    if quantity > 0.0 && queue != [] {
      var head, rest := queue[0], queue[1..];
      assert NonNegative(rest);
      SumHead(queue, Quantity());
      HeldIsNonNegative(rest);
      if head.quantity <= quantity {
        ConsumeTakes(rest, quantity - head.quantity, price);
      } else {
        SumCons(Slice(head.quantity - quantity, head.cost), rest, Quantity());
      }
    }
  }

  /**
   * First in, first out: a sell uses up the `n` oldest slices and `part` of the next, and leaves the
   * rest as it was; only when nothing is left can some of it find no lot.
   */
  lemma {:induction false} OldestFirst(queue: seq<Slice>, quantity: real, price: real) returns (n: nat, part: real)
    requires NonNegative(queue) && quantity >= 0.0
    ensures n <= |queue| && part >= 0.0 && (part > 0.0 ==> n < |queue| && part < queue[n].quantity)
    ensures Held(queue[..n]) + part == quantity - Consume(queue, quantity, price).unmatched
    ensures Consume(queue, quantity, price).left ==
            if part == 0.0 then queue[n..] else [Slice(queue[n].quantity - part, queue[n].cost)] + queue[n + 1..]
    ensures Consume(queue, quantity, price).unmatched > 0.0 ==> n == |queue|
    decreases |queue|
  {
    if quantity <= 0.0 || queue == [] {
      n, part := 0, 0.0;
    } else if queue[0].quantity > quantity {
      n, part := 0, quantity;
    } else {
      var tail := queue[1..];
      assert forall s | s in tail :: s in queue;
      assert queue[0] in queue;
      PopOldest(queue, quantity, price);
      n, part := OldestFirst(tail, quantity - queue[0].quantity, price);
      assert tail[n..] == queue[n + 1..];
      if n < |tail| {
        assert tail[n] == queue[n + 1] && tail[n + 1..] == queue[n + 2..];
      }
      HeldOfPrefix(queue, n);
      n := n + 1;
    }
  }

  lemma PopOldest(queue: seq<Slice>, quantity: real, price: real)
    requires queue != [] && quantity > 0.0 && queue[0].quantity <= quantity
    ensures var m, rest := Consume(queue, quantity, price), Consume(queue[1..], quantity - queue[0].quantity, price);
            m.left == rest.left && m.unmatched == rest.unmatched
  {
  }

  lemma HeldOfPrefix(queue: seq<Slice>, n: nat)
    requires n < |queue|
    ensures Held(queue[..n + 1]) == queue[0].quantity + Held(queue[1..][..n])
  {
    assert queue[..n + 1] == [queue[0]] + queue[1..][..n];
    SumCons(queue[0], queue[1..][..n], Quantity());
  }

  lemma {:induction false} SplitScales(queue: seq<Slice>, factor: Ratio)
    ensures Held(Map(queue, Scaled(factor))) == Times(Held(queue), factor)
    ensures NonNegative(queue) ==> NonNegative(Map(queue, Scaled(factor)))
  {
    if queue != [] {
      var init, last := queue[..|queue| - 1], queue[|queue| - 1];
      SplitScales(init, factor);
      assert queue == init + [last];
      MapAppend(init, last, Scaled(factor));
      SumAppend(Map(init, Scaled(factor)), Scaled(factor)(last), Quantity());
      assert (Held(init) + last.quantity) * factor == Held(init) * factor + last.quantity * factor;
      assert last.quantity >= 0.0 ==> last.quantity * factor >= 0.0;
    }
  }

  /** Shares from before a split in the units after it. */
  function Converted(shares: real, e: Entry): (c: real)
    requires e.Split?
    ensures c * e.ratioOld == shares * e.ratioNew
  {
    shares * e.ratioNew / e.ratioOld
  }

  /** Shares acquired less shares sold, in the share units of the last split. */
  function Net(es: seq<Entry>): real
  {
    if es == [] then 0.0 else
      var before, e := Net(es[..|es| - 1]), es[|es| - 1];
      if e.Split? then Converted(before, e)
      else if e.Trade? && e.side == Sell then before - e.quantity
      else before + e.quantity
  }

  /** The deepest shortfall any sell of the timeline has left, in the same units. */
  function Shortfall(es: seq<Entry>): real
  {
    if es == [] then 0.0 else
      var before, e := Shortfall(es[..|es| - 1]), es[|es| - 1];
      if e.Split? then Converted(before, e)
      else if e.Trade? && e.side == Sell then Max(before, -Net(es))
      else before
  }

  lemma ScaledSum(a: real, b: real, c: real, f: real)
    requires a == b + c
    ensures Times(a, f) == Times(b, f) + Times(c, f)
  {
  }

  lemma FactorIsQuotient(x: real, e: Entry)
    requires e.Split?
    ensures Times(x, Factor(e)) == Converted(x, e)
  {
    var q := e.ratioNew / e.ratioOld;
    assert q * e.ratioOld == e.ratioNew;
    assert x * e.ratioNew == (x * q) * e.ratioOld;
  }

  /**
   * The direction of a split: `ratioOld` shares become `ratioNew`, and the cost of a share goes the
   * other way, lot by lot and for all that is held.
   */
  lemma SplitDirection(a: Account, e: Entry)
    requires e.Split? && Held(a.queue) != 0.0
    ensures var after := Step(a, e);
            && after.realized == a.realized && after.oversold == a.oversold && |after.queue| == |a.queue|
            && (forall i | 0 <= i < |a.queue| ::
                  && after.queue[i].quantity * e.ratioOld == a.queue[i].quantity * e.ratioNew
                  && after.queue[i].cost * e.ratioNew == a.queue[i].cost * e.ratioOld)
            && Held(after.queue) * e.ratioOld == Held(a.queue) * e.ratioNew
  {
    var after := Step(a, e);
    SplitScales(a.queue, Factor(e));
    QuotientUndone(Held(a.queue), e);
    forall i | 0 <= i < |a.queue|
      ensures after.queue[i].quantity * e.ratioOld == a.queue[i].quantity * e.ratioNew
      ensures after.queue[i].cost * e.ratioNew == a.queue[i].cost * e.ratioOld {
      QuotientUndone(a.queue[i].quantity, e);
      CostUndone(a.queue[i].cost, e);
    }
  }

  lemma QuotientUndone(x: real, e: Entry)
    requires e.Split?
    ensures Times(x, Factor(e)) * e.ratioOld == x * e.ratioNew
  {
    var q := e.ratioNew / e.ratioOld;
    assert q * e.ratioOld == e.ratioNew;
    assert (x * q) * e.ratioOld == x * (q * e.ratioOld);
  }

  lemma CostUndone(c: real, e: Entry)
    requires e.Split?
    ensures (c / Factor(e)) * e.ratioNew == c * e.ratioOld
  {
    var q := Factor(e);
    var d := c / q;
    assert d * q == c && q * e.ratioOld == e.ratioNew;
    assert d * (q * e.ratioOld) == (d * q) * e.ratioOld;
  }

  lemma ZeroStays(f: real)
    ensures Times(0.0, f) == 0.0
  {
  }

  /** The shares held are the net acquisitions plus the deepest shortfall. */
  lemma {:induction false} HeldIsNetAboveShortfall(es: seq<Entry>)
    requires Sensible(es)
    ensures NonNegative(Run(es).queue)
    ensures Held(Run(es).queue) == Net(es) + Shortfall(es)
  {
    if es != [] {
      var init, e := es[..|es| - 1], es[|es| - 1];
      assert e in es && forall d | d in init :: d in es;
      HeldIsNetAboveShortfall(init);
      HeldStep(Run(init), e, Net(init), Shortfall(init));
    }
  }

  lemma HeldStep(a: Account, e: Entry, net: real, shortfall: real)
    requires NonNegative(a.queue) && Held(a.queue) == net + shortfall
    requires !e.Split? ==> e.quantity >= 0.0
    ensures var after := Step(a, e).queue;
            && NonNegative(after)
            && (e.Split? ==> Held(after) == Converted(net, e) + Converted(shortfall, e))
            && (e.Trade? && e.side == Sell ==> Held(after) == net - e.quantity + Max(shortfall, e.quantity - net))
            && (!e.Split? && !(e.Trade? && e.side == Sell) ==> Held(after) == net + e.quantity + shortfall)
  {
    match e
    case Opening(_, _, quantity, price) =>
      SumAppend(a.queue, Slice(quantity, price), Quantity());
    case Split(_, _, _, _) =>
      SplitScales(a.queue, Factor(e));
      ScaledSum(Held(a.queue), net, shortfall, Factor(e));
      ZeroStays(Factor(e));
      FactorIsQuotient(net, e);
      FactorIsQuotient(shortfall, e);
    case Trade(_, _, quantity, price, side) =>
      if side == Buy {
        SumAppend(a.queue, Slice(quantity, price), Quantity());
      } else {
        ConsumeTakes(a.queue, quantity, price);
        ConsumeLeavesNonNegative(a.queue, quantity, price);
      }
  }

  lemma Append(es: seq<Entry>, e: Entry)
    ensures Run(es + [e]) == Step(Run(es), e)
    ensures e.Trade? && e.side == Sell ==>
              Net(es + [e]) == Net(es) - e.quantity && Shortfall(es + [e]) == Max(Shortfall(es), e.quantity - Net(es))
  {
    assert (es + [e])[..|es|] == es;
  }

  lemma SoldExcess(a: Account, e: Entry)
    requires NonNegative(a.queue) && e.Trade? && e.side == Sell && e.quantity >= 0.0
    ensures var excess := e.quantity - Held(a.queue);
            Step(a, e).oversold == if excess > 0.0 then a.oversold + [excess] else a.oversold
  {
    ConsumeTakes(a.queue, e.quantity, e.price);
  }

  lemma SensiblePart(es: seq<Entry>, e: Entry)
    requires Sensible(es + [e])
    ensures Sensible(es) && (!e.Split? ==> e.quantity >= 0.0)
  {
    assert forall d | d in es :: d in es + [e];
    assert e in es + [e];
  }

  /**
   * A sell oversells exactly when it exceeds the shares held, by exactly that excess, which is how
   * much it deepens the shortfall of sales over split-adjusted acquisitions.
   */
  lemma OversoldIsExcess(es: seq<Entry>, e: Entry)
    requires Sensible(es + [e]) && e.Trade? && e.side == Sell
    ensures var a := Run(es);
            var excess := e.quantity - Held(a.queue);
            && Run(es + [e]).oversold == (if excess > 0.0 then a.oversold + [excess] else a.oversold)
            && Shortfall(es + [e]) - Shortfall(es) == Max(0.0, excess)
  {
    SensiblePart(es, e);
    Append(es, e);
    HeldIsNetAboveShortfall(es);
    SoldExcess(Run(es), e);
  }

  /** Nothing is oversold exactly when at no point more was sold than acquired, splits adjusted. */
  lemma {:induction false} NeverOversoldIff(es: seq<Entry>)
    requires Sensible(es)
    ensures Run(es).oversold == [] <==> forall n | 0 <= n <= |es| :: Net(es[..n]) >= 0.0
    ensures Run(es).oversold == [] ==> Shortfall(es) == 0.0
  {
    if es != [] {
      var init, e := es[..|es| - 1], es[|es| - 1];
      assert es == init + [e];
      assert forall d | d in init :: d in es;
      NeverOversoldIff(init);
      assert es[..|es|] == es;
      assert forall n | 0 <= n <= |init| :: es[..n] == init[..n];
      LastStepOversells(init, e);
    } else {
      assert es[..0] == [];
    }
  }

  lemma LastStepOversells(init: seq<Entry>, e: Entry)
    requires Sensible(init + [e])
    requires Run(init).oversold == [] ==> Shortfall(init) == 0.0
    ensures var es := init + [e];
            && (Run(es).oversold == [] ==> Run(init).oversold == [])
            && (Run(init).oversold == [] && Net(init) >= 0.0 ==>
                  && (Run(es).oversold == [] <==> Net(es) >= 0.0)
                  && (Run(es).oversold == [] ==> Shortfall(es) == 0.0))
  {
    var es := init + [e];
    assert es[..|init|] == init && es[|init|] == e && e in es;
    assert forall d | d in init :: d in es;
    HeldIsNetAboveShortfall(init);
    if e.Trade? && e.side == Sell {
      OversoldIsExcess(init, e);
    } else if e.Split? {
      NonNegativeTimes(Net(init), Factor(e));
      FactorIsQuotient(Net(init), e);
      FactorIsQuotient(Shortfall(init), e);
      ZeroStays(Factor(e));
    }
  }

  lemma NonNegativeTimes(a: real, f: real)
    requires f > 0.0
    ensures a >= 0.0 ==> Times(a, f) >= 0.0
  {
  }

  // ------------------------------------------------------------------ timeline

  function ByDate(): Entry -> real { (e: Entry) => e.date as real }

  /** Opening adjustments before corporate actions before trades, within a day. */
  function Priority(e: Entry): int
  {
    match e
    case Opening(_, _, _, _) => 0
    case Split(_, _, _, _) => 1
    case Trade(_, _, _, _, _) => 2
  }

  /** The three lists one after the other, stably sorted by date. */
  function Timeline(openings: seq<Entry>, actions: seq<Entry>, trades: seq<Entry>): seq<Entry>
  {
    SortBy(openings + actions + trades, ByDate())
  }

  function Of(symbol: string): Entry -> bool { (e: Entry) => e.symbol == symbol }

  function OnDay(date: int): Entry -> bool { (e: Entry) => e.date == date }

  ghost predicate Prioritized(es: seq<Entry>)
  {
    forall i, j | 0 <= i < j < |es| :: Priority(es[i]) <= Priority(es[j])
  }

  lemma {:induction false} FilterPrioritized(es: seq<Entry>, p: Entry -> bool)
    requires Prioritized(es)
    ensures Prioritized(Filter(es, p))
  {
    if es != [] {
      var init, last := es[..|es| - 1], es[|es| - 1];
      FilterPrioritized(init, p);
      FilterMembers(init, p);
      var kept := Filter(init, p);
      forall i | 0 <= i < |kept| ensures Priority(kept[i]) <= Priority(last) {
        assert kept[i] in init;
      }
    }
  }

  lemma ListsPrioritized(openings: seq<Entry>, actions: seq<Entry>, trades: seq<Entry>)
    requires forall e | e in openings :: e.Opening?
    requires forall e | e in actions :: e.Split?
    requires forall e | e in trades :: e.Trade?
    ensures Prioritized(openings + actions + trades)
  {
    var listed := openings + actions + trades;
    forall i | 0 <= i < |listed|
      ensures Priority(listed[i]) == if i < |openings| then 0 else if i < |openings| + |actions| then 1 else 2 {
      if i < |openings| {
        assert listed[i] == openings[i] && openings[i] in openings;
      } else if i < |openings| + |actions| {
        assert listed[i] == actions[i - |openings|] && actions[i - |openings|] in actions;
      } else {
        var j := i - |openings| - |actions|;
        assert listed[i] == trades[j] && trades[j] in trades;
      }
    }
  }

  /** The timeline is in order of date, and on each day in order of priority. */
  lemma TimelineOrder(openings: seq<Entry>, actions: seq<Entry>, trades: seq<Entry>)
    requires forall e | e in openings :: e.Opening?
    requires forall e | e in actions :: e.Split?
    requires forall e | e in trades :: e.Trade?
    ensures var all := Timeline(openings, actions, trades);
            && multiset(all) == multiset(openings + actions + trades)
            && SortedBy(all, ByDate())
            && forall day :: Prioritized(Filter(all, OnDay(day)))
  {
    var listed := openings + actions + trades;
    SortSorts(listed, ByDate());
    ListsPrioritized(openings, actions, trades);
    forall day ensures Prioritized(Filter(Timeline(openings, actions, trades), OnDay(day))) {
      DayKeepsOrder(listed, day);
      FilterPrioritized(listed, OnDay(day));
    }
  }

  lemma DayKeepsOrder(listed: seq<Entry>, day: int)
    ensures Filter(SortBy(listed, ByDate()), OnDay(day)) == Filter(listed, OnDay(day))
  {
    var same := Filter(listed, OnDay(day));
    FilterSort(listed, ByDate(), OnDay(day));
    FilterMembers(listed, OnDay(day));
    assert SortedBy(same, ByDate()) by {
      assert forall i | 0 <= i < |same| :: same[i] in same;
    }
    SortIsIdentityOnSorted(same, ByDate());
  }

  /** A symbol's account depends on the entries of that symbol alone. */
  lemma SymbolsAreIndependent(listed: seq<Entry>, other: seq<Entry>, symbol: string)
    requires Filter(listed, Of(symbol)) == Filter(other, Of(symbol))
    ensures Run(Filter(SortBy(listed, ByDate()), Of(symbol))) == Run(Filter(SortBy(other, ByDate()), Of(symbol)))
  {
    FilterSort(listed, ByDate(), Of(symbol));
    FilterSort(other, ByDate(), Of(symbol));
  }
}

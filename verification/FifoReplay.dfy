/** `replay_fifo` of `services/reconstruction/fifo.py`: lots shared by one list of all and a queue per symbol. */
module FifoReplay {
  import opened Basics
  import opened Sorting
  import opened FifoAccounts

  datatype Origin = FromTrade | OversellSynthetic | OpeningAdjustment

  datatype Lot = Lot(
    symbol: string, openedOn: int, quantityOpened: real, remaining: real, cost: real,
    closed: Option<int>, realized: real, origin: Origin)

  datatype Warning =
    | OpeningApplied(symbol: string, date: int, quantity: real)
    | OversellSuspected(symbol: string, date: int, excess: real)

  /** Audit record of a split: shares and cost per share, before and after. */
  datatype Adjustment = Adjustment(
    symbol: string, date: int, quantity: real, newQuantity: real, costPerShare: real, newCostPerShare: real)

  // ------------------------------------------------------------------ accounts

  function SliceOf(lots: seq<Lot>): nat -> Slice
  {
    (i: nat) => if i < |lots| then Slice(lots[i].remaining, lots[i].cost) else Slice(0.0, 0.0)
  }

  /** The open lots of a symbol are kept as positions in the list of all lots. */
  function QueueOf(lots: seq<Lot>, queue: seq<nat>): seq<Slice>
  {
    Map(queue, SliceOf(lots))
  }

  function OpenOf(open: map<string, seq<nat>>, symbol: string): seq<nat>
  {
    if symbol in open then open[symbol] else []
  }

  function RealizedBy(realized: map<string, real>, symbol: string): real
  {
    if symbol in realized then realized[symbol] else 0.0
  }

  function OversellOf(symbol: string): Warning -> bool
  {
    (w: Warning) => w.OversellSuspected? && w.symbol == symbol
  }

  function ExcessOf(): Warning -> real { (w: Warning) => if w.OversellSuspected? then w.excess else 0.0 }

  function ExcessesOf(warnings: seq<Warning>, symbol: string): seq<real>
  {
    Map(Filter(warnings, OversellOf(symbol)), ExcessOf())
  }

  function RealizedFor(symbol: string): Lot -> real { (l: Lot) => if l.symbol == symbol then l.realized else 0.0 }

  /** Profit recorded on the lots of a symbol. */
  function RealizedOn(lots: seq<Lot>, symbol: string): real
  {
    Sum(lots, RealizedFor(symbol))
  }

  /** The positions of a symbol's open lots are distinct and hold lots of that symbol. */
  ghost predicate Lists(lots: seq<Lot>, queue: seq<nat>, symbol: string)
  {
    && Distinct(queue)
    && forall i | i in queue :: i < |lots| && lots[i].symbol == symbol
  }

  ghost predicate AllListed(lots: seq<Lot>, open: map<string, seq<nat>>)
  {
    forall s: string :: Lists(lots, OpenOf(open, s), s)
  }

  /** What each symbol has realized is what its lots have. */
  ghost predicate Booked(lots: seq<Lot>, realized: map<string, real>)
  {
    forall s: string :: RealizedOn(lots, s) == RealizedBy(realized, s)
  }

  // ------------------------------------------------------------- list updates

  lemma {:induction false} SumUpdate<T>(s: seq<T>, i: nat, v: T, f: T -> real)
    requires i < |s|
    ensures Sum(s[i := v], f) == Sum(s, f) - f(s[i]) + f(v)
  {
    var init, last := s[..|s| - 1], s[|s| - 1];
    if i == |init| {
      assert s[i := v][..|s| - 1] == init;
    } else {
      SumUpdate(init, i, v, f);
      assert s[i := v][..|s| - 1] == init[i := v];
    }
  }

  /** Lots outside a queue do not show in it. */
  lemma QueueUntouched(lots: seq<Lot>, after: seq<Lot>, queue: seq<nat>)
    requires |lots| <= |after| && forall i | i in queue :: i < |lots| && after[i] == lots[i]
    ensures QueueOf(after, queue) == QueueOf(lots, queue)
  {
    forall k | 0 <= k < |queue| ensures SliceOf(after)(queue[k]) == SliceOf(lots)(queue[k]) {
      assert queue[k] in queue;
    }
  }

  /** Changing lots of one symbol only, in place, or adding lots, keeps every other symbol's queue. */
  lemma OthersUntouched(lots: seq<Lot>, after: seq<Lot>, open: map<string, seq<nat>>, symbol: string, s: string)
    requires AllListed(lots, open) && s != symbol && |lots| <= |after|
    requires forall i | 0 <= i < |lots| ::
               after[i].symbol == lots[i].symbol && (lots[i].symbol != symbol ==> after[i] == lots[i])
    ensures QueueOf(after, OpenOf(open, s)) == QueueOf(lots, OpenOf(open, s)) && Lists(after, OpenOf(open, s), s)
  {
    assert Lists(lots, OpenOf(open, s), s);
    QueueUntouched(lots, after, OpenOf(open, s));
  }

  // ------------------------------------------------------------------ selling

  /** One pass of the loop, on the lot at the head of the queue. */
  function Taken(lot: Lot, matched: real, price: real, date: int): Lot
  {
    var left := lot.remaining - matched;
    lot.(realized := lot.realized + Times(matched, price - lot.cost), remaining := left,
         closed := if left == 0.0 then Some(date) else lot.closed)
  }

  lemma QueueHead(lots: seq<Lot>, queue: seq<nat>)
    requires queue != []
    ensures QueueOf(lots, queue) == [SliceOf(lots)(queue[0])] + QueueOf(lots, queue[1..])
  {
  }

  lemma TailLists(lots: seq<Lot>, queue: seq<nat>, symbol: string)
    requires queue != [] && Lists(lots, queue, symbol)
    ensures Lists(lots, queue[1..], symbol) && queue[0] !in queue[1..] && queue[0] < |lots|
            && lots[queue[0]].symbol == symbol
  {
    var tail := queue[1..];
    assert queue[0] in queue;
    forall k | 0 <= k < |tail| ensures tail[k] == queue[k + 1] && tail[k] in queue && tail[k] != queue[0] {
      assert queue[k + 1] in queue;
    }
    forall k, m | 0 <= k < m < |tail| ensures tail[k] != tail[m] {
      assert queue[k + 1] != queue[m + 1];
    }
  }

  lemma UpdateKeepsLists(lots: seq<Lot>, queue: seq<nat>, symbol: string, i: nat, lot: Lot)
    requires Lists(lots, queue, symbol) && i < |lots| && lot.symbol == lots[i].symbol
    ensures Lists(lots[i := lot], queue, symbol)
  {
  }

  lemma TakeHead(lots: seq<Lot>, queue: seq<nat>, matched: real, price: real, date: int, symbol: string)
    requires queue != [] && Lists(lots, queue, symbol)
    ensures queue[0] < |lots|
    ensures var after := lots[queue[0] := Taken(lots[queue[0]], matched, price, date)];
            && Lists(after, queue, symbol) && Lists(after, queue[1..], symbol)
            && QueueOf(after, queue[1..]) == QueueOf(lots, queue[1..])
            && QueueOf(after, queue)
               == [Slice(lots[queue[0]].remaining - matched, lots[queue[0]].cost)] + QueueOf(lots, queue[1..])
            && RealizedOn(after, symbol) == RealizedOn(lots, symbol) + Times(matched, price - lots[queue[0]].cost)
  {
    TailLists(lots, queue, symbol);
    var i := queue[0];
    var after := lots[i := Taken(lots[i], matched, price, date)];
    SumUpdate(lots, i, after[i], RealizedFor(symbol));
    UpdateKeepsLists(lots, queue, symbol, i, after[i]);
    UpdateKeepsLists(lots, queue[1..], symbol, i, after[i]);
    QueueUntouched(lots, after, queue[1..]);
    QueueHead(after, queue);
  }

  /** What is still to be sold, and what was gained so far. */
  ghost predicate Continues(m: Match, rest: Match, gained: real)
  {
    m == rest.(realized := gained + rest.realized)
  }

  lemma ConsumeHead(head: Slice, tail: seq<Slice>, quantity: real, price: real)
    requires quantity > 0.0
    ensures var matched := Min(head.quantity, quantity);
            var left := if head.quantity - matched == 0.0 then tail
              else [Slice(head.quantity - matched, head.cost)] + tail;
            Continues(Consume([head] + tail, quantity, price), Consume(left, quantity - matched, price),
                      Times(matched, price - head.cost))
  {
    assert ([head] + tail)[1..] == tail;
  }

  lemma ContinuesOn(m: Match, middle: Match, rest: Match, gained: real, more: real)
    requires Continues(m, middle, gained) && Continues(middle, rest, more)
    ensures Continues(m, rest, gained + more)
  {
  }

  /** When, how and at what cost the lot was opened stays. */
  ghost predicate KeepsTerms(before: Lot, after: Lot)
  {
    && after.openedOn == before.openedOn && after.quantityOpened == before.quantityOpened
    && after.cost == before.cost && after.origin == before.origin
  }

  /** Lots that left the queue are used up and closed on the day; no other lot is closed. */
  ghost predicate Closes(lots: seq<Lot>, after: seq<Lot>, queue: seq<nat>, left: seq<nat>, date: int)
  {
    && |after| == |lots|
    && (forall i | i in left :: i in queue)
    && forall i | 0 <= i < |lots| ::
         if i in queue && i !in left then after[i].remaining == 0.0 && after[i].closed == Some(date)
         else after[i].closed == lots[i].closed
  }

  lemma ClosesOn(lots: seq<Lot>, middle: seq<Lot>, after: seq<Lot>, queue: seq<nat>, between: seq<nat>,
                 left: seq<nat>, date: int)
    requires Closes(lots, middle, queue, between, date) && Closes(middle, after, between, left, date)
    requires forall i | 0 <= i < |middle| && i !in between :: after[i] == middle[i]
    ensures Closes(lots, after, queue, left, date)
  {
  }

  /** Only lots of the symbol change, and none changes its symbol. */
  ghost predicate Changes(lots: seq<Lot>, after: seq<Lot>, symbol: string)
  {
    && |after| == |lots|
    && (forall i | 0 <= i < |lots| :: KeepsTerms(lots[i], after[i]))
    && forall i | 0 <= i < |lots| ::
         after[i].symbol == lots[i].symbol && (lots[i].symbol != symbol ==> after[i] == lots[i])
  }

  /** The body of the loop of a sell. */
  method SellFromHead(lots: seq<Lot>, queue: seq<nat>, symbol: string, quantity: real, price: real, date: int)
    returns (after: seq<Lot>, left: seq<nat>, gain: real, unmatched: real)
    requires Lists(lots, queue, symbol) && queue != [] && quantity > 0.0
    ensures Lists(after, left, symbol) && Changes(lots, after, symbol)
    ensures RealizedOn(after, symbol) == RealizedOn(lots, symbol) + gain
    ensures Continues(Consume(QueueOf(lots, queue), quantity, price), Consume(QueueOf(after, left), unmatched, price),
            gain)
    ensures |left| < |queue| || (left == queue && unmatched <= 0.0)
    ensures Closes(lots, after, queue, left, date)
    ensures forall i | 0 <= i < |lots| && i !in queue :: after[i] == lots[i]
  {
    TailLists(lots, queue, symbol);
    var lot := lots[queue[0]];
    var matched := Min(lot.remaining, quantity);
    TakeHead(lots, queue, matched, price, date, symbol);
    SaleContinues(lots, queue, symbol, quantity, price, date);
    after := lots[queue[0] := Taken(lot, matched, price, date)];
    gain, unmatched := Times(matched, price - lot.cost), quantity - matched;
    left := if lot.remaining - matched == 0.0 then queue[1..] else queue;
  }

  lemma SaleContinues(lots: seq<Lot>, queue: seq<nat>, symbol: string, quantity: real, price: real, date: int)
    requires Lists(lots, queue, symbol) && queue != [] && quantity > 0.0
    ensures queue[0] < |lots|
    ensures var lot := lots[queue[0]];
            var matched := Min(lot.remaining, quantity);
            var after := lots[queue[0] := Taken(lot, matched, price, date)];
            var left := if lot.remaining - matched == 0.0 then queue[1..] else queue;
            Continues(Consume(QueueOf(lots, queue), quantity, price),
                      Consume(QueueOf(after, left), quantity - matched, price), Times(matched, price - lot.cost))
  {
    TailLists(lots, queue, symbol);
    var lot := lots[queue[0]];
    QueueHead(lots, queue);
    TakeHead(lots, queue, Min(lot.remaining, quantity), price, date, symbol);
    ConsumeHead(Slice(lot.remaining, lot.cost), QueueOf(lots, queue[1..]), quantity, price);
  }

  /** The loop of a sell: lots are consumed in place, a lot used up leaves the queue. */
  method SellLots(lots: seq<Lot>, queue: seq<nat>, symbol: string, quantity: real, price: real, date: int)
    returns (after: seq<Lot>, left: seq<nat>, gained: real, unmatched: real)
    requires Lists(lots, queue, symbol)
    ensures Match(QueueOf(after, left), gained, unmatched) == Consume(QueueOf(lots, queue), quantity, price)
    ensures Lists(after, left, symbol) && Changes(lots, after, symbol)
    ensures Closes(lots, after, queue, left, date)
    ensures RealizedOn(after, symbol) == RealizedOn(lots, symbol) + gained
  {
    after, left, gained, unmatched := lots, queue, 0.0, quantity;
    while unmatched > 0.0 && left != []
      invariant Lists(after, left, symbol) && Changes(lots, after, symbol)
      invariant Closes(lots, after, queue, left, date)
      invariant RealizedOn(after, symbol) == RealizedOn(lots, symbol) + gained
      invariant Continues(Consume(QueueOf(lots, queue), quantity, price),
                Consume(QueueOf(after, left), unmatched, price), gained)
      decreases |left|, unmatched > 0.0
    {
      ghost var middle := Consume(QueueOf(after, left), unmatched, price);
      ghost var lotsBefore, queueBefore := after, left;
      var gain;
      after, left, gain, unmatched := SellFromHead(after, left, symbol, unmatched, price, date);
      ContinuesOn(Consume(QueueOf(lots, queue), quantity, price), middle,
                  Consume(QueueOf(after, left), unmatched, price), gained, gain);
      ClosesOn(lots, lotsBefore, after, queue, queueBefore, left, date);
      gained := gained + gain;
    }
  }

  // ---------------------------------------------------------------- replaying

  class FifoReplayer {
    var lots: seq<Lot>
    var open: map<string, seq<nat>>
    var realized: map<string, real>
    var warnings: seq<Warning>
    var adjustments: seq<Adjustment>

    ghost predicate Valid()
      reads this
    {
      AllListed(lots, open) && Booked(lots, realized)
    }

    ghost function AccountOf(symbol: string): Account
      reads this
    {
      Account(QueueOf(lots, OpenOf(open, symbol)), RealizedBy(realized, symbol), ExcessesOf(warnings, symbol))
    }

    constructor ()
      ensures Valid() && adjustments == [] && forall s :: AccountOf(s) == NOTHING
    {
      lots, open, realized, warnings, adjustments := [], map[], map[], [], [];
    }

    method AddLot(lot: Lot)
      requires Valid() && lot.realized == 0.0
      modifies this`lots, this`open
      ensures Valid()
      ensures lots == old(lots) + [lot]
      ensures forall s :: AccountOf(s) ==
                if s == lot.symbol
                  then old(AccountOf(s)).(queue := old(AccountOf(s)).queue + [Slice(lot.remaining, lot.cost)])
                else old(AccountOf(s))
    {
      LotAdded(lots, open, realized, lot);
      open := open[lot.symbol := OpenOf(open, lot.symbol) + [|lots|]];
      lots := lots + [lot];
    }

    method ApplyOpening(e: Entry)
      requires Valid() && e.Opening?
      modifies this
      ensures Valid()
      ensures lots == old(lots)
                      + [Lot(e.symbol, e.date, e.quantity, e.quantity, e.price, None, 0.0, OpeningAdjustment)]
      ensures warnings == old(warnings) + [OpeningApplied(e.symbol, e.date, e.quantity)]
      ensures forall s :: AccountOf(s) == if s == e.symbol then Step(old(AccountOf(s)), e) else old(AccountOf(s))
    {
      AddLot(Lot(e.symbol, e.date, e.quantity, e.quantity, e.price, None, 0.0, OpeningAdjustment));
      var warning := OpeningApplied(e.symbol, e.date, e.quantity);
      forall s ensures ExcessesOf(warnings + [warning], s) == ExcessesOf(warnings, s) {
        FilterAppend(warnings, warning, OversellOf(s));
      }
      warnings := warnings + [warning];
    }

    /** Every open lot of the symbol is scaled in place; the audit record keeps the invested capital. */
    method ApplyCorporateAction(e: Entry)
      requires Valid() && e.Split?
      modifies this
      ensures Valid()
      ensures forall s :: AccountOf(s) == if s == e.symbol then Step(old(AccountOf(s)), e) else old(AccountOf(s))
      ensures Held(AccountOf(e.symbol).queue) * e.ratioOld == Held(old(AccountOf(e.symbol)).queue) * e.ratioNew
      ensures adjustments == if Held(old(AccountOf(e.symbol)).queue) == 0.0 then old(adjustments)
                             else old(adjustments) + [Audit(e, old(AccountOf(e.symbol)).queue)]
    {
      var queue := OpenOf(open, e.symbol);
      var slices := QueueOf(lots, queue);
      if Held(slices) == 0.0 {
        return;
      }
      SplitDirection(AccountOf(e.symbol), e);
      assert Lists(lots, queue, e.symbol);
      var scaled := ScaleLots(lots, queue, e.symbol, Factor(e));
      LotsScaled(lots, scaled, open, realized, e.symbol, queue, Factor(e));
      lots := scaled;
      adjustments := adjustments + [Audit(e, slices)];
    }

    method ApplyTrade(e: Entry)
      requires Valid() && e.Trade?
      modifies this
      ensures Valid()
      ensures forall s :: AccountOf(s) == if s == e.symbol then Step(old(AccountOf(s)), e) else old(AccountOf(s))
      ensures e.side == Buy ==>
                lots == old(lots) + [Lot(e.symbol, e.date, e.quantity, e.quantity, e.price, None, 0.0, FromTrade)]
    {
      if e.side == Buy {
        AddLot(Lot(e.symbol, e.date, e.quantity, e.quantity, e.price, None, 0.0, FromTrade));
        return;
      }
      ApplySell(e);
    }

    method ApplySell(e: Entry)
      requires Valid() && e.Trade? && e.side == FifoAccounts.Sell
      modifies this
      ensures Valid()
      ensures forall s :: AccountOf(s) == if s == e.symbol then Step(old(AccountOf(s)), e) else old(AccountOf(s))
    {
      ghost var account := AccountOf(e.symbol);
      var soFar := RealizedBy(realized, e.symbol);
      var gained, unmatched := TakeLots(e);
      gained := AbsorbExcess(e, unmatched, gained);
      BookGain(e.symbol, soFar + gained);
      SellStep(account, e);
      assert AccountOf(e.symbol) == Step(account, e);
    }

    /** What found no lot is sold out of a synthetic one. */
    method AbsorbExcess(e: Entry, excess: real, gained: real) returns (total: real)
      requires AllListed(lots, open) && e.Trade?
      modifies this`lots, this`warnings
      ensures AllListed(lots, open)
      ensures total == if excess > 0.0 then gained + Times(excess, e.price) else gained
      ensures forall s :: QueueOf(lots, OpenOf(open, s)) == old(QueueOf(lots, OpenOf(open, s)))
      ensures forall s ::
                RealizedOn(lots, s) == old(RealizedOn(lots, s)) + (if s == e.symbol then total - gained else 0.0)
      ensures forall s :: ExcessesOf(warnings, s) ==
                if s == e.symbol && excess > 0.0 then old(ExcessesOf(warnings, s)) + [excess]
                else old(ExcessesOf(warnings, s))
    {
      total := gained;
      if excess > 0.0 {
        total := gained + Times(excess, e.price);
        Absorb(e, excess);
      }
    }

    /** Each symbol's profit is again what its lots have. */
    method BookGain(symbol: string, profit: real)
      requires AllListed(lots, open)
      requires forall s :: RealizedOn(lots, s) == if s == symbol then profit else RealizedBy(realized, s)
      modifies this`realized
      ensures Valid()
      ensures forall s :: RealizedBy(realized, s) == if s == symbol then profit else old(RealizedBy(realized, s))
    {
      realized := realized[symbol := profit];
    }

    /** Takes the lots a sell consumes out of the symbol's queue; the gain is booked by the caller. */
    method TakeLots(e: Entry) returns (gained: real, unmatched: real)
      requires Valid() && e.Trade?
      modifies this`lots, this`open
      ensures AllListed(lots, open)
      ensures Match(QueueOf(lots, OpenOf(open, e.symbol)), gained, unmatched)
              == Consume(old(AccountOf(e.symbol)).queue, e.quantity, e.price)
      ensures forall s :: s != e.symbol ==> QueueOf(lots, OpenOf(open, s)) == old(AccountOf(s)).queue
      ensures forall s :: RealizedOn(lots, s) == RealizedBy(realized, s) + (if s == e.symbol then gained else 0.0)
    {
      var queue := OpenOf(open, e.symbol);
      assert Lists(lots, queue, e.symbol);
      var after, left;
      after, left, gained, unmatched := SellLots(lots, queue, e.symbol, e.quantity, e.price, e.date);
      LotsSold(lots, after, open, realized, e.symbol, left, gained);
      lots, open := after, open[e.symbol := left];
    }

    /** The excess of an oversell becomes a closed lot without cost, and a warning. */
    method Absorb(e: Entry, excess: real)
      requires AllListed(lots, open) && e.Trade?
      modifies this`lots, this`warnings
      ensures lots == old(lots) + [Lot(e.symbol, e.date, excess, 0.0, 0.0, Some(e.date), Times(excess, e.price),
                                       OversellSynthetic)]
      ensures warnings == old(warnings) + [OversellSuspected(e.symbol, e.date, excess)]
      ensures AllListed(lots, open)
      ensures forall s :: QueueOf(lots, OpenOf(open, s)) == old(QueueOf(lots, OpenOf(open, s)))
      ensures forall s ::
              RealizedOn(lots, s) == old(RealizedOn(lots, s)) + (if s == e.symbol then Times(excess, e.price) else 0.0)
      ensures forall s :: ExcessesOf(warnings, s) ==
                if s == e.symbol then old(ExcessesOf(warnings, s)) + [excess] else old(ExcessesOf(warnings, s))
    {
      var warning := OversellSuspected(e.symbol, e.date, excess);
      var synthetic := Lot(e.symbol, e.date, excess, 0.0, 0.0, Some(e.date), Times(excess, e.price), OversellSynthetic);
      ClosedLotAdded(lots, open, synthetic);
      WarningAdded(warnings, warning);
      lots, warnings := lots + [synthetic], warnings + [warning];
    }

    method Apply(e: Entry)
      requires Valid()
      modifies this
      ensures Valid()
      ensures forall s :: AccountOf(s) == if s == e.symbol then Step(old(AccountOf(s)), e) else old(AccountOf(s))
    {
      match e
      case Opening(_, _, _, _) => ApplyOpening(e);
      case Split(_, _, _, _) => ApplyCorporateAction(e);
      case Trade(_, _, _, _, _) => ApplyTrade(e);
    }

    /** `replay_fifo` on a fresh replayer. */
    method Replay(openings: seq<Entry>, actions: seq<Entry>, trades: seq<Entry>)
      requires Valid() && forall s :: AccountOf(s) == NOTHING
      modifies this
      ensures Valid()
      ensures forall s :: AccountOf(s) == Run(Filter(Timeline(openings, actions, trades), Of(s)))
    {
      var timeline := Timeline(openings, actions, trades);
      for n := 0 to |timeline|
        invariant Valid()
        invariant forall s :: AccountOf(s) == Run(Filter(timeline[..n], Of(s)))
      {
        forall s ensures Run(Filter(timeline[..n + 1], Of(s))) ==
                         if s == timeline[n].symbol then Step(Run(Filter(timeline[..n], Of(s))), timeline[n])
                         else Run(Filter(timeline[..n], Of(s))) {
          RunOfNext(timeline, n, s);
        }
        Apply(timeline[n]);
      }
      assert timeline[..|timeline|] == timeline;
    }
  }

  lemma SellStep(a: Account, e: Entry)
    requires e.Trade? && e.side == FifoAccounts.Sell
    ensures var m := Consume(a.queue, e.quantity, e.price);
            Step(a, e) == if m.unmatched > 0.0
              then Account(m.left, a.realized + (m.realized + Times(m.unmatched, e.price)), a.oversold + [m.unmatched])
              else Account(m.left, a.realized + m.realized, a.oversold)
  {
  }

  lemma RunOfNext(timeline: seq<Entry>, n: nat, s: string)
    requires n < |timeline|
    ensures Run(Filter(timeline[..n + 1], Of(s))) ==
            if s == timeline[n].symbol then Step(Run(Filter(timeline[..n], Of(s))), timeline[n])
            else Run(Filter(timeline[..n], Of(s)))
  {
    assert timeline[..n + 1] == timeline[..n] + [timeline[n]];
    FilterAppend(timeline[..n], timeline[n], Of(s));
    Append(Filter(timeline[..n], Of(s)), timeline[n]);
  }

  // --------------------------------------------------------- keeping the books

  lemma LotAdded(lots: seq<Lot>, open: map<string, seq<nat>>, realized: map<string, real>, lot: Lot)
    requires AllListed(lots, open) && Booked(lots, realized) && lot.realized == 0.0
    ensures var after, listed := lots + [lot], open[lot.symbol := OpenOf(open, lot.symbol) + [|lots|]];
            && AllListed(after, listed) && Booked(after, realized)
            && forall s :: QueueOf(after, OpenOf(listed, s)) ==
                 if s == lot.symbol then QueueOf(lots, OpenOf(open, s)) + [Slice(lot.remaining, lot.cost)]
                 else QueueOf(lots, OpenOf(open, s))
  {
    var after, listed := lots + [lot], open[lot.symbol := OpenOf(open, lot.symbol) + [|lots|]];
    forall s ensures RealizedOn(after, s) == RealizedBy(realized, s) {
      SumAppend(lots, lot, RealizedFor(s));
      assert RealizedOn(lots, s) == RealizedBy(realized, s);
    }
    forall s ensures Lists(after, OpenOf(listed, s), s)
             ensures QueueOf(after, OpenOf(listed, s)) ==
                     if s == lot.symbol then QueueOf(lots, OpenOf(open, s)) + [Slice(lot.remaining, lot.cost)]
                     else QueueOf(lots, OpenOf(open, s)) {
      assert Lists(lots, OpenOf(open, s), s);
      QueueUntouched(lots, after, OpenOf(open, s));
      if s == lot.symbol {
        MapAppend<nat, Slice>(OpenOf(open, s), |lots|, SliceOf(after));
      }
    }
  }

  /** A closed lot joins the list of all and no queue. */
  lemma ClosedLotAdded(lots: seq<Lot>, open: map<string, seq<nat>>, lot: Lot)
    requires AllListed(lots, open)
    ensures AllListed(lots + [lot], open)
    ensures forall s :: QueueOf(lots + [lot], OpenOf(open, s)) == QueueOf(lots, OpenOf(open, s))
    ensures forall s :: RealizedOn(lots + [lot], s) == RealizedOn(lots, s) + RealizedFor(s)(lot)
  {
    forall s ensures Lists(lots + [lot], OpenOf(open, s), s)
             ensures QueueOf(lots + [lot], OpenOf(open, s)) == QueueOf(lots, OpenOf(open, s))
             ensures RealizedOn(lots + [lot], s) == RealizedOn(lots, s) + RealizedFor(s)(lot) {
      assert Lists(lots, OpenOf(open, s), s);
      QueueUntouched(lots, lots + [lot], OpenOf(open, s));
      SumAppend(lots, lot, RealizedFor(s));
    }
  }

  lemma WarningAdded(warnings: seq<Warning>, w: Warning)
    requires w.OversellSuspected?
    ensures forall s :: ExcessesOf(warnings + [w], s) ==
              if s == w.symbol then ExcessesOf(warnings, s) + [w.excess] else ExcessesOf(warnings, s)
  {
    forall s ensures ExcessesOf(warnings + [w], s) ==
                     if s == w.symbol then ExcessesOf(warnings, s) + [w.excess] else ExcessesOf(warnings, s) {
      FilterAppend(warnings, w, OversellOf(s));
      MapAppend(Filter(warnings, OversellOf(s)), w, ExcessOf());
    }
  }

  /** Selling changes the queue of its symbol alone, and books its gain there. */
  lemma LotsSold(lots: seq<Lot>, after: seq<Lot>, open: map<string, seq<nat>>, realized: map<string, real>,
                 symbol: string, left: seq<nat>, gained: real)
    requires AllListed(lots, open) && Booked(lots, realized) && Lists(after, left, symbol)
             && Changes(lots, after, symbol)
    requires RealizedOn(after, symbol) == RealizedOn(lots, symbol) + gained
    ensures AllListed(after, open[symbol := left])
    ensures forall s :: s != symbol ==>
              QueueOf(after, OpenOf(open[symbol := left], s)) == QueueOf(lots, OpenOf(open, s))
    ensures forall s :: RealizedOn(after, s) == RealizedBy(realized, s) + (if s == symbol then gained else 0.0)
  {
    var queues := open[symbol := left];
    forall s ensures Lists(after, OpenOf(queues, s), s) {
      if s != symbol {
        OthersUntouched(lots, after, open, symbol, s);
        assert OpenOf(queues, s) == OpenOf(open, s);
      }
    }
    forall s ensures s != symbol ==> QueueOf(after, OpenOf(queues, s)) == QueueOf(lots, OpenOf(open, s)) {
      if s != symbol {
        OthersUntouched(lots, after, open, symbol, s);
      }
    }
    forall s ensures RealizedOn(after, s) == RealizedBy(realized, s) + (if s == symbol then gained else 0.0) {
      assert RealizedOn(lots, s) == RealizedBy(realized, s);
      if s != symbol {
        SameRealized(lots, after, symbol, s);
      }
    }
  }

  lemma {:induction false} SameRealized(lots: seq<Lot>, after: seq<Lot>, symbol: string, s: string)
    requires s != symbol && Changes(lots, after, symbol)
    ensures RealizedOn(after, s) == RealizedOn(lots, s)
  {
    if lots != [] {
      SameRealized(lots[..|lots| - 1], after[..|lots| - 1], symbol, s);
    }
  }

  // -------------------------------------------------------------------- splits

  function ScaledLot(lot: Lot, factor: Ratio): Lot
  {
    lot.(quantityOpened := Times(lot.quantityOpened, factor), remaining := Times(lot.remaining, factor),
      cost := lot.cost / factor)
  }

  /** The shares a lot was opened with are converted too, and nothing else of it changes. */
  lemma ScaledLotMeans(lot: Lot, e: Entry)
    requires e.Split?
    ensures var after := ScaledLot(lot, Factor(e));
            && after.quantityOpened * e.ratioOld == lot.quantityOpened * e.ratioNew
            && after.remaining * e.ratioOld == lot.remaining * e.ratioNew
            && after.cost * e.ratioNew == lot.cost * e.ratioOld
            && after == lot.(quantityOpened := after.quantityOpened, remaining := after.remaining, cost := after.cost)
  {
    QuotientUndone(lot.quantityOpened, e);
    QuotientUndone(lot.remaining, e);
    CostUndone(lot.cost, e);
  }

  /** The loop of a split over the open lots. */
  method ScaleLots(lots: seq<Lot>, queue: seq<nat>, symbol: string, factor: Ratio) returns (after: seq<Lot>)
    requires Lists(lots, queue, symbol)
    ensures |after| == |lots|
    ensures forall i | 0 <= i < |lots| :: after[i] == if i in queue then ScaledLot(lots[i], factor) else lots[i]
  {
    after := lots;
    for n := 0 to |queue|
      invariant |after| == |lots|
      invariant forall i | 0 <= i < |lots| :: after[i] == if i in queue[..n] then ScaledLot(lots[i], factor)
                else lots[i]
    {
      assert queue[n] in queue;
      assert queue[..n + 1] == queue[..n] + [queue[n]];
      after := after[queue[n] := ScaledLot(after[queue[n]], factor)];
    }
    assert queue[..|queue|] == queue;
  }

  lemma LotsScaled(lots: seq<Lot>, after: seq<Lot>, open: map<string, seq<nat>>, realized: map<string, real>,
                   symbol: string, queue: seq<nat>, factor: Ratio)
    requires AllListed(lots, open) && Booked(lots, realized) && queue == OpenOf(open, symbol) && |after| == |lots|
    requires forall i | 0 <= i < |lots| :: after[i] == if i in queue then ScaledLot(lots[i], factor) else lots[i]
    ensures AllListed(after, open) && Booked(after, realized)
    ensures QueueOf(after, queue) == Map(QueueOf(lots, queue), Scaled(factor))
    ensures forall s :: s != symbol ==> QueueOf(after, OpenOf(open, s)) == QueueOf(lots, OpenOf(open, s))
  {
    assert Lists(lots, queue, symbol);
    forall s ensures Lists(after, OpenOf(open, s), s)
             ensures s != symbol ==> QueueOf(after, OpenOf(open, s)) == QueueOf(lots, OpenOf(open, s))
             ensures RealizedOn(after, s) == RealizedBy(realized, s) {
      assert Lists(lots, OpenOf(open, s), s) && RealizedOn(lots, s) == RealizedBy(realized, s);
      if s != symbol {
        OthersUntouched(lots, after, open, symbol, s);
      }
      KeepsRealized(lots, after, s);
    }
    forall k | 0 <= k < |queue| ensures SliceOf(after)(queue[k]) == Scaled(factor)(SliceOf(lots)(queue[k])) {
      assert queue[k] in queue;
    }
  }

  lemma {:induction false} KeepsRealized(lots: seq<Lot>, after: seq<Lot>, s: string)
    requires |after| == |lots|
    requires forall i | 0 <= i < |lots| :: after[i].symbol == lots[i].symbol && after[i].realized == lots[i].realized
    ensures RealizedOn(after, s) == RealizedOn(lots, s)
  {
    if lots != [] {
      KeepsRealized(lots[..|lots| - 1], after[..|lots| - 1], s);
    }
  }

  function Audit(e: Entry, queue: seq<Slice>): Adjustment
    requires e.Split? && Held(queue) != 0.0
  {
    var perShare := Invested(queue) / Held(queue);
    Adjustment(e.symbol, e.date, Held(queue), Times(Held(queue), Factor(e)), perShare, perShare / Factor(e))
  }

  /** The audit record shows the same invested capital on both sides, and it is that of the scaled lots. */
  lemma AuditConserves(e: Entry, queue: seq<Slice>)
    requires e.Split? && Held(queue) != 0.0
    ensures var r := Audit(e, queue);
            && Times(r.newQuantity, r.newCostPerShare) == Times(r.quantity, r.costPerShare)
            && Times(r.quantity, r.costPerShare) == Invested(queue) == Invested(Map(queue, Scaled(Factor(e))))
            && r.quantity == Held(queue) && r.newQuantity == Held(Map(queue, Scaled(Factor(e))))
            && r.newQuantity * e.ratioOld == r.quantity * e.ratioNew
            && r.newCostPerShare * e.ratioNew == r.costPerShare * e.ratioOld
  {
    var r, f := Audit(e, queue), Factor(e);
    SplitConserves(queue, f);
    SplitScales(queue, f);
    ScaleKeepsCost(Slice(r.quantity, r.costPerShare), f);
    assert r.costPerShare * r.quantity == Invested(queue);
    QuotientUndone(Held(queue), e);
    CostUndone(r.costPerShare, e);
  }
}

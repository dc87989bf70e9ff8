// budget/budget.go, executeWindowed: the rolling-window mode. The section before fn and the
// section after it each run under windowMu; fn runs between them without the lock, so the
// sections of concurrent calls come in any order. One function per section, then the object
// whose methods refine them, then what holds over whole runs.
module WindowedBudget {
  import opened Basics
  import opened BudgetCost

  datatype Settings = Settings(max: Cost, resetAfter: int, callback: bool) {
    predicate Usable() {
      ValidMax(max) && resetAfter > 0
    }
  }

  /** One start of fn: the reset epoch it was admitted in, and when. */
  datatype Start = Start(epoch: nat, time: int)

  /** What is charged: a call before it runs, and what Charge made of its result. */
  datatype Entry = Call | Reported(charge: Cost)

  /** The record kept beside the counters: what was charged and how often OnExceeded was
      selected since the last reset, every start, and when each epoch's window opened. */
  datatype Book = Book(epoch: nat, entries: seq<Entry>, fired: nat, starts: seq<Start>, openings: seq<int>)

  datatype Budget = Budget(counters: Cost, breached: bool, windowStart: int, windowOpen: bool, running: nat, book: Book)

  function Init(): Budget {
    Budget(NOTHING, false, 0, false, 0, Book(0, [], 0, [], []))
  }

  function AutoReset(cfg: Settings, b: Budget, now: int): Budget {
    if !b.windowOpen then
      b.(windowStart := now, windowOpen := true, book := b.book.(openings := b.book.openings + [now]))
    else if now - b.windowStart < cfg.resetAfter then b
    else Budget(NOTHING, false, now, true, b.running,
                Book(b.book.epoch + 1, [], 0, b.book.starts, b.book.openings + [now]))
  }

  function MarkBreach(cfg: Settings, b: Budget): Budget {
    b.(breached := true, book := b.book.(fired := b.book.fired + (if !b.breached && cfg.callback then 1 else 0)))
  }

  function Spend(b: Budget, c: Cost, entry: Entry): Budget {
    b.(counters := b.counters.Add(c), book := b.book.(entries := b.book.entries + [entry]))
  }

  const ONE_CALL := Cost(0, 0, 1)

  predicate Fires(cfg: Settings, before: Budget, after: Budget) {
    cfg.callback && !before.breached && after.breached
  }

  /** The section before fn: whether fn may run. */
  function Enter(cfg: Settings, b: Budget, now: int): (Budget, bool) {
    PreCharge(cfg, AutoReset(cfg, b, now), now)
  }

  function PreCharge(cfg: Settings, r: Budget, now: int): (Budget, bool) {
    if r.breached then (r, false) else
      var c := Spend(r, ONE_CALL, Call);
      if cfg.max.calls > 0 && c.counters.calls > cfg.max.calls then (MarkBreach(cfg, c), false)
      else (c.(running := c.running + 1, book := c.book.(starts := c.book.starts + [Start(c.book.epoch, now)])), true)
  }

  /** The section after fn: whether the call is told the budget is exceeded. */
  function Settle(cfg: Settings, b: Budget, charge: Cost): (Budget, bool)
    requires b.running > 0
  {
    var c := Spend(b, Applied(charge), Reported(charge)).(running := b.running - 1);
    if Over(cfg.max, c.counters) then (MarkBreach(cfg, c), true) else (c, false)
  }

  function Reset(b: Budget): Budget {
    Budget(NOTHING, false, b.windowStart, false, b.running,
           Book(b.book.epoch + 1, [], 0, b.book.starts, b.book.openings))
  }

  // ----- The object -----

  class WindowedBudget {
    const cfg: Settings
    var tokens: int
    var usdMicros: int
    var calls: int
    var breached: bool
    var windowStart: int
    var windowOpen: bool
    ghost var running: nat
    ghost var book: Book

    ghost function View(): Budget
      reads this
    {
      Budget(Cost(tokens, usdMicros, calls), breached, windowStart, windowOpen, running, book)
    }

    constructor (settings: Settings)
      requires settings.Usable()
      ensures cfg == settings && View() == Init()
    {
      cfg := settings;
      tokens, usdMicros, calls, breached := 0, 0, 0, false;
      windowStart, windowOpen := 0, false;
      running, book := 0, Book(0, [], 0, [], []);
    }

    method AutoResetLocked(now: int)
      modifies this
      ensures View() == AutoReset(cfg, old(View()), now)
    {
      if !windowOpen {
        windowStart := now;
        windowOpen := true;
        book := book.(openings := book.openings + [now]);
        return;
      }
      if now - windowStart < cfg.resetAfter {
        return;
      }
      windowStart := now;
      tokens := 0;
      usdMicros := 0;
      calls := 0;
      breached := false;
      book := Book(book.epoch + 1, [], 0, book.starts, book.openings + [now]);
    }

    // Whether this call won the swap and there is a callback to run after unlocking.
    method MarkBreachLocked() returns (fire: bool)
      modifies this
      ensures View() == MarkBreach(cfg, old(View()))
      ensures fire == (cfg.callback && !old(breached))
    {
      fire := false;
      if !breached {
        breached := true;
        if cfg.callback {
          fire := true;
          book := book.(fired := book.fired + 1);
        }
      }
    }

    method EnterSection(now: int) returns (admitted: bool, fire: bool)
      modifies this
      ensures (View(), admitted) == Enter(cfg, old(View()), now)
      ensures fire <==> Fires(cfg, AutoReset(cfg, old(View()), now), View())
      ensures fire ==> !admitted
    {
      AutoResetLocked(now);
      if breached {
        return false, false;
      }
      calls := calls + 1;
      book := book.(entries := book.entries + [Call]);
      if cfg.max.calls > 0 && calls > cfg.max.calls {
        fire := MarkBreachLocked();
        return false, fire;
      }
      running := running + 1;
      book := book.(starts := book.starts + [Start(book.epoch, now)]);
      return true, false;
    }

    method SettleSection(charge: Cost) returns (over: bool, fire: bool)
      requires running > 0
      modifies this
      ensures (View(), over) == Settle(cfg, old(View()), charge)
      ensures tokens == old(tokens) + Tokens(charge) && usdMicros == old(usdMicros) + USD(charge)
      ensures calls == old(calls)
      ensures over <==> AnyExceeds(cfg.max, tokens, usdMicros, calls)
      ensures fire <==> Fires(cfg, old(View()), View())
    {
      if charge.tokens > 0 {
        tokens := tokens + charge.tokens;
      }
      if charge.usdMicros > 0 {
        usdMicros := usdMicros + charge.usdMicros;
      }
      running := running - 1;
      book := book.(entries := book.entries + [Reported(charge)]);
      var consumed := Cost(tokens, usdMicros, calls);
      over := Over(cfg.max, consumed);
      fire := false;
      if over {
        fire := MarkBreachLocked();
      }
    }

    method ManualReset()
      modifies this
      ensures View() == Reset(old(View()))
    {
      tokens := 0;
      usdMicros := 0;
      calls := 0;
      breached := false;
      windowOpen := false;
      book := Book(book.epoch + 1, [], 0, book.starts, book.openings);
    }
  }

  // ----- Runs of sections -----

  datatype Event = EnterAt(now: int) | SettleWith(charge: Cost) | ResetNow

  function Apply(cfg: Settings, b: Budget, e: Event): Budget {
    match e
    case EnterAt(now) => Enter(cfg, b, now).0
    case SettleWith(charge) => if b.running > 0 then Settle(cfg, b, charge).0 else b
    case ResetNow => Reset(b)
  }

  function Run(cfg: Settings, b: Budget, es: seq<Event>): Budget {
    if es == [] then b else Apply(cfg, Run(cfg, b, es[..|es| - 1]), es[|es| - 1])
  }

  function TokensIn(entries: seq<Entry>): int {
    if entries == [] then 0
    else TokensIn(entries[..|entries| - 1]) + TokensOf(entries[|entries| - 1])
  }

  function USDIn(entries: seq<Entry>): int {
    if entries == [] then 0
    else USDIn(entries[..|entries| - 1]) + USDOf(entries[|entries| - 1])
  }

  function CallsIn(entries: seq<Entry>): int {
    if entries == [] then 0
    else CallsIn(entries[..|entries| - 1]) + CallsOf(entries[|entries| - 1])
  }

  function TokensOf(entry: Entry): int {
    match entry
    case Call => 0
    case Reported(charge) => Tokens(charge)
  }

  function USDOf(entry: Entry): int {
    match entry
    case Call => 0
    case Reported(charge) => USD(charge)
  }

  function CallsOf(entry: Entry): int {
    match entry
    case Call => 1
    case Reported(_) => 0
  }

  predicate SumsOK(counters: Cost, entries: seq<Entry>) {
    counters == Cost(TokensIn(entries), USDIn(entries), CallsIn(entries))
  }

  predicate EntriesExceed(max: Cost, entries: seq<Entry>) {
    AnyExceeds(max, TokensIn(entries), USDIn(entries), CallsIn(entries))
  }

  /** Under the lock each counter is the sum of the positive charges of its kind since the last
      reset, a breach is marked exactly when such a sum exceeds its ceiling, and OnExceeded was
      selected once for it. */
  ghost predicate LedgerInv(cfg: Settings, b: Budget) {
    && SumsOK(b.counters, b.book.entries)
    && (b.breached <==> EntriesExceed(cfg.max, b.book.entries))
    && b.book.fired == (if b.breached && cfg.callback then 1 else 0)
  }

  lemma EntriesSnoc(counters: Cost, entries: seq<Entry>, entry: Entry)
    requires SumsOK(counters, entries)
    ensures SumsOK(counters.Add(Cost(TokensOf(entry), USDOf(entry), CallsOf(entry))), entries + [entry])
  {
    assert (entries + [entry])[..|entries|] == entries;
  }

  lemma OverIsExceeding(max: Cost, counters: Cost, entries: seq<Entry>)
    requires SumsOK(counters, entries)
    ensures Over(max, counters) <==> EntriesExceed(max, entries)
  {
  }

  lemma AutoResetKeepsLedger(cfg: Settings, b: Budget, now: int)
    requires cfg.Usable() && LedgerInv(cfg, b)
    ensures LedgerInv(cfg, AutoReset(cfg, b, now))
  {
  }

  /** Spending and then marking exactly when over keeps the ledger. */
  lemma SpendKeepsLedger(cfg: Settings, b: Budget, c: Cost, entry: Entry)
    requires cfg.Usable() && LedgerInv(cfg, b)
    requires c == Cost(TokensOf(entry), USDOf(entry), CallsOf(entry))
    ensures var s := Spend(b, c, entry);
            LedgerInv(cfg, if Over(cfg.max, s.counters) then MarkBreach(cfg, s) else s)
  {
    EntriesSnoc(b.counters, b.book.entries, entry);
    OverIsExceeding(cfg.max, b.counters, b.book.entries);
    OverIsExceeding(cfg.max, b.counters.Add(c), b.book.entries + [entry]);
    if b.breached {
      OverIsMonotone(cfg.max, b.counters, b.counters.Add(c));
    }
  }

  lemma PreChargeKeepsLedger(cfg: Settings, r: Budget, now: int)
    requires cfg.Usable() && LedgerInv(cfg, r)
    ensures LedgerInv(cfg, PreCharge(cfg, r, now).0)
  {
    if !r.breached {
      var c := Spend(r, ONE_CALL, Call);
      SpendKeepsLedger(cfg, r, ONE_CALL, Call);
      assert Over(cfg.max, c.counters) <==> cfg.max.calls > 0 && c.counters.calls > cfg.max.calls;
      StartKeepsLedger(cfg, c, now);
    }
  }

  lemma EnterKeepsLedger(cfg: Settings, b: Budget, now: int)
    requires cfg.Usable() && LedgerInv(cfg, b)
    ensures LedgerInv(cfg, Enter(cfg, b, now).0)
  {
    AutoResetKeepsLedger(cfg, b, now);
    PreChargeKeepsLedger(cfg, AutoReset(cfg, b, now), now);
  }

  /** Starting the operation touches neither counters nor entries. */
  lemma StartKeepsLedger(cfg: Settings, c: Budget, now: int)
    ensures var t := c.(running := c.running + 1,
                        book := c.book.(starts := c.book.starts + [Start(c.book.epoch, now)]));
            LedgerInv(cfg, t) <==> LedgerInv(cfg, c)
  {
  }

  lemma SettleKeepsLedger(cfg: Settings, b: Budget, charge: Cost)
    requires cfg.Usable() && LedgerInv(cfg, b) && b.running > 0
    ensures LedgerInv(cfg, Settle(cfg, b, charge).0)
  {
    SpendKeepsLedger(cfg, b, Applied(charge), Reported(charge));
  }

  lemma ApplyKeepsLedger(cfg: Settings, b: Budget, e: Event)
    requires cfg.Usable() && LedgerInv(cfg, b)
    ensures LedgerInv(cfg, Apply(cfg, b, e))
  {
    match e
    case EnterAt(now) => EnterKeepsLedger(cfg, b, now);
    case SettleWith(charge) =>
      if b.running > 0 {
        SettleKeepsLedger(cfg, b, charge);
      }
    case ResetNow =>
  }

  /** Whatever the clock does and however the sections interleave, Reset included. */
  lemma {:induction false} LedgerHolds(cfg: Settings, es: seq<Event>)
    requires cfg.Usable()
    ensures LedgerInv(cfg, Run(cfg, Init(), es))
  {
    if es != [] {
      LedgerHolds(cfg, es[..|es| - 1]);
      ApplyKeepsLedger(cfg, Run(cfg, Init(), es[..|es| - 1]), es[|es| - 1]);
    }
  }

  lemma SettlingIsTold(cfg: Settings, b: Budget, charge: Cost)
    requires LedgerInv(cfg, b) && b.running > 0
    ensures Settle(cfg, b, charge).1 <==> EntriesExceed(cfg.max, b.book.entries + [Reported(charge)])
  {
    EntriesSnoc(b.counters, b.book.entries, Reported(charge));
    OverIsExceeding(cfg.max, b.counters.Add(Applied(charge)), b.book.entries + [Reported(charge)]);
  }

  lemma OneMoreCallExceeds(max: Cost, counters: Cost)
    ensures Over(max, counters.Add(ONE_CALL)) <==> Over(max, counters) || Exceeds(counters.calls + 1, max.calls)
  {
  }

  lemma PreChargeExceeds(cfg: Settings, r: Budget)
    requires LedgerInv(cfg, r)
    ensures EntriesExceed(cfg.max, r.book.entries + [Call])
       <==> r.breached || Exceeds(r.counters.calls + 1, cfg.max.calls)
  {
    EntriesSnoc(r.counters, r.book.entries, Call);
    OverIsExceeding(cfg.max, r.counters, r.book.entries);
    OverIsExceeding(cfg.max, r.counters.Add(ONE_CALL), r.book.entries + [Call]);
    OneMoreCallExceeds(cfg.max, r.counters);
  }

  lemma EnteringIsTold(cfg: Settings, b: Budget, now: int)
    requires cfg.Usable() && LedgerInv(cfg, b)
    ensures Enter(cfg, b, now).1 <==> !EntriesExceed(cfg.max, AutoReset(cfg, b, now).book.entries + [Call])
  {
    AutoResetKeepsLedger(cfg, b, now);
    PreChargeExceeds(cfg, AutoReset(cfg, b, now));
  }

  /** Who is told, over every interleaving: a call that comes back is told the budget is exceeded
      exactly when, its own charge included, what was charged since the last reset exceeds a
      ceiling; and a call that is about to run is let in exactly when, once counted, none is. */
  lemma ToldExactly(cfg: Settings, es: seq<Event>, charge: Cost, now: int)
    requires cfg.Usable()
    ensures var b := Run(cfg, Init(), es);
            && (b.running > 0 ==>
                  (Settle(cfg, b, charge).1 <==> EntriesExceed(cfg.max, b.book.entries + [Reported(charge)])))
            && (Enter(cfg, b, now).1 <==> !EntriesExceed(cfg.max, AutoReset(cfg, b, now).book.entries + [Call]))
  {
    LedgerHolds(cfg, es);
    var b := Run(cfg, Init(), es);
    EnteringIsTold(cfg, b, now);
    if b.running > 0 {
      SettlingIsTold(cfg, b, charge);
    }
  }

  // ----- Windows -----

  function StartsIn(starts: seq<Start>, epoch: nat): nat {
    if starts == [] then 0 else
      StartsIn(starts[..|starts| - 1], epoch) + (if starts[|starts| - 1].epoch == epoch then 1 else 0)
  }

  function StartsBetween(starts: seq<Start>, a: int, b: int): nat {
    if starts == [] then 0 else
      StartsBetween(starts[..|starts| - 1], a, b) + (if a <= starts[|starts| - 1].time <= b then 1 else 0)
  }

  /** No epoch starts fn more often than Max.Calls; the current one has as many starts as calls. */
  ghost predicate CapInv(cfg: Settings, b: Budget) {
    && 0 <= b.counters.calls
    && (forall e: nat :: StartsIn(b.book.starts, e) <= cfg.max.calls)
    && (forall e: nat :: e > b.book.epoch ==> StartsIn(b.book.starts, e) == 0)
    && StartsIn(b.book.starts, b.book.epoch) == Min(b.counters.calls, cfg.max.calls)
  }

  lemma StartsSnoc(starts: seq<Start>, s: Start, e: nat)
    ensures StartsIn(starts + [s], e) == StartsIn(starts, e) + (if s.epoch == e then 1 else 0)
  {
    assert (starts + [s])[..|starts|] == starts;
  }

  lemma AutoResetKeepsCap(cfg: Settings, b: Budget, now: int)
    requires cfg.max.calls > 0 && CapInv(cfg, b)
    ensures CapInv(cfg, AutoReset(cfg, b, now))
  {
  }

  /** One more admitted call is one more start of the current epoch. */
  lemma StartKeepsCap(cfg: Settings, b: Budget, after: Budget, now: int)
    requires cfg.max.calls > 0 && CapInv(cfg, b) && b.counters.calls < cfg.max.calls
    requires after.counters.calls == b.counters.calls + 1 && after.book.epoch == b.book.epoch
    requires after.book.starts == b.book.starts + [Start(b.book.epoch, now)]
    ensures CapInv(cfg, after)
  {
    forall e: nat
      ensures StartsIn(after.book.starts, e) == StartsIn(b.book.starts, e) + (if b.book.epoch == e then 1 else 0)
    {
      StartsSnoc(b.book.starts, Start(b.book.epoch, now), e);
    }
  }

  lemma EnterKeepsCap(cfg: Settings, b: Budget, now: int)
    requires cfg.max.calls > 0 && CapInv(cfg, b)
    ensures CapInv(cfg, Enter(cfg, b, now).0)
  {
    AutoResetKeepsCap(cfg, b, now);
    if Enter(cfg, b, now).1 {
      StartKeepsCap(cfg, AutoReset(cfg, b, now), Enter(cfg, b, now).0, now);
    }
  }

  lemma ApplyKeepsCap(cfg: Settings, b: Budget, e: Event)
    requires cfg.Usable() && cfg.max.calls > 0 && CapInv(cfg, b)
    ensures CapInv(cfg, Apply(cfg, b, e))
  {
    match e
    case EnterAt(now) => EnterKeepsCap(cfg, b, now);
    case SettleWith(_) =>
    case ResetNow =>
  }

  /** The window of every epoch, on a clock that does not step back and without manual Reset. */
  ghost predicate WindowInv(cfg: Settings, b: Budget, clock: int) {
    && |b.book.openings| == b.book.epoch + (if b.windowOpen then 1 else 0)
    && (!b.windowOpen ==> b.book.epoch == 0 && b.book.starts == [])
    && (b.windowOpen ==> b.windowStart == b.book.openings[b.book.epoch] <= clock)
    && (forall i :: 0 <= i < |b.book.openings| - 1 ==> b.book.openings[i + 1] - b.book.openings[i] >= cfg.resetAfter)
    && (forall i :: 0 <= i < |b.book.starts| ==> InItsWindow(cfg, b.book, b.book.starts[i]))
    && (forall i, j :: 0 <= i < j < |b.book.starts| ==> b.book.starts[i].epoch <= b.book.starts[j].epoch)
  }

  predicate InItsWindow(cfg: Settings, book: Book, s: Start) {
    && s.epoch < |book.openings|
    && s.epoch <= book.epoch
    && book.openings[s.epoch] <= s.time < book.openings[s.epoch] + cfg.resetAfter
  }

  lemma AutoResetKeepsWindows(cfg: Settings, b: Budget, clock: int, now: int)
    requires cfg.Usable() && WindowInv(cfg, b, clock) && clock <= now
    ensures var r := AutoReset(cfg, b, now);
            && WindowInv(cfg, r, now)
            && r.windowOpen && r.windowStart <= now < r.windowStart + cfg.resetAfter
  {
    var r := AutoReset(cfg, b, now);
    forall i | 0 <= i < |r.book.starts|
      ensures InItsWindow(cfg, r.book, r.book.starts[i])
    {
      assert InItsWindow(cfg, b.book, b.book.starts[i]);
    }
  }

  /** A start admitted inside the current window extends the record. */
  lemma StartKeepsWindows(cfg: Settings, b: Budget, after: Budget, now: int)
    requires cfg.Usable() && WindowInv(cfg, b, now)
    requires b.windowOpen && b.windowStart <= now < b.windowStart + cfg.resetAfter
    requires (after.windowOpen, after.windowStart) == (b.windowOpen, b.windowStart)
    requires (after.book.epoch, after.book.openings) == (b.book.epoch, b.book.openings)
    requires after.book.starts == b.book.starts + [Start(b.book.epoch, now)]
    ensures WindowInv(cfg, after, now)
  {
    forall i | 0 <= i < |after.book.starts|
      ensures InItsWindow(cfg, after.book, after.book.starts[i]) && after.book.starts[i].epoch <= b.book.epoch
    {
      if i < |b.book.starts| {
        assert InItsWindow(cfg, b.book, b.book.starts[i]);
      }
    }
  }

  /** The counters and charges play no part in the windows. */
  lemma SameWindows(cfg: Settings, b: Budget, after: Budget, clock: int)
    requires WindowInv(cfg, b, clock)
    requires (after.windowOpen, after.windowStart) == (b.windowOpen, b.windowStart)
    requires (after.book.epoch, after.book.openings, after.book.starts)
             == (b.book.epoch, b.book.openings, b.book.starts)
    ensures WindowInv(cfg, after, clock)
  {
    forall i | 0 <= i < |after.book.starts|
      ensures InItsWindow(cfg, after.book, after.book.starts[i])
    {
      assert InItsWindow(cfg, b.book, b.book.starts[i]);
    }
  }

  lemma ApplyKeepsWindows(cfg: Settings, b: Budget, clock: int, e: Event)
    requires cfg.Usable() && WindowInv(cfg, b, clock) && !e.ResetNow? && (e.EnterAt? ==> clock <= e.now)
    ensures WindowInv(cfg, Apply(cfg, b, e), if e.EnterAt? then e.now else clock)
  {
    var after := Apply(cfg, b, e);
    if e.EnterAt? {
      AutoResetKeepsWindows(cfg, b, clock, e.now);
      var r := AutoReset(cfg, b, e.now);
      if Enter(cfg, b, e.now).1 {
        StartKeepsWindows(cfg, r, after, e.now);
      } else {
        SameWindows(cfg, r, after, e.now);
      }
    } else {
      SameWindows(cfg, b, after, clock);
    }
  }

  /** Enters see a clock that does not step back, and nobody resets by hand. */
  ghost predicate Steady(es: seq<Event>) {
    && (forall i :: 0 <= i < |es| ==> !es[i].ResetNow?)
    && (forall i, j :: 0 <= i < j < |es| && es[i].EnterAt? && es[j].EnterAt? ==> es[i].now <= es[j].now)
  }

  lemma {:induction false} WindowsHold(cfg: Settings, es: seq<Event>, clock: int)
    requires cfg.Usable() && Steady(es)
    requires forall i :: 0 <= i < |es| && es[i].EnterAt? ==> es[i].now <= clock
    ensures WindowInv(cfg, Run(cfg, Init(), es), clock)
  {
    if es != [] {
      var front, e := es[..|es| - 1], es[|es| - 1];
      var at := if e.EnterAt? then e.now else clock;
      WindowsHold(cfg, front, at);
      ApplyKeepsWindows(cfg, Run(cfg, Init(), front), at, e);
    }
  }

  /** Consecutive auto-resets are at least ResetAfter apart. */
  lemma AutoResetsAreApart(cfg: Settings, es: seq<Event>, clock: int, i: nat)
    requires cfg.Usable() && Steady(es)
    requires forall k :: 0 <= k < |es| && es[k].EnterAt? ==> es[k].now <= clock
    requires i + 1 < |Run(cfg, Init(), es).book.openings|
    ensures var openings := Run(cfg, Init(), es).book.openings;
            openings[i + 1] - openings[i] >= cfg.resetAfter
  {
    WindowsHold(cfg, es, clock);
  }

  /** Every reset epoch, however it began, starts the operation at most Max.Calls times. */
  lemma {:induction false} CapHolds(cfg: Settings, es: seq<Event>)
    requires cfg.Usable() && cfg.max.calls > 0
    ensures CapInv(cfg, Run(cfg, Init(), es))
  {
    if es != [] {
      CapHolds(cfg, es[..|es| - 1]);
      ApplyKeepsCap(cfg, Run(cfg, Init(), es[..|es| - 1]), es[|es| - 1]);
    }
  }

  lemma {:induction false} OpeningsGrow(cfg: Settings, openings: seq<int>, i: nat, j: nat)
    requires cfg.Usable() && i <= j < |openings|
    requires forall k :: 0 <= k < |openings| - 1 ==> openings[k + 1] - openings[k] >= cfg.resetAfter
    ensures openings[i] <= openings[j]
  {
    if i < j {
      OpeningsGrow(cfg, openings, i, j - 1);
      assert openings[j - 1 + 1] - openings[j - 1] >= cfg.resetAfter;
    }
  }

  /** Openings are at least ResetAfter apart and starts stay inside their window, so a span no
      longer than ResetAfter meets at most two epochs. */
  lemma TwoEpochsAtMost(cfg: Settings, book: Book, s: Start, t: Start, a: int, b: int)
    requires cfg.Usable() && b - a <= cfg.resetAfter
    requires forall k :: 0 <= k < |book.openings| - 1 ==> book.openings[k + 1] - book.openings[k] >= cfg.resetAfter
    requires InItsWindow(cfg, book, s) && InItsWindow(cfg, book, t) && s.epoch <= t.epoch
    requires a <= s.time <= b && a <= t.time <= b
    ensures t.epoch <= s.epoch + 1
  {
    if t.epoch >= s.epoch + 2 {
      assert book.openings[s.epoch + 1] - book.openings[s.epoch] >= cfg.resetAfter;
      assert book.openings[s.epoch + 1 + 1] - book.openings[s.epoch + 1] >= cfg.resetAfter;
      OpeningsGrow(cfg, book.openings, s.epoch + 2, t.epoch);
    }
  }

  lemma {:induction false} BetweenIsWithinTwo(starts: seq<Start>, a: int, b: int, e: nat)
    requires forall i :: 0 <= i < |starts| && a <= starts[i].time <= b ==> starts[i].epoch in {e, e + 1}
    ensures StartsBetween(starts, a, b) <= StartsIn(starts, e) + StartsIn(starts, e + 1)
  {
    if starts != [] {
      BetweenIsWithinTwo(starts[..|starts| - 1], a, b, e);
    }
  }

  lemma {:induction false} NoneBetween(starts: seq<Start>, a: int, b: int)
    requires forall i :: 0 <= i < |starts| ==> !(a <= starts[i].time <= b)
    ensures StartsBetween(starts, a, b) == 0
  {
    if starts != [] {
      NoneBetween(starts[..|starts| - 1], a, b);
    }
  }

  lemma FirstBetween(starts: seq<Start>, a: int, b: int) returns (first: nat)
    ensures first <= |starts| && (first < |starts| ==> a <= starts[first].time <= b)
    ensures forall i :: 0 <= i < first ==> !(a <= starts[i].time <= b)
  {
    first := 0;
    while first < |starts| && !(a <= starts[first].time <= b)
      invariant first <= |starts|
      invariant forall i :: 0 <= i < first ==> !(a <= starts[i].time <= b)
    {
      first := first + 1;
    }
  }

  /** All starts of such a span fall into the epoch of the first of them and the next. */
  lemma SpanMeetsTwoEpochs(cfg: Settings, w: Budget, clock: int, a: int, b: int, first: nat)
    requires cfg.Usable() && WindowInv(cfg, w, clock) && b - a <= cfg.resetAfter
    requires first < |w.book.starts| && a <= w.book.starts[first].time <= b
    requires forall i :: 0 <= i < first ==> !(a <= w.book.starts[i].time <= b)
    ensures var starts := w.book.starts;
            forall i :: 0 <= i < |starts| && a <= starts[i].time <= b ==>
              starts[i].epoch in {starts[first].epoch, starts[first].epoch + 1}
  {
    var starts := w.book.starts;
    forall i | 0 <= i < |starts| && a <= starts[i].time <= b
      ensures starts[i].epoch in {starts[first].epoch, starts[first].epoch + 1}
    {
      assert InItsWindow(cfg, w.book, starts[first]) && InItsWindow(cfg, w.book, starts[i]);
      assert first == i || starts[first].epoch <= starts[i].epoch;
      TwoEpochsAtMost(cfg, w.book, starts[first], starts[i], a, b);
    }
  }

  /** Absent manual Reset, any span no longer than ResetAfter starts the operation at most
      twice Max.Calls times. */
  lemma SpanStartsAtMostTwice(cfg: Settings, es: seq<Event>, clock: int, a: int, b: int)
    requires cfg.Usable() && cfg.max.calls > 0 && Steady(es)
    requires forall i :: 0 <= i < |es| && es[i].EnterAt? ==> es[i].now <= clock
    requires b - a <= cfg.resetAfter
    ensures StartsBetween(Run(cfg, Init(), es).book.starts, a, b) <= 2 * cfg.max.calls
  {
    WindowsHold(cfg, es, clock);
    CapHolds(cfg, es);
    var starts := Run(cfg, Init(), es).book.starts;
    var first := FirstBetween(starts, a, b);
    if first == |starts| {
      NoneBetween(starts, a, b);
    } else {
      SpanMeetsTwoEpochs(cfg, Run(cfg, Init(), es), clock, a, b, first);
      BetweenIsWithinTwo(starts, a, b, starts[first].epoch);
    }
  }
}

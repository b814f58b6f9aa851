/** The in-process sliding-window limiter: at most `limit` events per principal inside `window`. */
module RateLimit {
  import opened Wrappers

  const U32: nat := 0x1_0000_0000

  /** Time since `t`, zero when the clock reads earlier. */
  function Elapsed(now: nat, t: nat): nat {
    if t <= now then now - t else 0
  }

  /** The events still inside the window. */
  function Prune(times: seq<nat>, now: nat, window: nat): seq<nat> {
    if times == [] then []
    else
      var before := Prune(times[..|times| - 1], now, window);
      if Elapsed(now, times[|times| - 1]) < window then before + [times[|times| - 1]] else before
  }

  /** Lists of events per principal. */
  type Book = map<string, seq<nat>>

  function Events(book: Book, principal: string): seq<nat> {
    if principal in book then book[principal] else []
  }

  /** One check: prune, then admit unless the window is full. The length is cut to 32 bits first. */
  function Admit(book: Book, principal: string, now: nat, limit: nat, window: nat): (Book, bool) {
    var kept := Prune(Events(book, principal), now, window);
    if |kept| % U32 >= limit then (book[principal := kept], false)
    else (book[principal := kept + [now]], true)
  }

  // ---------- runs ----------

  datatype Call = Call(principal: string, now: nat)

  function Run(calls: seq<Call>, limit: nat, window: nat): Book {
    if calls == [] then map[]
    else
      var c := calls[|calls| - 1];
      Admit(Run(calls[..|calls| - 1], limit, window), c.principal, c.now, limit, window).0
  }

  /** Whether the last call of a run was admitted. */
  function Admitted(calls: seq<Call>, limit: nat, window: nat): bool
    requires calls != []
  {
    var c := calls[|calls| - 1];
    Admit(Run(calls[..|calls| - 1], limit, window), c.principal, c.now, limit, window).1
  }

  /** Every event of a principal that was ever admitted, oldest first: nothing is forgotten here. */
  function History(calls: seq<Call>, principal: string, limit: nat, window: nat): seq<nat> {
    if calls == [] then []
    else
      var before := History(calls[..|calls| - 1], principal, limit, window);
      var c := calls[|calls| - 1];
      if c.principal == principal && Admitted(calls, limit, window) then before + [c.now] else before
  }

  predicate Ordered(calls: seq<Call>) {
    forall i, j :: 0 <= i < j < |calls| ==> calls[i].now <= calls[j].now
  }

  lemma {:induction false} PruneMember(times: seq<nat>, now: nat, window: nat)
    ensures |Prune(times, now, window)| <= |times|
    ensures forall t :: t in Prune(times, now, window) ==> t in times
  {
    if times != [] {
      PruneMember(times[..|times| - 1], now, window);
      assert times == times[..|times| - 1] + [times[|times| - 1]];
    }
  }

  /** What has left the window never returns to it. */
  lemma {:induction false} PruneTwice(times: seq<nat>, early: nat, late: nat, window: nat)
    requires early <= late && forall t :: t in times ==> t <= early
    ensures Prune(Prune(times, early, window), late, window) == Prune(times, late, window)
  {
    if times != [] {
      var init, last := times[..|times| - 1], times[|times| - 1];
      assert times == init + [last];
      assert last in times && forall t :: t in init ==> t in times;
      PruneTwice(init, early, late, window);
      var before := Prune(init, early, window);
      assert (before + [last])[..|before|] == before;
    }
  }

  lemma PruneSnoc(times: seq<nat>, t: nat, now: nat, window: nat)
    ensures Prune(times + [t], now, window) ==
            if Elapsed(now, t) < window then Prune(times, now, window) + [t] else Prune(times, now, window)
  {
    assert (times + [t])[..|times|] == times;
  }

  lemma {:induction false} HistoryPast(calls: seq<Call>, principal: string, limit: nat, window: nat, now: nat)
    requires forall c :: c in calls ==> c.now <= now
    ensures forall t :: t in History(calls, principal, limit, window) ==> t <= now
  {
    if calls != [] {
      assert calls[|calls| - 1] in calls;
      HistoryPast(calls[..|calls| - 1], principal, limit, window, now);
    }
  }

  /** Pruning at one call and again later, with or without the call's own event, loses nothing. */
  lemma PruneStep(events: seq<nat>, history: seq<nat>, early: nat, late: nat, window: nat)
    requires early <= late && (forall t :: t in events ==> t <= early)
    requires Prune(events, late, window) == Prune(history, late, window)
    ensures Prune(Prune(events, early, window), late, window) == Prune(history, late, window)
    ensures Prune(Prune(events, early, window) + [early], late, window) == Prune(history + [early], late, window)
  {
    hide Elapsed, Prune;
    PruneTwice(events, early, late, window);
    PruneSnoc(Prune(events, early, window), early, late, window);
    PruneSnoc(history, early, late, window);
  }

  lemma OrderedInit(calls: seq<Call>)
    requires Ordered(calls) && calls != []
    ensures var init, c := calls[..|calls| - 1], calls[|calls| - 1];
            Ordered(init) && c in calls && (forall d :: d in init ==> d.now <= c.now && d in calls)
  {
    var init := calls[..|calls| - 1];
    forall d | d in init ensures d.now <= calls[|calls| - 1].now && d in calls {
      var i :| 0 <= i < |init| && init[i] == d;
      assert calls[i] == d;
    }
  }

  /**
   The stored list forgets nothing that matters: at any later time it prunes to what the full
   history prunes to. It never holds more than `limit` events.
   */
  lemma {:induction false} BookExact(calls: seq<Call>, principal: string, limit: nat, window: nat, now: nat)
    requires 1 <= limit < U32 && Ordered(calls) && forall c :: c in calls ==> c.now <= now
    ensures Prune(Events(Run(calls, limit, window), principal), now, window)
         == Prune(History(calls, principal, limit, window), now, window)
    ensures |Events(Run(calls, limit, window), principal)| <= limit
  {
    hide Prune, Ordered;
    if calls != [] {
      var init, c := calls[..|calls| - 1], calls[|calls| - 1];
      OrderedInit(calls);
      BookExact(init, principal, limit, window, now);
      if c.principal == principal {
        var events := Events(Run(init, limit, window), principal);
        var history := History(init, principal, limit, window);
        PruneMember(events, c.now, window);
        HistoryPast(init, principal, limit, window, c.now);
        EventsInHistory(init, principal, limit, window);
        PruneStep(events, history, c.now, now, window);
      }
    }
  }

  lemma {:induction false} EventsInHistory(calls: seq<Call>, principal: string, limit: nat, window: nat)
    ensures forall t :: t in Events(Run(calls, limit, window), principal) ==> t in History(calls, principal, limit, window)
  {
    if calls != [] {
      hide Prune;
      var init, c := calls[..|calls| - 1], calls[|calls| - 1];
      EventsInHistory(init, principal, limit, window);
      PruneMember(Events(Run(init, limit, window), c.principal), c.now, window);
    }
  }

  /** The events less than a window ago, by their places in a history. */
  function Recent(times: seq<nat>, now: nat, window: nat): set<nat> {
    set i: nat | i < |times| && now < times[i] + window
  }

  lemma {:induction false} PruneRecent(times: seq<nat>, now: nat, window: nat)
    requires forall t :: t in times ==> t <= now
    ensures |Prune(times, now, window)| == |Recent(times, now, window)|
  {
    hide Recent;
    if times == [] {
      RecentNone(now, window);
    } else {
      var init, last := times[..|times| - 1], times[|times| - 1];
      assert times == init + [last];
      assert last in times && forall t :: t in init ==> t in times;
      PruneRecent(init, now, window);
      RecentNext(init, last, now, window);
    }
  }

  lemma RecentNone(now: nat, window: nat)
    ensures Recent([], now, window) == {}
  {
  }

  lemma RecentNext(init: seq<nat>, last: nat, now: nat, window: nat)
    ensures |Recent(init + [last], now, window)| == |Recent(init, now, window)| + if now < last + window then 1 else 0
  {
    var before, after := Recent(init, now, window), Recent(init + [last], now, window);
    assert after == if now < last + window then before + {|init|} else before;
  }

  /**
   A call is refused exactly when `limit` admitted events of its principal lie less than a window ago;
   otherwise it is admitted, and there are fewer.
   */
  lemma RefusedIffFull(calls: seq<Call>, limit: nat, window: nat)
    requires 1 <= limit < U32 && calls != [] && Ordered(calls)
    ensures var c := calls[|calls| - 1];
            var recent := Recent(History(calls[..|calls| - 1], c.principal, limit, window), c.now, window);
            |recent| <= limit && (!Admitted(calls, limit, window) <==> |recent| == limit)
  {
    hide Prune, History, Run, Ordered, Recent;
    var init, c := calls[..|calls| - 1], calls[|calls| - 1];
    OrderedInit(calls);
    BookExact(init, c.principal, limit, window, c.now);
    PruneMember(Events(Run(init, limit, window), c.principal), c.now, window);
    HistoryPast(init, c.principal, limit, window, c.now);
    PruneRecent(History(init, c.principal, limit, window), c.now, window);
  }

  // ---------- no interval is overfull ----------

  /** The events of a history that fall in the interval from `start`, `length` long, end excluded. */
  function Inside(times: seq<nat>, start: nat, length: nat): seq<nat> {
    if times == [] then []
    else
      var before := Inside(times[..|times| - 1], start, length);
      var t := times[|times| - 1];
      if start <= t < start + length then before + [t] else before
  }

  lemma {:induction false} InsidePruned(times: seq<nat>, start: nat, window: nat, now: nat)
    requires start <= now < start + window && forall t :: t in times ==> t <= now
    ensures |Inside(times, start, window)| <= |Prune(times, now, window)|
  {
    if times != [] {
      var init, last := times[..|times| - 1], times[|times| - 1];
      assert times == init + [last];
      assert last in times && forall t :: t in init ==> t in times;
      InsidePruned(init, start, window, now);
    }
  }

  /** No interval of the window's length, wherever it starts, ever holds more than `limit` admitted events. */
  lemma {:induction false} WindowNeverOverfull(calls: seq<Call>, principal: string, limit: nat, window: nat, start: nat)
    requires 1 <= limit < U32 && Ordered(calls)
    ensures |Inside(History(calls, principal, limit, window), start, window)| <= limit
  {
    hide Prune, Run;
    if calls != [] {
      var init, c := calls[..|calls| - 1], calls[|calls| - 1];
      WindowNeverOverfull(init, principal, limit, window, start);
      var history := History(init, principal, limit, window);
      if History(calls, principal, limit, window) != history {
        RefusedIffFull(calls, limit, window);
        assert (history + [c.now])[..|history|] == history;
        HistoryPast(init, principal, limit, window, c.now);
        if start <= c.now < start + window {
          PruneRecent(history, c.now, window);
          InsidePruned(history, start, window, c.now);
        }
      }
    }
  }

  class SlidingWindowLimiter {
    const limit: nat
    const window: nat
    var inner: Book

    constructor (limit: nat, window: nat)
      ensures this.limit == (if limit == 0 then 1 else limit) && this.window == window && inner == map[]
    {
      this.limit := if limit == 0 then 1 else limit;
      this.window := window;
      inner := map[];
    }

    method Check(principal: string, now: nat) returns (r: Result<()>)
      modifies this`inner
      ensures (inner, r.Ok?) == Admit(old(inner), principal, now, limit, window)
      ensures r.Err? ==> r.error == RateLimited
    {
      var entry := if principal in inner then inner[principal] else [];
      var kept := [];
      var i := 0;
      while i < |entry|
        invariant i <= |entry| && kept == Prune(entry[..i], now, window)
      {
        assert entry[..i + 1][..i] == entry[..i];
        if Elapsed(now, entry[i]) < window {
          kept := kept + [entry[i]];
        }
        i := i + 1;
      }
      assert entry[..|entry|] == entry;
      if |kept| % U32 >= limit {
        inner := inner[principal := kept];
        return Err(RateLimited);
      }
      inner := inner[principal := kept + [now]];
      return Ok(());
    }
  }
}

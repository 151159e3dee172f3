/** bot.py _is_rate_limited: a sliding window over a table of accepted events. */
module RateLimiter {

  const RETENTION := 3600

  datatype Event = Event(user: int, action: string, at: int)

  predicate Mine(e: Event, user: int, action: string) {
    e.user == user && e.action == action
  }

  /** The events that are left once everything older than the cutoff is deleted. */
  function Pruned(events: seq<Event>, cutoff: int): seq<Event> {
    if events == [] then []
    else
      var kept, e := Pruned(events[..|events| - 1], cutoff), events[|events| - 1];
      if e.at < cutoff then kept else kept + [e]
  }

  /** How many events of the user and action lie between two times, both included. */
  function Count(events: seq<Event>, user: int, action: string, from: int, upTo: int): nat {
    if events == [] then 0
    else
      var e := events[|events| - 1];
      Count(events[..|events| - 1], user, action, from, upTo) + if Mine(e, user, action) && from <= e.at <= upTo then 1
        else 0
  }

  /** How many stored events of the user and action are not older than from. */
  function CountSince(events: seq<Event>, user: int, action: string, from: int): nat {
    if events == [] then 0
    else
      var e := events[|events| - 1];
      CountSince(events[..|events| - 1], user, action, from) + if Mine(e, user, action) && from <= e.at then 1 else 0
  }

  datatype Call = Call(user: int, action: string, limit: int, window: int, now: int)

  predicate Limited(table: seq<Event>, call: Call) {
    CountSince(Pruned(table, call.now - RETENTION), call.user, call.action, call.now - call.window) >= call.limit
  }

  function After(table: seq<Event>, call: Call): seq<Event> {
    var kept := Pruned(table, call.now - RETENTION);
    if Limited(table, call) then kept else kept + [Event(call.user, call.action, call.now)]
  }

  class Limiter {
    var table: seq<Event>

    constructor ()
      ensures table == []
    {
      table := [];
    }

    method IsRateLimited(user: int, action: string, limit: int, window: int, now: int) returns (limited: bool)
      modifies this
      ensures limited == Limited(old(table), Call(user, action, limit, window, now))
      ensures table == After(old(table), Call(user, action, limit, window, now))
    {
      table := Pruned(table, now - RETENTION);
      if CountSince(table, user, action, now - window) >= limit {
        limited := true;
      } else {
        table := table + [Event(user, action, now)];
        limited := false;
      }
    }
  }

  // ----- runs

  function Table(calls: seq<Call>): seq<Event> {
    if calls == [] then [] else After(Table(calls[..|calls| - 1]), calls[|calls| - 1])
  }

  /** All events ever let through; nothing is pruned from this history. */
  function Accepted(calls: seq<Call>): seq<Event> {
    if calls == [] then []
    else
      var n, call := |calls| - 1, calls[|calls| - 1];
      if Limited(Table(calls[..n]), call) then Accepted(calls[..n])
      else Accepted(calls[..n]) + [Event(call.user, call.action, call.now)]
  }

  ghost predicate ClockRuns(calls: seq<Call>) {
    forall i, j :: 0 <= i < j < |calls| ==> calls[i].now <= calls[j].now
  }

  /** Every call of this user for this action is made with the same limit and window. */
  ghost predicate OneRule(calls: seq<Call>, user: int, action: string, limit: int, window: int) {
    forall i :: 0 <= i < |calls| && calls[i].user == user && calls[i].action == action ==>
      calls[i].limit == limit && calls[i].window == window
  }

  lemma Appended(events: seq<Event>, e: Event, user: int, action: string, from: int, upTo: int)
    ensures CountSince(events + [e], user, action, from) ==
            CountSince(events, user, action, from) + if Mine(e, user, action) && from <= e.at then 1 else 0
    ensures Count(events + [e], user, action, from, upTo) ==
            Count(events, user, action, from, upTo) + if Mine(e, user, action) && from <= e.at <= upTo then 1 else 0
  {
    assert (events + [e])[..|events|] == events;
  }

  lemma {:induction false} PrunedPast(events: seq<Event>, cutoff: int, user: int, action: string, from: int)
    requires cutoff <= from
    ensures CountSince(Pruned(events, cutoff), user, action, from) == CountSince(events, user, action, from)
  {
    if events != [] {
      var n := |events| - 1;
      PrunedPast(events[..n], cutoff, user, action, from);
      Appended(Pruned(events[..n], cutoff), events[n], user, action, from, from);
    }
  }

  lemma NothingCounted(user: int, action: string, from: int, upTo: int)
    ensures CountSince([], user, action, from) == 0 && Count([], user, action, from, upTo) == 0
  {
  }

  /** Pruning is harmless: as far back as the retention reaches, the table counts like the full history. */
  lemma {:induction false} TableCountsHistory(calls: seq<Call>, user: int, action: string, from: int)
    requires forall i :: 0 <= i < |calls| ==> calls[i].now - RETENTION <= from
    ensures CountSince(Table(calls), user, action, from) == CountSince(Accepted(calls), user, action, from)
  {
    hide Pruned, CountSince, Count;
    if calls == [] {
      NothingCounted(user, action, from, from);
    } else {
      var n, call := |calls| - 1, calls[|calls| - 1];
      TableCountsHistory(calls[..n], user, action, from);
      var e := Event(call.user, call.action, call.now);
      PrunedPast(Table(calls[..n]), call.now - RETENTION, user, action, from);
      Appended(Pruned(Table(calls[..n]), call.now - RETENTION), e, user, action, from, from);
      Appended(Accepted(calls[..n]), e, user, action, from, from);
    }
  }

  lemma {:induction false} CountWithin(events: seq<Event>, user: int, action: string, from: int, upTo: int, since: int)
    requires since <= from
    ensures Count(events, user, action, from, upTo) <= CountSince(events, user, action, since)
  {
    if events != [] {
      CountWithin(events[..|events| - 1], user, action, from, upTo, since);
    }
  }

  /** With a window of at most an hour a call is limited exactly when the full history holds limit events of it. */
  lemma LimitedIff(before: seq<Call>, call: Call)
    requires call.window <= RETENTION && forall i :: 0 <= i < |before| ==> before[i].now <= call.now
    ensures Limited(Table(before), call) <==>
            CountSince(Accepted(before), call.user, call.action, call.now - call.window) >= call.limit
  {
    hide Pruned, CountSince, Table, Accepted;
    PrunedPast(Table(before), call.now - RETENTION, call.user, call.action, call.now - call.window);
    TableCountsHistory(before, call.user, call.action, call.now - call.window);
  }

  /**
   For windows of at most an hour: over any run with a clock that does not run backwards, every closed
   interval of window length holds at most limit accepted events of a user and action, whatever other
   users do in between.
   */
  lemma {:induction false} WindowHolds(calls: seq<Call>, user: int, action: string, limit: int, window: int, from: int)
    requires ClockRuns(calls) && OneRule(calls, user, action, limit, window) && window <= RETENTION
    ensures Count(Accepted(calls), user, action, from, from + window) <= if limit < 0 then 0 else limit
  {
    hide Pruned, CountSince, Count, Table, Limited;
    if calls == [] {
      NothingCounted(user, action, from, from + window);
    } else {
      var n, call := |calls| - 1, calls[|calls| - 1];
      assert forall i :: 0 <= i < n ==> calls[..n][i] == calls[i];
      WindowHolds(calls[..n], user, action, limit, window, from);
      var before, e := Accepted(calls[..n]), Event(call.user, call.action, call.now);
      Appended(before, e, user, action, from, from + window);
      if Mine(e, user, action) && from <= e.at <= from + window && !Limited(Table(calls[..n]), call) {
        LimitedIff(calls[..n], call);
        CountWithin(before, user, action, from, from + window, call.now - window);
      }
    }
  }

  // ----- longer windows

  function Repeat<T>(item: T, n: nat): (items: seq<T>)
    ensures |items| == n && forall i :: 0 <= i < n ==> items[i] == item
  {
    if n == 0 then [] else Repeat(item, n - 1) + [item]
  }

  lemma {:induction false} NonePruned(events: seq<Event>, cutoff: int)
    requires forall i :: 0 <= i < |events| ==> events[i].at >= cutoff
    ensures Pruned(events, cutoff) == events
  {
    if events != [] {
      NonePruned(events[..|events| - 1], cutoff);
    }
  }

  lemma {:induction false} AllPruned(events: seq<Event>, cutoff: int)
    requires forall i :: 0 <= i < |events| ==> events[i].at < cutoff
    ensures Pruned(events, cutoff) == []
  {
    if events != [] {
      AllPruned(events[..|events| - 1], cutoff);
    }
  }

  lemma {:induction false} SinceAtMost(events: seq<Event>, user: int, action: string, from: int)
    ensures CountSince(events, user, action, from) <= |events|
  {
    if events != [] {
      SinceAtMost(events[..|events| - 1], user, action, from);
    }
  }

  /** A call goes through when fewer than limit events survive the pruning. */
  lemma LetThrough(calls: seq<Call>, call: Call, kept: seq<Event>)
    requires Pruned(Table(calls), call.now - RETENTION) == kept && |kept| < call.limit
    ensures var e := Event(call.user, call.action, call.now);
            Table(calls + [call]) == kept + [e] && Accepted(calls + [call]) == Accepted(calls) + [e]
  {
    hide Pruned, CountSince;
    SinceAtMost(kept, call.user, call.action, call.now - call.window);
    assert (calls + [call])[..|calls|] == calls;
  }

  lemma {:induction false} AllLetThrough(call: Call, n: nat)
    requires n <= call.limit
    ensures var copies := Repeat(Event(call.user, call.action, call.now), n);
            Table(Repeat(call, n)) == copies && Accepted(Repeat(call, n)) == copies
  {
    if n > 0 {
      AllLetThrough(call, n - 1);
      var calls := Repeat(call, n - 1);
      hide Table, Accepted, Pruned;
      NonePruned(Table(calls), call.now - RETENTION);
      LetThrough(calls, call, Table(calls));
    }
  }

  lemma {:induction false} CountAll(events: seq<Event>, user: int, action: string, from: int, upTo: int)
    requires forall i :: 0 <= i < |events| ==> Mine(events[i], user, action) && from <= events[i].at <= upTo
    ensures Count(events, user, action, from, upTo) == |events|
  {
    if events != [] {
      CountAll(events[..|events| - 1], user, action, from, upTo);
    }
  }

  lemma OneMoreCall(first: Call, last: Call, n: nat)
    requires first.user == last.user && first.action == last.action && first.now <= last.now
    requires first.limit == last.limit && first.window == last.window
    ensures var calls := Repeat(first, n) + [last];
            ClockRuns(calls) && OneRule(calls, first.user, first.action, first.limit, first.window)
  {
  }

  /** With a window longer than the retention the rule breaks: limit calls, and one more after just over an hour. */
  lemma LongWindowBreaks(user: int, action: string, limit: int, window: int) returns (calls: seq<Call>)
    requires limit >= 1 && window > RETENTION
    ensures ClockRuns(calls) && OneRule(calls, user, action, limit, window)
    ensures Count(Accepted(calls), user, action, 0, window) > limit
  {
    hide Table, Accepted, Pruned, Count, ClockRuns, OneRule, Repeat;
    var first, last := Call(user, action, limit, window, 0), Call(user, action, limit, window, RETENTION + 1);
    var before := Repeat(first, limit);
    calls := before + [last];
    OneMoreCall(first, last, limit);
    AllLetThrough(first, limit);
    AllPruned(Table(before), last.now - RETENTION);
    LetThrough(before, last, []);
    CountAll(Accepted(calls), user, action, 0, window);
  }
}

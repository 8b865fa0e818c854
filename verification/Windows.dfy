// The largest number of result words due within one transition (maximum_event_words in content.rs).
module Windows {
  import opened Basics

  datatype Due = Due(due: int, words: nat)

  predicate Within(e: Due, start: int, ticks: nat) {
    start < e.due <= start + ticks
  }

  /** Words of the events due in (start, start + ticks]. */
  function WindowWords(events: seq<Due>, start: int, ticks: nat): nat {
    if events == [] then 0
    else
      var last := events[|events| - 1];
      WindowWords(events[..|events| - 1], start, ticks) + if Within(last, start, ticks) then last.words else 0
  }

  /** The largest window over all start times. */
  ghost predicate IsMaximumWindow(events: seq<Due>, ticks: nat, m: nat) {
    && (forall start :: WindowWords(events, start, ticks) <= m)
    && exists start :: WindowWords(events, start, ticks) == m
  }

  predicate ByDue(events: seq<Due>) {
    forall i, j :: 0 <= i < j < |events| ==> events[i].due <= events[j].due
  }

  function SumRange(events: seq<Due>, lo: nat, hi: nat): nat
    requires lo <= hi <= |events|
    decreases hi
  {
    if lo == hi then 0 else SumRange(events, lo, hi - 1) + events[hi - 1].words
  }

  lemma {:induction false} SumRangeHead(events: seq<Due>, lo: nat, hi: nat)
    requires lo < hi <= |events|
    ensures SumRange(events, lo, hi) == events[lo].words + SumRange(events, lo + 1, hi)
    decreases hi
  {
    if lo + 1 < hi {
      SumRangeHead(events, lo, hi - 1);
    }
  }

  lemma {:induction false} SumRangeWider(events: seq<Due>, lo: nat, inner: nat, hi: nat)
    requires lo <= inner <= hi <= |events|
    ensures SumRange(events, inner, hi) <= SumRange(events, lo, hi)
    decreases inner
  {
    if lo < inner {
      SumRangeHead(events, inner - 1, hi);
      SumRangeWider(events, lo, inner - 1, hi);
    }
  }

  /** A window over sorted events holds a range; if it ends below an index, only that prefix counts. */
  lemma {:induction false} WindowAtMostRange(events: seq<Due>, n: nat, start: int, ticks: nat, lo: nat)
    requires ByDue(events) && lo <= n <= |events|
    requires forall i :: 0 <= i < lo ==> events[i].due <= start
    ensures WindowWords(events[..n], start, ticks) <= SumRange(events, lo, n)
    decreases n
  {
    if n > 0 {
      assert events[..n][..n - 1] == events[..n - 1];
      if lo == n {
        WindowAtMostRange(events, n - 1, start, ticks, n - 1);
      } else {
        WindowAtMostRange(events, n - 1, start, ticks, lo);
      }
    }
  }

  lemma {:induction false} WindowAtLeastRange(events: seq<Due>, n: nat, start: int, ticks: nat, lo: nat)
    requires lo <= n <= |events|
    requires forall i :: lo <= i < n ==> Within(events[i], start, ticks)
    ensures WindowWords(events[..n], start, ticks) >= SumRange(events, lo, n)
    decreases n
  {
    if lo < n {
      assert events[..n][..n - 1] == events[..n - 1];
      WindowAtLeastRange(events, n - 1, start, ticks, lo);
    }
  }

  lemma {:induction false} WindowMonotone(events: seq<Due>, n: nat, start: int, ticks: nat)
    requires n <= |events|
    ensures WindowWords(events[..n], start, ticks) <= WindowWords(events, start, ticks)
    decreases |events| - n
  {
    if n == |events| {
      assert events[..n] == events;
    } else {
      WindowMonotone(events, n + 1, start, ticks);
      assert events[..n + 1][..n] == events[..n];
    }
  }

  /** The state of the sliding sweep after n events. */
  ghost predicate Swept(events: seq<Due>, ticks: nat, n: nat, left: nat, words: nat, maximum: nat) {
    && left <= n <= |events|
    && words == SumRange(events, left, n)
    && (forall i :: left <= i < n ==> events[n - 1].due - events[i].due < ticks)
    && (forall i :: 0 <= i < left ==> n > 0 && events[n - 1].due - events[i].due >= ticks)
    && IsMaximumWindow(events[..n], ticks, maximum)
  }

  /** The sweep's range is what any window ending at the newest event holds at most. */
  lemma NewestWindow(events: seq<Due>, ticks: nat, n: nat, left: nat, maximum: nat, start: int)
    requires ByDue(events) && 0 < n <= |events| && left < n
    requires forall i :: left <= i < n ==> events[n - 1].due - events[i].due < ticks
    requires forall i :: 0 <= i < left ==> events[n - 1].due - events[i].due >= ticks
    requires WindowWords(events[..n - 1], start, ticks) <= maximum
    ensures WindowWords(events[..n], start, ticks) <= Max(maximum, SumRange(events, left, n))
  {
    assert events[..n][..n - 1] == events[..n - 1];
    if Within(events[n - 1], start, ticks) {
      WindowAtMostRange(events, n, start, ticks, left);
    }
  }

  lemma SweptNext(events: seq<Due>, front: seq<Due>, ticks: nat, n: nat, left: nat, maximum: nat)
    requires ByDue(events) && ticks > 0 && 0 < n <= |events| && left < n && front == events[..n - 1]
    requires forall i :: left <= i < n ==> events[n - 1].due - events[i].due < ticks
    requires forall i :: 0 <= i < left ==> events[n - 1].due - events[i].due >= ticks
    requires IsMaximumWindow(front, ticks, maximum)
    ensures Swept(events, ticks, n, left, SumRange(events, left, n), Max(maximum, SumRange(events, left, n)))
  {
    var words := SumRange(events, left, n);
    forall start ensures WindowWords(events[..n], start, ticks) <= Max(maximum, words) {
      NewestWindow(events, ticks, n, left, maximum, start);
    }
    var best :| WindowWords(front, best, ticks) == maximum;
    assert events[..n][..n - 1] == front;
    WindowMonotone(events[..n], n - 1, best, ticks);
    var here := events[left].due - 1;
    WindowAtLeastRange(events, n, here, ticks, left);
    assert WindowWords(events[..n], if words > maximum then here else best, ticks) == Max(maximum, words);
  }

  /** maximum_event_words: on sorted events the sliding sweep finds the largest window of all. */
  method MaximumEventWords(events: seq<Due>, ticks: nat) returns (maximum: nat)
    requires ByDue(events)
    ensures IsMaximumWindow(events, ticks, maximum)
  {
    if ticks == 0 {
      EmptyWindows(events);
      assert WindowWords(events, 0, 0) == 0;
      return 0;
    }
    var left: nat, words: nat := 0, 0;
    maximum := 0;
    assert WindowWords(events[..0], 0, ticks) == 0;
    for n := 0 to |events|
      invariant Swept(events, ticks, n, left, words, maximum)
    {
      words := words + events[n].words;
      while events[n].due - events[left].due >= ticks
        invariant left <= n && words == SumRange(events, left, n + 1)
        invariant forall i :: 0 <= i < left ==> events[n].due - events[i].due >= ticks
        decreases n - left
      {
        SumRangeHead(events, left, n + 1);
        words := words - events[left].words;
        left := left + 1;
      }
      SweptNext(events, events[..n], ticks, n + 1, left, maximum);
      maximum := Max(maximum, words);
    }
    assert events[..|events|] == events;
  }

  lemma {:induction false} EmptyWindows(events: seq<Due>)
    ensures forall start :: WindowWords(events, start, 0) == 0
  {
    if events != [] {
      EmptyWindows(events[..|events| - 1]);
    }
  }

  // ---- Sorting ----

  function InsertDue(sorted: seq<Due>, e: Due): seq<Due> {
    if sorted != [] && e.due < sorted[|sorted| - 1].due
    then InsertDue(sorted[..|sorted| - 1], e) + [sorted[|sorted| - 1]]
    else sorted + [e]
  }

  function SortDue(events: seq<Due>): seq<Due> {
    if events == [] then [] else InsertDue(SortDue(events[..|events| - 1]), events[|events| - 1])
  }

  lemma {:induction false} InsertDueMembers(sorted: seq<Due>, e: Due, x: Due)
    ensures x in InsertDue(sorted, e) <==> x in sorted || x == e
    decreases |sorted|
  {
    if sorted != [] && e.due < sorted[|sorted| - 1].due {
      InsertDueMembers(sorted[..|sorted| - 1], e, x);
      assert sorted == sorted[..|sorted| - 1] + [sorted[|sorted| - 1]];
    }
  }

  lemma {:induction false} InsertDueSorted(sorted: seq<Due>, e: Due)
    requires ByDue(sorted)
    ensures ByDue(InsertDue(sorted, e))
    decreases |sorted|
  {
    if sorted != [] && e.due < sorted[|sorted| - 1].due {
      var front, last := sorted[..|sorted| - 1], sorted[|sorted| - 1];
      InsertDueSorted(front, e);
      var placed := InsertDue(front, e);
      forall i | 0 <= i < |placed| ensures placed[i].due <= last.due {
        InsertDueMembers(front, e, placed[i]);
      }
    }
  }

  lemma {:induction false} InsertDueWindow(sorted: seq<Due>, e: Due, start: int, ticks: nat)
    ensures WindowWords(InsertDue(sorted, e), start, ticks)
         == WindowWords(sorted, start, ticks) + if Within(e, start, ticks) then e.words else 0
    decreases |sorted|
  {
    if sorted != [] && e.due < sorted[|sorted| - 1].due {
      var front := sorted[..|sorted| - 1];
      InsertDueWindow(front, e, start, ticks);
      assert InsertDue(sorted, e)[..|InsertDue(front, e)|] == InsertDue(front, e);
    } else {
      assert (sorted + [e])[..|sorted|] == sorted;
    }
  }

  lemma {:induction false} SortDueSorted(events: seq<Due>)
    ensures ByDue(SortDue(events))
    decreases |events|
  {
    if events != [] {
      SortDueSorted(events[..|events| - 1]);
      InsertDueSorted(SortDue(events[..|events| - 1]), events[|events| - 1]);
    }
  }

  /** Sorting changes no window. */
  lemma {:induction false} SortDueWindow(events: seq<Due>, start: int, ticks: nat)
    ensures WindowWords(SortDue(events), start, ticks) == WindowWords(events, start, ticks)
    decreases |events|
  {
    if events != [] {
      var front, last := events[..|events| - 1], events[|events| - 1];
      SortDueWindow(front, start, ticks);
      InsertDueWindow(SortDue(front), last, start, ticks);
    }
  }

  lemma SortDueMaximum(events: seq<Due>, ticks: nat, m: nat)
    requires IsMaximumWindow(SortDue(events), ticks, m)
    ensures IsMaximumWindow(events, ticks, m)
  {
    forall start ensures WindowWords(events, start, ticks) == WindowWords(SortDue(events), start, ticks) {
      SortDueWindow(events, start, ticks);
    }
  }

  lemma MaximumUnique(events: seq<Due>, ticks: nat, m: nat, n: nat)
    requires IsMaximumWindow(events, ticks, m) && IsMaximumWindow(events, ticks, n)
    ensures m == n
  {
  }

  // ---- A fresh sum per left endpoint (maximum_result_words in deferred_budget.rs) ----

  lemma {:induction false} WindowCut(events: seq<Due>, n: nat, start: int, ticks: nat)
    requires n <= |events| && forall i :: n <= i < |events| ==> !Within(events[i], start, ticks)
    ensures WindowWords(events, start, ticks) == WindowWords(events[..n], start, ticks)
    decreases |events|
  {
    if n == |events| {
      assert events[..n] == events;
    } else {
      var front := events[..|events| - 1];
      WindowCut(front, n, start, ticks);
      assert front[..n] == events[..n];
    }
  }

  function FirstAfter(events: seq<Due>, start: int): (a: nat)
    requires ByDue(events)
    ensures a <= |events|
    ensures forall i :: 0 <= i < a ==> events[i].due <= start
    ensures forall i :: a <= i < |events| ==> events[i].due > start
  {
    if events == [] || events[|events| - 1].due <= start then |events| else FirstAfter(events[..|events| - 1], start)
  }

  /** The run of events from a left endpoint that fit in one window with it. */
  ghost predicate Run(events: seq<Due>, ticks: nat, left: nat, end: nat) {
    && left < end <= |events|
    && (forall i :: left <= i < end ==> events[i].due - events[left].due < ticks)
    && forall i :: end <= i < |events| ==> events[i].due - events[left].due >= ticks
  }

  /** Every window holds at most the run from its first event. */
  lemma WindowAtMostRun(events: seq<Due>, ticks: nat, start: int, end: nat)
    requires ByDue(events) && FirstAfter(events, start) < |events|
    requires Run(events, ticks, FirstAfter(events, start), end)
    ensures WindowWords(events, start, ticks) <= SumRange(events, FirstAfter(events, start), end)
  {
    var a := FirstAfter(events, start);
    WindowCut(events, end, start, ticks);
    WindowAtMostRange(events, end, start, ticks, a);
  }

  lemma RunIsWindow(events: seq<Due>, ticks: nat, left: nat, end: nat)
    requires ByDue(events) && Run(events, ticks, left, end)
    ensures SumRange(events, left, end) <= WindowWords(events, events[left].due - 1, ticks)
  {
    WindowAtLeastRange(events, end, events[left].due - 1, ticks, left);
    WindowMonotone(events, end, events[left].due - 1, ticks);
  }

  /** Words of the run from a left endpoint. */
  method RunWords(events: seq<Due>, ticks: nat, left: nat) returns (words: nat)
    requires ByDue(events) && ticks > 0 && left < |events|
    ensures exists end :: Run(events, ticks, left, end) && words == SumRange(events, left, end)
  {
    words := 0;
    var next := left;
    while next < |events| && events[next].due - events[left].due < ticks
      invariant left <= next <= |events| && words == SumRange(events, left, next)
      invariant forall i :: left <= i < next ==> events[i].due - events[left].due < ticks
    {
      words := words + events[next].words;
      next := next + 1;
    }
    assert Run(events, ticks, left, next);
  }

  lemma NoWindowAfterLast(events: seq<Due>, start: int, ticks: nat)
    requires ByDue(events) && FirstAfter(events, start) == |events|
    ensures WindowWords(events, start, ticks) == 0
  {
    WindowCut(events, 0, start, ticks);
  }

  /** The largest sum over left endpoints is the largest window of all. */
  method MaximumRun(events: seq<Due>, ticks: nat) returns (maximum: nat)
    requires ByDue(events) && ticks > 0
    ensures IsMaximumWindow(events, ticks, maximum)
  {
    maximum := 0;
    ghost var best := if events == [] then 0 else events[|events| - 1].due;
    NoWindowAfterLast(events, best, ticks);
    for left := 0 to |events|
      invariant forall start :: FirstAfter(events, start) < left ==> WindowWords(events, start, ticks) <= maximum
      invariant maximum <= WindowWords(events, best, ticks)
    {
      var words := RunWords(events, ticks, left);
      ghost var end: nat :| Run(events, ticks, left, end) && words == SumRange(events, left, end);
      RunIsWindow(events, ticks, left, end);
      forall start | FirstAfter(events, start) == left ensures WindowWords(events, start, ticks) <= words {
        WindowAtMostRun(events, ticks, start, end);
      }
      if words > maximum {
        best := events[left].due - 1;
      }
      maximum := Max(maximum, words);
    }
    forall start ensures WindowWords(events, start, ticks) <= maximum {
      if FirstAfter(events, start) == |events| {
        NoWindowAfterLast(events, start, ticks);
      }
    }
  }
}

/**
 * The daily-event queue of GameController (game.js): the events available on a day are sorted
 * by priority (every non-exam event before every exam event, by id within each group), queued,
 * and triggered one at a time from the front of the queue.
 */
module DailyEvents {
  import opened Wrappers
  import opened Sorting

  /** A daily event as the queue sees it: its id and whether its `type` is 'exam'. */
  datatype GameEvent = GameEvent(id: string, isExam: bool)

  /**
   * sortEventsByPriority's comparator is negative for (a, b) exactly when a is not an exam and
   * b is, or both are of the same kind and a's id comes first (localeCompare taken as
   * code-point order).
   */
  predicate EventBefore(a: GameEvent, b: GameEvent)
  {
    (!a.isExam && b.isExam) || (a.isExam == b.isExam && StrLt(a.id, b.id))
  }

  /** The comparator is a strict weak order, so the sort it drives is well defined. */
  lemma EventBeforeOrder()
    ensures StrictWeakOrder(EventBefore)
  {
    forall x: GameEvent
      ensures !EventBefore(x, x)
    {
      StrLtIrreflexive(x.id);
    }
    forall x: GameEvent, y: GameEvent, z: GameEvent | EventBefore(x, y) && EventBefore(y, z)
      ensures EventBefore(x, z)
    {
      if x.isExam == y.isExam == z.isExam {
        StrLtTransitive(x.id, y.id, z.id);
      }
    }
    forall x: GameEvent, y: GameEvent, z: GameEvent | EventBefore(x, z)
      ensures EventBefore(x, y) || EventBefore(y, z)
    {
      if x.isExam == y.isExam == z.isExam && !EventBefore(x, y) {
        StrLtTotal(x.id, y.id);
        if StrLt(y.id, x.id) {
          StrLtTransitive(y.id, x.id, z.id);
        }
      }
    }
  }

  /**
   * The order sortEventsByPriority leaves: the same events, no exam event before a non-exam
   * one, ids in order within each kind, and events with the same kind and id in the order they
   * were found.
   */
  lemma SortedByPriority(events: seq<GameEvent>, e: GameEvent)
    ensures var r := StableSort(events, EventBefore);
      && multiset(r) == multiset(events)
      && (forall i, j :: 0 <= i < j < |r| && r[i].isExam ==> r[j].isExam)
      && (forall i, j :: 0 <= i < j < |r| && r[i].isExam == r[j].isExam ==> !StrLt(r[j].id, r[i].id))
      && TiesWith(r, EventBefore, e) == TiesWith(events, EventBefore, e)
  {
    EventBeforeOrder();
    StableSortSorted(events, EventBefore);
    StableSortStable(events, EventBefore, e);
  }

  /**
   * sortEventsByPriority: `events.sort(comparator)`, in place. The result of the library sort
   * is computed, then written back over the array.
   */
  method SortEventsByPriority(events: array<GameEvent>)
    modifies events
    ensures events[..] == StableSort(old(events[..]), EventBefore)
  {
    var sorted := StableSort(events[..], EventBefore);
    var i := 0;
    while i < events.Length
      invariant 0 <= i <= events.Length
      invariant forall k :: 0 <= k < i ==> events[k] == sorted[k]
    {
      events[i] := sorted[i];
      i := i + 1;
    }
    assert events[..] == sorted;
  }

  // ---------------------------------------------------------------- the queue

  /** `dailyEventQueue` and `processingDailyEvents` together. */
  datatype DailyState = DailyState(queue: seq<GameEvent>, processing: bool)

  /**
   * processNextDailyEvent: while processing and the queue is not empty, shift its front and
   * trigger it; otherwise stop processing and empty the queue. Gives the triggered event.
   */
  function Dequeue(d: DailyState): (Option<GameEvent>, DailyState)
  {
    if |d.queue| > 0 && d.processing then (Some(d.queue[0]), DailyState(d.queue[1..], true))
    else (None, DailyState([], false))
  }

  /**
   * checkDailyEvents with `available` the day's events: when there are some, queue them in
   * priority order, start processing and trigger the first; when there are none the day's
   * routine runs instead and the queue is left as it is.
   */
  function CheckEvents(d: DailyState, available: seq<GameEvent>): (Option<GameEvent>, DailyState)
  {
    if |available| > 0 then Dequeue(DailyState(StableSort(available, EventBefore), true))
    else (None, d)
  }

  /** The events triggered by `n` calls of processNextDailyEvent in a row, and the state after them. */
  function Drain(d: DailyState, n: nat): (seq<GameEvent>, DailyState)
    decreases n
  {
    if n == 0 then ([], d)
    else
      var (first, d') := Dequeue(d);
      var (rest, d'') := Drain(d', n - 1);
      ((if first.Some? then [first.value] else []) + rest, d'')
  }

  /**
   * The queue is first in, first out: while processing, as many calls as there are queued
   * events trigger exactly those events in queue order, and the next call ends the processing.
   */
  lemma {:induction false} DrainFifo(queue: seq<GameEvent>)
    ensures Drain(DailyState(queue, true), |queue|) == (queue, DailyState([], true))
    ensures Dequeue(DailyState([], true)) == (None, DailyState([], false))
  {
    if |queue| > 0 {
      DrainFifo(queue[1..]);
      assert [queue[0]] + queue[1..] == queue;
    }
  }

  /**
   * A day with events triggers all of them, in priority order: the one checkDailyEvents
   * triggers, then the ones the following calls of processNextDailyEvent trigger.
   */
  lemma DayTriggersSorted(d: DailyState, available: seq<GameEvent>)
    requires |available| > 0
    ensures var (first, d') := CheckEvents(d, available);
      var sorted := StableSort(available, EventBefore);
      first == Some(sorted[0]) && d'.processing &&
      [first.value] + Drain(d', |available| - 1).0 == sorted
  {
    var sorted := StableSort(available, EventBefore);
    var rest := sorted[1..];
    assert CheckEvents(d, available) == (Some(sorted[0]), DailyState(rest, true));
    assert |rest| == |available| - 1;
    DrainFifo(rest);
    HeadTail(sorted);
  }

  lemma HeadTail<T>(s: seq<T>)
    requires |s| > 0
    ensures [s[0]] + s[1..] == s
  {
  }
}

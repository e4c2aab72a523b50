/** The replay manager: plays the events of a file one by one on a timer, once or in a loop. */
module ReplayManager {
  import opened Common

  /** A replay event: when it happens, in milliseconds, and what is sent. */
  datatype Event = Event(time: int, kind: string, name: string)

  const DEFAULT_LOOP_INTERVAL := 5000

  predicate IsInit(e: Event) {
    e.kind == "OTHER" && e.name == "Init"
  }

  /** The event processed when an index falls due: the next one, if an Init is to be ignored. */
  function Processed(events: seq<Event>, ignoreInit: bool, i: nat): nat
    requires i < |events|
  {
    if IsInit(events[i]) && ignoreInit then i + 1 else i
  }

  /** What a file must be, from an index on, for the code not to panic: no ignored Init falls due at the
      last index, and each timer is set to a positive time. */
  predicate Playable(events: seq<Event>, ignoreInit: bool, i: nat)
    requires i <= |events|
    decreases |events| - i
  {
    i < |events| ==>
      var p := Processed(events, ignoreInit, i);
      && p < |events|
      && (p + 1 < |events| ==> events[p].time < events[p + 1].time)
      && Playable(events, ignoreInit, p + 1)
  }

  /** What is sent when an index falls due: nothing for an Init that is not ignored. */
  function SentAt(events: seq<Event>, ignoreInit: bool, i: nat): seq<Event>
    requires i < |events| && Processed(events, ignoreInit, i) < |events|
  {
    if IsInit(events[i]) && !ignoreInit then [] else [events[Processed(events, ignoreInit, i)]]
  }

  /** What is sent from an index on. */
  function SentFrom(events: seq<Event>, ignoreInit: bool, i: nat): seq<Event>
    requires i <= |events| && Playable(events, ignoreInit, i)
    decreases |events| - i
  {
    if i == |events| then []
    else SentAt(events, ignoreInit, i) + SentFrom(events, ignoreInit, Processed(events, ignoreInit, i) + 1)
  }

  /** The events that are no Inits, in order. */
  function Proper(events: seq<Event>): seq<Event> {
    if events == [] then [] else (if events[0].kind == "OTHER" && events[0].name == "Init" then [] else [events[0]]) + Proper(events[1..])
  }

  /** Two Inits in a row. */
  ghost predicate InitsInARow(events: seq<Event>) {
    exists i :: 0 <= i < |events| - 1 && IsInit(events[i]) && IsInit(events[i + 1])
  }

  lemma {:induction false} NoneIsInit(events: seq<Event>)
    ensures forall e :: e in Proper(events) ==> !IsInit(e)
  {
    if events != [] { NoneIsInit(events[1..]); }
  }

  lemma {:induction false} SentProper(events: seq<Event>, ignoreInit: bool, i: nat)
    requires i <= |events| && Playable(events, ignoreInit, i)
    requires ignoreInit ==> !InitsInARow(events)
    ensures SentFrom(events, ignoreInit, i) == Proper(events[i..])
    decreases |events| - i
  {
    if i < |events| {
      var p := Processed(events, ignoreInit, i);
      SentProper(events, ignoreInit, p + 1);
      ProperStep(events, i);
      if p == i + 1 { ProperStep(events, p); }
    }
  }

  lemma ProperStep(events: seq<Event>, i: nat)
    requires i < |events|
    ensures Proper(events[i..]) == if IsInit(events[i]) then Proper(events[i + 1..]) else [events[i]] + Proper(events[i + 1..])
  {
    assert events[i..][1..] == events[i + 1..];
    assert IsInit(events[i]) ==> [] + Proper(events[i + 1..]) == Proper(events[i + 1..]);
  }

  /** With Inits ignored the second of two in a row is sent. */
  lemma {:induction false} SecondIsSent(events: seq<Event>, i: nat, k: nat)
    requires i <= k < |events| - 1 && Playable(events, true, i)
    requires IsInit(events[k]) && IsInit(events[k + 1])
    ensures exists e :: e in SentFrom(events, true, i) && IsInit(e)
    decreases |events| - i
  {
    var p := Processed(events, true, i);
    if i == k || IsInit(events[p]) {
      assert events[p] in SentAt(events, true, i) && IsInit(events[p]);
    } else {
      SecondIsSent(events, p + 1, k);
      var e :| e in SentFrom(events, true, p + 1) && IsInit(e);
      assert e in SentFrom(events, true, i);
    }
  }

  /** A round sends all events but the Inits, in order, if and only if Inits are not ignored or no two of
      them are in a row. */
  lemma SentExactly(events: seq<Event>, ignoreInit: bool)
    requires Playable(events, ignoreInit, 0)
    ensures SentFrom(events, ignoreInit, 0) == Proper(events) <==> !ignoreInit || !InitsInARow(events)
  {
    assert events[0..] == events;
    if ignoreInit && InitsInARow(events) {
      var k :| 0 <= k < |events| - 1 && IsInit(events[k]) && IsInit(events[k + 1]);
      SecondIsSent(events, 0, k);
      NoneIsInit(events);
    } else {
      SentProper(events, ignoreInit, 0);
    }
  }

  /** The time waited after the event at an index is processed, until the last one is. */
  function WaitAfter(events: seq<Event>, ignoreInit: bool, p: nat): int
    requires p < |events| && Playable(events, ignoreInit, p + 1)
    decreases |events| - p
  {
    if p + 1 == |events| then 0
    else events[p + 1].time - events[p].time + WaitAfter(events, ignoreInit, Processed(events, ignoreInit, p + 1))
  }

  /** The time by which events are early, as those after an ignored Init are sent when the Init falls due. */
  function Early(events: seq<Event>, ignoreInit: bool, p: nat): int
    requires p < |events| && Playable(events, ignoreInit, p + 1)
    decreases |events| - p
  {
    if p + 1 == |events| then 0
    else
      var q := Processed(events, ignoreInit, p + 1);
      events[q].time - events[p + 1].time + Early(events, ignoreInit, q)
  }

  /** A round waits the time from its first event to its last, less what ignored Inits make it early. */
  lemma {:induction false} WaitsMeans(events: seq<Event>, ignoreInit: bool, p: nat)
    requires p < |events| && Playable(events, ignoreInit, p + 1)
    ensures WaitAfter(events, ignoreInit, p) == events[|events| - 1].time - events[p].time - Early(events, ignoreInit, p)
    decreases |events| - p
  {
    if p + 1 < |events| { WaitsMeans(events, ignoreInit, Processed(events, ignoreInit, p + 1)); }
  }

  /** No time is lost if no Init is ignored but at the start. */
  lemma {:induction false} NothingEarly(events: seq<Event>, ignoreInit: bool, p: nat)
    requires p < |events| && Playable(events, ignoreInit, p + 1)
    requires ignoreInit ==> forall k :: p < k < |events| ==> !IsInit(events[k])
    ensures Early(events, ignoreInit, p) == 0
    decreases |events| - p
  {
    if p + 1 < |events| { NothingEarly(events, ignoreInit, p + 1); }
  }

  lemma SumMore(waits: seq<int>, wait: int)
    ensures Sum(waits + [wait]) == Sum(waits) + wait
  {
    SumAppend(waits, [wait]);
    assert [wait][..0] == [];
  }

  /** What was sent or waited and what is left from an index on make up the whole round. */
  ghost predicate BeforeIndex(events: seq<Event>, ignoreInit: bool, sent: seq<Event>, waits: seq<int>, index: nat) {
    && index < |events| && Playable(events, ignoreInit, 0) && Playable(events, ignoreInit, index)
    && sent + SentFrom(events, ignoreInit, index) == SentFrom(events, ignoreInit, 0)
    && Sum(waits) + WaitAfter(events, ignoreInit, Processed(events, ignoreInit, index))
       == WaitAfter(events, ignoreInit, Processed(events, ignoreInit, 0))
    && if index == 0 then Sum(waits) == 0 else Sum(waits) > 0
  }

  /** The event of an index is processed, and so is all before it. */
  ghost predicate AfterIndex(events: seq<Event>, ignoreInit: bool, sent: seq<Event>, waits: seq<int>, index: nat) {
    && index < |events| && Playable(events, ignoreInit, 0) && Playable(events, ignoreInit, index + 1)
    && (index + 1 < |events| ==> events[index].time < events[index + 1].time)
    && sent + SentFrom(events, ignoreInit, index + 1) == SentFrom(events, ignoreInit, 0)
    && Sum(waits) + WaitAfter(events, ignoreInit, index) == WaitAfter(events, ignoreInit, Processed(events, ignoreInit, 0))
    && Sum(waits) >= 0
  }

  /** What is sent when an index falls due is taken from what remains to be sent. */
  lemma OneMoreSent(events: seq<Event>, ignoreInit: bool, was: seq<Event>, now: seq<Event>, waits: seq<int>, i: nat)
    requires BeforeIndex(events, ignoreInit, was, waits, i)
    requires now == if IsInit(events[i]) && !ignoreInit then was else was + [events[Processed(events, ignoreInit, i)]]
    ensures AfterIndex(events, ignoreInit, now, waits, Processed(events, ignoreInit, i))
  {
    var p := Processed(events, ignoreInit, i);
    Regrouped(was, SentAt(events, ignoreInit, i), SentFrom(events, ignoreInit, p + 1));
  }

  /** The wait for the next event is taken from what remains to be waited. */
  lemma WaitsForNext(events: seq<Event>, ignoreInit: bool, sent: seq<Event>, waits: seq<int>, i: nat, diff: int)
    requires AfterIndex(events, ignoreInit, sent, waits, i) && i + 1 < |events| && diff == events[i + 1].time - events[i].time
    ensures BeforeIndex(events, ignoreInit, sent, waits + [diff], i + 1) && diff > 0
  {
    SumMore(waits, diff);
  }

  /** After the last event nothing remains. */
  lemma AllIsSent(events: seq<Event>, ignoreInit: bool, sent: seq<Event>, waits: seq<int>, i: nat)
    requires AfterIndex(events, ignoreInit, sent, waits, i) && i + 1 == |events|
    ensures sent == SentFrom(events, ignoreInit, 0)
    ensures Sum(waits) == WaitAfter(events, ignoreInit, Processed(events, ignoreInit, 0))
  {
  }

  lemma Regrouped<T>(a: seq<T>, b: seq<T>, c: seq<T>)
    ensures a + b + c == a + (b + c)
    ensures b == [] ==> a + b == a
  {
  }

  // ----- The remaining times of the status

  function NotNegative(t: int): int {
    if t < 0 then 0 else t
  }

  /** What the status takes off the times of events: that of the second event, if Inits are ignored. */
  function Offset(events: seq<Event>, ignoreInit: bool): int
    requires |events| > 1
  {
    if ignoreInit then events[1].time else 0
  }

  /** The milliseconds left until an event, as the status tells them, for those elapsed since the start. */
  function TimeLeft(events: seq<Event>, index: nat, ignoreInit: bool, elapsed: int): int
    requires index < |events| && |events| > 1
  {
    NotNegative(events[index].time - Offset(events, ignoreInit) - elapsed)
  }

  /** At any moment before an event falls due the time told is the time left if and only if the offset is
      what the event's own time is ahead of the moment it falls due. */
  lemma TimeLeftRight(events: seq<Event>, index: nat, ignoreInit: bool, due: int)
    requires |events| > 1 && index < |events|
    ensures forall elapsed :: elapsed < due ==>
      (TimeLeft(events, index, ignoreInit, elapsed) == due - elapsed <==> Offset(events, ignoreInit) == events[index].time - due)
    ensures Offset(events, ignoreInit) == events[index].time - due ==>
      forall elapsed :: TimeLeft(events, index, ignoreInit, elapsed) == NotNegative(due - elapsed)
  {
  }

  /** From one moment of a round until an index falls due the status is right: it tells the time left to that
      moment and to the one when the last event is processed. */
  ghost predicate RightUntil(events: seq<Event>, ignoreInit: bool, i: nat, from: int, due: int)
    requires |events| > 1 && i < |events| && Playable(events, ignoreInit, i)
  {
    && TellsLeft(events, i, ignoreInit, from, due, due)
    && TellsLeft(events, |events| - 1, ignoreInit, from, due,
                 due + WaitAfter(events, ignoreInit, Processed(events, ignoreInit, i)))
  }

  /** Between two moments of the round the time told for an event is that left until it falls due. */
  ghost predicate TellsLeft(events: seq<Event>, index: nat, ignoreInit: bool, from: int, until: int, due: int)
    requires |events| > 1 && index < |events|
  {
    forall elapsed :: from <= elapsed < until ==> TimeLeft(events, index, ignoreInit, elapsed) == due - elapsed
  }

  lemma TellsLeftExactly(events: seq<Event>, index: nat, ignoreInit: bool, from: int, until: int, due: int)
    requires |events| > 1 && index < |events| && from < until <= due
    ensures TellsLeft(events, index, ignoreInit, from, until, due)
            <==> Offset(events, ignoreInit) == events[index].time - due
  {
    if TellsLeft(events, index, ignoreInit, from, until, due) {
      assert TimeLeft(events, index, ignoreInit, from) == due - from;
    }
  }

  /** The status is right in each wait that remains of a round, once an event is processed. */
  ghost predicate RightFrom(events: seq<Event>, ignoreInit: bool, p: nat, waited: int)
    requires |events| > 1 && p < |events| && Playable(events, ignoreInit, p + 1)
    decreases |events| - p
  {
    p + 1 < |events| ==>
      var due := waited + events[p + 1].time - events[p].time;
      && RightUntil(events, ignoreInit, p + 1, waited, due)
      && RightFrom(events, ignoreInit, Processed(events, ignoreInit, p + 1), due)
  }

  /** What follows an ignored Init that falls due later has the time of the Init. */
  predicate NoneEarly(events: seq<Event>, ignoreInit: bool, p: nat)
    requires p < |events| && Playable(events, ignoreInit, p + 1)
    decreases |events| - p
  {
    p + 1 < |events| ==>
      var q := Processed(events, ignoreInit, p + 1);
      events[q].time == events[p + 1].time && NoneEarly(events, ignoreInit, q)
  }

  /** Where times never fall, that is when no time is lost at all. */
  lemma {:induction false} NoneEarlyIffNoTimeLost(events: seq<Event>, ignoreInit: bool, p: nat)
    requires p < |events| && Playable(events, ignoreInit, p + 1)
    requires forall k :: 0 <= k < |events| - 1 ==> events[k].time <= events[k + 1].time
    ensures Early(events, ignoreInit, p) >= 0
    ensures NoneEarly(events, ignoreInit, p) <==> Early(events, ignoreInit, p) == 0
    decreases |events| - p
  {
    if p + 1 < |events| { NoneEarlyIffNoTimeLost(events, ignoreInit, Processed(events, ignoreInit, p + 1)); }
  }

  lemma {:induction false} NoneEarlyLosesNothing(events: seq<Event>, ignoreInit: bool, p: nat)
    requires p < |events| && Playable(events, ignoreInit, p + 1) && NoneEarly(events, ignoreInit, p)
    ensures Early(events, ignoreInit, p) == 0
    decreases |events| - p
  {
    if p + 1 < |events| { NoneEarlyLosesNothing(events, ignoreInit, Processed(events, ignoreInit, p + 1)); }
  }

  lemma RightUntilExactly(events: seq<Event>, ignoreInit: bool, i: nat, from: int, due: int)
    requires |events| > 1 && i < |events| && Playable(events, ignoreInit, i) && from < due
    ensures RightUntil(events, ignoreInit, i, from, due) <==>
            && Offset(events, ignoreInit) == events[i].time - due
            && Offset(events, ignoreInit)
               == events[|events| - 1].time - (due + WaitAfter(events, ignoreInit, Processed(events, ignoreInit, i)))
  {
    var end := due + WaitAfter(events, ignoreInit, Processed(events, ignoreInit, i));
    WaitNotNegative(events, ignoreInit, i);
    TellsLeftExactly(events, i, ignoreInit, from, due, due);
    TellsLeftExactly(events, |events| - 1, ignoreInit, from, due, end);
  }

  lemma {:induction false} WaitNotNegative(events: seq<Event>, ignoreInit: bool, i: nat)
    requires i < |events| && Playable(events, ignoreInit, i)
    ensures WaitAfter(events, ignoreInit, Processed(events, ignoreInit, i)) >= 0
    decreases |events| - i
  {
    var p := Processed(events, ignoreInit, i);
    if p + 1 < |events| { WaitNotNegative(events, ignoreInit, p + 1); }
  }

  lemma {:induction false} RightFromExactly(events: seq<Event>, ignoreInit: bool, i: nat, waited: int)
    requires |events| > 1 && i < |events| && Playable(events, ignoreInit, i)
    ensures var p := Processed(events, ignoreInit, i);
      RightFrom(events, ignoreInit, p, waited) <==>
      (p + 1 < |events| ==> Offset(events, ignoreInit) == events[p].time - waited && NoneEarly(events, ignoreInit, p))
    decreases |events| - i
  {
    var p := Processed(events, ignoreInit, i);
    if p + 1 < |events| {
      var q, due := Processed(events, ignoreInit, p + 1), waited + events[p + 1].time - events[p].time;
      RightUntilExactly(events, ignoreInit, p + 1, waited, due);
      RightFromExactly(events, ignoreInit, p + 1, due);
      WaitsMeans(events, ignoreInit, q);
      if NoneEarly(events, ignoreInit, q) { NoneEarlyLosesNothing(events, ignoreInit, q); }
    }
  }

  /** The remaining times told are right throughout a round if and only if the first event is an ignored
      Init, or none is ignored and it is at time zero, and no ignored Init makes anything early later. */
  lemma StatusRightThroughout(events: seq<Event>, ignoreInit: bool)
    requires |events| > 1 && Playable(events, ignoreInit, 0) && Processed(events, ignoreInit, 0) + 1 < |events|
    ensures RightFrom(events, ignoreInit, Processed(events, ignoreInit, 0), 0) <==>
            && (if ignoreInit then IsInit(events[0]) else events[0].time == 0)
            && NoneEarly(events, ignoreInit, Processed(events, ignoreInit, 0))
  {
    RightFromExactly(events, ignoreInit, 0, 0);
  }

  /** In the wait between two rounds the time told is the time left at no moment, unless the first event is
      ahead of the offset by a whole round and the wait. */
  lemma LoopWaitRight(events: seq<Event>, ignoreInit: bool)
    requires |events| > 1 && Playable(events, ignoreInit, 0)
    ensures var round := WaitAfter(events, ignoreInit, Processed(events, ignoreInit, 0));
      forall elapsed :: round <= elapsed < round + DEFAULT_LOOP_INTERVAL ==>
        (TimeLeft(events, 0, ignoreInit, elapsed) == round + DEFAULT_LOOP_INTERVAL - elapsed
         <==> Offset(events, ignoreInit) == events[0].time - (round + DEFAULT_LOOP_INTERVAL))
    ensures events[0].time <= Offset(events, ignoreInit) ==>
      forall elapsed :: elapsed >= 0 ==> TimeLeft(events, 0, ignoreInit, elapsed) == 0
  {
    TimeLeftRight(events, 0, ignoreInit, WaitAfter(events, ignoreInit, Processed(events, ignoreInit, 0)) + DEFAULT_LOOP_INTERVAL);
  }

  /** After the second event of these the last follows in 10 milliseconds, and the status says 40. */
  lemma LaterInitIsNotTold()
    ensures var events := [Event(0, "OTHER", "Init"), Event(10, "", "a"), Event(20, "OTHER", "Init"), Event(50, "", "b")];
      && Playable(events, true, 0) && IsInit(events[0]) && !InitsInARow(events)
      && WaitAfter(events, true, 1) == 10 && TimeLeft(events, 3, true, 0) == 40
  {
    var events := [Event(0, "OTHER", "Init"), Event(10, "", "a"), Event(20, "OTHER", "Init"), Event(50, "", "b")];
    assert Playable(events, true, 4) && Playable(events, true, 2);
    assert WaitAfter(events, true, 3) == 0;
  }

  datatype Status = Status(file: string, index: int, maxIndex: int, loopMode: bool, timeToNextEvent: int, timeRemaining: int)

  class ReplayMgr {
    var currentFileName: string
    var isStarted: bool
    var nextEventIndex: int
    var eventIndexMax: int
    var events: seq<Event>
    var loop: bool
    var ignoreInitEvent: bool
    /** The events sent and the waits set in this round, and the event processed last. */
    ghost var sent: seq<Event>
    ghost var waits: seq<int>
    ghost var lastPlayed: int
    /** The milliseconds the timer was last set to. */
    ghost var timer: int

    /** A round is over: everything was sent, and all waits were waited. */
    ghost predicate RoundOver()
      reads this`events, this`ignoreInitEvent, this`lastPlayed, this`eventIndexMax, this`sent, this`waits
    {
      && |events| > 1 && Playable(events, ignoreInitEvent, 0) && lastPlayed == eventIndexMax == |events| - 1
      && sent == SentFrom(events, ignoreInitEvent, 0)
      && Sum(waits) == WaitAfter(events, ignoreInitEvent, Processed(events, ignoreInitEvent, 0))
    }

    ghost predicate DoneUntil(index: nat)
      reads this`events, this`ignoreInitEvent, this`sent, this`waits
    {
      BeforeIndex(events, ignoreInitEvent, sent, waits, index)
    }

    ghost predicate DoneThrough(index: nat)
      reads this`events, this`ignoreInitEvent, this`sent, this`waits
    {
      AfterIndex(events, ignoreInitEvent, sent, waits, index)
    }

    /** Within a round it is done until the next index, and the event before that was processed last. */
    ghost predicate InRound()
      reads this`events, this`ignoreInitEvent, this`lastPlayed, this`nextEventIndex, this`eventIndexMax, this`sent, this`waits
    {
      && |events| > 1 && eventIndexMax == |events| - 1 && 0 < nextEventIndex <= eventIndexMax
      && lastPlayed == nextEventIndex - 1 && DoneUntil(nextEventIndex)
    }

    /** After an event was processed, the timer is set to the time until the next, or to five seconds before the
        first of another round. */
    ghost predicate TimedAfter(index: int)
      reads this`events, this`nextEventIndex, this`timer
    {
      if nextEventIndex == 0 then timer == 5000
      else 0 <= index < |events| && 0 <= nextEventIndex < |events| && timer == events[nextEventIndex].time - events[index].time
    }

    ghost predicate Valid()
      reads this
    {
      isStarted ==> if nextEventIndex == 0 then loop && RoundOver() else InRound()
    }

    constructor ()
      ensures Valid() && !isStarted
    {
      isStarted := false;
    }

    /** A replay is refused while one runs, or if it has fewer than two events; else its first event is
        played at once. */
    method Start(fileName: string, replay: seq<Event>, looping: bool, ignoreInit: bool) returns (started: bool)
      requires Valid() && Playable(replay, ignoreInit, 0)
      modifies this
      ensures Valid()
      ensures started <==> !old(isStarted) && |replay| > 1
      ensures !started ==> isStarted == old(isStarted) && events == old(events) && nextEventIndex == old(nextEventIndex)
      ensures started ==> currentFileName == fileName && events == replay && loop == looping && ignoreInitEvent == ignoreInit
      ensures started ==> lastPlayed == Processed(replay, ignoreInit, 0)
      ensures started && isStarted ==> nextEventIndex == if lastPlayed != |replay| - 1 then lastPlayed + 1 else 0
      ensures started && !isStarted ==> RoundOver() && !loop
    {
      if isStarted {
        return false;
      } else if |replay| <= 1 {
        return false;
      }
      isStarted := true;
      nextEventIndex := 0;
      events := replay;
      eventIndexMax := |replay| - 1;
      loop := looping;
      currentFileName := fileName;
      ignoreInitEvent := ignoreInit;
      PlayEventByIndex();
      started := true;
    }

    /** An event is played when its time has come. Unless it was the last of a run that does not loop,
        the timer is set for the next. */
    method PlayEventByIndex()
      requires isStarted && |events| > 1 && eventIndexMax == |events| - 1
      requires if nextEventIndex == 0 then Playable(events, ignoreInitEvent, 0) else InRound()
      modifies this`nextEventIndex, this`isStarted, this`sent, this`waits, this`lastPlayed, this`timer
      ensures Valid() && events == old(events) && loop == old(loop)
      ensures isStarted ==> TimedAfter(lastPlayed)
      ensures lastPlayed == Processed(events, ignoreInitEvent, old(nextEventIndex))
      ensures isStarted <==> lastPlayed != eventIndexMax || loop
      ensures !isStarted ==> RoundOver()
      ensures isStarted ==> nextEventIndex == if lastPlayed != eventIndexMax then lastPlayed + 1 else 0
    {
      if nextEventIndex == 0 {
        StartRound();
      }
      var index := SendNext();
      SetTimer(index);
    }

    /** The event of the next index is sent, or the one after an Init to be ignored; an Init that is not
        ignored is not sent. */
    method SendNext() returns (index: nat)
      requires 0 <= nextEventIndex && DoneUntil(nextEventIndex)
      modifies this`sent, this`lastPlayed
      ensures index == lastPlayed == Processed(events, ignoreInitEvent, nextEventIndex) && DoneThrough(index)
    {
      index := nextEventIndex;
      var replayEvent := events[index];
      var isInitEvent := false;
      if IsInit(replayEvent) {
        if ignoreInitEvent {
          index := index + 1;
          replayEvent := events[index];
        } else {
          isInitEvent := true;
        }
      }
      ghost var was := sent;
      if !isInitEvent {
        sent := sent + [replayEvent];
      }
      lastPlayed := index;
      OneMoreSent(events, ignoreInitEvent, was, sent, waits, nextEventIndex);
    }

    ghost method StartRound()
      requires events != [] && Playable(events, ignoreInitEvent, 0)
      modifies this`sent, this`waits
      ensures DoneUntil(0)
    {
      sent, waits := [], [];
    }

    /** After an event is processed, the timer is set for the next one, or the replay is over. */
    method SetTimer(index: nat)
      requires isStarted && |events| > 1 && eventIndexMax == |events| - 1
      requires lastPlayed == index && DoneThrough(index)
      modifies this`nextEventIndex, this`isStarted, this`waits, this`timer
      ensures Valid() && (isStarted <==> index != eventIndexMax || loop)
      ensures isStarted ==> TimedAfter(index)
      ensures !isStarted ==> RoundOver()
      ensures isStarted ==> nextEventIndex == if index != eventIndexMax then index + 1 else 0
    {
      if index == eventIndexMax {
        AllIsSent(events, ignoreInitEvent, sent, waits, index);
      }
      var nextIndex := 0;
      if index != eventIndexMax {
        nextIndex := index + 1;
      } else if loop {
        nextIndex := 0;
      } else {
        nextIndex := -1;
      }
      if nextIndex != -1 {
        var diff := DEFAULT_LOOP_INTERVAL;
        if nextIndex != 0 {
          diff := WaitForNext(index);
        }
        assert diff > 0;
        timer := diff;
        nextEventIndex := nextIndex;
      } else {
        Completed();
      }
    }

    /** The wait between an event and the next one. */
    method WaitForNext(index: nat) returns (diff: int)
      requires index + 1 < |events| && DoneThrough(index)
      modifies this`waits
      ensures DoneUntil(index + 1) && diff == events[index + 1].time - events[index].time > 0
    {
      diff := events[index + 1].time - events[index].time;
      WaitsForNext(events, ignoreInitEvent, sent, waits, index, diff);
      waits := waits + [diff];
    }

    /** The timer fires until it is set no more: a run that does not loop sends every event once. */
    method FireUntilDone()
      requires Valid() && isStarted && !loop
      modifies this`nextEventIndex, this`isStarted, this`sent, this`waits, this`lastPlayed, this`timer
      ensures !isStarted && RoundOver() && events == old(events)
    {
      while isStarted
        invariant Valid() && !loop && events == old(events) && (!isStarted ==> RoundOver())
        decreases isStarted, eventIndexMax - nextEventIndex
      {
        PlayEventByIndex();
      }
    }

    method Completed()
      modifies this`isStarted
      ensures !isStarted
    {
      isStarted := false;
    }

    method ForceStop() returns (stopped: bool)
      requires Valid()
      modifies this`isStarted
      ensures Valid() && !isStarted && stopped == old(isStarted)
    {
      stopped := isStarted;
      if isStarted {
        Completed();
      }
    }

    /** Only the file that runs is stopped. */
    method Stop(fileName: string) returns (stopped: bool)
      requires Valid()
      modifies this`isStarted
      ensures Valid() && (stopped <==> old(isStarted) && currentFileName == fileName)
      ensures isStarted == (old(isStarted) && !stopped)
    {
      stopped := isStarted && currentFileName == fileName;
      if stopped {
        Completed();
      }
    }

    method GetTimesRemaining(elapsed: int) returns (toNext: int, toLast: int)
      requires |events| > 1 && 0 <= nextEventIndex < |events| && 0 <= eventIndexMax < |events|
      ensures toNext == TimeLeft(events, nextEventIndex, ignoreInitEvent, elapsed)
      ensures toLast == TimeLeft(events, eventIndexMax, ignoreInitEvent, elapsed)
    {
      var passed := elapsed;
      if ignoreInitEvent {
        passed := passed + events[1].time;
      }
      toNext := events[nextEventIndex].time - passed;
      toLast := events[eventIndexMax].time - passed;
      if toNext < 0 {
        toNext := 0;
      }
      if toLast < 0 {
        toLast := 0;
      }
    }

    /** The milliseconds into the round when the timer set last fires. */
    ghost function NextDue(): int
      reads this`nextEventIndex, this`waits
    {
      Sum(waits) + if nextEventIndex == 0 then DEFAULT_LOOP_INTERVAL else 0
    }

    /** The milliseconds into the round when the last event is processed. */
    ghost function LastDue(): int
      reads this`events, this`ignoreInitEvent, this`nextEventIndex, this`waits
      requires 0 <= nextEventIndex < |events| && Playable(events, ignoreInitEvent, nextEventIndex)
    {
      Sum(waits) + WaitAfter(events, ignoreInitEvent, Processed(events, ignoreInitEvent, nextEventIndex))
    }

    /** While a replay runs the status is that of the event processed last, with the times told until the
        next event and the last, for the milliseconds elapsed since the start of the run or of the round.
        They are right, at any moment before the timer fires, if and only if the offset is what the times of
        these events are ahead of the moments they fall due. */
    method GetStatus(elapsed: int) returns (status: Option<Status>)
      requires Valid()
      ensures status.Some? <==> isStarted
      ensures isStarted ==> 0 <= nextEventIndex < |events| && 0 <= lastPlayed < |events|
      ensures isStarted ==> status.value == Status(currentFileName, lastPlayed, |events| - 1, loop,
                                                   TimeLeft(events, nextEventIndex, ignoreInitEvent, elapsed),
                                                   TimeLeft(events, |events| - 1, ignoreInitEvent, elapsed))
      ensures isStarted && elapsed < NextDue() ==>
        (status.value.timeToNextEvent == NextDue() - elapsed
         <==> Offset(events, ignoreInitEvent) == events[nextEventIndex].time - NextDue())
      ensures isStarted && nextEventIndex > 0 ==> Playable(events, ignoreInitEvent, nextEventIndex)
      ensures isStarted && nextEventIndex > 0 && elapsed < LastDue() ==>
        (status.value.timeRemaining == LastDue() - elapsed
         <==> Offset(events, ignoreInitEvent) == events[|events| - 1].time - LastDue())
    {
      if !isStarted {
        return None;
      }
      var lastIndexPlayed := 0;
      if nextEventIndex != 0 {
        if nextEventIndex == -1 {
          lastIndexPlayed := eventIndexMax;
        } else {
          lastIndexPlayed := nextEventIndex - 1;
        }
      } else {
        if loop {
          lastIndexPlayed := eventIndexMax;
        } else {
          lastIndexPlayed := nextEventIndex;
        }
      }
      var timeToNextEvent, timeRemaining := GetTimesRemaining(elapsed);
      status := Some(Status(currentFileName, lastIndexPlayed, eventIndexMax, loop, timeToNextEvent, timeRemaining));
    }
  }
}

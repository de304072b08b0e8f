/** The reminder store and its one-second polling loop: a reminder fires
    once its time has passed, is flagged `isReminded`, and triggers one
    immediate message. */
module Reminders {
  import opened Common

  /** A reminder document; `remindAt` is free text parsed on every tick. */
  datatype Reminder = Reminder(id: Id, reminderMsg: string, remindAt: string, isReminded: bool)

  /** One immediate message handed to the messaging gateway. */
  datatype Send = Send(reminderId: Id, body: string)

  /** `new Date(s)` in milliseconds, `None` for an Invalid Date. */
  type DateParser = string -> Option<int>

  /** The firing test of a tick: not yet reminded, and `new Date(remindAt) -
      now < 0`. An Invalid Date yields NaN, which compares false, so such a
      reminder never fires. */
  predicate Due(r: Reminder, nowMs: int, parseDate: DateParser)
  {
    && !r.isReminded
    && parseDate(r.remindAt).Some?
    && parseDate(r.remindAt).value - nowMs < 0
  }

  /** The outcome of one tick: the stored reminders afterwards and the
      messages sent, in list order. */
  datatype TickResult = TickResult(reminders: seq<Reminder>, sends: seq<Send>)

  /** One tick over the listed reminders. Each due reminder requests
      `isReminded := true` and, in the update's callback, sends its message
      whether or not the update succeeded; `failed` holds the ids whose
      update reports an error and so leaves the flag unset. */
  function Tick(rs: seq<Reminder>, nowMs: int, parseDate: DateParser, failed: set<Id>): (t: TickResult)
    ensures |t.reminders| == |rs|
    ensures forall i :: 0 <= i < |rs| ==>
              t.reminders[i] == rs[i].(isReminded := rs[i].isReminded
                                        || (Due(rs[i], nowMs, parseDate) && rs[i].id !in failed))
    ensures |t.sends| <= |rs|
    ensures forall s :: s in t.sends <==>
              exists i :: 0 <= i < |rs| && Due(rs[i], nowMs, parseDate) && s == Send(rs[i].id, rs[i].reminderMsg)
    decreases |rs|
  {
    if |rs| == 0 then TickResult([], [])
    else
      var rest := Tick(rs[1..], nowMs, parseDate, failed);
      var r := rs[0];
      if Due(r, nowMs, parseDate) then
        TickResult([r.(isReminded := r.id !in failed)] + rest.reminders,
                   [Send(r.id, r.reminderMsg)] + rest.sends)
      else
        TickResult([r] + rest.reminders, rest.sends)
  }

  /** The number of messages sent for a reminder id. */
  function Count(sends: seq<Send>, id: Id): (n: nat)
    ensures n <= |sends|
    ensures n == 0 <==> forall k :: 0 <= k < |sends| ==> sends[k].reminderId != id
    decreases |sends|
  {
    if |sends| == 0 then 0
    else (if sends[0].reminderId == id then 1 else 0) + Count(sends[1..], id)
  }

  lemma {:induction false} CountAppend(a: seq<Send>, b: seq<Send>, id: Id)
    ensures Count(a + b, id) == Count(a, id) + Count(b, id)
    decreases |a|
  {
    if |a| == 0 {
      assert a + b == b;
    } else {
      assert (a + b)[1..] == a[1..] + b;
      CountAppend(a[1..], b, id);
    }
  }

  predicate UniqueIds(rs: seq<Reminder>)
  {
    forall i, j :: 0 <= i < j < |rs| ==> rs[i].id != rs[j].id
  }

  /** Within one tick a reminder with a unique id is sent once if it is due
      and not at all otherwise. */
  lemma {:induction false} TickCount(rs: seq<Reminder>, nowMs: int, parseDate: DateParser, failed: set<Id>, i: nat)
    requires UniqueIds(rs) && i < |rs|
    ensures Count(Tick(rs, nowMs, parseDate, failed).sends, rs[i].id)
            == if Due(rs[i], nowMs, parseDate) then 1 else 0
    decreases |rs|
  {
    var rest := Tick(rs[1..], nowMs, parseDate, failed);
    var t := Tick(rs, nowMs, parseDate, failed);
    if i == 0 {
      assert forall k :: 0 <= k < |rs[1..]| ==> rs[1..][k].id != rs[0].id;
      assert Count(rest.sends, rs[0].id) == 0 by {
        forall k | 0 <= k < |rest.sends|
          ensures rest.sends[k].reminderId != rs[0].id
        {
          assert rest.sends[k] in rest.sends;
        }
      }
      if Due(rs[0], nowMs, parseDate) {
        assert t.sends == [Send(rs[0].id, rs[0].reminderMsg)] + rest.sends;
        CountAppend([Send(rs[0].id, rs[0].reminderMsg)], rest.sends, rs[0].id);
      }
    } else {
      TickCount(rs[1..], nowMs, parseDate, failed, i - 1);
      assert rs[1..][i - 1] == rs[i];
      if Due(rs[0], nowMs, parseDate) {
        assert t.sends == [Send(rs[0].id, rs[0].reminderMsg)] + rest.sends;
        CountAppend([Send(rs[0].id, rs[0].reminderMsg)], rest.sends, rs[i].id);
      }
    }
  }

  /** What a tick sees: the clock, whether listing the collection
      succeeded, and the ids whose update fails. */
  datatype TickInput = TickInput(nowMs: int, listed: bool, failed: set<Id>)

  /** One timer callback: a failed `find` leaves everything as it was. */
  function Step(rs: seq<Reminder>, input: TickInput, parseDate: DateParser): (t: TickResult)
    ensures |t.reminders| == |rs|
    ensures !input.listed ==> t == TickResult(rs, [])
  {
    if input.listed then Tick(rs, input.nowMs, parseDate, input.failed) else TickResult(rs, [])
  }

  /** Sequential ticks, each completing before the next starts; the sends
      of all ticks in order. */
  function Run(rs: seq<Reminder>, inputs: seq<TickInput>, parseDate: DateParser): (t: TickResult)
    ensures |t.reminders| == |rs|
    decreases |inputs|
  {
    if |inputs| == 0 then TickResult(rs, [])
    else
      var first := Step(rs, inputs[0], parseDate);
      var rest := Run(first.reminders, inputs[1..], parseDate);
      TickResult(rest.reminders, first.sends + rest.sends)
  }

  /** A tick never clears the flag and never changes anything else. */
  lemma TickMonotone(rs: seq<Reminder>, input: TickInput, parseDate: DateParser, i: nat)
    requires i < |rs|
    ensures var r := Step(rs, input, parseDate).reminders[i];
            && r.id == rs[i].id && r.reminderMsg == rs[i].reminderMsg && r.remindAt == rs[i].remindAt
            && (rs[i].isReminded ==> r.isReminded)
  {
  }

  /** The invariant of sequential ticks: each reminder has been sent at
      most once, and one that has been sent is flagged. */
  predicate SentOnce(rs: seq<Reminder>, sends: seq<Send>)
  {
    forall i :: 0 <= i < |rs| ==>
      Count(sends, rs[i].id) <= 1 && (Count(sends, rs[i].id) == 1 ==> rs[i].isReminded)
  }

  /** One tick without failed updates keeps the invariant. */
  lemma StepKeepsSentOnce(rs: seq<Reminder>, sends: seq<Send>, input: TickInput, parseDate: DateParser)
    requires UniqueIds(rs) && SentOnce(rs, sends) && input.failed == {}
    ensures var t := Step(rs, input, parseDate);
            UniqueIds(t.reminders) && SentOnce(t.reminders, sends + t.sends)
  {
    var t := Step(rs, input, parseDate);
    forall i | 0 <= i < |rs|
      ensures Count(sends + t.sends, t.reminders[i].id) <= 1
      ensures Count(sends + t.sends, t.reminders[i].id) == 1 ==> t.reminders[i].isReminded
    {
      CountAppend(sends, t.sends, rs[i].id);
      if input.listed {
        TickCount(rs, input.nowMs, parseDate, input.failed, i);
      }
    }
  }

  /** Under sequential ticks with no failed update, each reminder's message
      is sent immediately at most once, however many ticks run. */
  lemma {:induction false} AtMostOnce(rs: seq<Reminder>, sends: seq<Send>, inputs: seq<TickInput>, parseDate: DateParser)
    requires UniqueIds(rs) && SentOnce(rs, sends)
    requires forall k :: 0 <= k < |inputs| ==> inputs[k].failed == {}
    ensures var t := Run(rs, inputs, parseDate);
            SentOnce(t.reminders, sends + t.sends)
            && forall i :: 0 <= i < |rs| ==> Count(sends + t.sends, rs[i].id) <= 1
    decreases |inputs|
  {
    var t := Run(rs, inputs, parseDate);
    if |inputs| == 0 {
      assert sends + t.sends == sends;
    } else {
      var first := Step(rs, inputs[0], parseDate);
      StepKeepsSentOnce(rs, sends, inputs[0], parseDate);
      AtMostOnce(first.reminders, sends + first.sends, inputs[1..], parseDate);
      assert sends + t.sends == (sends + first.sends) + Run(first.reminders, inputs[1..], parseDate).sends;
      RunKeepsIds(first.reminders, inputs[1..], parseDate);
    }
    RunKeepsIds(rs, inputs, parseDate);
  }

  /** Ticks change only flags: ids stay where they were. */
  lemma {:induction false} RunKeepsIds(rs: seq<Reminder>, inputs: seq<TickInput>, parseDate: DateParser)
    ensures forall i :: 0 <= i < |rs| ==> Run(rs, inputs, parseDate).reminders[i].id == rs[i].id
    decreases |inputs|
  {
    if |inputs| > 0 {
      var first := Step(rs, inputs[0], parseDate);
      RunKeepsIds(first.reminders, inputs[1..], parseDate);
    }
  }

  /** A due reminder whose update fails is sent on that tick and again on
      the next one, since its flag is still unset: the callback sends
      whether or not the update succeeded. */
  lemma FailedUpdateSendsTwice(rs: seq<Reminder>, i: nat, t1: int, t2: int, failed: set<Id>,
                               parseDate: DateParser)
    requires UniqueIds(rs) && i < |rs|
    requires Due(rs[i], t1, parseDate) && rs[i].id in failed && t1 <= t2
    ensures var first := Step(rs, TickInput(t1, true, failed), parseDate);
            var second := Step(first.reminders, TickInput(t2, true, {}), parseDate);
            Count(first.sends + second.sends, rs[i].id) == 2
  {
    var first := Step(rs, TickInput(t1, true, failed), parseDate);
    TickCount(rs, t1, parseDate, failed, i);
    assert first.reminders[i] == rs[i];
    assert UniqueIds(first.reminders) by {
      assert forall j :: 0 <= j < |rs| ==> first.reminders[j].id == rs[j].id;
    }
    var second := Step(first.reminders, TickInput(t2, true, {}), parseDate);
    TickCount(first.reminders, t2, parseDate, {}, i);
    CountAppend(first.sends, second.sends, rs[i].id);
  }

  /** `POST /addReminder`: the new reminder is stored unreminded at the end
      of the collection; the reply is the whole list. */
  function AddReminder(rs: seq<Reminder>, newId: Id, reminderMsg: string, remindAt: string): (r: seq<Reminder>)
    ensures |r| == |rs| + 1 && r[..|rs|] == rs
    ensures r[|rs|] == Reminder(newId, reminderMsg, remindAt, false)
  {
    rs + [Reminder(newId, reminderMsg, remindAt, false)]
  }

  /** `POST /deleteReminder`: `deleteOne({ _id: id })` removes the first
      reminder whose id is the cast id; an id that is not an ObjectId fails
      the cast and removes nothing. The reply is the remaining list. */
  function DeleteReminder(rs: seq<Reminder>, id: Id): (r: seq<Reminder>)
    ensures !IsObjectId(id) ==> r == rs
    ensures IsObjectId(id) && (forall j :: 0 <= j < |rs| ==> rs[j].id != CastId(id).value) ==> r == rs
    ensures IsObjectId(id) && (exists j :: 0 <= j < |rs| && rs[j].id == CastId(id).value) ==>
              exists k :: 0 <= k < |rs| && rs[k].id == CastId(id).value && r == RemoveAt(rs, k)
                          && forall j :: 0 <= j < k ==> rs[j].id != CastId(id).value
    ensures forall x :: x in r ==> x in rs
    ensures IsObjectId(id) ==> forall x :: x in rs && x.id != CastId(id).value ==> x in r
  {
    match CastId(id)
    case None => rs
    case Some(rid) =>
      match FirstWhere(rs, (x: Reminder) => x.id == rid)
      case None => rs
      case Some(k) =>
        assert forall x :: x in rs && x.id != rid ==> x in RemoveAt(rs, k) by {
          forall x | x in rs && x.id != rid
            ensures x in RemoveAt(rs, k)
          {
            var j :| 0 <= j < |rs| && rs[j] == x;
            if j < k { assert RemoveAt(rs, k)[j] == x; }
            else { assert j != k; assert RemoveAt(rs, k)[j - 1] == x; }
          }
        }
        RemoveAt(rs, k)
  }

  /** A freshly added reminder fires on the first tick after its time and,
      with its update succeeding, never again. */
  lemma {:induction false} AddedReminderFiresOnce(rs: seq<Reminder>, newId: Id, msg: string, at: string,
                               parseDate: DateParser, inputs: seq<TickInput>)
    requires UniqueIds(rs) && forall j :: 0 <= j < |rs| ==> rs[j].id != newId
    requires forall k :: 0 <= k < |inputs| ==> inputs[k].failed == {}
    ensures Count(Run(AddReminder(rs, newId, msg, at), inputs, parseDate).sends, newId) <= 1
  {
    var added := AddReminder(rs, newId, msg, at);
    assert SentOnce(added, []);
    AtMostOnce(added, [], inputs, parseDate);
    assert [] + Run(added, inputs, parseDate).sends == Run(added, inputs, parseDate).sends;
    assert added[|rs|].id == newId;
  }
}

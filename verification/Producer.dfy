/**
  core/domain/src/datastore/common.rs: ReliableDataProducer, which counts the acknowledgements of the
  data it pushed. A push registers its id only after the data was sent, so acknowledgements may come
  at any time, of any id; and one clone may push while another closes.
 */
module Producer {
  import opened Wrappers
  import opened Messages

  // ---------- On values ----------

  const I32_LIMIT: nat := 0x8000_0000

  /**
    What the two locks guard, the progress sent so far, whether its receiver is closed, and whether the
    acknowledgement loop has ended in a panic.
   */
  datatype State = State(pendings: set<string>, total: nat, progress: seq<nat>, closed: bool, ended: bool)

  const NEW: State := State({}, 0, [], false, false)

  datatype Event = Register(id: string) | Acknowledge(acked: Option<string>) | Close

  function IdOf(acked: Option<string>): string {
    acked.GetOr("why no id")
  }

  function Percent(part: nat, whole: nat): nat
    requires whole > 0
  {
    part * 100 / whole
  }

  /**
    One event; None is the overflow of the total, a signed 32-bit number. The acknowledgement loop ends
    when it would divide by a total of zero and when it sends to the closed progress receiver, both
    times with the id removed; nobody reads the acknowledgements after that.
   */
  function Take(s: State, e: Event): Option<State>
    requires |s.pendings| <= s.total
  {
    match e
    case Register(id) =>
      if s.total + 1 >= I32_LIMIT then None
      else Some(s.(pendings := s.pendings + {id}, total := s.total + 1))
    case Acknowledge(acked) =>
      if s.ended then Some(s)
      else
        var completed := s.total - |s.pendings| + 1;
        var s1 := s.(pendings := s.pendings - {IdOf(acked)});
        if s.total == 0 || s.closed then Some(s1.(ended := true))
        else Some(s1.(progress := s.progress + [Percent(completed, s.total)]))
    case Close => Some(s.(pendings := {}, closed := true))
  }

  /** `Take` never makes more ids pending than it counts. */
  lemma PendingsAreCounted(s: State, e: Event)
    requires |s.pendings| <= s.total && Take(s, e).Some?
    ensures |Take(s, e).value.pendings| <= Take(s, e).value.total
  {
  }

  lemma OneMore(ids: set<string>, id: string)
    ensures |ids + {id}| == if id in ids then |ids| else |ids| + 1
  {
    if id in ids { assert ids + {id} == ids; }
  }

  lemma FewerIsSmaller<T>(a: set<T>, b: set<T>)
    requires a <= b
    ensures |a| <= |b|
  {
    assert b == a + (b - a);
  }

  function AfterEvents(events: seq<Event>): (r: Option<State>)
    ensures r.Some? ==> |r.value.pendings| <= r.value.total
    decreases |events|
  {
    if events == [] then Some(NEW)
    else
      match AfterEvents(events[..|events| - 1])
      case None => None
      case Some(s) =>
        var r := Take(s, events[|events| - 1]);
        assert r.Some? ==> |r.value.pendings| <= r.value.total by {
          if r.Some? { PendingsAreCounted(s, events[|events| - 1]); }
        }
        r
  }

  lemma OneMoreEvent(events: seq<Event>, e: Event)
    ensures AfterEvents(events + [e]) ==
      if AfterEvents(events).None? then None else Take(AfterEvents(events).value, e)
  {
    hide Take;
    assert (events + [e])[..|events|] == events;
  }

  // ---------- When the loop ends ----------

  ghost predicate ClosedBefore(events: seq<Event>, to: nat) {
    exists i | 0 <= i < to && i < |events| :: events[i].Close?
  }

  ghost predicate RegisteredBefore(events: seq<Event>, to: nat) {
    exists i | 0 <= i < to && i < |events| :: events[i].Register?
  }

  /** An acknowledgement that comes before every registration, or after a close. */
  ghost predicate IsFatal(events: seq<Event>, k: nat) {
    k < |events| && events[k].Acknowledge? && (!RegisteredBefore(events, k) || ClosedBefore(events, k))
  }

  ghost predicate EndedBefore(events: seq<Event>, to: nat) {
    exists k | 0 <= k < to && k < |events| :: IsFatal(events, k)
  }

  lemma SamePast(events: seq<Event>, e: Event, to: nat)
    requires to <= |events|
    ensures ClosedBefore(events + [e], to) <==> ClosedBefore(events, to)
    ensures RegisteredBefore(events + [e], to) <==> RegisteredBefore(events, to)
    ensures to < |events| ==> (IsFatal(events + [e], to) <==> IsFatal(events, to))
  {
    assert forall i | 0 <= i < |events| :: (events + [e])[i] == events[i];
  }

  lemma SameEnd(events: seq<Event>, e: Event, to: nat)
    requires to <= |events|
    ensures EndedBefore(events + [e], to) <==> EndedBefore(events, to)
  {
    hide IsFatal;
    forall k | 0 <= k < to
      ensures IsFatal(events + [e], k) <==> IsFatal(events, k)
    {
      SamePast(events, e, k);
    }
  }

  lemma OneMoreStep(events: seq<Event>, e: Event)
    ensures var more, n := events + [e], |events|;
      && (ClosedBefore(more, n + 1) <==> ClosedBefore(events, n) || e.Close?)
      && (RegisteredBefore(more, n + 1) <==> RegisteredBefore(events, n) || e.Register?)
      && (EndedBefore(more, n + 1) <==>
            EndedBefore(events, n) || (e.Acknowledge? && (!RegisteredBefore(events, n) || ClosedBefore(events, n))))
  {
    var more, n := events + [e], |events|;
    SamePast(events, e, n);
    SameEnd(events, e, n);
    assert more[n] == e;
    hide ClosedBefore, RegisteredBefore;
    assert EndedBefore(more, n + 1) <==> EndedBefore(more, n) || IsFatal(more, n);
    PastIs(events, e);
  }

  lemma PastIs(events: seq<Event>, e: Event)
    ensures var more, n := events + [e], |events|;
      && (ClosedBefore(more, n + 1) <==> ClosedBefore(events, n) || e.Close?)
      && (RegisteredBefore(more, n + 1) <==> RegisteredBefore(events, n) || e.Register?)
  {
    var more, n := events + [e], |events|;
    assert more[n] == e && forall i | 0 <= i < n :: more[i] == events[i];
  }

  /** The loop has ended exactly when there was a fatal acknowledgement. */
  lemma {:induction false} EndedIffFatal(events: seq<Event>)
    requires AfterEvents(events).Some?
    ensures var s, n := AfterEvents(events).value, |events|;
      && (s.closed <==> ClosedBefore(events, n))
      && (s.total > 0 <==> RegisteredBefore(events, n))
      && (s.ended <==> EndedBefore(events, n))
    decreases |events|
  {
    hide ClosedBefore, RegisteredBefore, EndedBefore, Percent, IdOf;
    if events == [] {
      NothingBefore();
    } else {
      var n := |events| - 1;
      assert events == events[..n] + [events[n]];
      EndedIffFatal(events[..n]);
      OneMoreStep(events[..n], events[n]);
    }
  }

  lemma NothingBefore()
    ensures !ClosedBefore([], 0) && !RegisteredBefore([], 0) && !EndedBefore([], 0)
  {
  }

  // ---------- What is pending ----------

  /** A close, or an acknowledgement of the id that the loop still reads. */
  predicate Settles(e: Event, id: string, ended: bool) {
    e.Close? || (e.Acknowledge? && IdOf(e.acked) == id && !ended)
  }

  /** The id was registered, and since then neither dropped by a close nor acknowledged to a loop that still runs. */
  ghost predicate Outstanding(events: seq<Event>, id: string) {
    exists i | 0 <= i < |events| :: events[i] == Register(id) && Unsettled(events, i, id)
  }

  ghost predicate Unsettled(events: seq<Event>, i: nat, id: string) {
    forall j | i < j < |events| :: !Settles(events[j], id, EndedBefore(events, j))
  }

  lemma UnsettledStep(events: seq<Event>, e: Event, i: nat, id: string)
    requires i < |events|
    ensures Unsettled(events + [e], i, id) <==> Unsettled(events, i, id) && !Settles(e, id, EndedBefore(events, |events|))
  {
    hide Settles, EndedBefore;
    var more := events + [e];
    forall j | i < j <= |events|
      ensures EndedBefore(more, j) <==> EndedBefore(events, j)
    {
      SameEnd(events, e, j);
    }
    assert more[|events|] == e && forall j | 0 <= j < |events| :: more[j] == events[j];
    if Unsettled(more, i, id) {
      forall j | i < j < |events|
        ensures !Settles(events[j], id, EndedBefore(events, j))
      {
        assert !Settles(more[j], id, EndedBefore(more, j));
      }
      assert !Settles(more[|events|], id, EndedBefore(more, |events|));
    }
  }

  lemma OutstandingStep(events: seq<Event>, e: Event, id: string)
    ensures Outstanding(events + [e], id) <==>
              e == Register(id) || (Outstanding(events, id) && !Settles(e, id, EndedBefore(events, |events|)))
  {
    hide EndedBefore, Unsettled;
    var more := events + [e];
    assert more[|events|] == e && forall j | 0 <= j < |events| :: more[j] == events[j];
    NothingAfter(more, id);
    if Outstanding(events, id) && !Settles(e, id, EndedBefore(events, |events|)) {
      var i :| 0 <= i < |events| && events[i] == Register(id) && Unsettled(events, i, id);
      UnsettledStep(events, e, i, id);
      assert more[i] == Register(id);
    }
    if Outstanding(more, id) && e != Register(id) {
      var i :| 0 <= i < |more| && more[i] == Register(id) && Unsettled(more, i, id);
      UnsettledStep(events, e, i, id);
      assert events[i] == Register(id);
    }
  }

  lemma NothingAfter(events: seq<Event>, id: string)
    ensures events != [] ==> Unsettled(events, |events| - 1, id)
  {
  }

  /**
    After any events, in any order: an id is pending exactly when it was registered and since then
    neither dropped by a close nor acknowledged while the loop was running. An acknowledgement that comes
    first does not count, nor does any that comes after a fatal one.
   */
  lemma {:induction false} PendingIffOutstanding(events: seq<Event>, id: string)
    requires AfterEvents(events).Some?
    ensures id in AfterEvents(events).value.pendings <==> Outstanding(events, id)
    decreases |events|
  {
    hide Outstanding, EndedBefore, Percent;
    if events == [] {
      NothingOutstanding(id);
    } else {
      var n := |events| - 1;
      assert events == events[..n] + [events[n]];
      PendingIffOutstanding(events[..n], id);
      EndedIffFatal(events[..n]);
      OutstandingStep(events[..n], events[n], id);
    }
  }

  lemma NothingOutstanding(id: string)
    ensures !Outstanding([], id)
  {
  }

  /** Once the loop has ended, every id that gets registered stays pending until a close, whatever is acknowledged. */
  lemma {:induction false} NothingIsSettledAfterTheEnd(events: seq<Event>, more: seq<Event>)
    requires AfterEvents(events).Some? && EndedBefore(events, |events|) && Close !in more
    requires AfterEvents(events + more).Some?
    ensures var s, s' := AfterEvents(events).value, AfterEvents(events + more).value;
      s'.pendings == s.pendings + Registered(more) && s'.progress == s.progress && s'.ended
    decreases |more|
  {
    hide *;
    EndedIffFatal(events);
    if more == [] {
      assert events + more == events;
      NoIds();
    } else {
      var n := |more| - 1;
      var before, e := more[..n], more[n];
      assert events + more == (events + before) + [e] && e in more;
      assert forall x | x in before :: x in more;
      OneMoreEvent(events + before, e);
      NothingIsSettledAfterTheEnd(events, before);
      LastEvent(more);
      SettledNoMore(AfterEvents(events).value, AfterEvents(events + before).value, e, Registered(before));
    }
  }

  lemma SettledNoMore(s: State, mid: State, e: Event, registered: set<string>)
    requires |mid.pendings| <= mid.total && mid.ended && !e.Close? && Take(mid, e).Some?
    requires mid.pendings == s.pendings + registered
    ensures var s' := Take(mid, e).value;
      && s'.pendings == s.pendings + (registered + if e.Register? then {e.id} else {})
      && s'.progress == mid.progress && s'.ended
  {
    hide Take;
    TakenAfterTheEnd(mid, e);
  }

  lemma TakenAfterTheEnd(s: State, e: Event)
    requires |s.pendings| <= s.total && s.ended && !e.Close? && Take(s, e).Some?
    ensures var s' := Take(s, e).value;
      s'.pendings == s.pendings + (if e.Register? then {e.id} else {}) && s'.progress == s.progress && s'.ended
  {
  }

  lemma NoIds()
    ensures Registered([]) == {}
  {
  }

  // ---------- Histories in which the count goes wrong ----------

  /**
    The acknowledgement of a pushed record may overtake its registration. Every id has then been
    registered and acknowledged, and still one is pending for ever; 100 percent were reported before
    it was registered, and fewer at the end.
   */
  lemma EarlyAcknowledgementIsLost(a: string, b: string)
    requires a != b
    ensures var events := [Register(a), Acknowledge(Some(b)), Register(b), Acknowledge(Some(a))];
      && Registered(events) == Acknowledged(events) == {a, b}
      && AfterEvents(events) == Some(State({b}, 2, [100, 50], false, false))
  {
    hide AfterEvents, Take, Registered, Acknowledged;
    var e1, e2, e3, e4 := Register(a), Acknowledge(Some(b)), Register(b), Acknowledge(Some(a));
    NoEvents();
    OneMoreEvent([], e1);
    OneMoreEvent([e1], e2);
    OneMoreEvent([e1, e2], e3);
    OneMoreEvent([e1, e2, e3], e4);
    assert [] + [e1] == [e1] && [e1] + [e2] == [e1, e2] && [e1, e2] + [e3] == [e1, e2, e3] && [e1, e2, e3] + [e4] == [e1, e2, e3, e4];
    EarlyStates(a, b);
    TwoIds([e1, e2, e3, e4], a, b);
  }

  lemma NoEvents()
    ensures AfterEvents([]) == Some(NEW)
  {
  }

  lemma EarlyStates(a: string, b: string)
    requires a != b
    ensures Take(NEW, Register(a)) == Some(State({a}, 1, [], false, false))
    ensures Take(State({a}, 1, [], false, false), Acknowledge(Some(b))) == Some(State({a}, 1, [100], false, false))
    ensures Take(State({a}, 1, [100], false, false), Register(b)) == Some(State({a, b}, 2, [100], false, false))
    ensures |{a, b}| == 2
    ensures Take(State({a, b}, 2, [100], false, false), Acknowledge(Some(a))) == Some(State({b}, 2, [100, 50], false, false))
  {
    assert {a} - {b} == {a} && {a, b} - {a} == {b} && {a} + {b} == {a, b} && |{a, b}| == 2;
    assert Percent(1, 1) == 100 && Percent(1, 2) == 50;
    assert [] + [100] == [100] && [100] + [50] == [100, 50];
  }

  lemma TwoIds(events: seq<Event>, a: string, b: string)
    requires events == [Register(a), Acknowledge(Some(b)), Register(b), Acknowledge(Some(a))]
    ensures Registered(events) == {a, b} && Acknowledged(events) == {a, b}
  {
    assert events[0].id == a && events[2].id == b && IdOf(events[1].acked) == b && IdOf(events[3].acked) == a;
  }

  /** If it overtakes the very first registration, the loop ends in a division by zero. */
  lemma FirstAcknowledgementDividesByZero(id: Option<string>)
    ensures AfterEvents([Acknowledge(id)]) == Some(NEW.(ended := true))
  {
    hide AfterEvents;
    NoEvents();
    OneMoreEvent([], Acknowledge(id));
    assert [] + [Event.Acknowledge(id)] == [Event.Acknowledge(id)];
    assert {} - {IdOf(id)} == {};
  }

  /** An acknowledgement after a close reports nothing and ends the loop, however much was registered before. */
  lemma AcknowledgementAfterCloseIsFatal(a: string)
    ensures AfterEvents([Register(a), Close, Acknowledge(Some(a))]) == Some(State({}, 1, [], true, true))
  {
    hide AfterEvents;
    var e1, e2, e3 := Register(a), Close, Event.Acknowledge(Some(a));
    NoEvents();
    OneMoreEvent([], e1);
    OneMoreEvent([e1], e2);
    OneMoreEvent([e1, e2], e3);
    assert [] + [e1] == [e1] && [e1] + [e2] == [e1, e2] && [e1, e2] + [e3] == [e1, e2, e3];
    assert {} + {a} == {a} && {} - {a} == {};
  }

  /**
    A clone that pushes after another was closed: both of its records are acknowledged, the first
    acknowledgement ends the loop, and the second id is pending for ever.
   */
  lemma PushAfterCloseIsLost(a: string, b: string)
    requires a != b
    ensures AfterEvents([Close, Register(a), Register(b), Acknowledge(Some(a)), Acknowledge(Some(b))])
         == Some(State({b}, 2, [], true, true))
  {
    hide AfterEvents, Take;
    var e1, e2, e3, e4, e5 := Close, Register(a), Register(b), Event.Acknowledge(Some(a)), Event.Acknowledge(Some(b));
    NoEvents();
    OneMoreEvent([], e1);
    OneMoreEvent([e1], e2);
    OneMoreEvent([e1, e2], e3);
    OneMoreEvent([e1, e2, e3], e4);
    OneMoreEvent([e1, e2, e3, e4], e5);
    assert [] + [e1] == [e1] && [e1] + [e2] == [e1, e2] && [e1, e2] + [e3] == [e1, e2, e3];
    assert [e1, e2, e3] + [e4] == [e1, e2, e3, e4] && [e1, e2, e3, e4] + [e5] == [e1, e2, e3, e4, e5];
    ClosedStates(a, b);
  }

  lemma ClosedStates(a: string, b: string)
    requires a != b
    ensures Take(NEW, Close) == Some(State({}, 0, [], true, false))
    ensures Take(State({}, 0, [], true, false), Register(a)) == Some(State({a}, 1, [], true, false))
    ensures Take(State({a}, 1, [], true, false), Register(b)) == Some(State({a, b}, 2, [], true, false))
    ensures |{a, b}| == 2
    ensures Take(State({a, b}, 2, [], true, false), Acknowledge(Some(a))) == Some(State({b}, 2, [], true, true))
    ensures Take(State({b}, 2, [], true, true), Acknowledge(Some(b))) == Some(State({b}, 2, [], true, true))
  {
    assert {} + {a} == {a} && {a} + {b} == {a, b} && {a, b} - {a} == {b} && |{a, b}| == 2;
  }

  // ---------- Orderly runs ----------

  function Registered(events: seq<Event>): set<string> {
    set i | 0 <= i < |events| && events[i].Register? :: events[i].id
  }

  function Acknowledged(events: seq<Event>): set<string> {
    set i | 0 <= i < |events| && events[i].Acknowledge? :: IdOf(events[i].acked)
  }

  /** Ids are registered once, and acknowledged once, after they were registered, and nothing is dropped. */
  ghost predicate Orderly(events: seq<Event>)
    decreases |events|
  {
    events == [] ||
    var before, e := events[..|events| - 1], events[|events| - 1];
    && Orderly(before)
    && match e
       case Register(id) => id !in Registered(before)
       case Acknowledge(id) => IdOf(id) in Registered(before) - Acknowledged(before)
       case Close => false
  }

  lemma LastEvent(events: seq<Event>)
    requires events != []
    ensures var before, e := events[..|events| - 1], events[|events| - 1];
      && Registered(events) == Registered(before) + (if e.Register? then {e.id} else {})
      && Acknowledged(events) == Acknowledged(before) + (if e.Acknowledge? then {IdOf(e.acked)} else {})
  {
  }

  /** The pending ids are those registered and not acknowledged, and together they make up the total. */
  ghost predicate Counted(s: State, registered: set<string>, acknowledged: set<string>) {
    && s.pendings == registered - acknowledged
    && acknowledged <= registered
    && s.total == |registered| == |s.pendings| + |acknowledged|
    && |s.progress| == |acknowledged|
    && !s.closed && !s.ended
  }

  lemma CountedRegister(s: State, registered: set<string>, acknowledged: set<string>, id: string)
    requires Counted(s, registered, acknowledged) && id !in registered
    ensures Take(s, Register(id)).Some? <==> |registered + {id}| < I32_LIMIT
    ensures Take(s, Register(id)).Some? ==> Counted(Take(s, Register(id)).value, registered + {id}, acknowledged)
  {
    OneMore(registered, id);
  }

  lemma CountedAcknowledge(s: State, registered: set<string>, acknowledged: set<string>, acked: Option<string>)
    requires Counted(s, registered, acknowledged) && IdOf(acked) in registered - acknowledged
    ensures Take(s, Acknowledge(acked)).Some?
    ensures Counted(Take(s, Acknowledge(acked)).value, registered, acknowledged + {IdOf(acked)})
  {
  }

  /**
    Nothing gets lost: in every orderly run the pending ids are those registered and not yet
    acknowledged, and their number and that of the acknowledgements add up to the total, for as long as
    that is a signed 32-bit number.
   */
  lemma {:induction false} TotalIsPendingAndAcknowledged(events: seq<Event>)
    requires Orderly(events)
    ensures AfterEvents(events).Some? <==> |Registered(events)| < I32_LIMIT
    ensures AfterEvents(events).Some? ==> Counted(AfterEvents(events).value, Registered(events), Acknowledged(events))
    decreases |events|
  {
    hide Counted, Take, IdOf, Registered, Acknowledged;
    if events == [] {
      NothingYet();
    } else {
      var before, e := events[..|events| - 1], events[|events| - 1];
      TotalIsPendingAndAcknowledged(before);
      LastEvent(events);
      var registered, acknowledged := Registered(before), Acknowledged(before);
      FewerIsSmaller(registered, Registered(events));
      match e
      case Register(id) =>
        if AfterEvents(before).Some? { CountedRegister(AfterEvents(before).value, registered, acknowledged, id); }
        assert acknowledged + {} == acknowledged;
      case Acknowledge(acked) =>
        if AfterEvents(before).Some? { CountedAcknowledge(AfterEvents(before).value, registered, acknowledged, acked); }
        assert registered + {} == registered;
    }
  }

  lemma NothingYet()
    ensures Counted(NEW, Registered([]), Acknowledged([])) && |Registered([])| < I32_LIMIT
  {
  }

  /** Rounded down to a whole number. */
  ghost predicate IsPercentage(n: nat, part: nat, whole: nat) {
    n * whole <= 100 * part < (n + 1) * whole
  }

  /**
    The progress an acknowledgement reports is the percentage acknowledged so far, rounded down; it
    is 100 exactly when nothing is pending any more.
   */
  lemma ProgressIsThePercentage(events: seq<Event>)
    requires Orderly(events) && events != [] && events[|events| - 1].Acknowledge? && |Registered(events)| < I32_LIMIT
    ensures AfterEvents(events).Some? && AfterEvents(events).value.progress != []
    ensures var s := AfterEvents(events).value;
      var last := s.progress[|s.progress| - 1];
      && s.total > 0
      && last == Percent(|Acknowledged(events)|, s.total)
      && IsPercentage(last, |Acknowledged(events)|, s.total)
      && last <= 100
      && (last == 100 <==> s.pendings == {})
  {
    hide Percent, IsPercentage, IdOf;
    var before := events[..|events| - 1];
    TotalIsPendingAndAcknowledged(before);
    TotalIsPendingAndAcknowledged(events);
    LastEvent(events);
    var s := AfterEvents(events).value;
    OneMore(Acknowledged(before), IdOf(events[|events| - 1].acked));
    Percentage(|Acknowledged(events)|, s.total);
    RoundedDown(|Acknowledged(events)|, s.total);
    assert |s.pendings| == 0 <==> s.pendings == {};
  }

  /** A percentage reaches 100 with the whole, and passes it with more than a hundredth on top. */
  lemma Percentage(part: nat, whole: nat)
    requires whole > 0
    ensures Percent(part, whole) >= 100 <==> part >= whole
    ensures Percent(part, whole) >= 101 <==> (part - whole) * 100 >= whole
  {
    AtLeast(part * 100, whole, 100);
    AtLeast(part * 100, whole, 101);
  }

  lemma RoundedDown(part: nat, whole: nat)
    requires whole > 0
    ensures IsPercentage(Percent(part, whole), part, whole)
  {
    AtLeast(part * 100, whole, Percent(part, whole));
    AtLeast(part * 100, whole, Percent(part, whole) + 1);
  }

  lemma AtLeast(n: nat, d: nat, q: nat)
    requires d > 0
    ensures n / d >= q <==> n >= q * d
  {
    var k := n / d;
    assert k * d <= n < (k + 1) * d;
    if k >= q { assert k * d >= q * d; } else { assert (k + 1) * d <= q * d; }
  }

  // ---------- Any acknowledgement ----------

  /** What one expects of a reported progress. */
  ghost predicate Sound(progress: nat, pendings: set<string>) {
    progress <= 100 && (progress == 100 <==> pendings == {})
  }

  /**
    An acknowledgement at any time and of any id that reaches a running loop. It ends the loop, and
    reports nothing, exactly when nothing was registered or the producer was closed before. Otherwise its
    progress is sound exactly when the id was outstanding, or at least two others were, or none was and
    the total is past 100: early, repeated and unknown ids break it.
   */
  lemma ProgressIsSoundIff(events: seq<Event>, acked: Option<string>)
    requires AfterEvents(events).Some?
    ensures AfterEvents(events + [Event.Acknowledge(acked)]).Some?
    ensures var s, s', n := AfterEvents(events).value, AfterEvents(events + [Event.Acknowledge(acked)]).value, |events|;
      var fatal := !RegisteredBefore(events, n) || ClosedBefore(events, n);
      if EndedBefore(events, n) then s' == s
      else if fatal then s'.ended && s'.progress == s.progress
      else
        && !s'.ended
        && |s'.progress| == |s.progress| + 1 && s'.progress[..|s.progress|] == s.progress
        && (Sound(s'.progress[|s.progress|], s'.pendings) <==>
              Outstanding(events, IdOf(acked)) || |s.pendings| >= 2 || (|s.pendings| == 0 && s.total > 100))
  {
    hide Percent, IdOf, Outstanding, RegisteredBefore, ClosedBefore, EndedBefore, AfterEvents;
    var s := AfterEvents(events).value;
    OneMoreEvent(events, Event.Acknowledge(acked));
    EndedIffFatal(events);
    PendingIffOutstanding(events, IdOf(acked));
    if !s.ended && !s.closed && s.total > 0 {
      var s' := Take(s, Acknowledge(acked)).value;
      Percentage(s.total - |s.pendings| + 1, s.total);
      if IdOf(acked) in s.pendings {
        assert |s'.pendings| == |s.pendings| - 1;
      } else {
        assert s'.pendings == s.pendings;
      }
      assert |s'.pendings| == 0 <==> s'.pendings == {};
    }
  }

  /** Registering an id keeps the count of pending and acknowledged right exactly when it was not pending. */
  lemma RegisteringKeepsTheCountIff(s: State, id: string, acked: nat)
    requires |s.pendings| <= s.total && s.total == |s.pendings| + acked && Take(s, Register(id)).Some?
    ensures var s' := Take(s, Register(id)).value;
      s'.total == |s'.pendings| + acked <==> id !in s.pendings
  {
  }

  // ---------- As the object ----------

  datatype DomainError = Interrupted

  class ReliableDataProducer {
    var pendings: set<string>
    var total: nat
    // What went into the progress channel, and whether its receiver is closed.
    var progress: seq<nat>
    var closed: bool
    // Whether the task that reads the acknowledgements has ended in a panic.
    var ended: bool
    /** What has happened to it. */
    ghost var events: seq<Event>

    function View(): State
      reads this
    {
      State(pendings, total, progress, closed, ended)
    }

    ghost predicate Valid()
      reads this
    {
      AfterEvents(events) == Some(View())
    }

    constructor ()
      ensures Valid() && events == []
    {
      pendings, total, progress, closed, ended := {}, 0, [], false, false;
      events := [];
    }

    /**
      `sent` says whether the data went into the channel; `newId` is what the id generator would give.
      The result is None where the total overflows.
     */
    method Push(metadata: Metadata, newId: string, sent: bool) returns (r: Option<Result<string, DomainError>>)
      requires Valid()
      modifies this
      ensures r.None? <==> sent && old(total) + 1 >= I32_LIMIT
      ensures r.None? ==> View() == old(View()).(pendings := old(pendings) + {metadata.id.GetOr(newId)})
      ensures r.Some? ==>
        && Valid()
        && var id := metadata.id.GetOr(newId);
           if sent then
             && r.value == Ok(id) && events == old(events) + [Register(id)]
             && View() == old(View()).(pendings := old(pendings) + {id}, total := old(total) + 1)
           else
             r.value == Err(Interrupted) && events == old(events) && View() == old(View())
    {
      hide AfterEvents;
      var id := metadata.id.GetOr(newId);
      if !sent {
        return Some(Err(Interrupted));
      }
      OneMoreEvent(events, Register(id));
      OneMore(pendings, id);
      pendings := pendings + {id};
      if total + 1 >= I32_LIMIT {
        return None;
      }
      total := total + 1;
      events := events + [Register(id)];
      return Some(Ok(id));
    }

    /**
      A message for the acknowledgement loop, and what its turn does, if it still runs; false is a panic.
      It panics exactly when it runs and nothing was registered or the producer was closed, and never
      takes another turn.
     */
    method Acknowledge(m: Result<Metadata, DomainError>) returns (ok: bool)
      requires Valid()
      modifies this
      ensures Valid() && events == if m.Ok? then old(events) + [Event.Acknowledge(m.value.id)] else old(events)
      ensures !ok <==> !old(ended) && m.Ok? && (old(total) == 0 || old(closed))
      ensures ended == (old(ended) || !ok)
      ensures pendings == old(pendings) - (if old(ended) || m.Err? then {} else {m.value.id.GetOr("why no id")})
      ensures if old(ended) || m.Err? || !ok then progress == old(progress)
              else exists p: nat :: progress == old(progress) + [p] && IsPercentage(p, old(total) - |old(pendings)| + 1, old(total))
    {
      hide AfterEvents, Percent, IsPercentage;
      match m {
        case Err(_) => return true;
        case Ok(metadata) =>
          OneMoreEvent(events, Event.Acknowledge(metadata.id));
          events := events + [Event.Acknowledge(metadata.id)];
          if ended {
            return true;
          }
          var id := IdOf(metadata.id);
          var completed := total - |pendings| + 1;
          pendings := pendings - {id};
          if total == 0 {
            ended := true;
            return false;
          }
          var percent := Percent(completed, total);
          if closed {
            ended := true;
            return false;
          }
          RoundedDown(completed, total);
          progress := progress + [percent];
          return true;
      }
    }

    /** Whether every registration has been followed by a close, or by its acknowledgement to a running loop. */
    method IsCompleted() returns (r: bool)
      requires Valid()
      ensures r <==> forall id :: !Outstanding(events, id)
      ensures Orderly(events) ==> (r <==> Acknowledged(events) == Registered(events))
    {
      r := pendings == {};
      hide Outstanding, Registered, Acknowledged, Orderly;
      forall id
        ensures id in pendings <==> Outstanding(events, id)
      {
        PendingIffOutstanding(events, id);
      }
      if Orderly(events) {
        TotalIsPendingAndAcknowledged(events);
        NonePendingIff(pendings, Registered(events), Acknowledged(events));
      }
    }

    /**
      Whatever was not acknowledged is dropped, and counts as completed; the progress receiver is closed,
      so the next acknowledgement, whatever it is of, ends the loop.
     */
    method Close()
      requires Valid()
      modifies this
      ensures Valid() && events == old(events) + [Event.Close]
      ensures forall id :: !Outstanding(events, id)
      ensures forall acked :: EndedBefore(events + [Event.Acknowledge(acked)], |events| + 1)
      ensures Orderly(old(events)) ==> total == |Acknowledged(old(events))| + |old(pendings)|
    {
      OneMoreEvent(events, Event.Close);
      hide Outstanding, Registered, Acknowledged, Orderly, EndedBefore;
      if Orderly(events) {
        TotalIsPendingAndAcknowledged(events);
      }
      closed := true;
      pendings := {};
      OneMoreStep(events, Event.Close);
      events := events + [Event.Close];
      forall id
        ensures !Outstanding(events, id)
      {
        PendingIffOutstanding(events, id);
      }
      forall acked
        ensures EndedBefore(events + [Event.Acknowledge(acked)], |events| + 1)
      {
        OneMoreStep(events, Event.Acknowledge(acked));
      }
    }
  }

  lemma NonePendingIff(pendings: set<string>, registered: set<string>, acknowledged: set<string>)
    requires pendings == registered - acknowledged && acknowledged <= registered
    ensures pendings == {} <==> acknowledged == registered
  {
    assert registered == pendings + acknowledged;
  }
}

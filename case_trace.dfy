/**
 * The observable effects of the case module in the order they happen: events
 * fired to property-change listeners, user notifications, log-directory
 * redirections and calls to the recent-cases list. The type of case references
 * is a parameter, so that these definitions do not depend on the Case class.
 */
module CaseTrace {
  import opened Wrappers
  import opened Collaborators

  /** Case.Events. */
  datatype EventKind = Name | Number | Examiner | DataSourceAdded | DataSourceDeleted | CurrentCase | ReportAdded

  /** An old or new value carried by an event; Null is Java's null. */
  datatype Value<C> = Null | Text(text: string) | CaseRef(ref: C) | Source(source: DataSource) | ReportValue(report: Report)

  datatype Event<C> = Event(kind: EventKind, oldValue: Value<C>, newValue: Value<C>)

  /** A user-visible notification. */
  datatype Notice =
    | ListenerFailed(kind: EventKind)
    | StoreError(context: string, message: string)
    | DatabaseRestored(backupPath: string)
    | ImageMissing(id: int, path: string)

  /** A call to the recent-cases list, whose own behaviour is not modelled. */
  datatype RecentOp =
    | AddRecent(name: string, path: string)
    | RemoveRecent(name: string, path: string)
    | UpdateRecent(oldName: string, oldPath: string, newName: string, newPath: string)

  /** A part of a case that is closed when the case is closed or deleted. */
  datatype CasePart = ServicesPart | ConfigPart | DatabasePart

  /**
   * `Fired` records an event together with the case `getCurrentCase` returns
   * while listeners handle it (None: no case is open); `Released` records that
   * a part of a case was closed.
   */
  datatype Effect<C> =
    | Fired(event: Event<C>, observed: Option<C>)
    | Notified(notice: Notice)
    | NotificationsCleared
    | LogDirSet(dir: string)
    | RecentCall(op: RecentOp)
    | Released(part: CasePart)

  /** What a transition needs to know of a case that arrives or leaves. */
  datatype CaseView<C> = CaseView(ref: C, name: string, logDir: string, configPath: string)

  function RefOf<C>(v: Option<CaseView<C>>): Option<C> {
    if v.Some? then Some(v.value.ref) else None
  }

  /** PropertyChangeSupport delivers an event unless its old and new values are equal and non-null. */
  predicate Delivered<C(==)>(e: Event<C>) {
    e.oldValue.Null? || e.newValue.Null? || e.oldValue != e.newValue
  }

  /**
   * Firing an event inside the source's try/catch while `observed` is the
   * current case: the event is delivered, and when a listener for its kind
   * throws, the exception is caught and turned into one notification; the
   * caller carries on either way.
   */
  function Fire<C(==)>(e: Event<C>, faulty: set<EventKind>, observed: Option<C>): seq<Effect<C>> {
    if !Delivered(e) then []
    else if e.kind in faulty then [Fired(e, observed), Notified(ListenerFailed(e.kind))]
    else [Fired(e, observed)]
  }

  /** Firing where a listener's exception is only logged (addReport). */
  function FireQuietly<C(==)>(e: Event<C>, observed: Option<C>): seq<Effect<C>> {
    if Delivered(e) then [Fired(e, observed)] else []
  }

  /**
   * The effects of changeCase for the case that stops being current: the
   * singleton is already null when its events fire.
   */
  function Detach<C(==)>(leaving: CaseView<C>, faulty: set<EventKind>): seq<Effect<C>> {
    [NotificationsCleared]
    + Fire(Event(CurrentCase, CaseRef(leaving.ref), Null), faulty, None)
    + Fire(Event(Name, Text(leaving.name), Text("")), faulty, None)
  }

  /**
   * The effects of changeCase for the case that becomes current: the
   * singleton already holds it when its events fire. When its temp folder
   * cannot be listed (`tempListed` false), the sequence ends after
   * CURRENT_CASE.
   */
  function Attach<C(==)>(arriving: CaseView<C>, faulty: set<EventKind>, tempListed: bool): seq<Effect<C>> {
    [LogDirSet(arriving.logDir)]
    + Fire(Event(CurrentCase, Null, CaseRef(arriving.ref)), faulty, Some(arriving.ref))
    + (if tempListed then
         Fire(Event(Name, Text(""), Text(arriving.name)), faulty, Some(arriving.ref))
         + [RecentCall(AddRecent(arriving.name, arriving.configPath))]
       else [])
  }

  function LeavingPart<C(==)>(leaving: Option<CaseView<C>>, faulty: set<EventKind>): seq<Effect<C>> {
    if leaving.Some? then Detach(leaving.value, faulty) else []
  }

  function ArrivingPart<C(==)>(arriving: Option<CaseView<C>>, defaultLogDir: string, faulty: set<EventKind>,
                               tempListed: bool): seq<Effect<C>> {
    if arriving.Some? then Attach(arriving.value, faulty, tempListed) else [LogDirSet(defaultLogDir)]
  }

  /** The effects of one changeCase call, in order. */
  function Transition<C(==)>(leaving: Option<CaseView<C>>, arriving: Option<CaseView<C>>,
                             defaultLogDir: string, faulty: set<EventKind>, tempListed: bool): seq<Effect<C>> {
    LeavingPart(leaving, faulty) + ArrivingPart(arriving, defaultLogDir, faulty, tempListed)
  }

  /**
   * The current case as the events report it. A CURRENT_CASE event may bring
   * a case in only when none is current, and take out only the current case,
   * and its listeners must already see the new value; every other event must
   * be seen with the current case unchanged. None marks an event that breaks
   * this.
   */
  function Step<C(==)>(s: Option<C>, x: Effect<C>): Option<Option<C>> {
    if x.Fired? && x.event.kind == CurrentCase then
      var e := x.event;
      if s.None? && e.oldValue.Null? && e.newValue.CaseRef? && x.observed == Some(e.newValue.ref) then
        Some(Some(e.newValue.ref))
      else if s.Some? && e.oldValue == CaseRef(s.value) && e.newValue.Null? && x.observed == None then Some(None)
      else None
    else if x.Fired? && x.observed != s then None
    else Some(s)
  }

  function Replay<C(==)>(t: seq<Effect<C>>, s: Option<C>): Option<Option<C>> {
    if t == [] then Some(s)
    else match Replay(t[..|t| - 1], s)
      case None => None
      case Some(s') => Step(s', t[|t| - 1])
  }

  lemma {:induction false} ReplayAppend<C>(t: seq<Effect<C>>, u: seq<Effect<C>>, s: Option<C>)
    ensures Replay(t + u, s) == match Replay(t, s) case None => None case Some(s') => Replay(u, s')
    decreases |u|
  {
    if u == [] {
      assert t + u == t;
    } else {
      var u' := u[..|u| - 1];
      assert (t + u)[..|t + u| - 1] == t + u';
      assert (t + u)[|t + u| - 1] == u[|u| - 1];
      ReplayAppend(t, u', s);
    }
  }

  /**
   * No CURRENT_CASE event among these effects, and listeners of every event
   * among them see `s` as the current case.
   */
  predicate Quiet<C(==)>(u: seq<Effect<C>>, s: Option<C>) {
    forall i :: 0 <= i < |u| && u[i].Fired? ==> u[i].event.kind != CurrentCase && u[i].observed == s
  }

  /** Effects other than CURRENT_CASE events leave the reported current case alone. */
  lemma {:induction false} ReplayQuiet<C>(t: seq<Effect<C>>, u: seq<Effect<C>>, s0: Option<C>, s: Option<C>)
    requires Replay(t, s0) == Some(s) && Quiet(u, s)
    ensures Replay(t + u, s0) == Some(s)
    decreases |u|
  {
    if u == [] {
      assert t + u == t;
    } else {
      var u' := u[..|u| - 1];
      assert Quiet(u', s) by {
        forall i | 0 <= i < |u'| && u'[i].Fired?
          ensures u'[i].event.kind != CurrentCase && u'[i].observed == s
        {
          assert u'[i] == u[i];
        }
      }
      assert (t + u)[..|t + u| - 1] == t + u';
      assert (t + u)[|t + u| - 1] == u[|u| - 1];
      ReplayQuiet(t, u', s0, s);
    }
  }

  lemma FireQuiet<C>(e: Event<C>, faulty: set<EventKind>, s: Option<C>)
    requires e.kind != CurrentCase
    ensures Quiet(Fire(e, faulty, s), s) && Quiet(FireQuietly(e, s), s)
  {
  }

  lemma ReplayFire<C>(e: Event<C>, faulty: set<EventKind>, s: Option<C>)
    requires e.kind != CurrentCase
    ensures Replay(Fire(e, faulty, s), s) == Some(s)
  {
    var empty: seq<Effect<C>> := [];
    assert empty + Fire(e, faulty, s) == Fire(e, faulty, s);
    FireQuiet(e, faulty, s);
    ReplayQuiet(empty, Fire(e, faulty, s), s, s);
  }

  lemma ReplayCurrentCase<C>(e: Event<C>, faulty: set<EventKind>, s: Option<C>, o: Option<C>)
    requires e.kind == CurrentCase && Delivered(e)
    ensures Replay(Fire(e, faulty, o), s) == Step(s, Fired(e, o))
  {
    var one: seq<Effect<C>> := [Fired(e, o)];
    assert one[..0] == [];
    assert Replay(one, s) == Step(s, Fired(e, o));
    if e.kind in faulty {
      var t := Fire(e, faulty, o);
      assert t[..1] == one;
    }
  }

  /** The leaving case's effects take the reported current case from it to none. */
  lemma LeavingReplays<C>(leaving: Option<CaseView<C>>, faulty: set<EventKind>)
    ensures Replay(LeavingPart(leaving, faulty), RefOf(leaving)) == Some(None)
  {
    if leaving.Some? {
      var l := leaving.value;
      var cc := Event(CurrentCase, CaseRef(l.ref), Null);
      var nm := Event(Name, Text(l.name), Text(""));
      var cleared: seq<Effect<C>> := [NotificationsCleared];
      ReplayAppend(cleared, Fire(cc, faulty, None), Some(l.ref));
      assert cleared[..0] == [];
      ReplayCurrentCase(cc, faulty, Some(l.ref), None);
      FireQuiet(nm, faulty, None);
      ReplayQuiet(cleared + Fire(cc, faulty, None), Fire(nm, faulty, None), Some(l.ref), None);
    }
  }

  /** The arriving case's effects take the reported current case from none to it, listed or not. */
  lemma ArrivingReplays<C>(arriving: Option<CaseView<C>>, defaultLogDir: string, faulty: set<EventKind>,
                           tempListed: bool)
    ensures Replay(ArrivingPart(arriving, defaultLogDir, faulty, tempListed), None) == Some(RefOf(arriving))
  {
    if arriving.Some? {
      var a := arriving.value;
      var cc := Event(CurrentCase, Null, CaseRef(a.ref));
      var nm := Event(Name, Text(""), Text(a.name));
      var redirect: seq<Effect<C>> := [LogDirSet(a.logDir)];
      var rest: seq<Effect<C>> := if tempListed
        then Fire(nm, faulty, Some(a.ref)) + [RecentCall(AddRecent(a.name, a.configPath))]
        else [];
      ReplayAppend(redirect, Fire(cc, faulty, Some(a.ref)), None);
      assert redirect[..0] == [];
      ReplayCurrentCase(cc, faulty, None, Some(a.ref));
      assert Quiet(rest, Some(a.ref)) by {
        FireQuiet(nm, faulty, Some(a.ref));
      }
      ReplayQuiet(redirect + Fire(cc, faulty, Some(a.ref)), rest, None, Some(a.ref));
    } else {
      var redirect: seq<Effect<C>> := [LogDirSet(defaultLogDir)];
      assert redirect[..0] == [];
    }
  }

  /**
   * Every changeCase moves the reported current case from the leaving case to
   * the arriving one, each event seen with the singleton already at its new
   * value, whether or not the arriving case's temp folder could be listed.
   */
  lemma {:induction false} TransitionReplays<C>(leaving: Option<CaseView<C>>, arriving: Option<CaseView<C>>,
                                                defaultLogDir: string, faulty: set<EventKind>, tempListed: bool)
    ensures Replay(Transition(leaving, arriving, defaultLogDir, faulty, tempListed), RefOf(leaving))
              == Some(RefOf(arriving))
  {
    LeavingReplays(leaving, faulty);
    ArrivingReplays(arriving, defaultLogDir, faulty, tempListed);
    ReplayAppend(LeavingPart(leaving, faulty), ArrivingPart(arriving, defaultLogDir, faulty, tempListed), RefOf(leaving));
  }

  /** A changeCase appended to a consistent trace leaves it consistent, ending at the arriving case. */
  lemma ChangeReplays<C>(t0: seq<Effect<C>>, leaving: Option<CaseView<C>>, arriving: Option<CaseView<C>>,
                         defaultLogDir: string, faulty: set<EventKind>, tempListed: bool)
    requires Replay(t0, None) == Some(RefOf(leaving))
    ensures t0 + LeavingPart(leaving, faulty) + ArrivingPart(arriving, defaultLogDir, faulty, tempListed)
            == t0 + Transition(leaving, arriving, defaultLogDir, faulty, tempListed)
    ensures Replay(t0 + Transition(leaving, arriving, defaultLogDir, faulty, tempListed), None) == Some(RefOf(arriving))
  {
    var l, a := LeavingPart(leaving, faulty), ArrivingPart(arriving, defaultLogDir, faulty, tempListed);
    var tr := Transition(leaving, arriving, defaultLogDir, faulty, tempListed);
    assert tr == l + a;
    assert t0 + l + a == t0 + tr;
    TransitionReplays(leaving, arriving, defaultLogDir, faulty, tempListed);
    ReplayAppend(t0, tr, None);
  }

  /** Listeners of every event in `t` see `o` as the current case. */
  predicate Observe<C(==)>(t: seq<Effect<C>>, o: Option<C>) {
    forall i :: 0 <= i < |t| && t[i].Fired? ==> t[i].observed == o
  }

  lemma ObserveAppend<C>(t: seq<Effect<C>>, u: seq<Effect<C>>, o: Option<C>)
    requires Observe(t, o) && Observe(u, o)
    ensures Observe(t + u, o)
  {
    forall i | 0 <= i < |t + u| && (t + u)[i].Fired?
      ensures (t + u)[i].observed == o
    {
      if i >= |t| {
        assert (t + u)[i] == u[i - |t|];
      }
    }
  }

  lemma ObserveParts<C>(leaving: Option<CaseView<C>>, arriving: Option<CaseView<C>>,
                        defaultLogDir: string, faulty: set<EventKind>, tempListed: bool)
    ensures Observe(LeavingPart(leaving, faulty), None)
    ensures Observe(ArrivingPart(arriving, defaultLogDir, faulty, tempListed), RefOf(arriving))
  {
    if leaving.Some? {
      var l := leaving.value;
      var cleared: seq<Effect<C>> := [NotificationsCleared];
      var cc := Fire(Event(CurrentCase, CaseRef(l.ref), Null), faulty, None);
      var nm := Fire(Event(Name, Text(l.name), Text("")), faulty, None);
      ObserveAppend(cleared, cc, None);
      ObserveAppend(cleared + cc, nm, None);
    }
    if arriving.Some? {
      var a := arriving.value;
      var o := Some(a.ref);
      var redirect: seq<Effect<C>> := [LogDirSet(a.logDir)];
      var cc := Fire(Event(CurrentCase, Null, CaseRef(a.ref)), faulty, o);
      var nm := Fire(Event(Name, Text(""), Text(a.name)), faulty, o);
      var recent: seq<Effect<C>> := [RecentCall(AddRecent(a.name, a.configPath))];
      ObserveAppend(nm, recent, o);
      var rest: seq<Effect<C>> := if tempListed then nm + recent else [];
      ObserveAppend(redirect, cc, o);
      ObserveAppend(redirect + cc, rest, o);
      assert ArrivingPart(arriving, defaultLogDir, faulty, tempListed) == redirect + cc + rest;
    }
  }

  /**
   * Within changeCase, listeners of the leaving case's events find no case
   * open, and listeners of the arriving case's events find the arriving case.
   */
  lemma TransitionObserved<C>(leaving: Option<CaseView<C>>, arriving: Option<CaseView<C>>,
                              defaultLogDir: string, faulty: set<EventKind>, tempListed: bool)
    ensures var t := Transition(leaving, arriving, defaultLogDir, faulty, tempListed);
            var k := |LeavingPart(leaving, faulty)|;
            Observe(t[..k], None) && Observe(t[k..], RefOf(arriving))
  {
    var t := Transition(leaving, arriving, defaultLogDir, faulty, tempListed);
    var k := |LeavingPart(leaving, faulty)|;
    assert t[..k] == LeavingPart(leaving, faulty);
    assert t[k..] == ArrivingPart(arriving, defaultLogDir, faulty, tempListed);
    ObserveParts(leaving, arriving, defaultLogDir, faulty, tempListed);
  }

  /** The events that listeners receive, in order. */
  function Events<C>(t: seq<Effect<C>>): seq<Event<C>> {
    if t == [] then []
    else Events(t[..|t| - 1]) + (if t[|t| - 1].Fired? then [t[|t| - 1].event] else [])
  }

  lemma {:induction false} EventsAppend<C>(t: seq<Effect<C>>, u: seq<Effect<C>>)
    ensures Events(t + u) == Events(t) + Events(u)
    decreases |u|
  {
    if u == [] {
      assert t + u == t;
    } else {
      var u' := u[..|u| - 1];
      assert (t + u)[..|t + u| - 1] == t + u';
      assert (t + u)[|t + u| - 1] == u[|u| - 1];
      EventsAppend(t, u');
    }
  }

  /**
   * A delivered event is fired once, whether or not one of its listeners
   * throws; `Fired` marks that firing began, not that every listener ran.
   */
  lemma EventsFire<C>(e: Event<C>, faulty: set<EventKind>, o: Option<C>)
    ensures Events(Fire(e, faulty, o)) == if Delivered(e) then [e] else []
  {
    var one: seq<Effect<C>> := [Fired(e, o)];
    assert one[..0] == [];
    assert Events(one) == [e];
    if Delivered(e) && e.kind in faulty {
      var t := Fire(e, faulty, o);
      assert t[..1] == one;
    }
  }

  /** The NAME event listeners see when `before` turns into `after`; none when they are equal. */
  function NameChange<C>(before: string, after: string): seq<Event<C>> {
    if before != after then [Event(Name, Text(before), Text(after))] else []
  }

  lemma DetachEvents<C>(l: CaseView<C>, faulty: set<EventKind>)
    ensures Events(Detach(l, faulty)) == [Event(CurrentCase, CaseRef(l.ref), Null)] + NameChange(l.name, "")
  {
    var cc := Event(CurrentCase, CaseRef(l.ref), Null);
    var nm := Event(Name, Text(l.name), Text(""));
    var cleared: seq<Effect<C>> := [NotificationsCleared];
    EventsAppend(cleared, Fire(cc, faulty, None));
    EventsAppend(cleared + Fire(cc, faulty, None), Fire(nm, faulty, None));
    assert Events(cleared) == [] by {
      assert cleared[..0] == [];
    }
    EventsFire(cc, faulty, None);
    EventsFire(nm, faulty, None);
  }

  /** What listeners see of an arrival after CURRENT_CASE: the NAME event only. */
  lemma ArrivalTailEvents<C>(a: CaseView<C>, faulty: set<EventKind>)
    ensures Events(Fire(Event(Name, Text(""), Text(a.name)), faulty, Some(a.ref))
                   + [RecentCall(AddRecent(a.name, a.configPath))])
            == NameChange("", a.name)
  {
    var nm := Event(Name, Text(""), Text(a.name));
    var recent: seq<Effect<C>> := [RecentCall(AddRecent(a.name, a.configPath))];
    EventsAppend(Fire(nm, faulty, Some(a.ref)), recent);
    assert Events(recent) == [] by {
      assert recent[..0] == [];
    }
    EventsFire(nm, faulty, Some(a.ref));
  }

  lemma AttachEvents<C>(a: CaseView<C>, faulty: set<EventKind>, tempListed: bool)
    ensures Events(Attach(a, faulty, tempListed))
              == [Event(CurrentCase, Null, CaseRef(a.ref))] + (if tempListed then NameChange("", a.name) else [])
  {
    var cc := Event(CurrentCase, Null, CaseRef(a.ref));
    var redirect: seq<Effect<C>> := [LogDirSet(a.logDir)];
    var rest: seq<Effect<C>> := if tempListed
      then Fire(Event(Name, Text(""), Text(a.name)), faulty, Some(a.ref)) + [RecentCall(AddRecent(a.name, a.configPath))]
      else [];
    var fired := Fire(cc, faulty, Some(a.ref));
    assert Attach(a, faulty, tempListed) == redirect + fired + rest;
    assert Events(redirect + fired) == [cc] by {
      EventsAppend(redirect, fired);
      assert redirect[..0] == [];
      EventsFire(cc, faulty, Some(a.ref));
    }
    assert Events(rest) == (if tempListed then NameChange("", a.name) else []) by {
      if tempListed {
        ArrivalTailEvents(a, faulty);
      }
    }
    EventsAppend(redirect + fired, rest);
  }

  /**
   * What listeners see of one changeCase: for a leaving case CURRENT_CASE(old,
   * null) then NAME(name, ""); for an arriving case CURRENT_CASE(null, new) then,
   * unless its temp folder could not be listed, NAME("", name); a NAME event
   * whose two names are both empty is not delivered. A listener that throws
   * ends the delivery of that one event but not the sequence.
   */
  lemma {:induction false} TransitionEvents<C>(leaving: Option<CaseView<C>>, arriving: Option<CaseView<C>>,
                                               defaultLogDir: string, faulty: set<EventKind>, tempListed: bool)
    ensures Events(Transition(leaving, arriving, defaultLogDir, faulty, tempListed))
              == (if leaving.Some?
                  then [Event(CurrentCase, CaseRef(leaving.value.ref), Null)] + NameChange(leaving.value.name, "")
                  else [])
                 + (if arriving.Some?
                    then [Event(CurrentCase, Null, CaseRef(arriving.value.ref))]
                         + (if tempListed then NameChange("", arriving.value.name) else [])
                    else [])
  {
    var detach := LeavingPart(leaving, faulty);
    var attach := ArrivingPart(arriving, defaultLogDir, faulty, tempListed);
    EventsAppend(detach, attach);
    LeavingEvents(leaving, faulty);
    ArrivingEvents(arriving, defaultLogDir, faulty, tempListed);
  }

  lemma LeavingEvents<C>(leaving: Option<CaseView<C>>, faulty: set<EventKind>)
    ensures Events(LeavingPart(leaving, faulty))
              == if leaving.Some?
                 then [Event(CurrentCase, CaseRef(leaving.value.ref), Null)] + NameChange(leaving.value.name, "")
                 else []
  {
    if leaving.Some? {
      DetachEvents(leaving.value, faulty);
    }
  }

  lemma ArrivingEvents<C>(arriving: Option<CaseView<C>>, defaultLogDir: string, faulty: set<EventKind>,
                          tempListed: bool)
    ensures Events(ArrivingPart(arriving, defaultLogDir, faulty, tempListed))
              == if arriving.Some?
                 then [Event(CurrentCase, Null, CaseRef(arriving.value.ref))]
                      + (if tempListed then NameChange("", arriving.value.name) else [])
                 else []
  {
    if arriving.Some? {
      AttachEvents(arriving.value, faulty, tempListed);
    } else {
      var redirect: seq<Effect<C>> := [LogDirSet(defaultLogDir)];
      assert redirect[..0] == [];
    }
  }
}

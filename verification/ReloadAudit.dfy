/** Correlating reload-recovery log lines, trace events and durable records
    (scripts/reload_recovery_audit.py). */
module ReloadAudit {
  import opened Options
  import opened Listing

  datatype Kind =
    | Persisted | Claimed | Attached | Delivered | DeliveryMismatch | NonPending
    | HistorySnapshot | HistoryQueued | TuiFlow | SendHistory | MemberRunning

  // The detail text is kept as what the evidence tests ask of it: does it speak of a queued
  // continuation, does it name an accepting party.
  datatype Event = Event(kind: Kind, file: string, line: nat, reloadId: Option<string>, sessionId: Option<string>,
                         role: Option<string>, saysQueued: bool, saysAccepted: bool)

  datatype IntentRecord = IntentRecord(
    reloadId: string, sessionId: string, role: Option<string>,
    persisted: Option<Event>, claimed: Option<Event>,
    attached: seq<Event>, delivered: seq<Event>, deliveryMismatch: seq<Event>, nonPending: seq<Event>,
    historySnapshot: seq<Event>, historyQueued: seq<Event>, tuiFlows: seq<Event>, sendHistory: seq<Event>,
    memberRunning: seq<Event>,
    durableStatus: Option<string>, durableDeliveredAt: Option<string>)

  datatype Key = Key(reloadId: string, sessionId: string)

  type Records = map<Key, IntentRecord>

  predicate Truthy(s: Option<string>) {
    s.Some? && s.value != ""
  }

  function Fresh(key: Key, role: Option<string>): IntentRecord {
    IntentRecord(key.reloadId, key.sessionId, role, None, None, [], [], [], [], [], [], [], [], [], None, None)
  }

  // ---------------------------------------------------------------- filing one event

  function KeyOf(e: Event): Option<Key> {
    if Truthy(e.reloadId) && Truthy(e.sessionId) then Some(Key(e.reloadId.value, e.sessionId.value)) else None
  }

  function WithRole(r: IntentRecord, role: Option<string>): IntentRecord {
    if Truthy(role) && !Truthy(r.role) then r.(role := role) else r
  }

  function WithEvent(r: IntentRecord, e: Event): IntentRecord {
    match e.kind
    case Persisted => r.(persisted := Some(e))
    case Claimed => r.(claimed := Some(e))
    case Attached => r.(attached := r.attached + [e])
    case Delivered => r.(delivered := r.delivered + [e])
    case DeliveryMismatch => r.(deliveryMismatch := r.deliveryMismatch + [e])
    case NonPending => r.(nonPending := r.nonPending + [e])
    case HistorySnapshot => r.(historySnapshot := r.historySnapshot + [e])
    case HistoryQueued => r.(historyQueued := r.historyQueued + [e])
    case TuiFlow => r.(tuiFlows := r.tuiFlows + [e])
    case SendHistory => r.(sendHistory := r.sendHistory + [e])
    case MemberRunning => r.(memberRunning := r.memberRunning + [e])
  }

  function Added(records: Records, e: Event): Records {
    match KeyOf(e)
    case None => records
    case Some(key) =>
      var r := if key in records then records[key] else Fresh(key, e.role);
      records[key := WithEvent(WithRole(r, e.role), e)]
  }

  function AddedAll(records: Records, es: seq<Event>): Records {
    if es == [] then records else Added(AddedAll(records, es[..|es| - 1]), es[|es| - 1])
  }

  // ---------------------------------------------------------------- the declarative reading

  // The events filed under a key, in order.
  function Group(es: seq<Event>, key: Key): seq<Event> {
    if es == [] then []
    else Group(es[..|es| - 1], key) + if KeyOf(es[|es| - 1]) == Some(key) then [es[|es| - 1]] else []
  }

  function OfKind(es: seq<Event>, kind: Kind): seq<Event> {
    if es == [] then []
    else OfKind(es[..|es| - 1], kind) + if es[|es| - 1].kind == kind then [es[|es| - 1]] else []
  }

  function Last(es: seq<Event>): Option<Event> {
    if es == [] then None else Some(es[|es| - 1])
  }

  // The first role that says something; failing that, what the first event had.
  function FirstRole(es: seq<Event>): Option<string> {
    if es == [] then None
    else if |es| == 1 then es[0].role
    else
      var before := FirstRole(es[..|es| - 1]);
      if Truthy(before) || !Truthy(es[|es| - 1].role) then before else es[|es| - 1].role
  }

  function Filed(key: Key, role: Option<string>, es: seq<Event>): IntentRecord {
    IntentRecord(key.reloadId, key.sessionId, role,
                 Last(OfKind(es, Persisted)), Last(OfKind(es, Claimed)),
                 OfKind(es, Attached), OfKind(es, Delivered), OfKind(es, DeliveryMismatch), OfKind(es, NonPending),
                 OfKind(es, HistorySnapshot), OfKind(es, HistoryQueued), OfKind(es, TuiFlow), OfKind(es, SendHistory),
                 OfKind(es, MemberRunning), None, None)
  }

  // What the record of a key ought to be, read off its events.
  function RecordOf(key: Key, es: seq<Event>): IntentRecord {
    Filed(key, FirstRole(es), es)
  }

  ghost predicate Reads(records: Records, es: seq<Event>) {
    && (forall key :: key in records <==> Group(es, key) != [])
    && (forall key :: key in records ==> records[key] == RecordOf(key, Group(es, key)))
  }

  lemma GroupMore(es: seq<Event>, e: Event, key: Key)
    ensures Group(es + [e], key) == if KeyOf(e) == Some(key) then Group(es, key) + [e] else Group(es, key)
  {
  }

  lemma RoleMore(es: seq<Event>, e: Event)
    ensures FirstRole(es + [e]) ==
            if es == [] then e.role else if Truthy(e.role) && !Truthy(FirstRole(es)) then e.role else FirstRole(es)
  {
  }

  lemma KindsMore(es: seq<Event>, e: Event)
    ensures forall kind :: kind != e.kind ==> OfKind(es + [e], kind) == OfKind(es, kind)
    ensures OfKind(es + [e], e.kind) == OfKind(es, e.kind) + [e]
  {
  }

  lemma FiledMore(key: Key, role: Option<string>, es: seq<Event>, e: Event)
    ensures Filed(key, role, es + [e]) == WithEvent(Filed(key, role, es), e)
  {
    hide OfKind;
    KindsMore(es, e);
    match e.kind
    case Persisted =>
    case Claimed =>
    case Attached =>
    case Delivered =>
    case DeliveryMismatch =>
    case NonPending =>
    case HistorySnapshot =>
    case HistoryQueued =>
    case TuiFlow =>
    case SendHistory =>
    case MemberRunning =>
  }

  lemma FiledNothing(key: Key, role: Option<string>)
    ensures Filed(key, role, []) == Fresh(key, role)
  {
  }

  lemma RecordMore(key: Key, es: seq<Event>, e: Event)
    ensures var r := if es == [] then Fresh(key, e.role) else RecordOf(key, es);
            RecordOf(key, es + [e]) == WithEvent(WithRole(r, e.role), e)
  {
    hide OfKind, FirstRole, Truthy, WithEvent;
    RoleMore(es, e);
    FiledNothing(key, e.role);
    FiledMore(key, FirstRole(es + [e]), es, e);
  }

  lemma ReadsMore(records: Records, es: seq<Event>, e: Event)
    requires Reads(records, es)
    ensures Reads(Added(records, e), es + [e])
  {
    hide RecordOf, WithEvent, WithRole, KeyOf, Group, Fresh;
    forall key ensures Group(es + [e], key) == if KeyOf(e) == Some(key) then Group(es, key) + [e] else Group(es, key) {
      GroupMore(es, e, key);
    }
    if KeyOf(e).Some? {
      RecordMore(KeyOf(e).value, Group(es, KeyOf(e).value), e);
    }
  }

  // Filing events one by one is grouping them by key.
  lemma {:induction false} FilingIsGrouping(es: seq<Event>)
    ensures Reads(AddedAll(map[], es), es)
  {
    if es == [] {
    } else {
      hide Reads, Added;
      FilingIsGrouping(es[..|es| - 1]);
      ReadsMore(AddedAll(map[], es[..|es| - 1]), es[..|es| - 1], es[|es| - 1]);
      assert es[..|es| - 1] + [es[|es| - 1]] == es;
    }
  }

  // ---------------------------------------------------------------- what a record says, position by position

  function FiledUnder(es: seq<Event>, key: Key): (int, Event) -> bool {
    (i, e) => 0 <= i < |es| && es[i] == e && e.reloadId == Some(key.reloadId) && e.sessionId == Some(key.sessionId)
              && key.reloadId != "" && key.sessionId != ""
  }

  // A key's events are those with its two ids, neither of them empty, in their order.
  lemma {:induction false} GroupLists(es: seq<Event>, key: Key, n: nat)
    requires n <= |es|
    ensures Lists(Group(es[..n], key), n, FiledUnder(es, key))
  {
    hide Lists;
    var gives := FiledUnder(es, key);
    if n == 0 {
      ListsNothing(gives);
    } else {
      var e := es[n - 1];
      GroupLists(es, key, n - 1);
      assert es[..n][..n - 1] == es[..n - 1];
      if KeyOf(e) == Some(key) {
        ListsMore(Group(es[..n - 1], key), n - 1, gives, e);
      } else {
        ListsOn(Group(es[..n - 1], key), n - 1, gives);
        assert Group(es[..n], key) == Group(es[..n - 1], key);
      }
    }
  }

  function KindIs(es: seq<Event>, kind: Kind): (int, Event) -> bool {
    (i, e) => 0 <= i < |es| && es[i] == e && e.kind == kind
  }

  lemma {:induction false} KindLists(es: seq<Event>, kind: Kind, n: nat)
    requires n <= |es|
    ensures Lists(OfKind(es[..n], kind), n, KindIs(es, kind))
  {
    hide Lists;
    var gives := KindIs(es, kind);
    if n == 0 {
      ListsNothing(gives);
    } else {
      var e := es[n - 1];
      KindLists(es, kind, n - 1);
      assert es[..n][..n - 1] == es[..n - 1];
      if e.kind == kind {
        ListsMore(OfKind(es[..n - 1], kind), n - 1, gives, e);
      } else {
        ListsOn(OfKind(es[..n - 1], kind), n - 1, gives);
        assert OfKind(es[..n], kind) == OfKind(es[..n - 1], kind);
      }
    }
  }

  lemma KindListsAll(es: seq<Event>, kind: Kind)
    ensures Lists(OfKind(es, kind), |es|, KindIs(es, kind))
  {
    assert es[..|es|] == es;
    KindLists(es, kind, |es|);
  }

  // A record keeps the events of each kind in their order.
  lemma RecordLists(key: Key, es: seq<Event>)
    ensures var r := RecordOf(key, es);
            && Lists(r.attached, |es|, KindIs(es, Attached)) && Lists(r.delivered, |es|, KindIs(es, Delivered))
            && Lists(r.deliveryMismatch, |es|, KindIs(es, DeliveryMismatch)) && Lists(r.nonPending, |es|, KindIs(es, NonPending))
            && Lists(r.historySnapshot, |es|, KindIs(es, HistorySnapshot)) && Lists(r.historyQueued, |es|, KindIs(es, HistoryQueued))
            && Lists(r.tuiFlows, |es|, KindIs(es, TuiFlow)) && Lists(r.sendHistory, |es|, KindIs(es, SendHistory))
            && Lists(r.memberRunning, |es|, KindIs(es, MemberRunning))
  {
    hide Lists, OfKind, FirstRole;
    forall kind ensures Lists(OfKind(es, kind), |es|, KindIs(es, kind)) {
      KindListsAll(es, kind);
    }
  }

  ghost predicate LastAt(es: seq<Event>, i: int, kind: Kind) {
    0 <= i < |es| && es[i].kind == kind && forall j :: i < j < |es| ==> es[j].kind != kind
  }

  lemma {:induction false} LastOfKind(es: seq<Event>, kind: Kind, e: Event)
    ensures Last(OfKind(es, kind)) == Some(e) <==> exists i :: LastAt(es, i, kind) && es[i] == e
  {
    if es != [] {
      var k := |es| - 1;
      var init := es[..k];
      LastOfKind(init, kind, e);
      LastAtOn(es, kind);
      assert es[k].kind != kind ==> OfKind(es, kind) == OfKind(init, kind) + [] == OfKind(init, kind);
      hide LastAt;
      forall i | LastAt(init, i, kind) ensures init[i] == es[i] {
        LastAtWithin(init, i, kind);
      }
    }
  }

  lemma LastAtWithin(es: seq<Event>, i: int, kind: Kind)
    requires LastAt(es, i, kind)
    ensures 0 <= i < |es|
  {
  }

  lemma LastAtOn(es: seq<Event>, kind: Kind)
    requires es != []
    ensures es[|es| - 1].kind == kind ==> forall i :: LastAt(es, i, kind) <==> i == |es| - 1
    ensures es[|es| - 1].kind != kind ==> forall i :: LastAt(es, i, kind) <==> LastAt(es[..|es| - 1], i, kind)
  {
    var init := es[..|es| - 1];
    if es[|es| - 1].kind != kind {
      forall i ensures LastAt(es, i, kind) <==> LastAt(init, i, kind) {
        if LastAt(es, i, kind) {
          assert i < |init|;
        }
        if LastAt(init, i, kind) {
          forall j | i < j < |es| ensures es[j].kind != kind {
            assert j < |init| ==> init[j] == es[j];
          }
        }
      }
    }
  }

  // Of persisted and claimed events the last one stays.
  lemma RecordLast(key: Key, es: seq<Event>, e: Event)
    ensures RecordOf(key, es).persisted == Some(e) <==> exists i :: LastAt(es, i, Persisted) && es[i] == e
    ensures RecordOf(key, es).claimed == Some(e) <==> exists i :: LastAt(es, i, Claimed) && es[i] == e
  {
    hide OfKind, FirstRole, LastAt;
    LastOfKind(es, Persisted, e);
    LastOfKind(es, Claimed, e);
  }

  // The first event with a non-empty role gives it.
  lemma {:induction false} FirstRoleAt(es: seq<Event>, i: nat)
    requires i < |es| && es[i].role.Some? && es[i].role.value != ""
    requires forall j :: 0 <= j < i ==> es[j].role == None || es[j].role == Some("")
    ensures FirstRole(es) == es[i].role
    decreases |es|
  {
    if i < |es| - 1 {
      FirstRoleAt(es[..|es| - 1], i);
    } else if i > 0 {
      NoRole(es[..|es| - 1]);
    }
  }

  lemma {:induction false} NoRole(es: seq<Event>)
    requires es != [] && forall j :: 0 <= j < |es| ==> es[j].role == None || es[j].role == Some("")
    ensures FirstRole(es) == es[0].role
  {
    if |es| > 1 {
      NoRole(es[..|es| - 1]);
    }
  }

  // ---------------------------------------------------------------- log lines

  // A line either names a reload id together with its session, or only the session.
  datatype Text =
    | Names(kind: Kind, reloadId: string, sessionId: string, role: Option<string>, saysQueued: bool, saysAccepted: bool)
    | Mentions(kind: Kind, sessionId: string, saysQueued: bool, saysAccepted: bool)
    | HiddenSend
    | Other

  datatype LogLine = LogLine(file: string, line: nat, text: Text)

  // The reload id most recently named for a session before line i.
  function LatestBefore(lines: seq<LogLine>, i: nat, sessionId: string): Option<string>
    requires i <= |lines|
  {
    if i == 0 then None
    else
      var text := lines[i - 1].text;
      if text.Names? && text.sessionId == sessionId then Some(text.reloadId) else LatestBefore(lines, i - 1, sessionId)
  }

  ghost predicate NamedAt(lines: seq<LogLine>, j: int, sessionId: string, reloadId: string) {
    0 <= j < |lines| && lines[j].text.Names? && lines[j].text.sessionId == sessionId && lines[j].text.reloadId == reloadId
  }

  // It is named by an earlier line, and no line in between names another for that session.
  lemma {:induction false} LatestMeans(lines: seq<LogLine>, i: nat, sessionId: string, reloadId: string)
    requires i <= |lines|
    ensures LatestBefore(lines, i, sessionId) == Some(reloadId) <==>
            exists j :: j < i && NamedAt(lines, j, sessionId, reloadId)
                        && forall k, other :: j < k < i ==> !NamedAt(lines, k, sessionId, other)
  {
    if i > 0 {
      LatestMeans(lines, i - 1, sessionId, reloadId);
      var text := lines[i - 1].text;
      if text.Names? && text.sessionId == sessionId {
        assert NamedAt(lines, i - 1, sessionId, text.reloadId);
      } else if LatestBefore(lines, i, sessionId) == Some(reloadId) {
        var j :| j < i - 1 && NamedAt(lines, j, sessionId, reloadId)
                 && forall k, other :: j < k < i - 1 ==> !NamedAt(lines, k, sessionId, other);
        assert forall k, other :: j < k < i ==> !NamedAt(lines, k, sessionId, other);
      }
    }
  }

  // The event a line contributes, if any.
  function Resolved(lines: seq<LogLine>, i: nat): seq<Event>
    requires i < |lines|
  {
    var LogLine(file, line, text) := lines[i];
    match text
    case Names(kind, reloadId, sessionId, role, queued, accepted) =>
      [Event(kind, file, line, Some(reloadId), Some(sessionId), role, queued, accepted)]
    case Mentions(kind, sessionId, queued, accepted) =>
      var reloadId := LatestBefore(lines, i, sessionId);
      if Truthy(reloadId) then [Event(kind, file, line, reloadId, Some(sessionId), None, queued, accepted)] else []
    case HiddenSend => []
    case Other => []
  }

  function LogEvents(lines: seq<LogLine>, n: nat): seq<Event>
    requires n <= |lines|
  {
    if n == 0 then [] else LogEvents(lines, n - 1) + Resolved(lines, n - 1)
  }

  // What line i gives, read off the lines: an event of its own kind, place, session and flags, with the reload id
  // that it names, or that the nearest earlier line naming its session named.
  ghost predicate GivesEvent(lines: seq<LogLine>, i: int, e: Event) {
    && 0 <= i < |lines| && e.file == lines[i].file && e.line == lines[i].line
    && match lines[i].text
       case Names(kind, reloadId, sessionId, role, queued, accepted) =>
         e.kind == kind && e.reloadId == Some(reloadId) && e.sessionId == Some(sessionId) && e.role == role
         && e.saysQueued == queued && e.saysAccepted == accepted
       case Mentions(kind, sessionId, queued, accepted) =>
         e.kind == kind && e.sessionId == Some(sessionId) && e.role == None
         && e.saysQueued == queued && e.saysAccepted == accepted
         && e.reloadId.Some? && e.reloadId.value != ""
         && exists j :: j < i && NamedAt(lines, j, sessionId, e.reloadId.value)
                        && forall k, other :: j < k < i ==> !NamedAt(lines, k, sessionId, other)
       case HiddenSend => false
       case Other => false
  }

  ghost function GivenBy(lines: seq<LogLine>): (int, Event) -> bool {
    (i, e) => GivesEvent(lines, i, e)
  }

  lemma ResolvedGives(lines: seq<LogLine>, i: nat, e: Event)
    requires i < |lines|
    ensures GivesEvent(lines, i, e) <==> Resolved(lines, i) == [e]
    ensures |Resolved(lines, i)| <= 1
  {
    hide LatestBefore, NamedAt;
    if lines[i].text.Mentions? && e.reloadId.Some? {
      LatestMeans(lines, i, lines[i].text.sessionId, e.reloadId.value);
    }
  }

  // The events of a log are those its lines give, at most one a line, in line order.
  lemma {:induction false} LogLists(lines: seq<LogLine>, n: nat)
    requires n <= |lines|
    ensures Lists(LogEvents(lines, n), n, GivenBy(lines))
  {
    hide Resolved, GivesEvent, Lists;
    if n == 0 {
      ListsNothing(GivenBy(lines));
    } else {
      var i := n - 1;
      LogLists(lines, i);
      forall e ensures GivenBy(lines)(i, e) <==> Resolved(lines, i) == [e] {
        ResolvedGives(lines, i, e);
      }
      if Resolved(lines, i) == [] {
        ListsOn(LogEvents(lines, i), i, GivenBy(lines));
        assert LogEvents(lines, i) + [] == LogEvents(lines, i);
      } else {
        ResolvedOne(lines, i);
        ListsMore(LogEvents(lines, i), i, GivenBy(lines), Resolved(lines, i)[0]);
      }
    }
  }

  lemma ResolvedOne(lines: seq<LogLine>, i: nat)
    requires i < |lines| && Resolved(lines, i) != []
    ensures Resolved(lines, i) == [Resolved(lines, i)[0]]
  {
  }

  lemma AddedOne(records: Records, es: seq<Event>, e: Event)
    ensures AddedAll(records, es + [e]) == Added(AddedAll(records, es), e)
  {
  }

  lemma {:induction false} AddedJoin(records: Records, a: seq<Event>, b: seq<Event>)
    ensures AddedAll(AddedAll(records, a), b) == AddedAll(records, a + b)
    decreases |b|
  {
    hide Added;
    if b == [] {
      assert a + b == a;
    } else {
      assert (a + b)[..|a + b| - 1] == a + b[..|b| - 1];
      AddedJoin(records, a, b[..|b| - 1]);
    }
  }

  // The table holds, for every session, the reload id most recently named for it.
  ghost predicate Tracks(latest: map<string, string>, lines: seq<LogLine>, i: nat)
    requires i <= |lines|
  {
    forall s :: LatestBefore(lines, i, s) == if s in latest then Some(latest[s]) else None
  }

  lemma TracksAt(latest: map<string, string>, lines: seq<LogLine>, i: nat, s: string)
    requires i <= |lines| && Tracks(latest, lines, i)
    ensures LatestBefore(lines, i, s) == if s in latest then Some(latest[s]) else None
  {
  }

  lemma TracksMore(latest: map<string, string>, lines: seq<LogLine>, i: nat)
    requires i < |lines| && Tracks(latest, lines, i)
    ensures var text := lines[i].text;
            Tracks(if text.Names? then latest[text.sessionId := text.reloadId] else latest, lines, i + 1)
  {
  }

  function HiddenLines(lines: seq<LogLine>, n: nat): seq<LogLine>
    requires n <= |lines|
  {
    if n == 0 then [] else HiddenLines(lines, n - 1) + if lines[n - 1].text.HiddenSend? then [lines[n - 1]] else []
  }

  function HiddenAt(lines: seq<LogLine>): (int, LogLine) -> bool {
    (i, line) => 0 <= i < |lines| && lines[i] == line && line.text.HiddenSend?
  }

  lemma {:induction false} HiddenLists(lines: seq<LogLine>, n: nat)
    requires n <= |lines|
    ensures Lists(HiddenLines(lines, n), n, HiddenAt(lines))
  {
    hide Lists;
    if n == 0 {
      ListsNothing(HiddenAt(lines));
    } else {
      HiddenLists(lines, n - 1);
      if lines[n - 1].text.HiddenSend? {
        ListsMore(HiddenLines(lines, n - 1), n - 1, HiddenAt(lines), lines[n - 1]);
      } else {
        ListsOn(HiddenLines(lines, n - 1), n - 1, HiddenAt(lines));
        assert HiddenLines(lines, n - 1) + [] == HiddenLines(lines, n - 1);
      }
    }
  }

  // ---------------------------------------------------------------- trace and durable files

  datatype TraceLine =
    | Unparsed
    | Trace(kind: Option<Kind>, reloadId: Option<string>, stem: string, sessionId: Option<string>, role: Option<string>,
            file: string, line: nat, saysQueued: bool, saysAccepted: bool)

  // A trace line of a known phase; without a reload id of its own it belongs to the file's reload.
  function TraceEvent(t: TraceLine): seq<Event> {
    if t.Unparsed? || t.kind.None? then []
    else
      var reloadId := if Truthy(t.reloadId) then t.reloadId else Some(t.stem);
      if !Truthy(reloadId) || !Truthy(t.sessionId) then []
      else [Event(t.kind.value, t.file, t.line, reloadId, t.sessionId, t.role, t.saysQueued, t.saysAccepted)]
  }

  function TraceEvents(ts: seq<TraceLine>): seq<Event> {
    if ts == [] then [] else TraceEvents(ts[..|ts| - 1]) + TraceEvent(ts[|ts| - 1])
  }

  // What trace line i gives: an event of a known phase, for its session, under its own reload id or the file's.
  ghost predicate GivesTrace(ts: seq<TraceLine>, i: int, e: Event) {
    && 0 <= i < |ts| && ts[i].Trace? && ts[i].kind == Some(e.kind)
    && e.file == ts[i].file && e.line == ts[i].line && e.role == ts[i].role
    && e.saysQueued == ts[i].saysQueued && e.saysAccepted == ts[i].saysAccepted
    && e.sessionId == ts[i].sessionId && e.sessionId.Some? && e.sessionId.value != ""
    && e.reloadId.Some? && e.reloadId.value != ""
    && (if ts[i].reloadId == None || ts[i].reloadId == Some("") then e.reloadId.value == ts[i].stem
        else e.reloadId == ts[i].reloadId)
  }

  ghost function TracedBy(ts: seq<TraceLine>): (int, Event) -> bool {
    (i, e) => GivesTrace(ts, i, e)
  }

  lemma TraceGives(ts: seq<TraceLine>, i: nat, e: Event)
    requires i < |ts|
    ensures GivesTrace(ts, i, e) <==> TraceEvent(ts[i]) == [e]
    ensures |TraceEvent(ts[i])| <= 1
  {
  }

  lemma {:induction false} TraceLists(ts: seq<TraceLine>, n: nat)
    requires n <= |ts|
    ensures Lists(TraceEvents(ts[..n]), n, TracedBy(ts))
  {
    hide TraceEvent, GivesTrace, Lists;
    if n == 0 {
      ListsNothing(TracedBy(ts));
    } else {
      var i := n - 1;
      TraceLists(ts, i);
      assert ts[..n][..i] == ts[..i];
      forall e ensures TracedBy(ts)(i, e) <==> TraceEvent(ts[i]) == [e] {
        TraceGives(ts, i, e);
      }
      if TraceEvent(ts[i]) == [] {
        ListsOn(TraceEvents(ts[..i]), i, TracedBy(ts));
        assert TraceEvents(ts[..i]) + [] == TraceEvents(ts[..i]);
      } else {
        TraceOne(ts[i]);
        ListsMore(TraceEvents(ts[..i]), i, TracedBy(ts), TraceEvent(ts[i])[0]);
      }
    }
  }

  lemma TraceOne(t: TraceLine)
    requires TraceEvent(t) != []
    ensures TraceEvent(t) == [TraceEvent(t)[0]]
  {
  }

  datatype Durable =
    | Unreadable
    | Durable(reloadId: Option<string>, sessionId: Option<string>, role: Option<string>,
              status: Option<string>, deliveredAt: Option<string>)

  function DurableKey(d: Durable): Option<Key> {
    if d.Durable? && Truthy(d.reloadId) && Truthy(d.sessionId) then Some(Key(d.reloadId.value, d.sessionId.value)) else None
  }

  function Merged(records: Records, d: Durable): Records {
    match DurableKey(d)
    case None => records
    case Some(key) =>
      var r := if key in records then records[key] else Fresh(key, d.role);
      records[key := r.(role := if Truthy(r.role) then r.role else d.role,
                        durableStatus := d.status, durableDeliveredAt := d.deliveredAt)]
  }

  function MergedAll(records: Records, ds: seq<Durable>): Records {
    if ds == [] then records else Merged(MergedAll(records, ds[..|ds| - 1]), ds[|ds| - 1])
  }

  // The durable records of a key, in order.
  function DurablesOf(ds: seq<Durable>, key: Key): seq<Durable> {
    if ds == [] then []
    else DurablesOf(ds[..|ds| - 1], key) + if DurableKey(ds[|ds| - 1]) == Some(key) then [ds[|ds| - 1]] else []
  }

  // The first role that says something; failing that, the last one.
  function PickRole(roles: seq<Option<string>>): Option<string>
    requires roles != []
  {
    if |roles| == 1 || Truthy(roles[0]) then roles[0] else PickRole(roles[1..])
  }

  function RolesOf(g: seq<Durable>): seq<Option<string>> {
    seq(|g|, i requires 0 <= i < |g| => if g[i].Durable? then g[i].role else None)
  }

  // What a record ought to be once its durable records are known: the last of them decides status and delivery.
  function WithDurables(r: IntentRecord, g: seq<Durable>): IntentRecord {
    if g == [] || g[|g| - 1].Unreadable? then r
    else r.(role := PickRole([r.role] + RolesOf(g)),
            durableStatus := g[|g| - 1].status, durableDeliveredAt := g[|g| - 1].deliveredAt)
  }

  lemma {:induction false} PickMore(roles: seq<Option<string>>, role: Option<string>)
    requires roles != []
    ensures PickRole(roles + [role]) == if Truthy(PickRole(roles)) then PickRole(roles) else role
  {
    if |roles| == 1 {
      assert (roles + [role])[1..] == [role];
    } else if !Truthy(roles[0]) {
      assert (roles + [role])[1..] == roles[1..] + [role];
      PickMore(roles[1..], role);
    }
  }

  // The first non-empty role is picked.
  lemma {:induction false} PickAt(roles: seq<Option<string>>, i: nat)
    requires i < |roles| && roles[i].Some? && roles[i].value != ""
    requires forall j :: 0 <= j < i ==> roles[j] == None || roles[j] == Some("")
    ensures PickRole(roles) == roles[i]
  {
    if i > 0 {
      PickAt(roles[1..], i - 1);
    }
  }

  lemma {:induction false} DurablesOfAre(ds: seq<Durable>, key: Key)
    ensures forall d :: d in DurablesOf(ds, key) <==> d in ds && DurableKey(d) == Some(key)
  {
    hide DurableKey;
    if ds != [] {
      DurablesOfAre(ds[..|ds| - 1], key);
      assert ds == ds[..|ds| - 1] + [ds[|ds| - 1]];
    }
  }

  lemma WithDurablesMore(r: IntentRecord, g: seq<Durable>, d: Durable)
    requires d.Durable? && forall e :: e in g ==> e.Durable?
    ensures var s := WithDurables(r, g);
            WithDurables(r, g + [d]) ==
            s.(role := if Truthy(s.role) then s.role else d.role, durableStatus := d.status, durableDeliveredAt := d.deliveredAt)
  {
    hide Truthy, PickRole;
    assert [r.role] + RolesOf(g + [d]) == [r.role] + RolesOf(g) + [d.role];
    PickMore([r.role] + RolesOf(g), d.role);
    if g == [] {
      assert [r.role] + RolesOf(g) == [r.role];
      PickOne(r.role);
    } else {
      assert g[|g| - 1] in g;
    }
  }

  lemma PickOne(role: Option<string>)
    ensures PickRole([role]) == role
  {
  }

  // Merging one by one: a key has a record if it had one or some durable record is its own, and the record holds
  // what was there before with the durable records read off as a whole.
  lemma {:induction false} DurablesRead(records: Records, ds: seq<Durable>, key: Key)
    ensures key in MergedAll(records, ds) <==> key in records || DurablesOf(ds, key) != []
    ensures key in MergedAll(records, ds) ==>
              MergedAll(records, ds)[key] ==
              WithDurables(if key in records then records[key] else Fresh(key, None), DurablesOf(ds, key))
  {
    if ds != [] {
      var init, d := ds[..|ds| - 1], ds[|ds| - 1];
      hide DurableKey, WithDurables, Merged;
      DurablesRead(records, init, key);
      MergedOne(MergedAll(records, init), d, key);
      if DurableKey(d) == Some(key) {
        var r, g := if key in records then records[key] else Fresh(key, None), DurablesOf(init, key);
        DurablesOfAre(init, key);
        forall e | e in g + [d] ensures e.Durable? {
          KeyedIsDurable(e, key);
        }
        WithDurablesMore(r, g, d);
        if key !in MergedAll(records, init) {
          WithNone(r);
        }
      } else {
        assert DurablesOf(ds, key) == DurablesOf(init, key) + [] == DurablesOf(init, key);
      }
    } else {
      WithNone(if key in records then records[key] else Fresh(key, None));
    }
  }

  lemma KeyedIsDurable(d: Durable, key: Key)
    requires DurableKey(d) == Some(key)
    ensures d.Durable?
  {
  }

  lemma WithNone(r: IntentRecord)
    ensures WithDurables(r, []) == r
  {
  }

  lemma MergedOne(records: Records, d: Durable, key: Key)
    ensures DurableKey(d) != Some(key) ==>
              (key in Merged(records, d) <==> key in records) && (key in records ==> Merged(records, d)[key] == records[key])
    ensures DurableKey(d) == Some(key) ==>
              var r := if key in records then records[key] else Fresh(key, None);
              key in Merged(records, d) && d.Durable?
              && Merged(records, d)[key] == r.(role := if Truthy(r.role) then r.role else d.role,
                                               durableStatus := d.status, durableDeliveredAt := d.deliveredAt)
  {
  }

  // In terms of positions: the last durable record of a key decides status and delivery time.
  lemma LastDurableDecides(records: Records, ds: seq<Durable>, key: Key, j: nat)
    requires j < |ds| && DurableKey(ds[j]) == Some(key)
    requires forall k :: j < k < |ds| ==> DurableKey(ds[k]) != Some(key)
    ensures key in MergedAll(records, ds) && ds[j].Durable?
    ensures MergedAll(records, ds)[key].durableStatus == ds[j].status
    ensures MergedAll(records, ds)[key].durableDeliveredAt == ds[j].deliveredAt
    decreases |ds|
  {
    var init, d := ds[..|ds| - 1], ds[|ds| - 1];
    hide Truthy;
    if j == |ds| - 1 {
      MergedOne(MergedAll(records, init), d, key);
    } else {
      LastDurableDecides(records, init, key, j);
      MergedOne(MergedAll(records, init), d, key);
    }
  }

  // ---------------------------------------------------------------- the audit

  class Audit {
    var records: Records
    var sessionLatestReload: map<string, string>
    var hiddenSends: seq<LogLine>

    constructor ()
      ensures records == map[] && sessionLatestReload == map[] && hiddenSends == []
    {
      records, sessionLatestReload, hiddenSends := map[], map[], [];
    }

    method AddEvent(e: Event)
      modifies this`records
      ensures records == Added(old(records), e)
    {
      if !Truthy(e.reloadId) || !Truthy(e.sessionId) {
        return;
      }
      var key := Key(e.reloadId.value, e.sessionId.value);
      if key !in records {
        records := records[key := Fresh(key, e.role)];
      }
      if Truthy(e.role) && !Truthy(records[key].role) {
        records := records[key := records[key].(role := e.role)];
      }
      records := records[key := WithEvent(records[key], e)];
    }

    method ParseLine(lines: seq<LogLine>, i: nat)
      requires i < |lines| && records == AddedAll(map[], LogEvents(lines, i)) && Tracks(sessionLatestReload, lines, i)
      modifies this
      ensures records == AddedAll(map[], LogEvents(lines, i + 1)) && Tracks(sessionLatestReload, lines, i + 1)
      ensures hiddenSends == old(hiddenSends) + if lines[i].text.HiddenSend? then [lines[i]] else []
    {
      hide Added, AddedAll, Tracks, LatestBefore;
      var LogLine(file, no, text) := lines[i];
      ghost var before := LogEvents(lines, i);
      assert before + [] == before;
      TracksMore(sessionLatestReload, lines, i);
      match text {
        case Names(kind, reloadId, sessionId, role, queued, accepted) =>
          sessionLatestReload := sessionLatestReload[sessionId := reloadId];
          var e := Event(kind, file, no, Some(reloadId), Some(sessionId), role, queued, accepted);
          AddedOne(map[], before, e);
          AddEvent(e);
        case Mentions(kind, sessionId, queued, accepted) =>
          var reloadId := if sessionId in sessionLatestReload then Some(sessionLatestReload[sessionId]) else None;
          TracksAt(sessionLatestReload, lines, i, sessionId);
          if Truthy(reloadId) {
            var e := Event(kind, file, no, reloadId, Some(sessionId), None, queued, accepted);
            AddedOne(map[], before, e);
            AddEvent(e);
          }
        case HiddenSend =>
          hiddenSends := hiddenSends + [lines[i]];
        case Other =>
      }
    }

    // One pass over all readable log lines, oldest first.
    method ParseLogs(lines: seq<LogLine>)
      requires records == map[] && sessionLatestReload == map[] && hiddenSends == []
      modifies this
      ensures records == AddedAll(map[], LogEvents(lines, |lines|))
      ensures Lists(LogEvents(lines, |lines|), |lines|, GivenBy(lines))
      ensures Tracks(sessionLatestReload, lines, |lines|)
      ensures Lists(hiddenSends, |lines|, HiddenAt(lines))
    {
      hide Added;
      for i := 0 to |lines|
        invariant records == AddedAll(map[], LogEvents(lines, i)) && Tracks(sessionLatestReload, lines, i)
        invariant hiddenSends == HiddenLines(lines, i)
      {
        ParseLine(lines, i);
      }
      LogLists(lines, |lines|);
      HiddenLists(lines, |lines|);
    }

    method ParseTraceFiles(ts: seq<TraceLine>)
      modifies this`records
      ensures records == AddedAll(old(records), TraceEvents(ts))
      ensures Lists(TraceEvents(ts), |ts|, TracedBy(ts))
    {
      hide Added, Lists;
      for i := 0 to |ts|
        invariant records == AddedAll(old(records), TraceEvents(ts[..i]))
      {
        assert ts[..i + 1][..i] == ts[..i];
        ghost var before := TraceEvents(ts[..i]);
        var t := ts[i];
        if t.Unparsed? || t.kind.None? {
          assert TraceEvents(ts[..i + 1]) == before + [] == before;
          continue;
        }
        var reloadId := if Truthy(t.reloadId) then t.reloadId else Some(t.stem);
        if !Truthy(reloadId) || !Truthy(t.sessionId) {
          assert TraceEvents(ts[..i + 1]) == before + [] == before;
          continue;
        }
        var e := Event(t.kind.value, t.file, t.line, reloadId, t.sessionId, t.role, t.saysQueued, t.saysAccepted);
        AddedOne(old(records), before, e);
        AddEvent(e);
      }
      assert ts[..|ts|] == ts;
      TraceLists(ts, |ts|);
    }

    // Logs, then traces, then durable records.
    method Collect(lines: seq<LogLine>, ts: seq<TraceLine>, ds: seq<Durable>)
      requires records == map[] && sessionLatestReload == map[] && hiddenSends == []
      modifies this
      ensures records == MergedAll(AddedAll(AddedAll(map[], LogEvents(lines, |lines|)), TraceEvents(ts)), ds)
      ensures forall key :: key in records <==>
                (exists e :: Happened(lines, ts, key, e)) || exists i :: 0 <= i < |ds| && ForKey(ds[i], key)
      ensures forall key :: key in records ==>
                (IsOk(records[key]) <==> exists e :: Happened(lines, ts, key, e) && EvidenceEvent(e))
      ensures forall key :: key in records ==>
                records[key] == WithDurables(RecordOf(key, Group(AllEvents(lines, ts), key)), DurablesOf(ds, key))
    {
      hide AddedAll, MergedAll, LogEvents, TraceEvents, IsOk, EvidenceEvent, KeyOf, AllEvents, RecordOf, Group, WithDurables,
           DurablesOf, Happened, ForKey, Lists;
      ParseLogs(lines);
      ParseTraceFiles(ts);
      MergeDurableRecords(ds);
      forall key | key in records
        ensures IsOk(records[key]) <==> exists e :: Happened(lines, ts, key, e) && EvidenceEvent(e)
        ensures records[key] == WithDurables(RecordOf(key, Group(AllEvents(lines, ts), key)), DurablesOf(ds, key))
      {
        AuditReads(lines, ts, ds, key);
        OkHappened(lines, ts, key);
      }
      forall key
        ensures key in records <==>
                (exists e :: Happened(lines, ts, key, e)) || exists i :: 0 <= i < |ds| && ForKey(ds[i], key)
      {
        KeysRead(lines, ts, ds, key);
      }
    }

    method MergeDurableRecords(ds: seq<Durable>)
      modifies this`records
      ensures records == MergedAll(old(records), ds)
      ensures forall key :: key in records <==> key in old(records) || DurablesOf(ds, key) != []
      ensures forall key :: key in records ==>
                records[key] ==
                WithDurables(if key in old(records) then old(records)[key] else Fresh(key, None), DurablesOf(ds, key))
    {
      hide DurablesOf, WithDurables;
      for i := 0 to |ds|
        invariant records == MergedAll(old(records), ds[..i])
      {
        assert ds[..i + 1][..i] == ds[..i];
        var d := ds[i];
        if d.Unreadable? || !Truthy(d.reloadId) || !Truthy(d.sessionId) {
          continue;
        }
        var key := Key(d.reloadId.value, d.sessionId.value);
        if key !in records {
          records := records[key := Fresh(key, d.role)];
        }
        var r := records[key];
        records := records[key := r.(role := if Truthy(r.role) then r.role else d.role,
                                     durableStatus := d.status, durableDeliveredAt := d.deliveredAt)];
      }
      assert ds[..|ds|] == ds;
      forall key
        ensures key in records <==> key in old(records) || DurablesOf(ds, key) != []
        ensures key in records ==>
                  records[key] ==
                  WithDurables(if key in old(records) then old(records)[key] else Fresh(key, None), DurablesOf(ds, key))
      {
        DurablesRead(old(records), ds, key);
      }
    }
  }

  // ---------------------------------------------------------------- verdicts

  datatype Verdict =
    | OkClientQueued
    | OkServerAccepted
    | StillPending
    | SuspectDeliveredWithoutAcceptanceLog
    | AttachedNotAccepted
    | PersistedNotAttached
    | ObservedWithoutPersistLog

  predicate ClientQueueEvidence(r: IntentRecord) {
    r.historyQueued != [] || exists e :: e in r.tuiFlows && e.saysQueued
  }

  predicate ServerAcceptanceEvidence(r: IntentRecord) {
    r.delivered != [] || exists e :: e in r.tuiFlows && e.saysAccepted
  }

  function LowerCase(s: string): string {
    seq(|s|, i requires 0 <= i < |s| => if 'A' <= s[i] <= 'Z' then s[i] + 32 as char else s[i])
  }

  function VerdictOf(r: IntentRecord): Verdict {
    if ClientQueueEvidence(r) then OkClientQueued
    else if ServerAcceptanceEvidence(r) then OkServerAccepted
    else if r.durableStatus == Some("pending") || r.durableStatus == Some("Pending") then StillPending
    else if r.claimed.Some? || (r.durableStatus.Some? && LowerCase(r.durableStatus.value) == "delivered") then
      SuspectDeliveredWithoutAcceptanceLog
    else if r.attached != [] then AttachedNotAccepted
    else if r.persisted.Some? then PersistedNotAttached
    else ObservedWithoutPersistLog
  }

  predicate IsOk(r: IntentRecord) {
    VerdictOf(r).OkClientQueued? || VerdictOf(r).OkServerAccepted?
  }

  predicate EvidenceEvent(e: Event) {
    e.kind.HistoryQueued? || e.kind.Delivered? || (e.kind.TuiFlow? && (e.saysQueued || e.saysAccepted))
  }

  lemma {:induction false} OfKindMembers(es: seq<Event>, kind: Kind, e: Event)
    ensures e in OfKind(es, kind) <==> e in es && e.kind == kind
  {
    if es != [] {
      OfKindMembers(es[..|es| - 1], kind, e);
      assert es == es[..|es| - 1] + [es[|es| - 1]];
    }
  }

  lemma {:induction false} GroupMembers(es: seq<Event>, key: Key, e: Event)
    ensures e in Group(es, key) <==> e in es && KeyOf(e) == Some(key)
  {
    hide KeyOf;
    if es != [] {
      GroupMembers(es[..|es| - 1], key, e);
      assert es == es[..|es| - 1] + [es[|es| - 1]];
    }
  }

  // Later events, traces and durable records never take a record out of the ok verdicts.
  lemma {:induction false} OkSurvivesEvents(records: Records, es: seq<Event>, key: Key)
    requires key in records && IsOk(records[key])
    ensures key in AddedAll(records, es) && IsOk(AddedAll(records, es)[key])
    decreases |es|
  {
    if es != [] {
      hide IsOk, Added;
      OkSurvivesEvents(records, es[..|es| - 1], key);
      OkSurvivesEvent(AddedAll(records, es[..|es| - 1]), es[|es| - 1], key);
    }
  }

  lemma OkSurvivesEvent(records: Records, e: Event, key: Key)
    requires key in records && IsOk(records[key])
    ensures key in Added(records, e) && IsOk(Added(records, e)[key])
  {
    hide LowerCase;
    var r, s := records[key], Added(records, e)[key];
    assert forall f :: f in r.tuiFlows ==> f in s.tuiFlows;
  }

  lemma {:induction false} OkSurvivesDurables(records: Records, ds: seq<Durable>, key: Key)
    requires key in records && IsOk(records[key])
    ensures key in MergedAll(records, ds) && IsOk(MergedAll(records, ds)[key])
    decreases |ds|
  {
    if ds != [] {
      hide LowerCase;
      OkSurvivesDurables(records, ds[..|ds| - 1], key);
    }
  }

  // Durable records touch nothing but the role and the durable fields.
  ghost predicate SameEvents(r: IntentRecord, s: IntentRecord) {
    r.(role := None, durableStatus := None, durableDeliveredAt := None) == s.(role := None, durableStatus := None, durableDeliveredAt := None)
  }

  lemma DurablesKeepEvents(r: IntentRecord, g: seq<Durable>)
    ensures SameEvents(WithDurables(r, g), r)
  {
  }

  function AllEvents(lines: seq<LogLine>, ts: seq<TraceLine>): seq<Event> {
    LogEvents(lines, |lines|) + TraceEvents(ts)
  }

  // The whole audit reads off the inputs: which keys have a record, what each record holds, and
  // that its verdict is ok exactly when an evidence event was filed under its key.
  lemma AuditReads(lines: seq<LogLine>, ts: seq<TraceLine>, ds: seq<Durable>, key: Key)
    ensures var es := AllEvents(lines, ts);
            var final := MergedAll(AddedAll(AddedAll(map[], LogEvents(lines, |lines|)), TraceEvents(ts)), ds);
            && (key in final <==> Group(es, key) != [] || exists d :: d in ds && DurableKey(d) == Some(key))
            && (key in final ==>
                  && final[key] == WithDurables(RecordOf(key, Group(es, key)), DurablesOf(ds, key))
                  && (IsOk(final[key]) <==> exists e :: e in es && KeyOf(e) == Some(key) && EvidenceEvent(e)))
  {
    var es := AllEvents(lines, ts);
    hide Added, Merged, DurableKey, LowerCase, Filed, FirstRole, IsOk, EvidenceEvent, KeyOf, TraceEvents, LogEvents,
         WithDurables, SameEvents, RecordOf, DurablesOf;
    AddedJoin(map[], LogEvents(lines, |lines|), TraceEvents(ts));
    FilingIsGrouping(es);
    DurablesRead(AddedAll(map[], es), ds, key);
    DurablesOfAre(ds, key);
    assert DurablesOf(ds, key) != [] ==> DurablesOf(ds, key)[0] in DurablesOf(ds, key);
    var final := MergedAll(AddedAll(map[], es), ds);
    if key in final {
      if Group(es, key) == [] {
        NothingFiled(key);
      }
      DurablesKeepEvents(RecordOf(key, Group(es, key)), DurablesOf(ds, key));
      OkMeans(final[key], key, Group(es, key));
      forall e ensures e in Group(es, key) <==> e in es && KeyOf(e) == Some(key) {
        GroupMembers(es, key, e);
      }
    }
  }

  lemma NothingFiled(key: Key)
    ensures RecordOf(key, []) == Fresh(key, None)
  {
  }

  lemma OkMeans(r: IntentRecord, key: Key, es: seq<Event>)
    requires SameEvents(r, RecordOf(key, es))
    ensures IsOk(r) <==> exists e :: e in es && EvidenceEvent(e)
  {
    hide LowerCase, OfKind, FirstRole;
    forall kind, e ensures e in OfKind(es, kind) <==> e in es && e.kind == kind {
      OfKindMembers(es, kind, e);
    }
    var queued, delivered, flows := r.historyQueued, r.delivered, r.tuiFlows;
    assert queued == OfKind(es, HistoryQueued) && delivered == OfKind(es, Delivered) && flows == OfKind(es, TuiFlow);
    if IsOk(r) {
      var e := if queued != [] then queued[0] else if delivered != [] then delivered[0]
               else var f :| f in flows && (f.saysQueued || f.saysAccepted); f;
      assert e in queued || e in delivered || e in flows;
      assert e in es && EvidenceEvent(e);
    }
    if e :| e in es && EvidenceEvent(e) {
      assert e in queued || e in delivered || e in flows;
    }
  }

  // ---------------------------------------------------------------- the verdict, read off the inputs

  // Some log or trace line gives this event, under this key.
  ghost predicate Happened(lines: seq<LogLine>, ts: seq<TraceLine>, key: Key, e: Event) {
    && ((exists i :: GivesEvent(lines, i, e)) || (exists i :: GivesTrace(ts, i, e)))
    && e.reloadId == Some(key.reloadId) && e.sessionId == Some(key.sessionId)
    && key.reloadId != "" && key.sessionId != ""
  }

  ghost predicate ForKey(d: Durable, key: Key) {
    d.Durable? && d.reloadId == Some(key.reloadId) && d.sessionId == Some(key.sessionId)
    && key.reloadId != "" && key.sessionId != ""
  }

  // The last durable record of the key gives this status.
  ghost predicate LastSays(ds: seq<Durable>, key: Key, status: string) {
    exists j :: 0 <= j < |ds| && ForKey(ds[j], key) && ds[j].status == Some(status)
                && forall k :: j < k < |ds| ==> !ForKey(ds[k], key)
  }

  // A word spelled with capitals or without.
  predicate Spells(s: string, word: string) {
    |s| == |word| && forall i :: 0 <= i < |s| ==> s[i] == word[i] || s[i] as int + 32 == word[i] as int
  }

  lemma LowerSpells(s: string)
    ensures LowerCase(s) == "delivered" <==> Spells(s, "delivered")
  {
    var word, low := "delivered", LowerCase(s);
    assert forall i :: 0 <= i < |word| ==> 'a' <= word[i] <= 'z';
    if Spells(s, word) {
      assert forall i :: 0 <= i < |s| ==> low[i] == word[i];
    }
    if low == word {
      forall i | 0 <= i < |s| ensures s[i] == word[i] || s[i] as int + 32 == word[i] as int {
        assert low[i] == word[i];
      }
    }
  }

  lemma {:induction false} StatusSaid(ds: seq<Durable>, key: Key, status: string)
    ensures LastSays(ds, key, status) <==>
            DurablesOf(ds, key) != [] && DurablesOf(ds, key)[|DurablesOf(ds, key)| - 1].Durable?
            && DurablesOf(ds, key)[|DurablesOf(ds, key)| - 1].status == Some(status)
  {
    if ds != [] {
      var k := |ds| - 1;
      var init := ds[..k];
      StatusSaid(init, key, status);
      assert ForKey(ds[k], key) <==> DurableKey(ds[k]) == Some(key);
      hide DurableKey;
      if DurableKey(ds[k]) == Some(key) {
        assert DurablesOf(ds, key)[|DurablesOf(ds, key)| - 1] == ds[k];
        assert ds[k].Durable? by { KeyedIsDurable(ds[k], key); }
      } else {
        assert DurablesOf(ds, key) == DurablesOf(init, key);
        LastSaysOn(ds, key, status);
      }
    }
  }

  lemma LastSaysOn(ds: seq<Durable>, key: Key, status: string)
    requires ds != [] && !ForKey(ds[|ds| - 1], key)
    ensures LastSays(ds, key, status) <==> LastSays(ds[..|ds| - 1], key, status)
  {
    var init := ds[..|ds| - 1];
    if LastSays(ds, key, status) {
      var j :| 0 <= j < |ds| && ForKey(ds[j], key) && ds[j].status == Some(status)
               && forall k :: j < k < |ds| ==> !ForKey(ds[k], key);
      assert init[j] == ds[j];
    }
    if LastSays(init, key, status) {
      var j :| 0 <= j < |init| && ForKey(init[j], key) && init[j].status == Some(status)
               && forall k :: j < k < |init| ==> !ForKey(init[k], key);
      forall k | j < k < |ds| ensures !ForKey(ds[k], key) {
        assert k < |init| ==> init[k] == ds[k];
      }
    }
  }

  lemma GroupHappened(lines: seq<LogLine>, ts: seq<TraceLine>, key: Key, e: Event)
    ensures e in Group(AllEvents(lines, ts), key) <==> Happened(lines, ts, key, e)
  {
    hide GivesEvent, GivesTrace, Lists, LogEvents, TraceEvents;
    GroupMembers(AllEvents(lines, ts), key, e);
    LogLists(lines, |lines|);
    ListsMembers(LogEvents(lines, |lines|), |lines|, GivenBy(lines));
    TraceLists(ts, |ts|);
    assert ts[..|ts|] == ts;
    ListsMembers(TraceEvents(ts), |ts|, TracedBy(ts));
    GivenWithin(lines, ts, e);
  }

  lemma GivenWithin(lines: seq<LogLine>, ts: seq<TraceLine>, e: Event)
    ensures forall i :: GivesEvent(lines, i, e) ==> 0 <= i < |lines|
    ensures forall i :: GivesTrace(ts, i, e) ==> 0 <= i < |ts|
    ensures forall i :: GivenBy(lines)(i, e) <==> GivesEvent(lines, i, e)
    ensures forall i :: TracedBy(ts)(i, e) <==> GivesTrace(ts, i, e)
  {
  }

  lemma SomeOfKind(es: seq<Event>, kind: Kind)
    ensures OfKind(es, kind) != [] <==> exists e :: e in es && e.kind == kind
  {
    forall e ensures e in OfKind(es, kind) <==> e in es && e.kind == kind {
      OfKindMembers(es, kind, e);
    }
    hide OfKind;
    assert OfKind(es, kind) != [] ==> OfKind(es, kind)[0] in OfKind(es, kind);
  }

  // The verdict of a record by the events it was filed from.
  lemma EvidenceMeans(r: IntentRecord, key: Key, es: seq<Event>)
    requires SameEvents(r, RecordOf(key, es))
    ensures ClientQueueEvidence(r) <==> exists e :: e in es && (e.kind == HistoryQueued || (e.kind == TuiFlow && e.saysQueued))
    ensures ServerAcceptanceEvidence(r) <==> exists e :: e in es && (e.kind == Delivered || (e.kind == TuiFlow && e.saysAccepted))
    ensures r.claimed.Some? <==> exists e :: e in es && e.kind == Claimed
    ensures r.attached != [] <==> exists e :: e in es && e.kind == Attached
    ensures r.persisted.Some? <==> exists e :: e in es && e.kind == Persisted
  {
    hide OfKind, FirstRole;
    forall kind ensures OfKind(es, kind) != [] <==> exists e :: e in es && e.kind == kind {
      SomeOfKind(es, kind);
    }
    forall e ensures e in OfKind(es, TuiFlow) <==> e in es && e.kind == TuiFlow {
      OfKindMembers(es, TuiFlow, e);
    }
  }

  lemma VerdictCases(r: IntentRecord, queued: bool, accepted: bool, pending: bool, claimed: bool, delivered: bool,
                     attached: bool, persisted: bool)
    requires queued == ClientQueueEvidence(r) && accepted == ServerAcceptanceEvidence(r)
    requires pending <==> r.durableStatus == Some("pending") || r.durableStatus == Some("Pending")
    requires claimed == r.claimed.Some? && attached == (r.attached != []) && persisted == r.persisted.Some?
    requires delivered <==> r.durableStatus.Some? && Spells(r.durableStatus.value, "delivered")
    ensures VerdictOf(r) ==
            if queued then OkClientQueued else if accepted then OkServerAccepted else if pending then StillPending
            else if claimed || delivered then SuspectDeliveredWithoutAcceptanceLog
            else if attached then AttachedNotAccepted else if persisted then PersistedNotAttached
            else ObservedWithoutPersistLog
  {
    hide ClientQueueEvidence, ServerAcceptanceEvidence, Spells, LowerCase;
    if r.durableStatus.Some? {
      LowerSpells(r.durableStatus.value);
    }
  }

  lemma FinalStatus(ds: seq<Durable>, key: Key, r: IntentRecord, status: string)
    requires r.durableStatus == None
    ensures WithDurables(r, DurablesOf(ds, key)).durableStatus == Some(status) <==> LastSays(ds, key, status)
  {
    hide LastSays, DurablesOf, PickRole;
    StatusSaid(ds, key, status);
    DurablesAreDurable(ds, key);
  }

  // Some event of the key speaks for a queued continuation, for acceptance, or is of this kind.
  ghost predicate ShowsQueued(lines: seq<LogLine>, ts: seq<TraceLine>, key: Key) {
    exists e :: Happened(lines, ts, key, e) && (e.kind == HistoryQueued || (e.kind == TuiFlow && e.saysQueued))
  }

  ghost predicate ShowsAccepted(lines: seq<LogLine>, ts: seq<TraceLine>, key: Key) {
    exists e :: Happened(lines, ts, key, e) && (e.kind == Delivered || (e.kind == TuiFlow && e.saysAccepted))
  }

  ghost predicate Shows(lines: seq<LogLine>, ts: seq<TraceLine>, key: Key, kind: Kind) {
    exists e :: Happened(lines, ts, key, e) && e.kind == kind
  }

  ghost predicate SaysDelivered(ds: seq<Durable>, key: Key) {
    exists status :: LastSays(ds, key, status) && Spells(status, "delivered")
  }

  lemma EvidenceShown(lines: seq<LogLine>, ts: seq<TraceLine>, key: Key, r: IntentRecord)
    requires SameEvents(r, RecordOf(key, Group(AllEvents(lines, ts), key)))
    ensures ClientQueueEvidence(r) <==> ShowsQueued(lines, ts, key)
    ensures ServerAcceptanceEvidence(r) <==> ShowsAccepted(lines, ts, key)
    ensures (r.claimed.Some? <==> Shows(lines, ts, key, Claimed)) && (r.attached != [] <==> Shows(lines, ts, key, Attached))
    ensures r.persisted.Some? <==> Shows(lines, ts, key, Persisted)
  {
    hide Happened, Group, AllEvents, SameEvents, RecordOf, ClientQueueEvidence, ServerAcceptanceEvidence;
    var es := Group(AllEvents(lines, ts), key);
    EvidenceMeans(r, key, es);
    forall e ensures e in es <==> Happened(lines, ts, key, e) {
      GroupHappened(lines, ts, key, e);
    }
  }

  // Every verdict, from the lines and durable records themselves.
  lemma VerdictReads(lines: seq<LogLine>, ts: seq<TraceLine>, ds: seq<Durable>, key: Key)
    ensures var final := MergedAll(AddedAll(AddedAll(map[], LogEvents(lines, |lines|)), TraceEvents(ts)), ds);
            key in final ==>
              VerdictOf(final[key]) ==
              if ShowsQueued(lines, ts, key) then OkClientQueued
              else if ShowsAccepted(lines, ts, key) then OkServerAccepted
              else if LastSays(ds, key, "pending") || LastSays(ds, key, "Pending") then StillPending
              else if Shows(lines, ts, key, Claimed) || SaysDelivered(ds, key) then SuspectDeliveredWithoutAcceptanceLog
              else if Shows(lines, ts, key, Attached) then AttachedNotAccepted
              else if Shows(lines, ts, key, Persisted) then PersistedNotAttached
              else ObservedWithoutPersistLog
  {
    hide *;
    AuditReads(lines, ts, ds, key);
    var final := MergedAll(AddedAll(AddedAll(map[], LogEvents(lines, |lines|)), TraceEvents(ts)), ds);
    if key in final {
      FinalVerdict(lines, ts, ds, key, final[key]);
    }
  }

  lemma FinalVerdict(lines: seq<LogLine>, ts: seq<TraceLine>, ds: seq<Durable>, key: Key, final: IntentRecord)
    requires final == WithDurables(RecordOf(key, Group(AllEvents(lines, ts), key)), DurablesOf(ds, key))
    ensures VerdictOf(final) ==
            if ShowsQueued(lines, ts, key) then OkClientQueued
            else if ShowsAccepted(lines, ts, key) then OkServerAccepted
            else if LastSays(ds, key, "pending") || LastSays(ds, key, "Pending") then StillPending
            else if Shows(lines, ts, key, Claimed) || SaysDelivered(ds, key) then SuspectDeliveredWithoutAcceptanceLog
            else if Shows(lines, ts, key, Attached) then AttachedNotAccepted
            else if Shows(lines, ts, key, Persisted) then PersistedNotAttached
            else ObservedWithoutPersistLog
  {
    hide *;
    var r := RecordOf(key, Group(AllEvents(lines, ts), key));
    DurablesKeepEvents(r, DurablesOf(ds, key));
    EvidenceShown(lines, ts, key, final);
    NoStatusYet(key, Group(AllEvents(lines, ts), key));
    StatusShown(ds, key, r, final);
    VerdictCases(final, ShowsQueued(lines, ts, key), ShowsAccepted(lines, ts, key),
                 LastSays(ds, key, "pending") || LastSays(ds, key, "Pending"),
                 Shows(lines, ts, key, Claimed), SaysDelivered(ds, key),
                 Shows(lines, ts, key, Attached), Shows(lines, ts, key, Persisted));
  }

  lemma StatusShown(ds: seq<Durable>, key: Key, r: IntentRecord, final: IntentRecord)
    requires r.durableStatus == None && final == WithDurables(r, DurablesOf(ds, key))
    ensures forall status :: LastSays(ds, key, status) <==> final.durableStatus == Some(status)
    ensures SaysDelivered(ds, key) <==> final.durableStatus.Some? && Spells(final.durableStatus.value, "delivered")
  {
    hide LastSays, DurablesOf, WithDurables, Spells;
    forall status ensures LastSays(ds, key, status) <==> final.durableStatus == Some(status) {
      FinalStatus(ds, key, r, status);
    }
  }

  // A key has a record exactly when some line gives it an event or some durable record is its own.
  lemma KeysRead(lines: seq<LogLine>, ts: seq<TraceLine>, ds: seq<Durable>, key: Key)
    ensures key in MergedAll(AddedAll(AddedAll(map[], LogEvents(lines, |lines|)), TraceEvents(ts)), ds) <==>
            (exists e :: Happened(lines, ts, key, e)) || exists i :: 0 <= i < |ds| && ForKey(ds[i], key)
  {
    hide AddedAll, MergedAll, LogEvents, TraceEvents, Happened, Group, AllEvents, WithDurables, RecordOf, IsOk, KeyOf;
    AuditReads(lines, ts, ds, key);
    SomeInGroup(lines, ts, key);
    forall i | 0 <= i < |ds| ensures ForKey(ds[i], key) <==> ds[i] in ds && DurableKey(ds[i]) == Some(key) {
    }
  }

  lemma OkHappened(lines: seq<LogLine>, ts: seq<TraceLine>, key: Key)
    ensures (exists e :: e in AllEvents(lines, ts) && KeyOf(e) == Some(key) && EvidenceEvent(e)) <==>
            exists e :: Happened(lines, ts, key, e) && EvidenceEvent(e)
  {
    hide Happened, Group, AllEvents, KeyOf, EvidenceEvent;
    forall e ensures e in AllEvents(lines, ts) && KeyOf(e) == Some(key) <==> Happened(lines, ts, key, e) {
      GroupHappened(lines, ts, key, e);
      GroupMembers(AllEvents(lines, ts), key, e);
    }
  }

  lemma SomeInGroup(lines: seq<LogLine>, ts: seq<TraceLine>, key: Key)
    ensures Group(AllEvents(lines, ts), key) != [] <==> exists e :: Happened(lines, ts, key, e)
  {
    hide Happened, Group, AllEvents;
    var es := Group(AllEvents(lines, ts), key);
    forall e ensures e in es <==> Happened(lines, ts, key, e) {
      GroupHappened(lines, ts, key, e);
    }
    assert es != [] ==> es[0] in es;
  }

  lemma NoStatusYet(key: Key, es: seq<Event>)
    ensures RecordOf(key, es).durableStatus == None
  {
  }

  lemma DurablesAreDurable(ds: seq<Durable>, key: Key)
    ensures forall i :: 0 <= i < |DurablesOf(ds, key)| ==> DurablesOf(ds, key)[i].Durable?
  {
    hide DurablesOf;
    DurablesOfAre(ds, key);
    forall i | 0 <= i < |DurablesOf(ds, key)| ensures DurablesOf(ds, key)[i].Durable? {
      assert DurablesOf(ds, key)[i] in DurablesOf(ds, key);
    }
  }
}

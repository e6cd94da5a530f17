/** The append-only thread log: allocation of sequences, paging, and corrections of root events. */
module ThreadLog {
  import opened Wrappers
  import opened Sequences
  import opened Ordering

  type ThreadId(==, !new)

  type DrawingId(==, !new)

  type EventId(==, !new)

  /** A reference as it is written, and the id it spells. */
  datatype Reference = Reference(id: EventId, text: string)

  datatype ActorKind = User | Agent | System

  datatype Actor = Actor(kind: ActorKind, id: Option<string>, displayName: string)

  datatype Kind = Message | ToolUse | Status | Artifact | Dispatch | Edit | Retract

  /** A field is None when it is absent or not a string; `size` is the length of the canonical form. */
  datatype Payload = Payload(
    text: Option<string>, status: Option<string>, title: Option<string>,
    supersedes: Option<Reference>, retracts: Option<Reference>, size: nat)

  datatype Event = Event(
    id: EventId, thread: ThreadId, sequence: nat, actor: Actor, kind: Kind, payload: Payload)

  datatype Thread = Thread(drawing: DrawingId, next: nat)

  datatype ThreadError = ThreadNotFound | InvalidThreadEvent

  const MAX_PAGE := 200

  predicate IsRoot(k: Kind) {
    k != Edit && k != Retract
  }

  /** The root a correction names. */
  function Target(e: Event): Option<EventId> {
    Referenced(e.kind, e.payload)
  }

  function Referenced(kind: Kind, p: Payload): Option<EventId> {
    if kind == Edit then Spelled(p.supersedes) else if kind == Retract then Spelled(p.retracts) else None
  }

  function Spelled(r: Option<Reference>): Option<EventId> {
    if r.Some? then Some(r.value.id) else None
  }

  // ---- what may be appended ----

  predicate IsSpace(c: char) {
    var n := c as int;
    n == 0x20 || 0x09 <= n <= 0x0D || n == 0xA0 || n == 0x1680 || 0x2000 <= n <= 0x200A
    || n == 0x2028 || n == 0x2029 || n == 0x202F || n == 0x205F || n == 0x3000 || n == 0xFEFF
  }

  function TrimStart(s: string): string {
    if s != "" && IsSpace(s[0]) then TrimStart(s[1..]) else s
  }

  function TrimEnd(s: string): string {
    if s != "" && IsSpace(s[|s| - 1]) then TrimEnd(s[..|s| - 1]) else s
  }

  function Trim(s: string): string {
    TrimEnd(TrimStart(s))
  }

  predicate Bounded(field: Option<string>, maximum: nat) {
    field.Some? && Trim(field.value) != "" && |field.value| <= maximum
  }

  predicate BoundedReference(r: Option<Reference>) {
    r.Some? && Bounded(Some(r.value.text), 200)
  }

  predicate ValidPayload(kind: Kind, p: Payload) {
    && p.size <= 50_000
    && match kind
       case Message => Bounded(p.text, 10_000)
       case Status => Bounded(p.status, 100)
       case ToolUse => Bounded(p.title, 300)
       case Artifact => Bounded(p.title, 300)
       case Dispatch => Bounded(p.title, 300)
       case Edit => BoundedReference(p.supersedes) && Bounded(p.text, 10_000)
       case Retract => BoundedReference(p.retracts)
  }

  predicate ValidActor(a: Actor) {
    Trim(a.displayName) != "" && |a.displayName| <= 200
  }

  // ---- the same, spelled out ----

  ghost predicate Blank(s: string) {
    forall i :: 0 <= i < |s| ==> IsSpace(s[i])
  }

  /** What is left between the first and the last character that is not space. */
  ghost predicate TrimmedTo(s: string, t: string) {
    exists i, j :: 0 <= i <= j <= |s| && t == s[i..j] && Blank(s[..i]) && Blank(s[j..])
                   && (t != "" ==> !IsSpace(t[0]) && !IsSpace(t[|t| - 1]))
  }

  lemma {:induction false} TrimStartCuts(s: string) returns (i: nat)
    ensures i <= |s| && TrimStart(s) == s[i..] && Blank(s[..i])
    ensures TrimStart(s) != "" ==> !IsSpace(TrimStart(s)[0])
  {
    i := 0;
    if s != "" && IsSpace(s[0]) {
      var n := TrimStartCuts(s[1..]);
      i := n + 1;
      assert s[1..][n..] == s[i..];
      assert s[..i] == [s[0]] + s[1..][..n];
    }
  }

  lemma {:induction false} TrimEndCuts(s: string) returns (j: nat)
    ensures j <= |s| && TrimEnd(s) == s[..j] && Blank(s[j..])
    ensures TrimEnd(s) != "" ==> !IsSpace(TrimEnd(s)[|TrimEnd(s)| - 1])
  {
    j := |s|;
    if s != "" && IsSpace(s[|s| - 1]) {
      var init := s[..|s| - 1];
      j := TrimEndCuts(init);
      assert init[..j] == s[..j];
      assert s[j..] == init[j..] + [s[|s| - 1]];
    }
  }

  lemma TrimExactly(s: string)
    ensures TrimmedTo(s, Trim(s)) && (Trim(s) == "" <==> Blank(s))
  {
    var i := TrimStartCuts(s);
    var rest := TrimStart(s);
    var j := TrimEndCuts(rest);
    var t := Trim(s);
    assert t == s[i..i + j] && s[i + j..] == rest[j..];
    if t != "" {
      assert t[0] == rest[0] == s[i];
    } else {
      assert s == s[..i] + s[i..];
    }
  }

  ghost predicate Worded(field: Option<string>, maximum: nat) {
    field.Some? && !Blank(field.value) && |field.value| <= maximum
  }

  ghost predicate NamesEvent(r: Option<Reference>) {
    r.Some? && !Blank(r.value.text) && |r.value.text| <= 200
  }

  ghost predicate Sayable(kind: Kind, p: Payload) {
    && p.size <= 50_000
    && (kind == Message || kind == Edit ==> Worded(p.text, 10_000))
    && (kind == Status ==> Worded(p.status, 100))
    && (kind == ToolUse || kind == Artifact || kind == Dispatch ==> Worded(p.title, 300))
    && (kind == Edit ==> NamesEvent(p.supersedes))
    && (kind == Retract ==> NamesEvent(p.retracts))
  }

  ghost predicate Signed(a: Actor) {
    !Blank(a.displayName) && |a.displayName| <= 200
  }

  ghost predicate OriginalKind(k: Kind) {
    k in {Message, ToolUse, Status, Artifact, Dispatch}
  }

  /** An event of this thread that is no correction. */
  ghost predicate RootStored(rows: seq<Event>, t: ThreadId, id: EventId) {
    exists e :: e in rows && e.thread == t && e.id == id && OriginalKind(e.kind)
  }

  /** A correction names a root of its own thread. */
  ghost predicate CorrectsStored(rows: seq<Event>, t: ThreadId, kind: Kind, p: Payload) {
    && (kind == Edit ==> p.supersedes.Some? && RootStored(rows, t, p.supersedes.value.id))
    && (kind == Retract ==> p.retracts.Some? && RootStored(rows, t, p.retracts.value.id))
  }

  lemma BoundedExactly(field: Option<string>, maximum: nat)
    ensures Bounded(field, maximum) <==> Worded(field, maximum)
  {
    if field.Some? {
      TrimExactly(field.value);
    }
  }

  lemma ReferenceExactly(r: Option<Reference>)
    ensures BoundedReference(r) <==> NamesEvent(r)
  {
    if r.Some? {
      BoundedExactly(Some(r.value.text), 200);
    }
  }

  lemma ValidPayloadExactly(kind: Kind, p: Payload)
    ensures ValidPayload(kind, p) <==> Sayable(kind, p)
  {
    BoundedExactly(p.text, 10_000);
    BoundedExactly(p.status, 100);
    BoundedExactly(p.title, 300);
    ReferenceExactly(p.supersedes);
    ReferenceExactly(p.retracts);
  }

  lemma HasRootExactly(rows: seq<Event>, t: ThreadId, id: EventId)
    ensures HasRoot(LogOf(rows, t), id) <==> RootStored(rows, t, id)
  {
    if RootStored(rows, t, id) {
      var e :| e in rows && e.thread == t && e.id == id && OriginalKind(e.kind);
      assert e in LogOf(rows, t) && IsRootOf(e, id);
    }
  }

  // ---- the log of one thread ----

  function InThread(t: ThreadId): Event -> bool {
    (e: Event) => e.thread == t
  }

  function LogOf(rows: seq<Event>, t: ThreadId): seq<Event> {
    Filter(InThread(t), rows)
  }

  predicate IsRootOf(e: Event, id: EventId) {
    e.id == id && IsRoot(e.kind)
  }

  predicate HasRoot(log: seq<Event>, id: EventId) {
    exists e :: e in log && IsRootOf(e, id)
  }

  ghost predicate Consecutive(log: seq<Event>) {
    forall i :: 0 <= i < |log| ==> log[i].sequence == i + 1
  }

  ghost predicate CorrectionsFollow(log: seq<Event>) {
    forall i :: 0 <= i < |log| && !IsRoot(log[i].kind) ==>
      Target(log[i]).Some? && HasRoot(log[..i], Target(log[i]).value)
  }

  ghost predicate DistinctIds(log: seq<Event>) {
    forall i, j :: 0 <= i < j < |log| ==> log[i].id != log[j].id
  }

  /** Sequences 1..n without gap, and every correction names an earlier root of the same log. */
  ghost predicate WellFormed(log: seq<Event>) {
    Consecutive(log) && CorrectionsFollow(log) && DistinctIds(log)
  }

  lemma WellFormedGrows(log: seq<Event>, e: Event)
    requires WellFormed(log) && e.sequence == |log| + 1 && forall x :: x in log ==> x.id != e.id
    requires !IsRoot(e.kind) ==> Target(e).Some? && HasRoot(log, Target(e).value)
    ensures WellFormed(log + [e])
  {
    var grown := log + [e];
    forall i | 0 <= i < |grown| && !IsRoot(grown[i].kind)
      ensures Target(grown[i]).Some? && HasRoot(grown[..i], Target(grown[i]).value)
    {
      if i < |log| {
        assert grown[..i] == log[..i];
      } else {
        assert grown[..i] == log;
      }
    }
  }

  ghost predicate LogsValid(threads: map<ThreadId, Thread>, rows: seq<Event>) {
    && DistinctIds(rows)
    && (forall e :: e in rows ==> e.thread in threads)
    && forall t :: t in threads ==> WellFormed(LogOf(rows, t)) && threads[t].next == |LogOf(rows, t)|
  }

  class Database {
    var threads: map<ThreadId, Thread>
    var rows: seq<Event>

    ghost predicate Valid()
      reads this
    {
      LogsValid(threads, rows)
    }

    constructor ()
      ensures Valid() && threads == map[] && rows == []
    {
      threads, rows := map[], [];
    }

    /** A new thread starts with an empty log. */
    method CreateThread(t: ThreadId, drawing: DrawingId)
      requires Valid() && t !in threads
      modifies this`threads
      ensures Valid() && threads == old(threads)[t := Thread(drawing, 0)] && LogOf(rows, t) == []
    {
      FilterNone(InThread(t), rows);
      threads := threads[t := Thread(drawing, 0)];
    }

    /**
     * The increment and the insert are one transaction: a refused append leaves the counter and
     * the rows as they were, and an accepted one takes the next sequence.
     */
    method AppendAgentThreadEvent(
        drawing: DrawingId, t: ThreadId, actor: Actor, kind: Kind, payload: Payload, newId: EventId)
      returns (r: Result<Event, ThreadError>)
      requires Valid() && forall e :: e in rows ==> e.id != newId
      modifies this
      ensures Valid()
      ensures r.Ok? <==> Signed(actor) && Sayable(kind, payload) && t in old(threads)
                         && old(threads)[t].drawing == drawing && CorrectsStored(old(rows), t, kind, payload)
      ensures r.Err? ==> threads == old(threads) && rows == old(rows)
      ensures r.Err? ==> r.error == if Signed(actor) && Sayable(kind, payload)
                                       && (t !in old(threads) || old(threads)[t].drawing != drawing)
                                    then ThreadNotFound else InvalidThreadEvent
      ensures r.Ok? ==>
                && r.value.id == newId && r.value.thread == t && r.value.sequence == |LogOf(old(rows), t)| + 1
                && r.value.kind == kind && r.value.payload == payload
                && r.value.actor.kind == actor.kind && r.value.actor.id == actor.id
                && TrimmedTo(actor.displayName, r.value.actor.displayName)
                && rows == old(rows) + [r.value]
                && threads == old(threads)[t := Thread(drawing, r.value.sequence)]
    {
      TrimExactly(actor.displayName);
      ValidPayloadExactly(kind, payload);
      if !ValidActor(actor) || !ValidPayload(kind, payload) {
        return Err(InvalidThreadEvent);
      }
      var before := threads;
      if t !in threads || threads[t].drawing != drawing {
        return Err(ThreadNotFound);
      }
      threads := threads[t := threads[t].(next := threads[t].next + 1)];
      if kind == Edit || kind == Retract {
        var referenced := if kind == Edit then payload.supersedes.value else payload.retracts.value;
        HasRootExactly(rows, t, referenced.id);
        if !HasRoot(LogOf(rows, t), referenced.id) {
          threads := before;
          return Err(InvalidThreadEvent);
        }
      }
      var e := Event(newId, t, threads[t].next, actor.(displayName := Trim(actor.displayName)), kind, payload);
      AppendKeepsLogs(before, rows, e);
      rows := rows + [e];
      return Ok(e);
    }

    /** One page, after a sequence, of at most 200 events; the bounds clamp whatever is asked. */
    method ListAgentThreadEvents(drawing: DrawingId, t: ThreadId, after: Option<int>, limit: Option<int>)
      returns (r: Result<seq<Event>, ThreadError>)
      requires Valid()
      ensures r.Ok? <==> t in threads && threads[t].drawing == drawing
      ensures r.Ok? ==> r.value == Page(LogOf(rows, t), From(after), Size(limit))
      ensures r.Ok? ==> IsPage(rows, t, after, limit, r.value)
      ensures r.Err? ==> r.error == ThreadNotFound
    {
      if t !in threads || threads[t].drawing != drawing {
        return Err(ThreadNotFound);
      }
      var from := From(after);
      var found := SortBy(BySequence, Filter(After(t, from), rows));
      LogIsConsecutive(threads, rows, t);
      PageIsAfter(rows, t, from);
      TakeIsPage(LogOf(rows, t), from, Size(limit));
      PageIsExact(rows, t, after, limit);
      return Ok(Take(Size(limit), found));
    }

    /** One full-size page of the log, and how far it reaches. */
    method TakePage(drawing: DrawingId, t: ThreadId, after: nat, ghost log: seq<Event>)
      returns (r: Result<seq<Event>, ThreadError>)
      requires Valid() && log == LogOf(rows, t) && after <= |log|
      ensures r.Ok? <==> t in threads && threads[t].drawing == drawing
      ensures r.Ok? && |r.value| < MAX_PAGE ==> log[..after] + r.value == log
      ensures r.Ok? && |r.value| >= MAX_PAGE ==>
                && |r.value| == MAX_PAGE && after + MAX_PAGE <= |log|
                && log[..after] + r.value == log[..after + MAX_PAGE]
                && r.value[MAX_PAGE - 1].sequence == after + MAX_PAGE
    {
      r := ListAgentThreadEvents(drawing, t, Some(after), Some(MAX_PAGE));
      if r.Ok? {
        PageReaches(log, after, r.value);
      }
    }

    /** The whole log, in order, whatever its length; each full page brings the loop closer to the end. */
    method ListAllAgentThreadEvents(drawing: DrawingId, t: ThreadId) returns (r: Result<seq<Event>, ThreadError>)
      requires Valid()
      ensures r.Ok? <==> t in threads && threads[t].drawing == drawing
      ensures r.Ok? ==> r.value == LogOf(rows, t)
    {
      var all: seq<Event> := [];
      var after := 0;
      ghost var log := LogOf(rows, t);
      while true
        invariant 0 <= after <= |log| && all == log[..after]
        invariant after > 0 ==> t in threads && threads[t].drawing == drawing
        decreases |log| - after
      {
        var page := TakePage(drawing, t, after, log);
        if page.Err? {
          return Err(page.error);
        }
        all := all + page.value;
        if |page.value| < MAX_PAGE {
          return Ok(all);
        }
        after := page.value[|page.value| - 1].sequence;
      }
    }
  }

  function From(after: Option<int>): nat {
    if after.Some? && after.value > 0 then after.value else 0
  }

  function Size(limit: Option<int>): nat {
    var asked := if limit.Some? then limit.value else 100;
    if asked < 1 then 1 else if asked > MAX_PAGE then MAX_PAGE else asked
  }

  function Page(log: seq<Event>, from: nat, size: nat): seq<Event> {
    if from >= |log| then []
    else if from + size <= |log| then log[from..from + size]
    else log[from..]
  }

  /** The events of the thread from just after `after`, as many as asked, between 1 and 200. */
  ghost predicate IsPage(rows: seq<Event>, t: ThreadId, after: Option<int>, limit: Option<int>, page: seq<Event>) {
    var from := if after.Some? && 0 <= after.value then after.value else 0;
    var asked := if limit == None then 100 else limit.value;
    var stored := |LogOf(rows, t)| - from;
    && |page| == (if stored <= 0 then 0 else if stored <= Clamped(asked) then stored else Clamped(asked))
    && forall k :: 0 <= k < |page| ==> page[k] in rows && page[k].thread == t && page[k].sequence == from + k + 1
  }

  ghost function Clamped(asked: int): nat {
    if asked <= 1 then 1 else if asked >= 200 then 200 else asked
  }

  lemma PageIsExact(rows: seq<Event>, t: ThreadId, after: Option<int>, limit: Option<int>)
    requires Consecutive(LogOf(rows, t))
    ensures IsPage(rows, t, after, limit, Page(LogOf(rows, t), From(after), Size(limit)))
  {
    var log, from := LogOf(rows, t), From(after);
    var page := Page(log, from, Size(limit));
    forall k | 0 <= k < |page|
      ensures page[k] in rows && page[k].thread == t && page[k].sequence == from + k + 1
    {
      PageAt(log, from, Size(limit), k);
      assert log[from + k] in log;
    }
  }

  lemma PageAt(log: seq<Event>, from: nat, size: nat, k: nat)
    requires k < |Page(log, from, size)|
    ensures from + k < |log| && Page(log, from, size)[k] == log[from + k]
  {
  }

  predicate BySequence(a: Event, b: Event) {
    a.sequence <= b.sequence
  }

  function After(t: ThreadId, from: nat): Event -> bool {
    (e: Event) => e.thread == t && e.sequence > from
  }

  function Beyond(from: nat): Event -> bool {
    (e: Event) => e.sequence > from
  }

  lemma BeyondPrefix(log: seq<Event>, from: nat)
    requires Consecutive(log)
    ensures Filter(Beyond(from), log) == if from >= |log| then [] else log[from..]
  {
    if from >= |log| {
      FilterNone(Beyond(from), log);
    } else {
      assert log == log[..from] + log[from..];
      FilterAppend(Beyond(from), log[..from], log[from..]);
      FilterNone(Beyond(from), log[..from]);
      FilterEvery(Beyond(from), log[from..]);
    }
  }

  lemma PageIsAfter(rows: seq<Event>, t: ThreadId, from: nat)
    requires Consecutive(LogOf(rows, t))
    ensures SortBy(BySequence, Filter(After(t, from), rows))
            == if from >= |LogOf(rows, t)| then [] else LogOf(rows, t)[from..]
  {
    var log := LogOf(rows, t);
    FilterTwice(InThread(t), Beyond(from), After(t, from), rows);
    BeyondPrefix(log, from);
    SortedIsKept(BySequence, Filter(After(t, from), rows));
  }

  lemma LogIsConsecutive(threads: map<ThreadId, Thread>, rows: seq<Event>, t: ThreadId)
    requires LogsValid(threads, rows) && t in threads
    ensures Consecutive(LogOf(rows, t))
  {
    assert WellFormed(LogOf(rows, t));
  }

  lemma TakeIsPage(log: seq<Event>, from: nat, size: nat)
    ensures Take(size, if from >= |log| then [] else log[from..]) == Page(log, from, size)
  {
  }

  lemma LogGrows(rows: seq<Event>, e: Event, t: ThreadId)
    ensures LogOf(rows + [e], t) == if e.thread == t then LogOf(rows, t) + [e] else LogOf(rows, t)
  {
    FilterAppendOne(InThread(t), rows, e);
  }

  lemma AppendKeepsLogs(threads: map<ThreadId, Thread>, rows: seq<Event>, e: Event)
    requires LogsValid(threads, rows) && e.thread in threads && forall x :: x in rows ==> x.id != e.id
    requires e.sequence == threads[e.thread].next + 1
    requires !IsRoot(e.kind) ==> Target(e).Some? && HasRoot(LogOf(rows, e.thread), Target(e).value)
    ensures LogsValid(threads[e.thread := threads[e.thread].(next := threads[e.thread].next + 1)], rows + [e])
  {
    var counted := threads[e.thread := threads[e.thread].(next := threads[e.thread].next + 1)];
    forall t | t in counted
      ensures WellFormed(LogOf(rows + [e], t)) && counted[t].next == |LogOf(rows + [e], t)|
    {
      LogGrows(rows, e, t);
      if t == e.thread {
        WellFormedGrows(LogOf(rows, t), e);
      }
    }
  }

  lemma PageReaches(log: seq<Event>, after: nat, page: seq<Event>)
    requires Consecutive(log) && after <= |log| && page == Page(log, after, MAX_PAGE)
    ensures |page| < MAX_PAGE ==> log[..after] + page == log
    ensures |page| >= MAX_PAGE ==>
              |page| == MAX_PAGE && after + MAX_PAGE <= |log| && log[..after] + page == log[..after + MAX_PAGE]
              && page[MAX_PAGE - 1].sequence == after + MAX_PAGE
  {
    if |page| >= MAX_PAGE {
      assert page == log[after..after + MAX_PAGE];
    }
  }
}

/**
 * The daily-rotated audit log. Appends and rotations run one after another through a
 * promise chain; pruning runs beside it; the process may be restarted at any point.
 */
module AuditLog {
  import opened Common

  const DAY_MS := 86400 * 1000

  function Day(ms: nat): nat {
    ms / DAY_MS
  }

  /** An open handle follows its file when the file is renamed. */
  datatype Target = ActiveFile | ArchiveFile(day: nat)

  /** A line in a file; `call` tells equal texts of different appends apart, the disk has only the text. */
  datatype Line = Line(call: nat, text: string)

  datatype Op = AppendOp(line: Line) | RotateOp

  /** How far the operation at the head of the chain has come. */
  datatype Phase = NotStarted | Rotated | Written

  /** A line written to disk, and whether the caller's promise was resolved. */
  datatype Entry = Entry(line: Line, resolved: bool)

  /**
   * `archives` and `active` are the directory, the fields up to `closed` the process.
   * `issued` are the append calls so far, `journal` is the history of writes, `resolved`
   * of resolved appends, `unwritten` of those among them that found the log closed,
   * `pruned` of unlinked archives, and `orphans` counts restarts between a write and
   * its promise.
   */
  datatype Log = Log(
    archives: map<nat, seq<Line>>,
    active: Option<seq<Line>>,
    handle: Option<Target>,
    currentDate: Option<nat>,
    queue: seq<Op>,
    phase: Phase,
    closed: bool,
    clock: nat,
    issued: set<nat>,
    journal: seq<Entry>,
    resolved: seq<Line>,
    unwritten: set<nat>,
    pruned: map<nat, seq<Line>>,
    orphans: nat)

  // ---------------------------------------------------------------- specification

  function Content(active: Option<seq<Line>>): seq<Line> {
    if active.Some? then active.value else []
  }

  /** Renames the active file, if there is one, to the archive of `day`; an open handle moves along. */
  function Renamed(l: Log, day: nat): Log {
    if l.active.None? then l
    else l.(archives := l.archives[day := l.active.value], active := None,
            handle := if l.handle == Some(ActiveFile) then Some(ArchiveFile(day)) else l.handle)
  }

  /** The date check made at the start of every operation. */
  function RotatedInline(l: Log): Log {
    if l.currentDate.Some? && l.currentDate.value != Day(l.clock)
    then Renamed(l.(handle := None), l.currentDate.value).(currentDate := Some(Day(l.clock)))
    else l.(currentDate := Some(Day(l.clock)))
  }

  function Opened(l: Log): Log {
    if l.handle.Some? then l else l.(handle := Some(ActiveFile), active := Some(Content(l.active)))
  }

  /** The line goes to whatever file the handle is open on. */
  function WrittenTo(l: Log, line: Line): Log
    requires l.handle.Some?
  {
    match l.handle.value
    case ActiveFile => l.(active := Some(Content(l.active) + [line]))
    case ArchiveFile(d) =>
      l.(archives := l.archives[d := (if d in l.archives then l.archives[d] else []) + [line]])
  }

  /** A closed log resolves the promise at once and writes nothing. */
  function AppendCalled(l: Log, line: Line): Log {
    var l' := l.(issued := l.issued + {line.call});
    if l.closed then l'.(resolved := l.resolved + [line], unwritten := l.unwritten + {line.call})
    else l'.(queue := l.queue + [AppendOp(line)])
  }

  datatype Event =
    | AppendCall(line: Line)
    | RotateCall
    | OpRotates
    | OpWrites
    | OpResolves
    | Unlink(day: nat)
    | StopCall
    | StopCloses
    | Restart
    | Tick(dt: nat)

  predicate Overdue(day: nat, now: int, retentionDays: nat) {
    now - day * DAY_MS > retentionDays * DAY_MS
  }

  /**
   * Every append has a new call number, and the operation at the head of the chain takes
   * its steps in order. `stop` closes the handle when the appends have drained.
   */
  predicate Allowed(l: Log, e: Event, retentionDays: nat) {
    match e
    case AppendCall(line) => line.call !in l.issued
    case OpRotates => l.queue != [] && l.phase == NotStarted
    case OpWrites => l.queue != [] && l.queue[0].AppendOp? && l.phase == Rotated
    case OpResolves => l.queue != [] && l.phase == (if l.queue[0].AppendOp? then Written else Rotated)
    case Unlink(d) => d in l.archives && Overdue(d, l.clock, retentionDays)
    case StopCloses => l.closed && forall i :: 0 <= i < |l.queue| ==> l.queue[i].RotateOp?
    case _ => true
  }

  function Step(l: Log, e: Event, retentionDays: nat): Log
    requires Allowed(l, e, retentionDays)
  {
    match e
    case AppendCall(line) => AppendCalled(l, line)
    case RotateCall => l.(queue := l.queue + [RotateOp])
    case OpRotates => RotatedInline(l).(phase := Rotated)
    case OpWrites =>
      var line := l.queue[0].line;
      WrittenTo(Opened(l), line).(phase := Written, journal := l.journal + [Entry(line, false)])
    case OpResolves =>
      var l' := l.(queue := l.queue[1..], phase := NotStarted);
      if l.queue[0].AppendOp? && l.journal != [] then
        var line := l.queue[0].line;
        l'.(journal := l.journal[|l.journal| - 1 := Entry(line, true)], resolved := l.resolved + [line])
      else l'
    case Unlink(d) => l.(archives := l.archives - {d}, pruned := l.pruned[d := l.archives[d]])
    case StopCall => l.(closed := true)
    case StopCloses => l.(handle := None)
    case Restart =>
      l.(handle := None, currentDate := None, queue := [], phase := NotStarted, closed := false,
         orphans := if l.phase == Written then l.orphans + 1 else l.orphans)
    case Tick(dt) => l.(clock := l.clock + dt)
  }

  predicate Initial(l: Log) {
    && l.archives == map[] && l.active.None? && l.handle.None? && l.currentDate.None? && l.queue == []
    && l.phase == NotStarted && !l.closed && l.issued == {} && l.journal == []
    && l.resolved == [] && l.unwritten == {} && l.pruned == map[] && l.orphans == 0
  }

  ghost predicate IsRun(ls: seq<Log>, es: seq<Event>, retentionDays: nat) {
    && |ls| == |es| + 1
    && Initial(ls[0])
    && forall i :: 0 <= i < |es| ==>
         Allowed(ls[i], es[i], retentionDays) && ls[i + 1] == Step(ls[i], es[i], retentionDays)
  }

  // --------------------------------------------------------------- conservation

  /** The archives before day `n`, in date order. */
  function Flatten(archives: map<nat, seq<Line>>, n: nat): seq<Line> {
    if n == 0 then []
    else Flatten(archives, n - 1) + (if n - 1 in archives then archives[n - 1] else [])
  }

  function Lines(journal: seq<Entry>): (r: seq<Line>)
    ensures |r| == |journal| && forall i :: 0 <= i < |journal| ==> r[i] == journal[i].line
  {
    seq(|journal|, i requires 0 <= i < |journal| => journal[i].line)
  }

  /** The lines of the appends whose promise was resolved, in the order they were written. */
  function ResolvedLines(journal: seq<Entry>): seq<Line> {
    if journal == [] then []
    else
      var last := journal[|journal| - 1];
      ResolvedLines(journal[..|journal| - 1]) + (if last.resolved then [last.line] else [])
  }

  function Unresolved(journal: seq<Entry>): nat {
    if journal == [] then 0
    else Unresolved(journal[..|journal| - 1]) + (if journal[|journal| - 1].resolved then 0 else 1)
  }

  /** Everything ever archived, whether still on disk or pruned since. */
  function EverArchived(l: Log): map<nat, seq<Line>> {
    l.pruned + l.archives
  }

  ghost predicate DatesOk(l: Log) {
    && l.archives.Keys !! l.pruned.Keys
    && (forall d :: d in EverArchived(l) ==> d < Day(l.clock))
    && (l.currentDate.Some? ==> l.currentDate.value <= Day(l.clock)
                                && forall d :: d in EverArchived(l) ==> d < l.currentDate.value)
    && (l.phase != NotStarted ==> l.currentDate.Some?)
  }

  ghost predicate HandleOk(l: Log) {
    l.handle.Some? ==> l.handle == Some(ActiveFile) && l.active.Some?
  }

  ghost predicate Conserved(l: Log) {
    Flatten(EverArchived(l), Day(l.clock)) + Content(l.active) == Lines(l.journal)
  }

  ghost predicate JournalOk(l: Log) {
    && Unresolved(l.journal) == l.orphans + (if l.phase == Written then 1 else 0)
    && (l.phase == Written ==> l.journal != [] && l.queue != [] && l.queue[0].AppendOp?
                               && l.journal[|l.journal| - 1] == Entry(l.queue[0].line, false))
    && (l.phase != NotStarted ==> l.queue != [])
  }

  ghost predicate Inv(l: Log) {
    DatesOk(l) && HandleOk(l) && Conserved(l) && JournalOk(l)
  }

  /** The appends that did not find the log closed. */
  function MeantToBeWritten(unwritten: set<nat>): Line -> bool {
    (line: Line) => line.call !in unwritten
  }

  /** Calls are known, and one that found the log closed is neither written nor waiting to be. */
  ghost predicate CallsOk(l: Log) {
    && l.unwritten <= l.issued
    && (forall i :: 0 <= i < |l.resolved| ==> l.resolved[i].call in l.issued)
    && (forall i :: 0 <= i < |l.journal| ==> l.journal[i].line.call in l.issued - l.unwritten)
    && (forall i :: 0 <= i < |l.queue| && l.queue[i].AppendOp? ==> l.queue[i].line.call in l.issued - l.unwritten)
  }

  /** The resolved appends are those that found the log closed and those the journal has as resolved. */
  ghost predicate SettledOk(l: Log) {
    && (forall call :: call in l.unwritten ==> exists line :: line in l.resolved && line.call == call)
    && Filter(l.resolved, MeantToBeWritten(l.unwritten)) == ResolvedLines(l.journal)
  }

  lemma {:induction false} FlattenExtend(m: map<nat, seq<Line>>, n: nat, k: nat)
    requires n <= k && forall d :: d in m ==> d < n
    ensures Flatten(m, k) == Flatten(m, n)
    decreases k
  {
    if n < k {
      FlattenExtend(m, n, k - 1);
    }
  }

  /** An archive later than all others comes last. */
  lemma {:induction false} FlattenAdd(m: map<nat, seq<Line>>, day: nat, content: seq<Line>, n: nat)
    requires day < n && forall d :: d in m ==> d < day
    ensures Flatten(m[day := content], n) == Flatten(m, n) + content
    decreases n
  {
    if n == day + 1 {
      FlattenSame(m, m[day := content], day);
    } else {
      FlattenAdd(m, day, content, n - 1);
    }
  }

  lemma {:induction false} FlattenSame(m: map<nat, seq<Line>>, m': map<nat, seq<Line>>, n: nat)
    requires forall d :: d < n ==> (d in m <==> d in m') && (d in m ==> m[d] == m'[d])
    ensures Flatten(m, n) == Flatten(m', n)
  {
    if n > 0 {
      FlattenSame(m, m', n - 1);
    }
  }

  lemma DayMonotone(a: nat, b: nat)
    requires a <= b
    ensures Day(a) <= Day(b)
  {
  }

  /** A rotation archives a day that was never archived before, so the rename overwrites nothing. */
  lemma RotationIsFresh(l: Log)
    requires DatesOk(l) && l.currentDate.Some?
    ensures l.currentDate.value !in l.archives && l.currentDate.value !in l.pruned
  {
    assert forall d :: d in l.archives || d in l.pruned ==> d in EverArchived(l);
  }

  lemma RenameConserves(l: Log, day: nat)
    requires DatesOk(l) && Conserved(l) && l.currentDate == Some(day) && day < Day(l.clock) && l.active.Some?
    ensures var l' := Renamed(l.(handle := None), day).(currentDate := Some(Day(l.clock)));
            DatesOk(l') && Conserved(l')
  {
    var l' := Renamed(l.(handle := None), day).(currentDate := Some(Day(l.clock)));
    RotationIsFresh(l);
    assert EverArchived(l') == EverArchived(l)[day := l.active.value];
    FlattenAdd(EverArchived(l), day, l.active.value, Day(l.clock));
    assert Flatten(EverArchived(l'), Day(l.clock)) + [] == Flatten(EverArchived(l), Day(l.clock)) + l.active.value;
  }

  lemma RotateKeepsInv(l: Log)
    requires Inv(l) && l.queue != [] && l.phase == NotStarted
    ensures Inv(RotatedInline(l).(phase := Rotated))
  {
    var l' := RotatedInline(l).(phase := Rotated);
    if l.currentDate.Some? && l.currentDate.value != Day(l.clock) && l.active.Some? {
      RenameConserves(l, l.currentDate.value);
      assert EverArchived(l') == EverArchived(RotatedInline(l));
    } else {
      assert EverArchived(l') == EverArchived(l);
    }
  }

  lemma WriteKeepsInv(l: Log, line: Line)
    requires Inv(l) && l.queue != [] && l.queue[0] == AppendOp(line) && l.phase == Rotated
    ensures Inv(WrittenTo(Opened(l), line).(phase := Written, journal := l.journal + [Entry(line, false)]))
  {
    var l' := WrittenTo(Opened(l), line).(phase := Written, journal := l.journal + [Entry(line, false)]);
    assert EverArchived(l') == EverArchived(l);
    assert l'.journal[..|l'.journal| - 1] == l.journal;
    assert Lines(l'.journal) == Lines(l.journal) + [line];
    assert Content(l'.active) == Content(l.active) + [line];
  }

  lemma ResolveKeepsInv(l: Log, retentionDays: nat)
    requires Inv(l) && Allowed(l, OpResolves, retentionDays)
    ensures Inv(Step(l, OpResolves, retentionDays))
  {
    var l' := Step(l, OpResolves, retentionDays);
    assert EverArchived(l') == EverArchived(l);
    if l.queue[0].AppendOp? {
      assert l'.journal[..|l'.journal| - 1] == l.journal[..|l.journal| - 1];
      assert Lines(l'.journal) == Lines(l.journal);
    }
  }

  lemma TickKeepsInv(l: Log, dt: nat)
    requires Inv(l)
    ensures Inv(l.(clock := l.clock + dt))
  {
    DayMonotone(l.clock, l.clock + dt);
    assert EverArchived(l.(clock := l.clock + dt)) == EverArchived(l);
    FlattenExtend(EverArchived(l), Day(l.clock), Day(l.clock + dt));
  }

  lemma StepKeepsInv(l: Log, e: Event, retentionDays: nat)
    requires Inv(l) && Allowed(l, e, retentionDays)
    ensures Inv(Step(l, e, retentionDays))
  {
    hide RotatedInline, WrittenTo, Flatten, ResolvedLines, Lines;
    match e
    case OpRotates => RotateKeepsInv(l);
    case OpWrites => WriteKeepsInv(l, l.queue[0].line);
    case OpResolves => ResolveKeepsInv(l, retentionDays);
    case Tick(dt) => TickKeepsInv(l, dt);
    case Unlink(d) => assert EverArchived(Step(l, e, retentionDays)) == EverArchived(l);
    case _ => assert EverArchived(Step(l, e, retentionDays)) == EverArchived(l);
  }

  lemma ResolveKeepsCalls(l: Log, retentionDays: nat)
    requires CallsOk(l) && Allowed(l, OpResolves, retentionDays)
    ensures CallsOk(Step(l, OpResolves, retentionDays))
  {
  }

  lemma RotateKeepsCalls(l: Log)
    requires CallsOk(l)
    ensures CallsOk(RotatedInline(l).(phase := Rotated))
  {
  }

  lemma StepKeepsCalls(l: Log, e: Event, retentionDays: nat)
    requires JournalOk(l) && CallsOk(l) && Allowed(l, e, retentionDays)
    ensures CallsOk(Step(l, e, retentionDays))
  {
    hide RotatedInline, JournalOk;
    match e
    case OpRotates => RotateKeepsCalls(l);
    case OpResolves => ResolveKeepsCalls(l, retentionDays);
    case _ =>
  }

  /** A call that finds the log closed settles outside the journal. */
  lemma AppendKeepsSettled(l: Log, line: Line)
    requires CallsOk(l) && SettledOk(l) && line.call !in l.issued
    ensures SettledOk(AppendCalled(l, line))
  {
    if l.closed {
      var l' := AppendCalled(l, line);
      var before, after := MeantToBeWritten(l.unwritten), MeantToBeWritten(l'.unwritten);
      FilterSnoc(l.resolved, line, after);
      FilterExt(l.resolved, before, after);
      assert line in l'.resolved && forall x :: x in l.resolved ==> x in l'.resolved;
    }
  }

  lemma SettleLast(resolved: seq<Line>, journal: seq<Entry>, line: Line, meant: Line -> bool)
    requires Filter(resolved, meant) == ResolvedLines(journal) && meant(line)
    requires journal != [] && journal[|journal| - 1] == Entry(line, false)
    ensures Filter(resolved + [line], meant) == ResolvedLines(journal[|journal| - 1 := Entry(line, true)])
  {
    FilterSnoc(resolved, line, meant);
    var n := |journal| - 1;
    assert journal[n := Entry(line, true)][..n] == journal[..n];
  }

  lemma ResolveKeepsSettled(l: Log, retentionDays: nat)
    requires JournalOk(l) && CallsOk(l) && SettledOk(l) && Allowed(l, OpResolves, retentionDays)
    ensures SettledOk(Step(l, OpResolves, retentionDays))
  {
    hide ResolvedLines, Unresolved;
    if l.queue[0].AppendOp? {
      var line := l.queue[0].line;
      SettleLast(l.resolved, l.journal, line, MeantToBeWritten(l.unwritten));
      assert forall x :: x in l.resolved ==> x in l.resolved + [line];
    }
  }

  lemma WriteKeepsSettled(l: Log, retentionDays: nat)
    requires SettledOk(l) && Allowed(l, OpWrites, retentionDays)
    ensures SettledOk(Step(l, OpWrites, retentionDays))
  {
    var l' := Step(l, OpWrites, retentionDays);
    assert l'.journal[..|l'.journal| - 1] == l.journal;
  }

  lemma StepKeepsSettled(l: Log, e: Event, retentionDays: nat)
    requires JournalOk(l) && CallsOk(l) && SettledOk(l) && Allowed(l, e, retentionDays)
    ensures SettledOk(Step(l, e, retentionDays))
  {
    hide RotatedInline, ResolvedLines, Unresolved;
    match e
    case OpRotates => RotationKeepsHistory(l);
    case AppendCall(line) => AppendKeepsSettled(l, line);
    case OpWrites => WriteKeepsSettled(l, retentionDays);
    case OpResolves => ResolveKeepsSettled(l, retentionDays);
    case _ =>
  }

  lemma {:induction false} InvAt(ls: seq<Log>, es: seq<Event>, retentionDays: nat, n: nat)
    requires IsRun(ls, es, retentionDays) && n <= |es|
    ensures Inv(ls[n]) && CallsOk(ls[n]) && SettledOk(ls[n])
  {
    hide Step, DatesOk, Conserved, HandleOk, JournalOk, CallsOk, SettledOk;
    if n > 0 {
      InvAt(ls, es, retentionDays, n - 1);
      StepKeepsInv(ls[n - 1], es[n - 1], retentionDays);
      StepKeepsCalls(ls[n - 1], es[n - 1], retentionDays);
      StepKeepsSettled(ls[n - 1], es[n - 1], retentionDays);
    } else {
      InitialInv(ls[0]);
    }
  }

  lemma InitialInv(l: Log)
    requires Initial(l)
    ensures Inv(l) && CallsOk(l) && SettledOk(l)
  {
    FlattenExtend(EverArchived(l), 0, Day(l.clock));
  }

  /**
   * Conservation over any run, restarts included: everything ever archived, in date
   * order, followed by the active file, is exactly the lines written, in order; and
   * the resolved appends, less those that found the log closed, are these lines, less
   * the ones whose promise never settled.
   */
  lemma LogIsConserved(ls: seq<Log>, es: seq<Event>, retentionDays: nat, n: nat)
    requires IsRun(ls, es, retentionDays) && n <= |es|
    ensures Flatten(EverArchived(ls[n]), Day(ls[n].clock)) + Content(ls[n].active) == Lines(ls[n].journal)
    ensures Filter(ls[n].resolved, MeantToBeWritten(ls[n].unwritten)) == ResolvedLines(ls[n].journal)
    ensures Unresolved(ls[n].journal) == ls[n].orphans + (if ls[n].phase == Written then 1 else 0)
  {
    InvAt(ls, es, retentionDays, n);
  }

  /** The events at which the promise of an append is resolved although nothing is written for it. */
  predicate MeetsClosed(l: Log, e: Event) {
    e.AppendCall? && l.closed
  }

  lemma {:induction false} UnwrittenMetClosed(ls: seq<Log>, es: seq<Event>, retentionDays: nat, n: nat, call: nat)
    requires IsRun(ls, es, retentionDays) && n <= |es|
    ensures call in ls[n].unwritten <==>
              exists i :: 0 <= i < n && MeetsClosed(ls[i], es[i]) && es[i].line.call == call
  {
    if n > 0 {
      UnwrittenMetClosed(ls, es, retentionDays, n - 1, call);
      UnwrittenCallsStep(ls[n - 1], es[n - 1], retentionDays);
    }
  }

  lemma UnwrittenCallsStep(l: Log, e: Event, retentionDays: nat)
    requires Allowed(l, e, retentionDays)
    ensures Step(l, e, retentionDays).unwritten == l.unwritten + (if MeetsClosed(l, e) then {e.line.call} else {})
  {
  }

  lemma {:induction false} ResolvedCount(journal: seq<Entry>)
    ensures |ResolvedLines(journal)| + Unresolved(journal) == |journal|
    ensures Unresolved(journal) == 0 ==> ResolvedLines(journal) == Lines(journal)
  {
    if journal != [] {
      ResolvedCount(journal[..|journal| - 1]);
      assert Lines(journal) == Lines(journal[..|journal| - 1]) + [journal[|journal| - 1].line];
    }
  }

  /**
   * Everything ever archived and the active file hold exactly the resolved appends, in
   * order, if and only if no append found the log closed, no written line was caught by
   * a restart before its promise, and none is at that point now.
   */
  lemma FilesAreResolvedAppends(ls: seq<Log>, es: seq<Event>, retentionDays: nat, n: nat)
    requires IsRun(ls, es, retentionDays) && n <= |es|
    ensures Flatten(EverArchived(ls[n]), Day(ls[n].clock)) + Content(ls[n].active) == ls[n].resolved
       <==> && ls[n].orphans == 0 && ls[n].phase != Written
            && forall i :: 0 <= i < n ==> !MeetsClosed(ls[i], es[i])
    ensures ls[n].pruned == map[] ==> EverArchived(ls[n]) == ls[n].archives
  {
    hide Flatten, ResolvedLines, Unresolved, Step, DatesOk, HandleOk, CallsOk, SettledOk;
    InvAt(ls, es, retentionDays, n);
    ResolvedCount(ls[n].journal);
    NoneUnwritten(ls[n]);
    assert ls[n].unwritten == {} <==> forall i :: 0 <= i < n ==> !MeetsClosed(ls[i], es[i]) by {
      forall call
        ensures call in ls[n].unwritten <==>
                  exists i :: 0 <= i < n && MeetsClosed(ls[i], es[i]) && es[i].line.call == call
      {
        UnwrittenMetClosed(ls, es, retentionDays, n, call);
      }
      if i :| 0 <= i < n && MeetsClosed(ls[i], es[i]) {
        assert es[i].line.call in ls[n].unwritten;
      }
    }
  }

  lemma NoneUnwritten(l: Log)
    requires CallsOk(l) && SettledOk(l)
    ensures l.unwritten == {} ==> l.resolved == ResolvedLines(l.journal)
    ensures l.resolved == Lines(l.journal) ==> l.unwritten == {}
  {
    if l.unwritten == {} {
      FilterAll(l.resolved, MeantToBeWritten(l.unwritten));
    }
    assert forall line :: line in Lines(l.journal) ==> line.call !in l.unwritten;
  }

  const FRESH := Log(map[], None, None, None, [], NotStarted, false, 0, {}, [], [], {}, map[], 0)

  /** The first way to fail: an append after `stop` is resolved and in no file. */
  lemma AppendAfterStopIsLost(line: Line) returns (ls: seq<Log>)
    ensures IsRun(ls, [StopCall, AppendCall(line)], 0)
    ensures ls[2].resolved == [line] && ls[2].archives == map[] && ls[2].active.None?
    ensures ls[2].orphans == 0 && ls[2].phase != Written
  {
    var l1 := FRESH.(closed := true);
    ls := [FRESH, l1, AppendCalled(l1, line)];
  }

  /** The second: a restart between write and promise leaves a line in the file that was never resolved. */
  lemma RestartLeavesUnresolvedLine(line: Line) returns (ls: seq<Log>)
    ensures IsRun(ls, [AppendCall(line), OpRotates, OpWrites, Restart], 0)
    ensures ls[4].resolved == [] && ls[4].active == Some([line]) && ls[4].orphans == 1
  {
    var l1 := AppendCalled(FRESH, line);
    var l2 := l1.(currentDate := Some(0), phase := Rotated);
    var l3 := l2.(handle := Some(ActiveFile), active := Some([line]), phase := Written,
                  journal := [Entry(line, false)]);
    assert Day(0) == 0 && [] + [line] == [line];
    var l4 := l3.(handle := None, currentDate := None, queue := [], phase := NotStarted, orphans := 1);
    ls := [FRESH, l1, l2, l3, l4];
  }

  /** No rename overwrites an archive, not even one that was pruned in the meantime. */
  lemma RenameNeverOverwrites(ls: seq<Log>, es: seq<Event>, retentionDays: nat, n: nat)
    requires IsRun(ls, es, retentionDays) && n < |es| && es[n] == OpRotates
    ensures forall d :: d in ls[n].archives ==> d in ls[n + 1].archives && ls[n + 1].archives[d] == ls[n].archives[d]
    ensures forall d :: d in ls[n + 1].archives && d !in ls[n].archives ==>
              d !in ls[n].pruned && Some(ls[n + 1].archives[d]) == ls[n].active
  {
    InvAt(ls, es, retentionDays, n);
    if ls[n].currentDate.Some? {
      RotationIsFresh(ls[n]);
    }
  }

  /** Apart from pruning, no event removes or changes an archive; pruning removes one that is overdue. */
  lemma ArchivesOnlyPruned(ls: seq<Log>, es: seq<Event>, retentionDays: nat, n: nat, d: nat)
    requires IsRun(ls, es, retentionDays) && n < |es| && d in ls[n].archives
    ensures if d in ls[n + 1].archives then ls[n + 1].archives[d] == ls[n].archives[d]
            else es[n] == Unlink(d) && ls[n].clock - d * 86400000 > retentionDays * 86400000
  {
    InvAt(ls, es, retentionDays, n);
    if es[n] == OpRotates {
      RenameNeverOverwrites(ls, es, retentionDays, n);
    }
  }

  // ------------------------------------------------- what becomes of a line

  /** An append in the chain that has not been written yet. */
  predicate IsWaiting(l: Log, k: nat) {
    k < |l.queue| && l.queue[k].AppendOp? && !(k == 0 && l.phase == Written)
  }

  ghost predicate Awaits(l: Log, call: nat) {
    exists k :: 0 <= k < |l.queue| && IsWaiting(l, k) && l.queue[k].line.call == call
  }

  /** No call is written twice. */
  ghost predicate WaitingOk(l: Log) {
    && (forall k, i :: 0 <= k < |l.queue| && IsWaiting(l, k) && 0 <= i < |l.journal| ==>
          l.journal[i].line.call != l.queue[k].line.call)
    && (forall j, k :: 0 <= j < k < |l.queue| && IsWaiting(l, j) && IsWaiting(l, k) ==>
          l.queue[j].line.call != l.queue[k].line.call)
  }

  lemma StepKeepsWaiting(l: Log, e: Event, retentionDays: nat)
    requires JournalOk(l) && CallsOk(l) && WaitingOk(l) && Allowed(l, e, retentionDays)
    ensures WaitingOk(Step(l, e, retentionDays))
  {
    hide RotatedInline, ResolvedLines, Unresolved;
    match e
    case OpRotates => RotateKeepsWaiting(l);
    case _ =>
  }

  lemma RotateKeepsWaiting(l: Log)
    requires WaitingOk(l) && l.phase == NotStarted
    ensures WaitingOk(RotatedInline(l).(phase := Rotated))
  {
  }

  lemma {:induction false} WaitingAt(ls: seq<Log>, es: seq<Event>, retentionDays: nat, n: nat)
    requires IsRun(ls, es, retentionDays) && n <= |es|
    ensures WaitingOk(ls[n])
  {
    hide Step, CallsOk, SettledOk, DatesOk, Conserved, HandleOk, JournalOk;
    if n > 0 {
      WaitingAt(ls, es, retentionDays, n - 1);
      InvAt(ls, es, retentionDays, n - 1);
      hide WaitingOk;
      StepKeepsWaiting(ls[n - 1], es[n - 1], retentionDays);
    }
  }

  lemma {:induction false} FlattenHas(m: map<nat, seq<Line>>, n: nat, line: Line)
    ensures line in Flatten(m, n) <==> exists d :: 0 <= d < n && d in m && line in m[d]
  {
    if n > 0 {
      FlattenHas(m, n - 1, line);
    }
  }

  /** The lines in the files, pruned ones included, are those in the journal. */
  lemma OnDiskIffInJournal(l: Log, line: Line)
    requires DatesOk(l) && Conserved(l)
    ensures line in Lines(l.journal) <==>
              line in Content(l.active) || exists d :: d in EverArchived(l) && line in EverArchived(l)[d]
  {
    FlattenHas(EverArchived(l), Day(l.clock), line);
    assert line in Lines(l.journal) <==> line in Flatten(EverArchived(l), Day(l.clock)) + Content(l.active);
  }

  /** `line` was written when the date check had found day `day`. */
  ghost predicate Follows(l: Log, line: Line, day: nat) {
    && line.call in l.issued && line in Lines(l.journal) && !Awaits(l, line.call)
    && day <= Day(l.clock)
    && (forall d :: d in EverArchived(l) && line in EverArchived(l)[d] ==> d >= day)
    && (line in Content(l.active) && l.currentDate.Some? ==> l.currentDate.value >= day)
  }

  /** The same as long as the process is not restarted. */
  ghost predicate FollowsClosely(l: Log, line: Line, day: nat) {
    && (forall d :: d in EverArchived(l) && line in EverArchived(l)[d] ==> d == day)
    && (line in Content(l.active) ==> l.currentDate == Some(day))
  }

  lemma WriteFollows(l: Log, retentionDays: nat)
    requires Inv(l) && CallsOk(l) && WaitingOk(l) && Allowed(l, OpWrites, retentionDays)
    ensures l.currentDate.Some?
    ensures Follows(Step(l, OpWrites, retentionDays), l.queue[0].line, l.currentDate.value)
    ensures FollowsClosely(Step(l, OpWrites, retentionDays), l.queue[0].line, l.currentDate.value)
  {
    var line := l.queue[0].line;
    var l' := Step(l, OpWrites, retentionDays);
    assert IsWaiting(l, 0);
    assert line !in Lines(l.journal);
    OnDiskIffInJournal(l, line);
    assert EverArchived(l') == EverArchived(l);
    assert Lines(l'.journal)[|l.journal|] == line;
    assert !Awaits(l', line.call) by {
      forall k | 0 <= k < |l'.queue| && IsWaiting(l', k)
        ensures l'.queue[k].line.call != line.call
      {
        assert IsWaiting(l, k) && k > 0;
      }
    }
  }

  /** What a date check does to the files. */
  lemma RotationEffect(l: Log)
    requires DatesOk(l)
    ensures var l' := RotatedInline(l).(phase := Rotated);
            && l'.currentDate == Some(Day(l.clock)) && l'.clock == l.clock && l'.queue == l.queue
            && l'.journal == l.journal && l'.issued == l.issued
            && if l.currentDate.Some? && l.currentDate.value != Day(l.clock) && l.active.Some?
               then l'.active.None? && EverArchived(l') == EverArchived(l)[l.currentDate.value := l.active.value]
               else l'.active == l.active && EverArchived(l') == EverArchived(l)
  {
    var l' := RotatedInline(l).(phase := Rotated);
    if l.currentDate.Some? && l.currentDate.value != Day(l.clock) && l.active.Some? {
      RotationIsFresh(l);
      assert EverArchived(l') == EverArchived(l)[l.currentDate.value := l.active.value];
    } else {
      assert EverArchived(l') == EverArchived(l);
    }
  }

  lemma RotateFollows(l: Log, line: Line, day: nat)
    requires Inv(l) && Follows(l, line, day) && l.phase == NotStarted && l.queue != []
    ensures Follows(RotatedInline(l).(phase := Rotated), line, day)
    ensures FollowsClosely(l, line, day) ==> FollowsClosely(RotatedInline(l).(phase := Rotated), line, day)
  {
    RotationEffect(l);
    hide RotatedInline, Flatten, JournalOk, Conserved, HandleOk, EverArchived, DatesOk;
    NotAwaited(l, RotatedInline(l).(phase := Rotated), line.call, 0);
  }

  lemma JournalGrows(l: Log, e: Event, retentionDays: nat)
    requires JournalOk(l) && Allowed(l, e, retentionDays)
    ensures Lines(l.journal) <= Lines(Step(l, e, retentionDays).journal)
    ensures l.issued <= Step(l, e, retentionDays).issued
  {
    hide RotatedInline, ResolvedLines, Unresolved;
    match e
    case OpRotates =>
      assert RotatedInline(l).journal == l.journal && RotatedInline(l).issued == l.issued by {
        RotationKeepsHistory(l);
      }
    case _ =>
  }

  lemma RotationKeepsHistory(l: Log)
    ensures RotatedInline(l).journal == l.journal && RotatedInline(l).issued == l.issued
    ensures RotatedInline(l).resolved == l.resolved && RotatedInline(l).unwritten == l.unwritten
  {
  }

  lemma OtherFollows(l: Log, e: Event, retentionDays: nat, line: Line, day: nat)
    requires Inv(l) && Follows(l, line, day) && Allowed(l, e, retentionDays) && !e.OpRotates? && !e.Tick?
    ensures Follows(Step(l, e, retentionDays), line, day)
    ensures e != Restart && FollowsClosely(l, line, day) ==> FollowsClosely(Step(l, e, retentionDays), line, day)
  {
    var l' := Step(l, e, retentionDays);
    JournalGrows(l, e, retentionDays);
    assert EverArchived(l') == EverArchived(l);
    StillNotAwaited(l, e, retentionDays, line.call);
    assert line in Content(l'.active) ==> line in Content(l.active) by {
      if e == OpWrites {
        assert IsWaiting(l, 0);
      }
    }
  }

  /** A chain that waits for no more than another does. */
  lemma NotAwaited(l: Log, l': Log, call: nat, shift: nat)
    requires !Awaits(l, call)
    requires forall k :: 0 <= k < |l'.queue| && IsWaiting(l', k) ==>
               l'.queue[k].line.call != call || (IsWaiting(l, k + shift) && l'.queue[k] == l.queue[k + shift])
    ensures !Awaits(l', call)
  {
  }

  lemma StillNotAwaited(l: Log, e: Event, retentionDays: nat, call: nat)
    requires Allowed(l, e, retentionDays) && call in l.issued && !Awaits(l, call) && !e.OpRotates?
    requires JournalOk(l)
    ensures !Awaits(Step(l, e, retentionDays), call)
  {
    hide ResolvedLines, Unresolved, RotatedInline;
    NotAwaited(l, Step(l, e, retentionDays), call, if e == OpResolves then 1 else 0);
  }

  lemma TickFollows(l: Log, dt: nat, line: Line, day: nat)
    requires Follows(l, line, day)
    ensures Follows(l.(clock := l.clock + dt), line, day)
    ensures FollowsClosely(l, line, day) ==> FollowsClosely(l.(clock := l.clock + dt), line, day)
  {
    var l' := l.(clock := l.clock + dt);
    DayMonotone(l.clock, l.clock + dt);
    assert EverArchived(l') == EverArchived(l);
    assert forall k :: IsWaiting(l', k) <==> IsWaiting(l, k);
    assert Awaits(l', line.call) <==> Awaits(l, line.call);
  }

  lemma StepFollows(l: Log, e: Event, retentionDays: nat, line: Line, day: nat)
    requires Inv(l) && Follows(l, line, day) && Allowed(l, e, retentionDays)
    ensures Follows(Step(l, e, retentionDays), line, day)
    ensures e != Restart && FollowsClosely(l, line, day) ==> FollowsClosely(Step(l, e, retentionDays), line, day)
  {
    hide Follows, FollowsClosely, RotatedInline, DatesOk, HandleOk, Conserved, JournalOk;
    match e
    case OpRotates => RotateFollows(l, line, day);
    case Tick(dt) => TickFollows(l, dt, line, day);
    case _ => OtherFollows(l, e, retentionDays, line, day);
  }

  /** The date check of an append is the last one before its write. */
  ghost predicate IsWrittenAfterCheck(es: seq<Event>, j: nat, i: nat) {
    && j < i < |es| && es[j] == OpRotates && es[i] == OpWrites
    && forall m :: j < m < i ==> es[m] != OpRotates && es[m] != Restart
  }

  lemma {:induction false} DateStays(ls: seq<Log>, es: seq<Event>, retentionDays: nat, j: nat, i: nat)
    requires IsRun(ls, es, retentionDays) && j < i <= |es| && es[j] == OpRotates
    requires forall m :: j < m < i ==> es[m] != OpRotates && es[m] != Restart
    ensures ls[i].currentDate == Some(ls[j].clock / 86400000)
    decreases i
  {
    if j + 1 < i {
      DateStays(ls, es, retentionDays, j, i - 1);
      OnlyRotationSetsDate(ls[i - 1], es[i - 1], retentionDays);
    } else {
      assert ls[i] == Step(ls[j], es[j], retentionDays);
    }
  }

  lemma OnlyRotationSetsDate(l: Log, e: Event, retentionDays: nat)
    requires Allowed(l, e, retentionDays) && e != OpRotates && e != Restart
    ensures Step(l, e, retentionDays).currentDate == l.currentDate
  {
  }

  lemma {:induction false} FollowedAt(ls: seq<Log>, es: seq<Event>, retentionDays: nat, j: nat, i: nat, n: nat)
    requires IsRun(ls, es, retentionDays) && IsWrittenAfterCheck(es, j, i) && i < n <= |es|
    ensures Allowed(ls[i], OpWrites, retentionDays)
    ensures Follows(ls[n], ls[i].queue[0].line, ls[j].clock / 86400000)
    ensures (forall m :: i < m < n ==> es[m] != Restart) ==>
              FollowsClosely(ls[n], ls[i].queue[0].line, ls[j].clock / 86400000)
    decreases n
  {
    hide Step, Follows, FollowsClosely, DatesOk, HandleOk, Conserved, JournalOk, CallsOk, SettledOk, WaitingOk;
    InvAt(ls, es, retentionDays, n - 1);
    if n == i + 1 {
      DateStays(ls, es, retentionDays, j, i);
      WaitingAt(ls, es, retentionDays, i);
      WriteFollows(ls[i], retentionDays);
      assert ls[n] == Step(ls[i], es[i], retentionDays);
    } else {
      FollowedAt(ls, es, retentionDays, j, i, n - 1);
      StepFollows(ls[n - 1], es[n - 1], retentionDays, ls[i].queue[0].line, ls[j].clock / 86400000);
    }
  }

  lemma {:induction false} PrunedAreOld(ls: seq<Log>, es: seq<Event>, retentionDays: nat, n: nat, d: nat)
    requires IsRun(ls, es, retentionDays) && n <= |es| && d in ls[n].pruned
    ensures ls[n].clock - d * 86400000 > retentionDays * 86400000
  {
    assert n > 0;
    var l, e := ls[n - 1], es[n - 1];
    assert ls[n] == Step(l, e, retentionDays);
    if d in l.pruned {
      PrunedAreOld(ls, es, retentionDays, n - 1, d);
    }
    PrunedStep(l, e, retentionDays, d);
  }

  lemma PrunedStep(l: Log, e: Event, retentionDays: nat, d: nat)
    requires Allowed(l, e, retentionDays) && d in Step(l, e, retentionDays).pruned
    ensures d in l.pruned || l.clock - d * 86400000 > retentionDays * 86400000
    ensures Step(l, e, retentionDays).clock >= l.clock
  {
  }

  /**
   * Retention: a line whose date check fell on some day is in the active file or in an
   * archive until `retentionDays` days after the beginning of that day, over restarts,
   * rotations and prunings.
   */
  lemma LineIsKept(ls: seq<Log>, es: seq<Event>, retentionDays: nat, j: nat, i: nat, n: nat)
    requires IsRun(ls, es, retentionDays) && IsWrittenAfterCheck(es, j, i) && i < n <= |es|
    requires ls[n].clock <= (ls[j].clock / 86400000 + retentionDays) * 86400000
    ensures ls[i].queue != [] && ls[i].queue[0].AppendOp?
    ensures var line := ls[i].queue[0].line;
            line in Content(ls[n].active) || exists d :: d in ls[n].archives && line in ls[n].archives[d]
  {
    hide Step, DatesOk, Conserved, HandleOk, JournalOk, CallsOk, SettledOk;
    var day := ls[j].clock / 86400000;
    FollowedAt(ls, es, retentionDays, j, i, n);
    var line := ls[i].queue[0].line;
    InvAt(ls, es, retentionDays, n);
    OnDiskIffInJournal(ls[n], line);
    if line !in Content(ls[n].active) {
      var d :| d in EverArchived(ls[n]) && line in EverArchived(ls[n])[d];
      assert d * 86400000 >= day * 86400000;
      if d in ls[n].pruned {
        PrunedAreOld(ls, es, retentionDays, n, d);
      }
    }
  }

  /** A line of an earlier day leaves the active file at the next operation, for the archive of its own day. */
  lemma EarlierDayIsArchived(ls: seq<Log>, es: seq<Event>, retentionDays: nat, j: nat, i: nat, n: nat)
    requires IsRun(ls, es, retentionDays) && IsWrittenAfterCheck(es, j, i) && i < n < |es| && es[n] == OpRotates
    requires forall m :: i < m < n ==> es[m] != Restart
    requires ls[j].clock / 86400000 < ls[n].clock / 86400000
    ensures ls[i].queue != [] && ls[i].queue[0].AppendOp?
    ensures var line, day := ls[i].queue[0].line, ls[j].clock / 86400000;
            && line !in Content(ls[n + 1].active)
            && day in EverArchived(ls[n + 1]) && line in EverArchived(ls[n + 1])[day]
  {
    hide Step, DatesOk, Conserved, HandleOk, JournalOk, CallsOk, SettledOk;
    FollowedAt(ls, es, retentionDays, j, i, n + 1);
    var line := ls[i].queue[0].line;
    DateStays(ls, es, retentionDays, n, n + 1);
    InvAt(ls, es, retentionDays, n + 1);
    OnDiskIffInJournal(ls[n + 1], line);
  }

  // ------------------------------------------------- the order of the lines

  /** The lines of the appends in the chain that have not been written. */
  function WaitingLines(queue: seq<Op>): seq<Line> {
    if queue == [] then []
    else
      var last := queue[|queue| - 1];
      WaitingLines(queue[..|queue| - 1]) + (if last.AppendOp? then [last.line] else [])
  }

  function Unwritten(l: Log): seq<Line> {
    WaitingLines(if l.phase == Written && l.queue != [] then l.queue[1..] else l.queue)
  }

  /** The lines handed to an open log so far, in call order, less those a restart has lost. */
  function Accepted(ls: seq<Log>, es: seq<Event>, n: nat): seq<Line>
    requires n <= |es| < |ls|
  {
    if n == 0 then []
    else
      match es[n - 1]
      case AppendCall(line) =>
        if ls[n - 1].closed then Accepted(ls, es, n - 1) else Accepted(ls, es, n - 1) + [line]
      case Restart =>
        var before := Accepted(ls, es, n - 1);
        if |ls[n - 1].journal| <= |before| then before[..|ls[n - 1].journal|] else before
      case _ => Accepted(ls, es, n - 1)
  }

  lemma {:induction false} WaitingTail(queue: seq<Op>)
    requires queue != []
    ensures WaitingLines(queue) == (if queue[0].AppendOp? then [queue[0].line] else []) + WaitingLines(queue[1..])
  {
    if |queue| > 1 {
      var n := |queue| - 1;
      WaitingTail(queue[..n]);
      assert queue[1..][..n - 1] == queue[..n][1..];
    } else {
      assert queue[..0] == [] && queue[1..] == [];
    }
  }

  lemma UnwrittenStep(l: Log, e: Event, retentionDays: nat)
    requires JournalOk(l) && Allowed(l, e, retentionDays)
    ensures var l' := Step(l, e, retentionDays);
            Lines(l'.journal) + Unwritten(l') ==
              match e
              case AppendCall(line) => Lines(l.journal) + Unwritten(l) + (if l.closed then [] else [line])
              case Restart => Lines(l.journal)
              case _ => Lines(l.journal) + Unwritten(l)
  {
    hide RotatedInline, ResolvedLines, Unresolved, WaitingLines, Lines;
    match e
    case AppendCall(line) =>
      if !l.closed {
        WaitingSnoc(l, AppendOp(line));
      }
    case RotateCall => WaitingSnoc(l, RotateOp);
    case OpRotates => RotationKeepsChain(l);
    case OpWrites => WriteKeepsOrder(l, retentionDays);
    case OpResolves => ResolveKeepsOrder(l, retentionDays);
    case Restart => EmptyWaits();
    case _ =>
  }

  lemma EmptyWaits()
    ensures WaitingLines([]) == []
  {
  }

  lemma WriteKeepsOrder(l: Log, retentionDays: nat)
    requires Allowed(l, OpWrites, retentionDays)
    ensures var l' := Step(l, OpWrites, retentionDays);
            Lines(l'.journal) + Unwritten(l') == Lines(l.journal) + Unwritten(l)
  {
    WaitingTail(l.queue);
    WriteHistory(l, retentionDays);
    hide WaitingLines, Step;
    var line, l' := l.queue[0].line, Step(l, OpWrites, retentionDays);
    assert Lines(l'.journal) == Lines(l.journal) + [line];
    assert Lines(l.journal) + [line] + Unwritten(l') == Lines(l.journal) + ([line] + Unwritten(l'));
  }

  lemma WriteHistory(l: Log, retentionDays: nat)
    requires Allowed(l, OpWrites, retentionDays)
    ensures var l' := Step(l, OpWrites, retentionDays);
            && l'.journal == l.journal + [Entry(l.queue[0].line, false)] && l'.queue == l.queue && l'.phase == Written
            && l'.closed == l.closed && l'.clock == l.clock
  {
  }

  lemma ResolveKeepsOrder(l: Log, retentionDays: nat)
    requires JournalOk(l) && Allowed(l, OpResolves, retentionDays)
    ensures var l' := Step(l, OpResolves, retentionDays);
            Lines(l'.journal) == Lines(l.journal) && Unwritten(l') == Unwritten(l)
  {
    WaitingTail(l.queue);
    hide WaitingLines, Unresolved;
    assert Lines(Step(l, OpResolves, retentionDays).journal) == Lines(l.journal);
  }

  lemma WaitingSnoc(l: Log, op: Op)
    requires l.phase == Written ==> l.queue != []
    ensures Unwritten(l.(queue := l.queue + [op])) == Unwritten(l) + (if op.AppendOp? then [op.line] else [])
  {
    if l.phase == Written {
      var rest := l.queue[1..] + [op];
      assert (l.queue + [op])[1..] == rest && rest[..|rest| - 1] == l.queue[1..];
    } else {
      assert (l.queue + [op])[..|l.queue|] == l.queue;
    }
  }

  lemma RotationKeepsChain(l: Log)
    ensures RotatedInline(l).journal == l.journal && RotatedInline(l).queue == l.queue
    ensures RotatedInline(l).closed == l.closed && RotatedInline(l).clock == l.clock
  {
  }

  /** Lines are written in the order of their calls, and all that are accepted are written or waiting. */
  lemma {:induction false} WrittenInCallOrder(ls: seq<Log>, es: seq<Event>, retentionDays: nat, n: nat)
    requires IsRun(ls, es, retentionDays) && n <= |es|
    ensures Accepted(ls, es, n) == Lines(ls[n].journal) + Unwritten(ls[n])
  {
    hide Step, DatesOk, HandleOk, Conserved, CallsOk, SettledOk, Unwritten, JournalOk;
    if n > 0 {
      WrittenInCallOrder(ls, es, retentionDays, n - 1);
      InvAt(ls, es, retentionDays, n - 1);
      UnwrittenStep(ls[n - 1], es[n - 1], retentionDays);
    } else {
      NothingWaits(ls[0]);
    }
  }

  lemma NothingWaits(l: Log)
    requires Initial(l)
    ensures Lines(l.journal) == [] && Unwritten(l) == []
  {
  }

  /** The operations handed to the log since the last restart; a closed log takes no more lines. */
  function Called(ls: seq<Log>, es: seq<Event>, n: nat): seq<Op>
    requires n <= |es| < |ls|
  {
    if n == 0 then []
    else
      match es[n - 1]
      case AppendCall(line) =>
        if ls[n - 1].closed then Called(ls, es, n - 1) else Called(ls, es, n - 1) + [AppendOp(line)]
      case RotateCall => Called(ls, es, n - 1) + [RotateOp]
      case Restart => []
      case _ => Called(ls, es, n - 1)
  }

  /** How many of them have ended. */
  function Done(es: seq<Event>, n: nat): nat
    requires n <= |es|
  {
    if n == 0 || es[n - 1] == Restart then 0
    else if es[n - 1] == OpResolves then Done(es, n - 1) + 1
    else Done(es, n - 1)
  }

  /** Has `stop` been called since the last restart? */
  predicate StopWasCalled(es: seq<Event>, n: nat)
    requires n <= |es|
  {
    n > 0 && es[n - 1] != Restart && (es[n - 1] == StopCall || StopWasCalled(es, n - 1))
  }

  lemma ChainStep(l: Log, e: Event, retentionDays: nat)
    requires Allowed(l, e, retentionDays)
    ensures var l' := Step(l, e, retentionDays);
            && l'.queue == (match e
                            case AppendCall(line) => if l.closed then l.queue else l.queue + [AppendOp(line)]
                            case RotateCall => l.queue + [RotateOp]
                            case OpResolves => l.queue[1..]
                            case Restart => []
                            case _ => l.queue)
            && l'.closed == (e != Restart && (e == StopCall || l.closed))
            && (e == StopCloses || e == Restart ==> l'.handle.None?)
            && (e == OpResolves ==> l.queue != [])
            && l'.clock == l.clock + (if e.Tick? then e.dt else 0)
  {
    hide RotatedInline, WrittenTo, Opened;
    RotationKeepsChain(l);
    if e == OpWrites {
      WriteHistory(l, retentionDays);
      hide Step;
    }
  }

  /**
   * Appends and rotations run one at a time in the order of their calls; whether the log
   * takes more is decided by `stop` alone, and `stop` and a restart leave no handle open.
   */
  lemma {:induction false} OperationsRunInCallOrder(ls: seq<Log>, es: seq<Event>, retentionDays: nat, n: nat)
    requires IsRun(ls, es, retentionDays) && n <= |es|
    ensures Done(es, n) <= |Called(ls, es, n)| && ls[n].queue == Called(ls, es, n)[Done(es, n)..]
    ensures ls[n].closed <==> StopWasCalled(es, n)
    ensures n > 0 && (es[n - 1] == StopCloses || es[n - 1] == Restart) ==> ls[n].handle.None?
  {
    hide Step;
    if n > 0 {
      OperationsRunInCallOrder(ls, es, retentionDays, n - 1);
      ChainStep(ls[n - 1], es[n - 1], retentionDays);
    }
  }

  function OverdueDays(archives: map<nat, seq<Line>>, now: int, retentionDays: nat): set<nat> {
    set d | d in archives && Overdue(d, now, retentionDays)
  }

  function Restrict(archives: map<nat, seq<Line>>, days: set<nat>): map<nat, seq<Line>> {
    map d | d in archives && d in days :: archives[d]
  }

  lemma RestrictAdd(archives: map<nat, seq<Line>>, before: map<nat, seq<Line>>, days: set<nat>, d: nat)
    requires d in archives
    ensures (before + Restrict(archives, days))[d := archives[d]] == before + Restrict(archives, days + {d})
  {
  }

  // --------------------------------------------------------------- implementation

  class AuditLog {
    const retentionDays: nat
    // the directory
    var archives: map<nat, seq<Line>>
    var active: Option<seq<Line>>
    // the process
    var handle: Option<Target>
    var currentDate: Option<nat>
    var queue: seq<Op>
    var phase: Phase
    var closed: bool
    // history
    ghost var issued: set<nat>
    ghost var journal: seq<Entry>
    ghost var resolved: seq<Line>
    ghost var unwritten: set<nat>
    ghost var pruned: map<nat, seq<Line>>
    ghost var orphans: nat

    ghost function View(now: nat): Log
      reads this
    {
      Log(archives, active, handle, currentDate, queue, phase, closed, now,
          issued, journal, resolved, unwritten, pruned, orphans)
    }

    constructor (retentionDays: nat)
      ensures Initial(View(0)) && this.retentionDays == retentionDays
    {
      this.retentionDays := retentionDays;
      archives, active, handle, currentDate := map[], None, None, None;
      queue, phase, closed := [], NotStarted, false;
      issued, journal, resolved, unwritten, pruned, orphans := {}, [], [], {}, map[], 0;
    }

    /** `settled` says that the returned promise is already resolved. */
    method Append(line: Line, ghost now: nat) returns (settled: bool)
      requires line.call !in issued
      modifies this
      ensures View(now) == Step(old(View(now)), AppendCall(line), retentionDays)
      ensures settled <==> old(closed)
    {
      issued := issued + {line.call};
      if closed {
        resolved, unwritten := resolved + [line], unwritten + {line.call};
        return true;
      }
      queue := queue + [AppendOp(line)];
      return false;
    }

    method Rotate(ghost now: nat)
      modifies this
      ensures View(now) == Step(old(View(now)), RotateCall, retentionDays)
    {
      queue := queue + [RotateOp];
    }

    method CloseAndRename(previous: nat, ghost now: nat)
      modifies this
      ensures View(now) == Renamed(old(View(now)).(handle := None), previous)
    {
      if handle.Some? {
        handle := None;
      }
      if active.Some? {
        archives := archives[previous := active.value];
        active := None;
      }
    }

    method RotateInline(now: nat)
      modifies this
      ensures View(now) == RotatedInline(old(View(now)))
    {
      var today := Day(now);
      if currentDate.None? {
        currentDate := Some(today);
        return;
      }
      if currentDate.value == today {
        return;
      }
      var previous := currentDate.value;
      CloseAndRename(previous, now);
      currentDate := Some(today);
    }

    method OpenIfNeeded(ghost now: nat)
      modifies this
      ensures View(now) == Opened(old(View(now)))
    {
      if handle.None? {
        if active.None? {
          active := Some([]);
        }
        handle := Some(ActiveFile);
      }
    }

    /** The first step of the operation at the head of the chain. */
    method RunRotation(now: nat)
      requires Allowed(View(now), OpRotates, retentionDays)
      modifies this
      ensures View(now) == Step(old(View(now)), OpRotates, retentionDays)
    {
      RotateInline(now);
      phase := Rotated;
    }

    /** The write of an append. */
    method RunWrite(ghost now: nat)
      requires Allowed(View(now), OpWrites, retentionDays)
      modifies this
      ensures View(now) == Step(old(View(now)), OpWrites, retentionDays)
    {
      var line := queue[0].line;
      OpenIfNeeded(now);
      match handle.value {
        case ActiveFile =>
          active := Some(Content(active) + [line]);
        case ArchiveFile(d) =>
          archives := archives[d := (if d in archives then archives[d] else []) + [line]];
      }
      phase := Written;
      journal := journal + [Entry(line, false)];
    }

    /** The operation at the head of the chain settles its promise and makes way for the next. */
    method RunResolve(ghost now: nat)
      requires Allowed(View(now), OpResolves, retentionDays)
      modifies this
      ensures View(now) == Step(old(View(now)), OpResolves, retentionDays)
    {
      if queue[0].AppendOp? && journal != [] {
        journal := journal[|journal| - 1 := Entry(queue[0].line, true)];
        resolved := resolved + [queue[0].line];
      }
      queue := queue[1..];
      phase := NotStarted;
    }

    /** Unlinks, in some order, exactly the archives that are past the retention bound. */
    method PruneOld(now: nat)
      modifies this
      ensures archives == old(archives) - OverdueDays(old(archives), now, retentionDays)
      ensures forall d :: d in archives <==>
                d in old(archives) && now - d * 86400000 <= retentionDays * 86400000
      ensures forall d :: d in archives ==> archives[d] == old(archives)[d]
      ensures pruned == old(pruned) + Restrict(old(archives), OverdueDays(old(archives), now, retentionDays))
      ensures View(now) == old(View(now)).(archives := archives, pruned := pruned)
    {
      var entries := archives.Keys;
      ghost var gone: set<nat> := {};
      while entries != {}
        invariant entries <= old(archives).Keys && gone !! entries
        invariant gone == set d | d in old(archives) && d !in entries && Overdue(d, now, retentionDays)
        invariant archives == old(archives) - gone
        invariant pruned == old(pruned) + Restrict(old(archives), gone)
        invariant View(now) == old(View(now)).(archives := archives, pruned := pruned)
        decreases entries
      {
        var d :| d in entries;
        entries := entries - {d};
        if now - d * DAY_MS > retentionDays * DAY_MS {
          RestrictAdd(old(archives), old(pruned), gone, d);
          pruned := pruned[d := archives[d]];
          archives := archives - {d};
          gone := gone + {d};
        }
      }
      assert gone == OverdueDays(old(archives), now, retentionDays);
    }

    /** `stop` up to its await: nothing is accepted any more. */
    method Stop(ghost now: nat)
      modifies this
      ensures View(now) == Step(old(View(now)), StopCall, retentionDays)
    {
      if closed {
        return;
      }
      closed := true;
    }

    /** `stop` after it has awaited the chain. */
    method FinishStop(ghost now: nat)
      requires Allowed(View(now), StopCloses, retentionDays)
      modifies this
      ensures View(now) == Step(old(View(now)), StopCloses, retentionDays)
    {
      if handle.Some? {
        handle := None;
      }
    }
  }
}

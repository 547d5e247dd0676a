/** Finalisation of a streamed response: terminal chunk, disconnect and drop tasks race for one settlement
    and one audit row. */
module StreamLifecycle {
  import opened Wrappers

  datatype Usage = Usage(prompt: nat, completion: nat)

  datatype Source = Upstream | Estimated
  datatype Numbers = Numbers(prompt: nat, completion: nat, source: Source)

  datatype Code = Ok | UpstreamError | Cancelled

  datatype Row = Row(code: Code, numbers: Numbers, text: string)

  /** A metering call: started, finished, or lost because its future was dropped. */
  datatype Status = Pending | Completed | Lost
  datatype Charge = Charge(prompt: nat, completion: nat, status: Status)

  /** How far the body stream has come; the terminal future suspends while it charges, and again before it
      finishes. */
  datatype Phase = Streaming | Flushed | Charging(numbers: Numbers, slot: nat) | Charged(numbers: Numbers) | Done

  datatype Progress = Ready | Waiting(slot: nat) | Finished

  /** A task spawned by dropping an accountant, with what it saw then. */
  datatype Task = Task(numbers: Numbers, code: Code, text: string, progress: Progress)

  datatype Config = Config(requestText: string, metered: bool)

  datatype State = State(text: string, usage: Option<Usage>, error: bool, recorded: bool, finalized: bool,
                         charges: seq<Charge>, rows: seq<Row>, phase: Phase, dropped: bool, tasks: seq<Task>)

  const START := State("", None, false, false, false, [], [], Streaming, false, [])

  /** Provider usage wins; otherwise a quarter of the characters of either text. */
  function UsageNumbers(c: Config, text: string, usage: Option<Usage>): Numbers {
    match usage
    case Some(u) => Numbers(u.prompt, u.completion, Upstream)
    case None => Numbers(|c.requestText| / 4, |text| / 4, Estimated)
  }

  function Current(c: Config, s: State): Numbers {
    UsageNumbers(c, s.text, s.usage)
  }

  // ---------- Atomic sections ----------

  datatype Event =
    | Chunk(usage: Option<Usage>, restored: string)
    | ItemError
    | EndOfItems(flushed: string)
    | TerminalStart
    | TerminalCharged
    | TerminalFinish
    | DropBody(runtime: bool)
    | TaskStart(i: nat)
    | TaskResume(i: nat)

  predicate Enabled(s: State, e: Event) {
    match e
    case Chunk(_, _) => !s.dropped && s.phase == Streaming
    case ItemError => !s.dropped && s.phase == Streaming
    case EndOfItems(_) => !s.dropped && s.phase == Streaming
    case TerminalStart => !s.dropped && s.phase == Flushed
    case TerminalCharged => !s.dropped && s.phase.Charging? && s.phase.slot < |s.charges|
    case TerminalFinish => !s.dropped && s.phase.Charged?
    case DropBody(_) => !s.dropped
    case TaskStart(i) => i < |s.tasks| && s.tasks[i].progress == Ready
    case TaskResume(i) => i < |s.tasks| && s.tasks[i].progress.Waiting? && s.tasks[i].progress.slot < |s.charges|
  }

  /** The audit row, unless one was written before. */
  function FinishRow(s: State, row: Row): State {
    if s.finalized then s else s.(finalized := true, rows := s.rows + [row])
  }

  /** Whether `settle_once` would start a metering call now. */
  predicate StartsCharge(c: Config, s: State) {
    !s.recorded && c.metered
  }

  function BeginCharge(c: Config, s: State, n: Numbers): State {
    if StartsCharge(c, s) then s.(recorded := true, charges := s.charges + [Charge(n.prompt, n.completion, Pending)])
    else s.(recorded := true)
  }

  function EndCharge(s: State, slot: nat, status: Status): State
    requires slot < |s.charges|
  {
    s.(charges := s.charges[slot := s.charges[slot].(status := status)])
  }

  /** What dropping an accountant captures. */
  function Captured(c: Config, s: State): Task {
    Task(Current(c, s), if s.error then UpstreamError else Cancelled, s.text, Ready)
  }

  function Next(c: Config, s: State, e: Event): State
    requires Enabled(s, e)
  {
    match e
    case Chunk(usage, restored) => s.(text := s.text + restored, usage := if usage.Some? then usage else s.usage)
    case ItemError => s.(error := true)
    case EndOfItems(flushed) => s.(text := s.text + flushed, phase := Flushed)
    case TerminalStart =>
      var n := Current(c, s);
      BeginCharge(c, s, n).(phase := if StartsCharge(c, s) then Charging(n, |s.charges|) else Charged(n))
    case TerminalCharged => EndCharge(s, s.phase.slot, Completed).(phase := Charged(s.phase.numbers))
    case TerminalFinish =>
      var row := Row(if s.error then UpstreamError else Ok, s.phase.numbers, s.text);
      var s' := FinishRow(s, row).(phase := Done);
      s'.(tasks := s'.tasks + [Captured(c, s')])
    case DropBody(runtime) =>
      var s' := if s.phase.Charging? && s.phase.slot < |s.charges| then EndCharge(s, s.phase.slot, Lost) else s;
      var spawned := if !runtime then [] else if s.phase == Done then [Captured(c, s)]
        else [Captured(c, s), Captured(c, s)];
      s'.(dropped := true, tasks := s.tasks + spawned)
    case TaskStart(i) =>
      var t := s.tasks[i];
      var s' := BeginCharge(c, s, t.numbers);
      if StartsCharge(c, s) then s'.(tasks := s.tasks[i := t.(progress := Waiting(|s.charges|))])
      else FinishRow(s', Row(t.code, t.numbers, t.text)).(tasks := s.tasks[i := t.(progress := Finished)])
    case TaskResume(i) =>
      var t := s.tasks[i];
      FinishRow(EndCharge(s, t.progress.slot, Completed), Row(t.code, t.numbers, t.text))
        .(tasks := s.tasks[i := t.(progress := Finished)])
  }

  ghost predicate ValidRun(c: Config, s: State, es: seq<Event>)
    decreases |es|
  {
    es == [] || (Enabled(s, es[0]) && ValidRun(c, Next(c, s, es[0]), es[1..]))
  }

  ghost function Run(c: Config, s: State, es: seq<Event>): State
    requires ValidRun(c, s, es)
    decreases |es|
  {
    if es == [] then s else Run(c, Next(c, s, es[0]), es[1..])
  }

  // ---------- The invariant ----------

  /** The code that the final row must carry. */
  function FinalCode(s: State): Code {
    if s.error then UpstreamError else if s.phase == Done then Ok else Cancelled
  }

  predicate Closing(s: State) {
    s.dropped || s.phase.Charging? || s.phase.Charged? || s.phase == Done
  }

  /** A task still carries what the frozen stream says. */
  predicate TaskOk(c: Config, s: State, t: Task) {
    && t.numbers == Current(c, s) && t.text == s.text
    && t.code == (if s.error then UpstreamError else Cancelled)
    && (t.progress.Waiting? ==> t.progress.slot == 0 && |s.charges| == 1 && s.charges[0].status == Pending)
    && (t.progress == Finished ==> s.finalized)
  }

  /** At most one charge and one row, and both say what the stream says. */
  ghost predicate Records(c: Config, s: State) {
    && |s.charges| == (if s.recorded && c.metered then 1 else 0)
    && (|s.charges| == 1 ==>
      s.charges[0] == Charge(Current(c, s).prompt, Current(c, s).completion, s.charges[0].status))
    && s.rows == (if s.finalized then [Row(FinalCode(s), Current(c, s), s.text)] else [])
    && (s.finalized ==> s.recorded)
  }

  /** The stream is frozen once anything has been charged, written or spawned. */
  ghost predicate Frozen(c: Config, s: State) {
    && (s.recorded ==> Closing(s))
    && (s.finalized || s.tasks != [] ==> s.dropped || s.phase == Done)
    && (s.phase.Charging? || s.phase.Charged? ==> s.phase.numbers == Current(c, s) && s.recorded)
    && (s.phase == Done ==> s.finalized)
  }

  ghost predicate TasksOk(c: Config, s: State) {
    && (forall i :: 0 <= i < |s.tasks| ==> TaskOk(c, s, s.tasks[i]))
    && (forall i, j :: 0 <= i < j < |s.tasks| ==> !(s.tasks[i].progress.Waiting? && s.tasks[j].progress.Waiting?))
  }

  ghost predicate SomeWaiting(s: State) {
    exists i :: 0 <= i < |s.tasks| && s.tasks[i].progress.Waiting?
  }

  /** The status of the one charge: pending while somebody waits for it, lost only when the disconnect
      caught the terminal future waiting. */
  ghost predicate ChargeStatus(s: State) {
    && (s.phase.Charging? ==> s.phase.slot == 0 && |s.charges| == 1 && !SomeWaiting(s))
    && (|s.charges| == 1 ==>
          s.charges[0].status ==
            if s.phase.Charging? then (if s.dropped then Lost else Pending)
            else if SomeWaiting(s) then Pending else Completed)
  }

  ghost predicate Inv(c: Config, s: State) {
    Records(c, s) && Frozen(c, s) && TasksOk(c, s) && ChargeStatus(s)
  }

  lemma {:induction false} StartInv(c: Config)
    ensures Inv(c, START)
  {
  }

  lemma {:induction false} StreamInv(c: Config, s: State, e: Event)
    requires Inv(c, s) && Enabled(s, e) && (e.Chunk? || e.ItemError? || e.EndOfItems?)
    ensures Inv(c, Next(c, s, e))
  {
    assert s.tasks == [] && s.charges == [] && s.rows == [];
  }

  lemma {:induction false} TerminalInv(c: Config, s: State, e: Event)
    requires Inv(c, s) && Enabled(s, e) && (e.TerminalStart? || e.TerminalCharged? || e.TerminalFinish?)
    ensures Inv(c, Next(c, s, e))
  {
    assert s.tasks == [] && s.rows == [];
  }

  lemma {:induction false} SpawnedOk(c: Config, s: State, s': State, spawned: seq<Task>)
    requires TasksOk(c, s) && s'.tasks == s.tasks + spawned
    requires forall i :: 0 <= i < |spawned| ==> spawned[i] == Captured(c, s)
    requires Current(c, s') == Current(c, s) && s'.text == s.text && s'.error == s.error && s'.finalized == s.finalized
    requires s'.charges == s.charges || !SomeWaiting(s)
    ensures TasksOk(c, s') && (SomeWaiting(s') <==> SomeWaiting(s))
  {
    var n := |s.tasks|;
    assert forall i :: 0 <= i < n ==> s'.tasks[i] == s.tasks[i] && TaskOk(c, s, s.tasks[i]);
    assert forall i :: n <= i < |s'.tasks| ==> s'.tasks[i] == spawned[i - n];
    if SomeWaiting(s) {
      var i :| 0 <= i < n && s.tasks[i].progress.Waiting?;
      assert s'.tasks[i].progress.Waiting?;
    }
  }

  lemma {:induction false} DropInv(c: Config, s: State, runtime: bool)
    requires Inv(c, s) && Enabled(s, DropBody(runtime))
    ensures Inv(c, Next(c, s, DropBody(runtime)))
  {
    var s' := Next(c, s, DropBody(runtime));
    var t := Captured(c, s);
    var spawned := if !runtime then [] else if s.phase == Done then [t] else [t, t];
    SpawnedOk(c, s, s', spawned);
    hide TasksOk, SomeWaiting;
  }

  lemma {:induction false} TaskStartInv(c: Config, s: State, i: nat)
    requires Inv(c, s) && Enabled(s, TaskStart(i))
    ensures Inv(c, Next(c, s, TaskStart(i)))
  {
    var s' := Next(c, s, TaskStart(i));
    assert TaskOk(c, s, s.tasks[i]);
    assert forall j :: 0 <= j < |s.tasks| && j != i ==> s'.tasks[j] == s.tasks[j];
    if StartsCharge(c, s) {
      assert s'.tasks[i].progress.Waiting?;
    } else {
      assert SomeWaiting(s') <==> SomeWaiting(s) by {
        if SomeWaiting(s) {
          var j :| 0 <= j < |s.tasks| && s.tasks[j].progress.Waiting?;
          assert s'.tasks[j].progress.Waiting?;
        }
      }
    }
  }

  lemma {:induction false} TaskResumeInv(c: Config, s: State, i: nat)
    requires Inv(c, s) && Enabled(s, TaskResume(i))
    ensures Inv(c, Next(c, s, TaskResume(i)))
  {
    var s' := Next(c, s, TaskResume(i));
    assert TaskOk(c, s, s.tasks[i]);
    assert forall j :: 0 <= j < |s.tasks| && j != i ==> s'.tasks[j] == s.tasks[j];
    assert !SomeWaiting(s');
  }

  lemma {:induction false} StepInv(c: Config, s: State, e: Event)
    requires Inv(c, s) && Enabled(s, e)
    ensures Inv(c, Next(c, s, e))
  {
    hide Inv, Next;
    match e
    case Chunk(_, _) => StreamInv(c, s, e);
    case ItemError => StreamInv(c, s, e);
    case EndOfItems(_) => StreamInv(c, s, e);
    case TerminalStart => TerminalInv(c, s, e);
    case TerminalCharged => TerminalInv(c, s, e);
    case TerminalFinish => TerminalInv(c, s, e);
    case DropBody(runtime) => DropInv(c, s, runtime);
    case TaskStart(i) => TaskStartInv(c, s, i);
    case TaskResume(i) => TaskResumeInv(c, s, i);
  }

  // ---------- Main results ----------

  lemma {:induction false} RunInv(c: Config, s: State, es: seq<Event>)
    requires Inv(c, s) && ValidRun(c, s, es)
    ensures Inv(c, Run(c, s, es))
    decreases |es|
  {
    hide Inv, Next;
    if es != [] {
      StepInv(c, s, es[0]);
      RunInv(c, Next(c, s, es[0]), es[1..]);
    }
  }

  /** Some finaliser has run to its end. */
  ghost predicate SomeFinished(s: State) {
    s.phase == Done || exists i :: 0 <= i < |s.tasks| && s.tasks[i].progress == Finished
  }

  /** Safety under every interleaving: the reserve is settled at most once; there is at most one audit row,
      and exactly one once any finaliser has finished; the row is "ok" exactly when the terminal chunk
      finished without an item error; and the audited tokens are those passed to the settlement. */
  lemma {:induction false} StreamSafety(c: Config, es: seq<Event>)
    requires ValidRun(c, START, es)
    ensures var s := Run(c, START, es);
      && |s.charges| <= 1 && |s.rows| <= 1
      && (SomeFinished(s) ==> |s.rows| == 1)
      && (forall r :: r in s.rows ==>
        (r.code == Ok <==> s.phase == Done && !s.error) && (r.code == UpstreamError <==> s.error))
      && (forall r, ch :: r in s.rows && ch in s.charges ==>
        r.numbers.prompt == ch.prompt && r.numbers.completion == ch.completion)
      && (c.metered && |s.rows| == 1 ==> |s.charges| == 1)
  {
    StartInv(c);
    RunInv(c, START, es);
    var s := Run(c, START, es);
    if i :| 0 <= i < |s.tasks| && s.tasks[i].progress == Finished { assert TaskOk(c, s, s.tasks[i]); }
  }

  // ---------- What charge and row say, told from the events ----------

  /** The last usage that a chunk carried. */
  function LastUsage(es: seq<Event>): Option<Usage> {
    if es == [] then None
    else
      var later := LastUsage(es[1..]);
      if later.Some? then later else if es[0].Chunk? then es[0].usage else None
  }

  function TextOf(e: Event): string {
    match e
    case Chunk(_, restored) => restored
    case EndOfItems(flushed) => flushed
    case _ => []
  }

  /** All restored text. */
  function AllText(es: seq<Event>): string {
    if es == [] then [] else TextOf(es[0]) + AllText(es[1..])
  }

  /** What one event changes of what the finalisers report. */
  lemma {:induction false} StepReports(c: Config, s: State, e: Event)
    requires Enabled(s, e)
    ensures var s' := Next(c, s, e);
      && s'.text == s.text + TextOf(e)
      && s'.usage == (if e.Chunk? && e.usage.Some? then e.usage else s.usage)
      && (s'.error <==> s.error || e == ItemError)
      && (s'.phase == Done ==> s.phase == Done || e == TerminalFinish)
      && (s.phase == Done || e == TerminalFinish ==> s'.phase == Done)
      && (s.tasks != [] || e == TerminalFinish || e == DropBody(true) ==> s'.tasks != [])
  {
    hide UsageNumbers, Captured, Current, StartsCharge;
    assert s.text + [] == s.text;
  }

  lemma {:induction false} FirstOrLater(es: seq<Event>, e: Event)
    requires es != []
    ensures e in es <==> e == es[0] || e in es[1..]
  {
    assert es == [es[0]] + es[1..];
  }

  lemma {:induction false} RunReports(c: Config, s: State, es: seq<Event>)
    requires ValidRun(c, s, es)
    ensures var s' := Run(c, s, es);
      && s'.text == s.text + AllText(es)
      && s'.usage == (if LastUsage(es).Some? then LastUsage(es) else s.usage)
      && (s'.error <==> s.error || ItemError in es)
      && (s'.phase == Done <==> s.phase == Done || TerminalFinish in es)
      && (s.tasks != [] || TerminalFinish in es || DropBody(true) in es ==> s'.tasks != [])
    decreases |es|
  {
    hide Next, Enabled, TextOf;
    if es == [] {
      assert s.text + [] == s.text;
    } else {
      var s' := Next(c, s, es[0]);
      StepReports(c, s, es[0]);
      RunReports(c, s', es[1..]);
      FirstOrLater(es, ItemError);
      FirstOrLater(es, TerminalFinish);
      FirstOrLater(es, DropBody(true));
      assert s.text + TextOf(es[0]) + AllText(es[1..]) == s.text + AllText(es);
      hide ValidRun, AllText;
    }
  }

  /** Under every interleaving, charge and row say what arrived: the numbers of the last chunk that carried usage,
      marked as upstream, or else a quarter of the characters of the request and of the restored text, marked as
      estimated; the row holds all restored text, and its code is "upstream_error" after an item error, else "ok"
      when the terminal chunk finished, else "cancelled". */
  lemma {:induction false} ReportsTellEvents(c: Config, es: seq<Event>)
    requires ValidRun(c, START, es)
    ensures var s := Run(c, START, es);
      && (forall row :: row in s.rows ==>
            && row.text == AllText(es)
            && row.numbers == (match LastUsage(es)
                               case Some(u) => Numbers(u.prompt, u.completion, Upstream)
                               case None => Numbers(|c.requestText| / 4, |AllText(es)| / 4, Estimated))
            && row.code == if ItemError in es then UpstreamError else if TerminalFinish in es then Ok else Cancelled)
      && (forall ch :: ch in s.charges ==>
            match LastUsage(es)
            case Some(u) => ch.prompt == u.prompt && ch.completion == u.completion
            case None => ch.prompt == |c.requestText| / 4 && ch.completion == |AllText(es)| / 4)
  {
    StartInv(c);
    RunInv(c, START, es);
    RunReports(c, START, es);
    assert [] + AllText(es) == AllText(es);
    hide ValidRun, Run, AllText, LastUsage;
  }

  /** The body is gone and every spawned task has finished. */
  predicate Quiescent(s: State) {
    s.dropped && forall i :: 0 <= i < |s.tasks| ==> s.tasks[i].progress == Finished
  }

  /** When everything has come to rest and a runtime was there to run the tasks, the request has exactly one
      row and, if metered, exactly one charge; the charge completed unless the disconnect caught the
      terminal chunk waiting for it. */
  lemma {:induction false} StreamCompletes(c: Config, es: seq<Event>)
    requires ValidRun(c, START, es)
    ensures var s := Run(c, START, es);
      Quiescent(s) && s.tasks != [] ==>
        && |s.rows| == 1 && |s.charges| == (if c.metered then 1 else 0)
        && (c.metered ==> s.charges[0].status == if s.phase.Charging? then Lost else Completed)
  {
    StartInv(c);
    RunInv(c, START, es);
    var s := Run(c, START, es);
    if Quiescent(s) && s.tasks != [] { assert TaskOk(c, s, s.tasks[0]); }
  }

  /** A dropped body whose tasks have all run leaves exactly one row, and one charge if metered. */
  lemma {:induction false} DropCompletes(c: Config, es: seq<Event>)
    requires ValidRun(c, START, es) && (DropBody(true) in es || TerminalFinish in es)
    ensures var s := Run(c, START, es);
      Quiescent(s) ==> |s.rows| == 1 && |s.charges| == (if c.metered then 1 else 0)
  {
    StreamCompletes(c, es);
    RunReports(c, START, es);
    hide ValidRun, Run, AllText, LastUsage;
  }

  /** How many task sections are still to run. */
  function Remaining(tasks: seq<Task>): nat {
    if tasks == [] then 0
    else
      Remaining(tasks[..|tasks| - 1])
      + (match tasks[|tasks| - 1].progress case Ready => 2 case Waiting(_) => 1 case Finished => 0)
  }

  /** From every reachable state with the body dropped, the spawned tasks can always run to their end: no
      task blocks another. */
  lemma {:induction false} TasksCanFinish(c: Config, s: State) returns (es: seq<Event>)
    requires Inv(c, s) && s.dropped
    ensures ValidRun(c, s, es) && Quiescent(Run(c, s, es)) && |Run(c, s, es).tasks| == |s.tasks|
    decreases Remaining(s.tasks)
  {
    if Quiescent(s) {
      es := [];
    } else {
      var i :| 0 <= i < |s.tasks| && s.tasks[i].progress != Finished;
      assert TaskOk(c, s, s.tasks[i]);
      var e := if s.tasks[i].progress == Ready then TaskStart(i) else TaskResume(i);
      StepInv(c, s, e);
      var s' := Next(c, s, e);
      RemainingDrops(s.tasks, s'.tasks, i);
      var rest := TasksCanFinish(c, s');
      es := [e] + rest;
      assert es[1..] == rest;
    }
  }

  lemma {:induction false} RemainingDrops(a: seq<Task>, b: seq<Task>, i: nat)
    requires |a| == |b| && i < |a| && (forall j :: 0 <= j < |a| && j != i ==> a[j] == b[j])
    requires (b[i].progress == Finished && a[i].progress != Finished)
      || (a[i].progress == Ready && b[i].progress.Waiting?)
    ensures Remaining(b) < Remaining(a)
  {
    var n := |a| - 1;
    if i < n { RemainingDrops(a[..n], b[..n], i); } else { assert a[..n] == b[..n]; }
  }

  // ---------- The code of each section ----------

  /** The shared state of one streamed response. Each method is the code between two suspension points. */
  class ResponseStream {
    const config: Config
    var text: string
    var usage: Option<Usage>
    var streamError: bool
    var recorded: bool
    var finalized: bool
    var charges: seq<Charge>
    var rows: seq<Row>
    var phase: Phase
    var dropped: bool
    var tasks: seq<Task>

    ghost function Abs(): State
      reads this
    {
      State(text, usage, streamError, recorded, finalized, charges, rows, phase, dropped, tasks)
    }

    constructor (config: Config)
      ensures this.config == config && Abs() == START
    {
      this.config := config;
      text, usage, streamError, recorded, finalized := "", None, false, false, false;
      charges, rows, phase, dropped, tasks := [], [], Streaming, false, [];
    }

    /** Writes the audit row unless it has been written. */
    method Finish(row: Row)
      modifies this`finalized, this`rows
      ensures Abs() == FinishRow(old(Abs()), row)
    {
      var was := finalized;
      finalized := true;
      if was {
        return;
      }
      rows := rows + [row];
    }

    /** Starts the metering call unless one was started. */
    method SettleOnce(n: Numbers) returns (started: bool)
      modifies this`recorded, this`charges
      ensures Abs() == BeginCharge(config, old(Abs()), n) && started == StartsCharge(config, old(Abs()))
    {
      var was := recorded;
      recorded := true;
      if was || !config.metered {
        return false;
      }
      charges := charges + [Charge(n.prompt, n.completion, Pending)];
      return true;
    }

    method OnItem(item: Result<Option<Usage>, string>, restored: string)
      requires Enabled(Abs(), ItemError)
      modifies this
      ensures Abs() == Next(config, old(Abs()), if item.Success? then Chunk(item.value, restored) else ItemError)
    {
      match item
      case Failure(_) => streamError := true;
      case Success(u) =>
        if u.Some? {
          usage := u;
        }
        text := text + restored;
    }

    method OnEndOfItems(flushed: string)
      requires Enabled(Abs(), EndOfItems(flushed))
      modifies this
      ensures Abs() == Next(config, old(Abs()), EndOfItems(flushed))
    {
      if flushed != [] {
        text := text + flushed;
      }
      assert old(text) + [] == old(text);
      phase := Flushed;
    }

    method OnTerminalStart()
      requires Enabled(Abs(), TerminalStart)
      modifies this
      ensures Abs() == Next(config, old(Abs()), TerminalStart)
      ensures !old(recorded) && config.metered ==>
        charges == old(charges) + [match old(usage)
                                   case Some(u) => Charge(u.prompt, u.completion, Pending)
                                   case None => Charge(|config.requestText| / 4, |old(text)| / 4, Pending)]
    {
      var n := UsageNumbers(config, text, usage);
      var slot := |charges|;
      var started := SettleOnce(n);
      phase := if started then Charging(n, slot) else Charged(n);
    }

    method OnTerminalCharged()
      requires Enabled(Abs(), TerminalCharged)
      modifies this
      ensures Abs() == Next(config, old(Abs()), TerminalCharged)
    {
      charges := charges[phase.slot := charges[phase.slot].(status := Completed)];
      phase := Charged(phase.numbers);
    }

    method OnTerminalFinish()
      requires Enabled(Abs(), TerminalFinish)
      modifies this
      ensures Abs() == Next(config, old(Abs()), TerminalFinish)
    {
      var code := if streamError then UpstreamError else Ok;
      Finish(Row(code, phase.numbers, text));
      phase := Done;
      Spawn();
    }

    /** Dropping one accountant: capture the numbers now, finalise in a task. */
    method Spawn()
      modifies this`tasks
      ensures Abs() == old(Abs()).(tasks := old(tasks) + [Captured(config, old(Abs()))])
    {
      var n := UsageNumbers(config, text, usage);
      var code := if streamError then UpstreamError else Cancelled;
      tasks := tasks + [Task(n, code, text, Ready)];
    }

    /** Dropping the body drops the terminal future with its accountant, unless it ran to its end, and then
        the outer accountant. A metering call under way is lost. */
    method OnDrop(runtime: bool)
      requires Enabled(Abs(), DropBody(runtime))
      modifies this
      ensures Abs() == Next(config, old(Abs()), DropBody(runtime))
    {
      if phase.Charging? && phase.slot < |charges| {
        charges := charges[phase.slot := charges[phase.slot].(status := Lost)];
      }
      dropped := true;
      if runtime {
        if phase != Done {
          Spawn();
        }
        Spawn();
      }
    }

    method OnTaskStart(i: nat)
      requires Enabled(Abs(), TaskStart(i))
      modifies this
      ensures Abs() == Next(config, old(Abs()), TaskStart(i))
    {
      var t := tasks[i];
      var slot := |charges|;
      var started := SettleOnce(t.numbers);
      if started {
        tasks := tasks[i := t.(progress := Waiting(slot))];
      } else {
        Finish(Row(t.code, t.numbers, t.text));
        tasks := tasks[i := t.(progress := Finished)];
      }
    }

    method OnTaskResume(i: nat)
      requires Enabled(Abs(), TaskResume(i))
      modifies this
      ensures Abs() == Next(config, old(Abs()), TaskResume(i))
    {
      var t := tasks[i];
      var slot := t.progress.slot;
      charges := charges[slot := charges[slot].(status := Completed)];
      Finish(Row(t.code, t.numbers, t.text));
      tasks := tasks[i := t.(progress := Finished)];
    }
  }
}

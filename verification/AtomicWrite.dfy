/** The crash-safe writer: temporary file, fsync, rename, directory fsync, and the clean-up of
    its exception path, for any number of interleaved writers of one target. The machine may
    crash between any two steps; until a file is synced its blocks on disk are arbitrary, and
    until the directory is synced any later entry for the target may or may not be there. */
module AtomicWrite {
  import opened Basics

  /** What stands in the target before, and what each writer wants there. */
  datatype Job = Job(before: Option<string>, texts: seq<string>)

  /** Where a writer is. */
  datatype Pc =
    | Start
    | Writing
    | Synced
    | Closed
    | Renamed
    | DirectoryOpen
    | DirectorySynced
    | Failing
    | Returned(durable: bool)
    | Raised(refused: bool)

  /** A writer and its file: what was written, what the disk holds, whether the two are known
      to agree, whether the temporary name exists, and which entry of the target's history is
      its rename (0 when it has not renamed). */
  datatype Writer = Writer(pc: Pc, content: string, disk: string, clean: bool, named: bool, slot: nat)

  /** The history of the target's directory entry: `None` is the old file (or none), `Some(w)`
      the file of writer `w`. Entry `synced` and those behind it may survive a crash. */
  datatype System = System(writers: seq<Writer>, history: seq<Option<nat>>, synced: nat)

  datatype Step =
    | Create(w: nat)
    | CreateFails(w: nat)
    | Write(w: nat, count: nat)
    | WriteFails(w: nat)
    | Sync(w: nat)
    | SyncFails(w: nat)
    | Close(w: nat)
    | CloseFails(w: nat)
    | Replace(w: nat)
    | ReplaceFails(w: nat)
    | OpenDirectory(w: nat)
    | SkipDirectory(w: nat)
    | SyncDirectory(w: nat)
    | SyncDirectoryFails(w: nat)
    | CloseDirectory(w: nat)
    | CloseDirectoryFails(w: nat)
    | Unlink(w: nat)
    | UnlinkRefused(w: nat)
    | Writeback(w: nat, torn: string)

  function Init(job: Job): System {
    System(seq(|job.texts|, _ => Writer(Start, "", "", false, false, 0)), [None], 0)
  }

  /** The steps a writer can take. The last one is the kernel's: it may put anything of an
      unsynced file on disk at any time. */
  predicate Enabled(text: string, x: Writer, step: Step) {
    match step
    case Create(_) | CreateFails(_) => x.pc == Start
    case Write(_, count) => x.pc == Writing && 0 < count <= |text| - |x.content|
    case WriteFails(_) => x.pc == Writing
    case Sync(_) | SyncFails(_) => x.pc == Writing && |x.content| == |text|
    case Close(_) | CloseFails(_) => x.pc == Synced
    case Replace(_) | ReplaceFails(_) => x.pc == Closed
    case OpenDirectory(_) | SkipDirectory(_) => x.pc == Renamed
    case SyncDirectory(_) | SyncDirectoryFails(_) => x.pc == DirectoryOpen
    case CloseDirectory(_) | CloseDirectoryFails(_) => x.pc == DirectorySynced
    case Unlink(_) => x.pc == Failing
    case UnlinkRefused(_) => x.pc == Failing && x.named
    case Writeback(_, _) => x.pc != Start && !x.clean
  }

  /** The writer after its step; `slot` is where a rename would enter the target's history. */
  function Advance(text: string, x: Writer, step: Step, slot: nat): Writer
    requires Enabled(text, x, step)
  {
    match step
    case Create(_) => x.(pc := Writing, named := true)
    case CreateFails(_) => x.(pc := Raised(false))
    case Write(_, count) => x.(content := x.content + text[|x.content|..|x.content| + count])
    case WriteFails(_) => x.(pc := Failing)
    case Sync(_) => x.(pc := Synced, disk := x.content, clean := true)
    case SyncFails(_) => x.(pc := Failing)
    case Close(_) => x.(pc := Closed)
    case CloseFails(_) => x.(pc := Failing)
    case Replace(_) => x.(pc := Renamed, named := false, slot := slot)
    case ReplaceFails(_) => x.(pc := Failing)
    case OpenDirectory(_) => x.(pc := DirectoryOpen)
    case SkipDirectory(_) => x.(pc := Returned(false))
    case SyncDirectory(_) => x.(pc := DirectorySynced)
    case SyncDirectoryFails(_) => x.(pc := Failing)
    case CloseDirectory(_) => x.(pc := Returned(true))
    case CloseDirectoryFails(_) => x.(pc := Failing)
    case Unlink(_) => x.(pc := Raised(false), named := false)
    case UnlinkRefused(_) => x.(pc := Raised(true))
    case Writeback(_, torn) => x.(disk := torn)
  }

  predicate CanStep(job: Job, s: System, step: Step) {
    && |s.writers| == |job.texts| && step.w < |s.writers|
    && Enabled(job.texts[step.w], s.writers[step.w], step)
  }

  function Apply(job: Job, s: System, step: Step): System
    requires CanStep(job, s, step)
  {
    var x := Advance(job.texts[step.w], s.writers[step.w], step, |s.history|);
    System(
      s.writers[step.w := x],
      if step.Replace? then s.history + [Some(step.w)] else s.history,
      if step.SyncDirectory? && s.history != [] then |s.history| - 1 else s.synced)
  }

  predicate Next(job: Job, s: System, t: System, step: Step) {
    CanStep(job, s, step) && t == Apply(job, s, step)
  }

  /** `run` is a run of the system, with `steps[i]` leading from state `i` to state `i + 1`. */
  ghost predicate IsRun(job: Job, run: seq<System>, steps: seq<Step>) {
    && |run| == |steps| + 1
    && run[0] == Init(job)
    && forall i | 0 <= i < |steps| :: Next(job, run[i], run[i + 1], steps[i])
  }

  // ---- What every step keeps ----

  predicate HasRenamed(x: Writer) {
    x.slot > 0
  }

  /** A writer's file, given where the writer is. */
  predicate WriterOk(text: string, x: Writer) {
    && x.content <= text
    && (x.clean ==> x.content == text == x.disk)
    && (HasRenamed(x) ==> x.clean && !x.named)
    && match x.pc {
         case Start => !x.named && !HasRenamed(x) && x.content == "" && !x.clean
         case Writing => x.named && !HasRenamed(x) && !x.clean
         case Synced | Closed => x.named && !HasRenamed(x) && x.clean
         case Renamed | DirectoryOpen | DirectorySynced | Returned(_) => HasRenamed(x)
         case Failing => x.named || HasRenamed(x)
         case Raised(refused) => x.named == refused
       }
  }

  /** A writer's rename is in the target's history where the writer says, and a writer that
      synced the directory did so after its rename. */
  predicate SlotOk(s: System, w: nat)
    requires w < |s.writers| && s.synced < |s.history|
  {
    var x := s.writers[w];
    && x.slot < |s.history|
    && (HasRenamed(x) ==> s.history[x.slot] == Some(w))
    && (x.pc == DirectorySynced || x.pc == Returned(true) ==> x.slot <= s.synced)
  }

  predicate EntryOk(s: System, k: nat)
    requires k < |s.history|
  {
    if k == 0 then s.history[k] == None
    else s.history[k].Some? && s.history[k].value < |s.writers| && s.writers[s.history[k].value].slot == k
  }

  ghost predicate Inv(job: Job, s: System) {
    && |s.writers| == |job.texts|
    && s.synced < |s.history|
    && (forall w | 0 <= w < |s.writers| :: WriterOk(job.texts[w], s.writers[w]) && SlotOk(s, w))
    && forall k | 0 <= k < |s.history| :: EntryOk(s, k)
  }

  lemma AdvanceKeepsWriterOk(text: string, x: Writer, step: Step, slot: nat)
    requires WriterOk(text, x) && Enabled(text, x, step) && slot > 0
    ensures WriterOk(text, Advance(text, x, step, slot))
  {
    if step.Write? {
      var n := |x.content|;
      assert text == text[..n] + text[n..n + step.count] + text[n + step.count..];
      assert x.content == text[..n];
    }
  }

  lemma InvStep(job: Job, s: System, t: System, step: Step)
    requires Inv(job, s) && Next(job, s, t, step)
    ensures Inv(job, t)
  {
    var x := s.writers[step.w];
    assert WriterOk(job.texts[step.w], x) && SlotOk(s, step.w);
    AdvanceKeepsWriterOk(job.texts[step.w], x, step, |s.history|);
    forall w | 0 <= w < |t.writers|
      ensures WriterOk(job.texts[w], t.writers[w]) && SlotOk(t, w)
    {
      assert WriterOk(job.texts[w], s.writers[w]) && SlotOk(s, w);
    }
    forall k | 0 <= k < |t.history|
      ensures EntryOk(t, k)
    {
      if k < |s.history| {
        assert EntryOk(s, k);
      }
    }
  }

  lemma {:induction false} RunInv(job: Job, run: seq<System>, steps: seq<Step>, i: nat)
    requires IsRun(job, run, steps) && i < |run|
    ensures Inv(job, run[i])
  {
    if i > 0 {
      RunInv(job, run, steps, i - 1);
      InvStep(job, run[i - 1], run[i], steps[i - 1]);
    }
  }

  // ---- What a reader sees ----

  /** The target as a running process sees it. */
  function Live(job: Job, s: System): Option<string>
    requires Inv(job, s)
  {
    assert EntryOk(s, |s.history| - 1);
    var entry := s.history[|s.history| - 1];
    if entry.None? then job.before else Some(s.writers[entry.value].content)
  }

  /** The target after a crash that left entry `k` of its history on disk. */
  function AfterCrash(job: Job, s: System, k: nat): Option<string>
    requires Inv(job, s) && s.synced <= k < |s.history|
  {
    assert EntryOk(s, k);
    if s.history[k].None? then job.before else Some(s.writers[s.history[k].value].disk)
  }

  lemma EntryIsWhole(job: Job, s: System, k: nat)
    requires Inv(job, s) && 0 < k < |s.history|
    ensures s.history[k].Some? && s.history[k].value < |job.texts|
    ensures var w := s.history[k].value;
      HasRenamed(s.writers[w]) && s.writers[w].slot == k && s.writers[w].content == s.writers[w].disk == job.texts[w]
  {
    assert EntryOk(s, k);
    assert WriterOk(job.texts[s.history[k].value], s.writers[s.history[k].value]);
  }

  /** Crash safety. After a crash at any point of any interleaving, whatever the disk kept of
      unsynced files and entries, the target is the complete old text or the complete text of
      a writer that had renamed; a torn or partial file is never found. */
  lemma CrashLeavesWholeText(job: Job, run: seq<System>, steps: seq<Step>, i: nat, k: nat)
    requires IsRun(job, run, steps) && i < |run| && run[i].synced <= k < |run[i].history|
    ensures Inv(job, run[i])
    ensures k == 0 ==> AfterCrash(job, run[i], k) == job.before
    ensures k > 0 ==> exists w :: 0 <= w < |job.texts| && HasRenamed(run[i].writers[w]) && AfterCrash(job, run[i], k) == Some(job.texts[w])
  {
    RunInv(job, run, steps, i);
    if k > 0 {
      EntryIsWhole(job, run[i], k);
      var w := run[i].history[k].value;
      assert HasRenamed(run[i].writers[w]) && AfterCrash(job, run[i], k) == Some(job.texts[w]);
    } else {
      assert EntryOk(run[i], 0);
    }
  }

  /** A reader never sees a partial file either: the target is the text of the writer that
      renamed last, or the old file while none has. */
  lemma LiveTargetIsWhole(job: Job, run: seq<System>, steps: seq<Step>, i: nat)
    requires IsRun(job, run, steps) && i < |run|
    ensures Inv(job, run[i])
    ensures (forall w | 0 <= w < |job.texts| :: !HasRenamed(run[i].writers[w])) ==> Live(job, run[i]) == job.before
    ensures forall w | 0 <= w < |job.texts| && HasRenamed(run[i].writers[w])
        && (forall v | 0 <= v < |job.texts| :: run[i].writers[v].slot <= run[i].writers[w].slot) ::
      Live(job, run[i]) == Some(job.texts[w])
  {
    RunInv(job, run, steps, i);
    var s, last := run[i], |run[i].history| - 1;
    assert EntryOk(s, last);
    if last > 0 {
      EntryIsWhole(job, s, last);
    }
    forall w | 0 <= w < |job.texts| && HasRenamed(s.writers[w])
        && (forall v | 0 <= v < |job.texts| :: s.writers[v].slot <= s.writers[w].slot)
      ensures Live(job, s) == Some(job.texts[w])
    {
      assert SlotOk(s, w);
    }
  }

  /** Durability. Once a writer has returned with the directory synced, no crash brings back
      the old file or the text of a writer that renamed before it. */
  lemma ReturnedTextIsDurable(job: Job, run: seq<System>, steps: seq<Step>, i: nat, w: nat, k: nat)
    requires IsRun(job, run, steps) && i < |run| && w < |job.texts| && |run[i].writers| == |job.texts|
    requires run[i].writers[w].pc == Returned(true) && run[i].synced <= k < |run[i].history|
    ensures Inv(job, run[i])
    ensures exists v :: 0 <= v < |job.texts|
                     && run[i].writers[w].slot <= run[i].writers[v].slot
                     && AfterCrash(job, run[i], k) == Some(job.texts[v])
  {
    RunInv(job, run, steps, i);
    assert WriterOk(job.texts[w], run[i].writers[w]) && SlotOk(run[i], w);
    EntryIsWhole(job, run[i], k);
    var v := run[i].history[k].value;
    assert run[i].writers[w].slot <= run[i].writers[v].slot && AfterCrash(job, run[i], k) == Some(job.texts[v]);
  }

  lemma {:induction false} SlotStays(job: Job, run: seq<System>, steps: seq<Step>, j: nat, i: nat, w: nat)
    requires IsRun(job, run, steps) && j <= i < |run| && w < |run[j].writers| && HasRenamed(run[j].writers[w])
    ensures w < |run[i].writers| && run[i].writers[w].slot == run[j].writers[w].slot
  {
    if j < i {
      SlotStays(job, run, steps, j, i - 1, w);
      RunInv(job, run, steps, i - 1);
      assert Next(job, run[i - 1], run[i], steps[i - 1]);
      assert WriterOk(job.texts[w], run[i - 1].writers[w]);
    }
  }

  /** Some writer synced the directory after the rename of writer `w` and before state `i`. */
  ghost predicate SyncedSince(run: seq<System>, steps: seq<Step>, i: nat, w: nat)
    requires i <= |steps| < |run|
  {
    exists j :: 0 <= j < i && steps[j].SyncDirectory? && w < |run[j].writers| && HasRenamed(run[j].writers[w])
  }

  lemma FreshRename(job: Job, run: seq<System>, steps: seq<Step>, i: nat, w: nat)
    requires IsRun(job, run, steps) && i < |steps| && w < |run[i].writers| && !HasRenamed(run[i].writers[w])
    ensures !SyncedSince(run, steps, i, w)
  {
    forall j | 0 <= j < i && w < |run[j].writers|
      ensures !HasRenamed(run[j].writers[w])
    {
      if HasRenamed(run[j].writers[w]) {
        SlotStays(job, run, steps, j, i, w);
      }
    }
  }

  lemma SyncStep(job: Job, s: System, t: System, step: Step, w: nat)
    requires Inv(job, s) && Next(job, s, t, step) && w < |s.writers| && HasRenamed(t.writers[w])
    ensures HasRenamed(s.writers[w]) ==> t.writers[w].slot == s.writers[w].slot
    ensures t.writers[w].slot <= t.synced <==>
      HasRenamed(s.writers[w]) && (step.SyncDirectory? || s.writers[w].slot <= s.synced)
  {
    assert WriterOk(job.texts[w], s.writers[w]) && SlotOk(s, w);
  }

  lemma {:induction false} SyncedUpTo(job: Job, run: seq<System>, steps: seq<Step>, i: nat, w: nat)
    requires IsRun(job, run, steps) && i < |run| && w < |run[i].writers| && HasRenamed(run[i].writers[w])
    ensures run[i].writers[w].slot <= run[i].synced <==> SyncedSince(run, steps, i, w)
  {
    if i > 0 {
      RunInv(job, run, steps, i - 1);
      assert Next(job, run[i - 1], run[i], steps[i - 1]);
      SyncStep(job, run[i - 1], run[i], steps[i - 1], w);
      hide Inv, Next, IsRun, Init;
      if HasRenamed(run[i - 1].writers[w]) {
        SyncedUpTo(job, run, steps, i - 1, w);
      } else {
        FreshRename(job, run, steps, i - 1, w);
      }
    }
  }

  /** Entry `k` of the target's history may be the one a crash leaves on disk. */
  predicate CanSurvive(s: System, k: nat) {
    s.synced <= k < |s.history|
  }

  /** Durability, exactly, for any number of writers: a crash can leave nothing older than the
      rename of writer `w` if and only if some writer - not necessarily `w` - synced the
      directory after that rename. */
  lemma DurableExactlyWhenSynced(job: Job, run: seq<System>, steps: seq<Step>, i: nat, w: nat)
    requires IsRun(job, run, steps) && i < |run| && w < |run[i].writers| && HasRenamed(run[i].writers[w])
    ensures Inv(job, run[i])
    ensures (forall k | CanSurvive(run[i], k) :: run[i].writers[w].slot <= k) <==> SyncedSince(run, steps, i, w)
  {
    RunInv(job, run, steps, i);
    assert CanSurvive(run[i], run[i].synced);
    SyncedUpTo(job, run, steps, i, w);
  }

  /** Some step before state `i` was writer `w`'s. */
  ghost predicate Started(steps: seq<Step>, i: nat, w: nat)
    requires i <= |steps|
  {
    exists j :: 0 <= j < i && steps[j].w == w
  }

  ghost predicate SyncedBefore(steps: seq<Step>, i: nat, w: nat)
    requires i <= |steps|
  {
    exists j :: 0 <= j < i && steps[j] == Sync(w)
  }

  lemma HistoryStep(steps: seq<Step>, i: nat, w: nat)
    requires 0 < i <= |steps|
    ensures Started(steps, i, w) <==> Started(steps, i - 1, w) || steps[i - 1].w == w
    ensures SyncedBefore(steps, i, w) <==> SyncedBefore(steps, i - 1, w) || steps[i - 1] == Sync(w)
  {
  }

  lemma TearStep(job: Job, s: System, t: System, step: Step, w: nat)
    requires Inv(job, s) && Next(job, s, t, step) && w < |job.texts|
    ensures |t.writers| == |job.texts|
    ensures t.writers[w].pc == Start <==> s.writers[w].pc == Start && step.w != w
    ensures t.writers[w].clean <==> s.writers[w].clean || step == Sync(w)
  {
    assert WriterOk(job.texts[w], s.writers[w]);
  }

  lemma {:induction false} StartedAndSynced(job: Job, run: seq<System>, steps: seq<Step>, i: nat, w: nat)
    requires IsRun(job, run, steps) && i < |run| && w < |job.texts|
    ensures |run[i].writers| == |job.texts|
    ensures run[i].writers[w].pc == Start <==> !Started(steps, i, w)
    ensures run[i].writers[w].clean <==> SyncedBefore(steps, i, w)
  {
    if i > 0 {
      StartedAndSynced(job, run, steps, i - 1, w);
      RunInv(job, run, steps, i - 1);
      assert Next(job, run[i - 1], run[i], steps[i - 1]);
      TearStep(job, run[i - 1], run[i], steps[i - 1], w);
      HistoryStep(steps, i, w);
      hide Inv, Next, IsRun, Init, Started, SyncedBefore;
    }
  }

  /** Until it is synced a file may be torn: the disk can come to hold anything of it if and only
      if its writer has taken a step and none of its steps synced the file. */
  lemma TornExactly(job: Job, run: seq<System>, steps: seq<Step>, i: nat, w: nat, torn: string)
    requires IsRun(job, run, steps) && i < |run| && w < |job.texts|
    ensures CanStep(job, run[i], Writeback(w, torn)) <==> Started(steps, i, w) && !SyncedBefore(steps, i, w)
    ensures CanStep(job, run[i], Writeback(w, torn)) ==> Apply(job, run[i], Writeback(w, torn)).writers[w].disk == torn
  {
    StartedAndSynced(job, run, steps, i, w);
  }

  /** What the end of a call tells: a call that returned has renamed and left no temporary
      file; a call that raised leaves one exactly when the operating system refused to remove
      it, and then it had not renamed. */
  lemma EndOfCall(job: Job, run: seq<System>, steps: seq<Step>, i: nat, w: nat)
    requires IsRun(job, run, steps) && i < |run| && w < |job.texts| && |run[i].writers| == |job.texts|
    ensures run[i].writers[w].pc.Returned? ==> HasRenamed(run[i].writers[w]) && !run[i].writers[w].named
    ensures run[i].writers[w].pc.Raised? ==>
      && (run[i].writers[w].named <==> run[i].writers[w].pc.refused)
      && (run[i].writers[w].named ==> !HasRenamed(run[i].writers[w]))
  {
    RunInv(job, run, steps, i);
    assert WriterOk(job.texts[w], run[i].writers[w]);
  }

  predicate Finished(x: Writer) {
    x.pc.Returned? || x.pc.Raised?
  }

  function Ending(text: string, x: Writer, w: nat): Step {
    match x.pc
    case Start => Create(w)
    case Writing => if |x.content| < |text| then Write(w, |text| - |x.content|) else Sync(w)
    case Synced => Close(w)
    case Closed => Replace(w)
    case Renamed => OpenDirectory(w)
    case DirectoryOpen => SyncDirectory(w)
    case DirectorySynced => CloseDirectory(w)
    case _ => Unlink(w)
  }

  /** No writer ever waits for another: one that has not finished can step. */
  lemma WritersNeverWait(job: Job, run: seq<System>, steps: seq<Step>, i: nat, w: nat)
    requires IsRun(job, run, steps) && i < |run| && w < |job.texts| && |run[i].writers| == |job.texts|
    ensures Finished(run[i].writers[w])
       <==> forall step: Step | step.w == w && !step.Writeback? :: !CanStep(job, run[i], step)
  {
    RunInv(job, run, steps, i);
    assert WriterOk(job.texts[w], run[i].writers[w]);
    if !Finished(run[i].writers[w]) {
      var step := Ending(job.texts[w], run[i].writers[w], w);
      assert step.w == w && !step.Writeback? && CanStep(job, run[i], step);
    }
  }

  // ---- One writer alone ----

  predicate PastDirectorySync(x: Writer) {
    x.pc == DirectorySynced || x.pc == Returned(true) || x.pc == Failing || x.pc.Raised?
  }

  lemma {:induction false} OnlySyncingMakesDurable(job: Job, run: seq<System>, steps: seq<Step>, i: nat)
    requires IsRun(job, run, steps) && i < |run| && |job.texts| == 1
    ensures Inv(job, run[i])
    ensures !PastDirectorySync(run[i].writers[0]) ==> run[i].synced == 0
  {
    RunInv(job, run, steps, i);
    if i > 0 {
      OnlySyncingMakesDurable(job, run, steps, i - 1);
      assert Next(job, run[i - 1], run[i], steps[i - 1]);
    }
  }

  /** A lone writer whose call returned is safe from any crash exactly when it could open the
      directory and sync it - or had nothing to change. The silent return on a directory that
      cannot be opened gives no such promise. */
  lemma LoneCallIsDurable(job: Job, run: seq<System>, steps: seq<Step>, i: nat)
    requires IsRun(job, run, steps) && i < |run| && |job.texts| == 1
    requires |run[i].writers| == 1 && run[i].writers[0].pc.Returned?
    ensures Inv(job, run[i])
    ensures (forall k | run[i].synced <= k < |run[i].history| :: AfterCrash(job, run[i], k) == Some(job.texts[0]))
       <==> run[i].writers[0].pc.durable || job.before == Some(job.texts[0])
  {
    var s := run[i];
    OnlySyncingMakesDurable(job, run, steps, i);
    assert WriterOk(job.texts[0], s.writers[0]) && SlotOk(s, 0);
    forall k | 0 < k < |s.history|
      ensures s.synced <= k ==> AfterCrash(job, s, k) == Some(job.texts[0])
    {
      EntryIsWhole(job, s, k);
    }
    assert EntryOk(s, 0);
    if !s.writers[0].pc.durable {
      assert s.synced == 0;
      assert AfterCrash(job, s, 0) == job.before;
    }
  }

  // ---- The function itself ----

  /** What the operating system answers: which calls succeed, and how a write is cut up before
      the rest of it succeeds or fails. */
  datatype Fate = Fate(create: bool, chunks: seq<nat>, write: bool, sync: bool, close: bool, replace: bool,
                       open: bool, syncDirectory: bool, closeDirectory: bool, unlink: bool)

  /** The target is replaced when everything up to the rename succeeds. */
  predicate Replaces(fate: Fate) {
    fate.create && fate.write && fate.sync && fate.close && fate.replace
  }

  /** How the call ends: it returns when the target is replaced and the directory either cannot
      be opened, which is ignored, or is synced and closed. */
  function Outcome(fate: Fate): Pc {
    if Replaces(fate) && !fate.open then Returned(false)
    else if Replaces(fate) && fate.syncDirectory && fate.closeDirectory then Returned(true)
    else Raised(fate.create && !Replaces(fate) && !fate.unlink)
  }

  /** The machine a run takes place on, with the run so far. */
  class Machine {
    const job: Job
    var state: System
    ghost var run: seq<System>
    ghost var steps: seq<Step>

    ghost predicate Valid()
      reads this
    {
      IsRun(job, run, steps) && state == run[|run| - 1]
    }

    constructor (job: Job)
      ensures Valid() && this.job == job && state == Init(job)
    {
      this.job := job;
      state := Init(job);
      run := [Init(job)];
      steps := [];
    }

    method Perform(step: Step)
      requires Valid() && CanStep(job, state, step)
      modifies this
      ensures Valid() && Inv(job, state) && WriterOk(job.texts[step.w], state.writers[step.w])
      ensures state == Apply(job, old(state), step)
      ensures run == old(run) + [state] && steps == old(steps) + [step]
    {
      state := Apply(job, state, step);
      run := run + [state];
      steps := steps + [step];
      RunInv(job, run, steps, |run| - 1);
    }

    /** The run went on, and nothing but writer `w` and its entry changed. */
    twostate predicate OnlyWriter(w: nat, entry: bool)
      reads this
    {
      && old(run) <= run
      && |state.writers| == |old(state).writers|
      && (forall v | 0 <= v < |state.writers| && v != w :: state.writers[v] == old(state).writers[v])
      && state.history == old(state).history + (if entry then [Some(w)] else [])
    }

    ghost predicate Ready(w: nat, pc: Pc)
      reads this
    {
      && Valid() && Inv(job, state) && w < |job.texts| && state.writers[w].pc == pc
      && WriterOk(job.texts[w], state.writers[w])
    }

    /** Writes and flushes the text into the temporary file. */
    method WriteText(w: nat, fate: Fate)
      requires Ready(w, Writing)
      modifies this
      ensures Ready(w, if fate.write then Writing else Failing) && OnlyWriter(w, false)
      ensures state.writers[w].named
      ensures fate.write ==> state.writers[w].content == job.texts[w]
    {
      for i := 0 to |fate.chunks|
        invariant Ready(w, Writing) && OnlyWriter(w, false)
      {
        var left := |job.texts[w]| - |state.writers[w].content|;
        var count := if fate.chunks[i] < left then fate.chunks[i] else left;
        if count > 0 {
          Perform(Write(w, count));
        }
      }
      if !fate.write {
        Perform(WriteFails(w));
      } else if |state.writers[w].content| < |job.texts[w]| {
        Perform(Write(w, |job.texts[w]| - |state.writers[w].content|));
      }
    }

    /** Fills and syncs the temporary file; what the `with` block does. */
    method FillTemporary(w: nat, fate: Fate)
      requires Ready(w, Writing)
      modifies this
      ensures Ready(w, if fate.write && fate.sync && fate.close then Closed else Failing) && OnlyWriter(w, false)
      ensures state.writers[w].named
    {
      WriteText(w, fate);
      if fate.write {
        Perform(if fate.sync then Sync(w) else SyncFails(w));
        if fate.sync {
          Perform(if fate.close then Close(w) else CloseFails(w));
        }
      }
    }

    function DirectoryOutcome(fate: Fate): Pc {
      if !fate.open then Returned(false)
      else if fate.syncDirectory && fate.closeDirectory then Returned(true)
      else Failing
    }

    /** Makes the rename durable when the directory can be opened. */
    method FsyncDirectory(w: nat, fate: Fate)
      requires Ready(w, Renamed)
      modifies this
      ensures Ready(w, DirectoryOutcome(fate)) && OnlyWriter(w, false)
      ensures !state.writers[w].named
    {
      hide AfterCrash, Live;
      if !fate.open {
        Perform(SkipDirectory(w));
        return;
      }
      Perform(OpenDirectory(w));
      Perform(if fate.syncDirectory then SyncDirectory(w) else SyncDirectoryFails(w));
      if fate.syncDirectory {
        Perform(if fate.closeDirectory then CloseDirectory(w) else CloseDirectoryFails(w));
      }
    }

    /** The body of the `try`, behind the creation of the temporary file. */
    method FillAndReplace(w: nat, fate: Fate)
      requires Ready(w, Writing) && fate.create
      modifies this
      ensures Ready(w, if Replaces(fate) then DirectoryOutcome(fate) else Failing) && OnlyWriter(w, Replaces(fate))
      ensures state.writers[w].pc == Failing ==> state.writers[w].named == !Replaces(fate)
    {
      FillTemporary(w, fate);
      if state.writers[w].pc == Closed {
        Perform(if fate.replace then Replace(w) else ReplaceFails(w));
        if fate.replace {
          FsyncDirectory(w, fate);
        }
      }
    }

    /** The exception path. */
    method CleanUp(w: nat, fate: Fate)
      requires Ready(w, Failing)
      modifies this
      ensures Ready(w, Raised(old(state.writers[w].named) && !fate.unlink)) && OnlyWriter(w, false)
    {
      if state.writers[w].named && !fate.unlink {
        Perform(UnlinkRefused(w));
      } else {
        Perform(Unlink(w));
      }
    }

    /** The call, from any state other writers have brought about. It is a run of the system,
        ends as its fate says, and adds to the target's history exactly when it replaces. */
    method AtomicWriteText(w: nat, fate: Fate)
      requires Ready(w, Start)
      modifies this
      ensures Ready(w, Outcome(fate)) && OnlyWriter(w, Replaces(fate))
      ensures Replaces(fate) ==> Live(job, state) == Some(job.texts[w])
      ensures state.writers[w].named <==> fate.create && !Replaces(fate) && !fate.unlink
    {
      if !fate.create {
        Perform(CreateFails(w));
        return;
      }
      Perform(Create(w));
      FillAndReplace(w, fate);
      if state.writers[w].pc == Failing {
        CleanUp(w, fate);
      }
      if Replaces(fate) {
        EntryIsWhole(job, state, |state.history| - 1);
      }
    }
  }
}

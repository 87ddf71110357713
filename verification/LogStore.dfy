/**
 The log tables of one job: chunk rows, accepted batch ids, the running total and the step rows.
 Offsets count characters. Every operation here is one committed write; the lease check that
 precedes it is in JobQueue.
 */
module LogStore {

  datatype Option<+T> = None | Some(value: T)

  /** One row of ci_job_log_chunks; [offsetFrom, offsetTo) is the text it holds. */
  datatype Chunk = Chunk(index: int, offsetFrom: int, offsetTo: int, content: string)

  /** One row of ci_job_steps; [logStart, logEnd) is the part of the log the step owns. */
  datatype Step = Step(name: string, status: string, exitCode: Option<int>, logStart: int, logEnd: int)

  datatype JobLog = JobLog(chunks: seq<Chunk>, batches: set<string>, total: int, steps: map<nat, Step>)

  const EMPTY := JobLog([], {}, 0, map[])

  function Max(a: int, b: int): int { if a < b then b else a }

  function Min(a: int, b: int): int { if a < b then a else b }

  /** The first n rows of a query: LIMIT n. */
  function Take<T>(s: seq<T>, n: nat): seq<T> { if |s| <= n then s else s[..n] }

  /** The text of the first k rows. */
  function TextTo(chunks: seq<Chunk>, k: nat): string
    requires k <= |chunks|
  {
    if k == 0 then "" else TextTo(chunks, k - 1) + chunks[k - 1].content
  }

  /** The plain text a list of chunk rows stands for. */
  function Text(chunks: seq<Chunk>): string {
    TextTo(chunks, |chunks|)
  }

  /** COALESCE(MAX(offset_to), 0). */
  function MaxOffset(chunks: seq<Chunk>): int {
    if chunks == [] then 0
    else if |chunks| == 1 then chunks[0].offsetTo
    else Max(MaxOffset(chunks[..|chunks| - 1]), chunks[|chunks| - 1].offsetTo)
  }

  /** COALESCE(MAX(chunk_index), -1). */
  function MaxIndex(chunks: seq<Chunk>): int {
    if chunks == [] then -1
    else Max(MaxIndex(chunks[..|chunks| - 1]), chunks[|chunks| - 1].index)
  }

  /** append_log_chunk. */
  function AppendRow(log: JobLog, content: string): JobLog {
    var from := MaxOffset(log.chunks);
    log.(chunks := log.chunks + [Chunk(MaxIndex(log.chunks) + 1, from, from + |content|, content)],
         total := log.total + |content|)
  }

  /** append_log_batch: a batch that is known or empty changes nothing. */
  function AppendBatch(log: JobLog, batchId: string, content: string): JobLog {
    if batchId == "" || content == "" || batchId in log.batches then log
    else AppendRow(log, content).(batches := log.batches + {batchId})
  }

  /** add_step under the row id the database assigned. */
  function AddStep(log: JobLog, id: nat, name: string, status: string): JobLog {
    var start := MaxOffset(log.chunks);
    log.(steps := log.steps[id := Step(name, status, None, start, start)])
  }

  /** finish_step; `end` is None when the worker sent no usable offset. */
  function FinishStep(log: JobLog, id: nat, status: string, exitCode: Option<int>, end: Option<int>): JobLog {
    if id !in log.steps then log
    else
      var start := Max(log.steps[id].logStart, 0);
      var persisted := Max(MaxOffset(log.chunks), start);
      var requested := if end.None? then persisted else end.value;
      var clamped := Min(Max(requested, start), persisted);
      log.(steps := log.steps[id := log.steps[id].(status := status, exitCode := exitCode, logEnd := clamped)])
  }

  // ---- What the tables promise ----

  function StartOfRow(chunks: seq<Chunk>, k: nat): int
    requires k <= |chunks|
  {
    if k == 0 then 0 else chunks[k - 1].offsetTo
  }

  /** Row k has index k and starts where row k-1 ends; each row is as long as its text. */
  ghost predicate Contiguous(chunks: seq<Chunk>) {
    forall k {:trigger chunks[k].offsetFrom} :: 0 <= k < |chunks| ==>
      && chunks[k].index == k
      && chunks[k].offsetFrom == StartOfRow(chunks, k)
      && chunks[k].offsetTo == chunks[k].offsetFrom + |chunks[k].content|
  }

  ghost predicate Valid(log: JobLog) {
    && Contiguous(log.chunks)
    && log.total == |Text(log.chunks)|
    && forall id :: id in log.steps ==> 0 <= log.steps[id].logStart <= log.steps[id].logEnd <= log.total
  }

  /** In a contiguous log every row starts at the length of the text before it. */
  lemma {:induction false} RowEnds(chunks: seq<Chunk>, k: nat)
    requires Contiguous(chunks) && k <= |chunks|
    ensures |TextTo(chunks, k)| == StartOfRow(chunks, k)
  {
    if k > 0 {
      RowEnds(chunks, k - 1);
      assert chunks[k - 1].offsetFrom == StartOfRow(chunks, k - 1);
    }
  }

  lemma {:induction false} TextOfPrefix(chunks: seq<Chunk>, k: nat, n: nat)
    requires k <= n <= |chunks|
    ensures TextTo(chunks[..n], k) == TextTo(chunks, k)
  {
    if k > 0 { TextOfPrefix(chunks, k - 1, n); }
  }

  lemma ContiguousPrefix(chunks: seq<Chunk>, n: nat)
    requires Contiguous(chunks) && n <= |chunks|
    ensures Contiguous(chunks[..n])
  {
    forall k | 0 <= k < n
      ensures chunks[..n][k] == chunks[k] && StartOfRow(chunks[..n], k) == StartOfRow(chunks, k)
    {
      assert chunks[k].offsetFrom == StartOfRow(chunks, k);
    }
  }

  lemma {:induction false} MaximaOfContiguous(chunks: seq<Chunk>)
    requires Contiguous(chunks)
    ensures MaxOffset(chunks) == |Text(chunks)|
    ensures MaxIndex(chunks) == |chunks| - 1
  {
    if chunks != [] {
      var n := |chunks| - 1;
      ContiguousPrefix(chunks, n);
      MaximaOfContiguous(chunks[..n]);
      TextOfPrefix(chunks, n, n);
      RowEnds(chunks, n);
      RowEnds(chunks, n + 1);
      assert chunks[n].offsetFrom == StartOfRow(chunks, n);
    }
  }

  lemma TextOfAppendedRow(log: JobLog, content: string)
    requires Valid(log)
    ensures Valid(AppendRow(log, content))
    ensures Text(AppendRow(log, content).chunks) == Text(log.chunks) + content
  {
    MaximaOfContiguous(log.chunks);
    var n := |log.chunks|;
    RowEnds(log.chunks, n);
    var after := AppendRow(log, content).chunks;
    assert after[..n] == log.chunks;
    TextOfPrefix(after, n, n);
    forall k | 0 <= k < n
      ensures after[k] == log.chunks[k] && StartOfRow(after, k) == StartOfRow(log.chunks, k)
    {
      assert log.chunks[k].offsetFrom == StartOfRow(log.chunks, k);
    }
  }

  // ---- Runs of log operations ----

  datatype LogOp =
    | Append(content: string)
    | Batch(batchId: string, content: string)
    | StartStep(id: nat, name: string, status: string)
    | EndStep(id: nat, status: string, exitCode: Option<int>, end: Option<int>)

  function Apply(log: JobLog, op: LogOp): JobLog {
    match op
    case Append(content) => AppendRow(log, content)
    case Batch(batchId, content) => AppendBatch(log, batchId, content)
    case StartStep(id, name, status) => AddStep(log, id, name, status)
    case EndStep(id, status, exitCode, end) => FinishStep(log, id, status, exitCode, end)
  }

  function Run(log: JobLog, ops: seq<LogOp>): JobLog
    decreases |ops|
  {
    if ops == [] then log else Run(Apply(log, ops[0]), ops[1..])
  }

  /** The text one upload should add to a job that already holds the batches `known`. */
  function AcceptedOne(op: LogOp, known: set<string>): string {
    match op
    case Append(content) => content
    case Batch(id, content) => if id == "" || id in known then "" else content
    case _ => ""
  }

  function KnownAfter(op: LogOp, known: set<string>): set<string> {
    if op.Batch? && op.batchId != "" && op.content != "" then known + {op.batchId} else known
  }

  /** What a sequence of uploads should add: each batch id once, everything in order. */
  function Accepted(ops: seq<LogOp>, known: set<string>): string
    decreases |ops|
  {
    if ops == [] then "" else AcceptedOne(ops[0], known) + Accepted(ops[1..], KnownAfter(ops[0], known))
  }

  lemma StepRangesStayInside(log: JobLog, op: LogOp)
    requires Valid(log) && (op.StartStep? || op.EndStep?)
    ensures Valid(Apply(log, op)) && Apply(log, op).chunks == log.chunks
  {
    MaximaOfContiguous(log.chunks);
  }

  lemma ApplyExtendsText(log: JobLog, op: LogOp)
    requires Valid(log)
    ensures Valid(Apply(log, op))
    ensures Text(Apply(log, op).chunks) == Text(log.chunks) + AcceptedOne(op, log.batches)
    ensures Apply(log, op).batches == KnownAfter(op, log.batches)
  {
    if op.Append? {
      TextOfAppendedRow(log, op.content);
    } else if op.Batch? {
      if op.batchId != "" && op.content != "" && op.batchId !in log.batches {
        TextOfAppendedRow(log, op.content);
      }
    } else {
      StepRangesStayInside(log, op);
    }
  }

  /**
   After any uploads, steps and repeats, the stored text is the old text followed by the accepted
   contents in order, the total is its length, and every step range lies inside it.
   */
  lemma {:induction false} StoredTextIsAcceptedText(log: JobLog, ops: seq<LogOp>)
    requires Valid(log)
    ensures Valid(Run(log, ops))
    ensures Text(Run(log, ops).chunks) == Text(log.chunks) + Accepted(ops, log.batches)
    decreases |ops|, 1
  {
    if ops != [] {
      ApplyExtendsText(log, ops[0]);
      StoredTextStep(log, Apply(log, ops[0]), ops);
    }
  }

  lemma {:induction false} StoredTextStep(log: JobLog, next: JobLog, ops: seq<LogOp>)
    requires ops != [] && Valid(next) && Run(log, ops) == Run(next, ops[1..])
    requires Text(next.chunks) == Text(log.chunks) + AcceptedOne(ops[0], log.batches)
    requires next.batches == KnownAfter(ops[0], log.batches)
    ensures Valid(Run(log, ops))
    ensures Text(Run(log, ops).chunks) == Text(log.chunks) + Accepted(ops, log.batches)
    decreases |ops|, 0
  {
    hide TextTo, Apply, AcceptedOne, KnownAfter, Valid;
    StoredTextIsAcceptedText(next, ops[1..]);
  }

  /** No operation of the list starts or finishes step `id`. */
  ghost predicate LeavesStep(ops: seq<LogOp>, id: nat) {
    forall k :: 0 <= k < |ops| ==>
      !(ops[k].StartStep? && ops[k].id == id) && !(ops[k].EndStep? && ops[k].id == id)
  }

  lemma {:induction false} StepUntouched(log: JobLog, ops: seq<LogOp>, id: nat)
    requires LeavesStep(ops, id) && id in log.steps
    ensures id in Run(log, ops).steps && Run(log, ops).steps[id] == log.steps[id]
    decreases |ops|
  {
    if ops != [] {
      assert ops[0] == ops[0] && LeavesStep(ops[1..], id);
      StepUntouched(Apply(log, ops[0]), ops[1..], id);
    }
  }

  /**
   Where a finished step ends: at the end of the log when the worker sent no offset, else at the very offset it
   sent, moved into the log only if it lies outside. Nothing else of the log changes.
   */
  lemma FinishedStepEndsAt(log: JobLog, id: nat, status: string, exitCode: Option<int>, end: Option<int>)
    requires Valid(log) && id in log.steps
    ensures var step, log' := log.steps[id], FinishStep(log, id, status, exitCode, end);
            && id in log'.steps
            && (end.None? ==> log'.steps[id].logEnd == log.total)
            && (end.Some? && step.logStart <= end.value <= log.total ==> log'.steps[id].logEnd == end.value)
            && (end.Some? && end.value < step.logStart ==> log'.steps[id].logEnd == step.logStart)
            && (end.Some? && log.total < end.value ==> log'.steps[id].logEnd == log.total)
            && log'.steps[id] == Step(step.name, status, exitCode, step.logStart, log'.steps[id].logEnd)
            && log' == log.(steps := log.steps[id := log'.steps[id]])
  {
    MaximaOfContiguous(log.chunks);
  }

  /** The part of a piece of text, stored from offset `start` on, that lies before an end offset. */
  function UpTo(piece: string, start: int, end: Option<int>): string {
    if end.None? || start + |piece| <= end.value then piece
    else if end.value <= start then ""
    else piece[..end.value - start]
  }

  /**
   A step added to a log, finished once and then left alone reads back, for ever after, exactly the text
   accepted between its start and its finish, up to the end offset the worker sent.
   */
  lemma StepReadsBackItsText(log: JobLog, during: seq<LogOp>, after: seq<LogOp>, id: nat,
                             name: string, status: string, exitCode: Option<int>, end: Option<int>)
    requires Valid(log) && LeavesStep(during, id) && LeavesStep(after, id)
    ensures var added := Run(AddStep(log, id, name, "running"), during);
            var final := Run(FinishStep(added, id, status, exitCode, end), after);
            && Valid(final) && id in final.steps
            && Text(final.chunks)[final.steps[id].logStart..final.steps[id].logEnd]
            == UpTo(Accepted(during, log.batches), log.total, end)
            && final.steps[id].name == name && final.steps[id].status == status && final.steps[id].exitCode == exitCode
            && final.steps[id].logStart == log.total
  {
    hide Valid, Run, Accepted, TextTo;
    var begun := Apply(log, StartStep(id, name, "running"));
    ApplyExtendsText(log, StartStep(id, name, "running"));
    StartedStep(log, id, name, "running");
    var added := Run(begun, during);
    StoredTextIsAcceptedText(begun, during);
    StepUntouched(begun, during, id);
    var finish := EndStep(id, status, exitCode, end);
    ApplyExtendsText(added, finish);
    FinishedStepEndsAt(added, id, status, exitCode, end);
    TotalIsLength(log);
    TotalIsLength(added);
    var finished := Apply(added, finish);
    StoredTextIsAcceptedText(finished, after);
    StepUntouched(finished, after, id);
  }

  lemma StartedStep(log: JobLog, id: nat, name: string, status: string)
    requires Valid(log)
    ensures var log' := AddStep(log, id, name, status);
            id in log'.steps && log'.steps[id] == Step(name, status, None, log.total, log.total)
  {
    MaximaOfContiguous(log.chunks);
  }

  lemma TotalIsLength(log: JobLog)
    requires Valid(log)
    ensures log.total == |Text(log.chunks)|
  {
  }
}

/**
  The rotating audit log: `set_audit_log_policy`, `_rotate_audit_log_if_needed` and
  `append_audit_event`.

  The log directory is a map from generation to file content: 0 is the active file
  `audit_events.jsonl`, i > 0 is `audit_events.jsonl.i`. A file is the sequence of its
  lines. How many bytes JSON takes for a line is a parameter.
 */
module AuditLog {
  import opened Sanitizer
  import opened Wrappers
  import opened Seqs

  datatype Record = Record(timestamp: string, eventType: string, payload: Value)

  type File = seq<Record>
  type Directory = map<nat, File>
  type LineLength = Record -> nat

  // Size in bytes; every line ends in a newline.
  function Size(file: File, length: LineLength): nat {
    if file == [] then 0 else Size(file[..|file| - 1], length) + length(file[|file| - 1]) + 1
  }

  datatype Policy = Policy(maxBytes: int, retention: int) {
    predicate Valid() {
      maxBytes >= 1 && retention >= 1
    }
  }

  const DEFAULT_POLICY := Policy(5 * 1024 * 1024, 5)

  function Clamped(maxBytes: int, retention: int): Policy {
    Policy(if maxBytes > 1 then maxBytes else 1, if retention > 1 then retention else 1)
  }

  predicate Due(files: Directory, policy: Policy, length: LineLength) {
    0 in files && Size(files[0], length) > policy.maxBytes
  }

  function At(files: Directory, i: nat): Option<File> {
    if i in files then Some(files[i]) else None
  }

  lemma SameFiles(a: Directory, b: Directory)
    requires forall i: nat :: At(a, i) == At(b, i)
    ensures a == b
  {
    forall i: nat
      ensures i in a <==> i in b
      ensures i in a ==> a[i] == b[i]
    {
      assert At(a, i) == At(b, i);
    }
  }

  // Where each file of a rotated directory comes from: all generations up to `retention` move
  // up by one at once, and the last of them is dropped.
  function ShiftedAt(files: Directory, retention: int, i: nat): Option<File> {
    if i == 0 then None
    else if i <= retention then At(files, i - 1)
    else At(files, i)
  }

  function Shifted(files: Directory, retention: int): (out: Directory)
    ensures forall i: nat :: At(out, i) == ShiftedAt(files, retention, i)
  {
    map i: nat | i in Moved(files) + files.Keys && ShiftedAt(files, retention, i).Some? :: ShiftedAt(files, retention, i).value
  }

  function Moved(files: Directory): (keys: set<nat>)
    ensures forall i: nat | i > 0 :: i in keys <==> i - 1 in files
  {
    set i: nat | i in files :: i + 1
  }

  // Where file i stands once the loop has treated the generations from `index` up.
  function HalfwayFile(before: Directory, retention: int, index: int, i: nat): Option<File>
    requires index >= 1
  {
    if i < index || i > retention then At(before, i)
    else if i == index then None
    else At(before, i - 1)
  }

  ghost predicate Halfway(before: Directory, files: Directory, retention: int, index: int)
    requires index >= 1
  {
    forall i: nat {:trigger At(files, i)} :: At(files, i) == HalfwayFile(before, retention, index, i)
  }

  lemma HalfwayAt(before: Directory, files: Directory, retention: int, index: int, i: nat)
    requires index >= 1 && Halfway(before, files, retention, index)
    ensures At(files, i) == HalfwayFile(before, retention, index, i)
  {
  }

  lemma HalfwayStep(before: Directory, was: Directory, files: Directory, retention: int, index: int)
    requires 1 <= index <= retention && Halfway(before, was, retention, index + 1)
    requires files == if index !in was then was
                      else if index >= retention then was - {index}
                      else (was - {index})[index + 1 := was[index]]
    ensures Halfway(before, files, retention, index)
  {
    HalfwayAt(before, was, retention, index + 1, index);
    forall i: nat
      ensures At(files, i) == HalfwayFile(before, retention, index, i)
    {
      HalfwayAt(before, was, retention, index + 1, i);
    }
  }

  class Log {
    var policy: Policy
    var files: Directory
    const length: LineLength

    ghost predicate Valid()
      reads this
    {
      policy.Valid()
    }

    constructor (length: LineLength)
      ensures Valid() && State(policy, files) == Run([], length) && this.length == length
      ensures files == map[] && policy == Policy(5242880, 5)
    {
      policy, files, this.length := DEFAULT_POLICY, map[], length;
    }

    method SetPolicy(maxBytes: int, retention: int)
      requires Valid()
      modifies this`policy
      ensures Valid() && policy == Clamped(maxBytes, retention)
      ensures policy.maxBytes >= maxBytes && policy.maxBytes in {1, maxBytes}
      ensures policy.retention >= retention && policy.retention in {1, retention}
      ensures State(policy, files) == Step(old(State(policy, files)), Op.SetPolicy(maxBytes, retention), length)
    {
      policy := Clamped(maxBytes, retention);
    }

    // `Path.replace`, called only where it overwrites nothing.
    method Rename(source: nat, target: nat)
      requires source in files && target !in files
      modifies this`files
      ensures files == (old(files) - {source})[target := old(files)[source]]
    {
      files := (files - {source})[target := files[source]];
    }

    method RotateIfNeeded()
      requires Valid()
      modifies this`files
      ensures Valid()
      ensures files == if Due(old(files), policy, length) then Shifted(old(files), policy.retention) else old(files)
    {
      if 0 !in files {
        return;
      }
      if Size(files[0], length) <= policy.maxBytes {
        return;
      }
      ghost var before := files;
      for index := policy.retention + 1 downto 1
        invariant Halfway(before, files, policy.retention, index)
      {
        ghost var was := files;
        HalfwayAt(before, was, policy.retention, index + 1, index);
        HalfwayAt(before, was, policy.retention, index + 1, index + 1);
        if index in files {
          if index >= policy.retention {
            files := files - {index};
          } else {
            Rename(index, index + 1);
          }
        }
        HalfwayStep(before, was, files, policy.retention, index);
      }
      HalfwayAt(before, files, policy.retention, 1, 0);
      HalfwayAt(before, files, policy.retention, 1, 1);
      ghost var was := files;
      Rename(0, 1);
      forall i: nat
        ensures At(files, i) == At(Shifted(before, policy.retention), i)
      {
        HalfwayAt(before, was, policy.retention, 1, i);
        assert At(Shifted(before, policy.retention), i) == ShiftedAt(before, policy.retention, i);
      }
      SameFiles(files, Shifted(before, policy.retention));
    }

    method Append(timestamp: string, eventType: string, payload: Value)
      requires Valid()
      modifies this`files
      ensures Valid()
      ensures State(policy, files) == Step(old(State(policy, files)), Op.Append(timestamp, eventType, payload), length)
      ensures 0 in files && files[0] != [] && files[0][|files[0]| - 1] == Record(timestamp, eventType, Sanitize(payload))
    {
      RotateIfNeeded();
      var record := Record(timestamp, eventType, Sanitize(payload));
      files := files[0 := (if 0 in files then files[0] else []) + [record]];
    }
  }

  function Appended(files: Directory, policy: Policy, length: LineLength, record: Record): Directory
    requires policy.Valid()
  {
    var rotated := if Due(files, policy, length) then Shifted(files, policy.retention) else files;
    rotated[0 := (if 0 in rotated then rotated[0] else []) + [record]]
  }

  // ---- What is on disk

  // The files present are generations 0 to n - 1.
  ghost predicate Contiguous(files: Directory, n: nat) {
    forall i: nat :: i in files <==> i < n
  }

  function Content(files: Directory, i: nat): File {
    if i in files then files[i] else []
  }

  // The lines of generations hi - 1 down to lo: oldest first.
  function Lines(files: Directory, lo: nat, hi: nat): File
    decreases hi - lo
  {
    if hi <= lo then [] else Content(files, hi - 1) + Lines(files, lo, hi - 1)
  }

  lemma {:induction false} LinesSplit(files: Directory, lo: nat, mid: nat, hi: nat)
    requires lo <= mid <= hi
    ensures Lines(files, lo, hi) == Lines(files, mid, hi) + Lines(files, lo, mid)
    decreases hi - mid
  {
    if mid < hi {
      LinesSplit(files, lo, mid, hi - 1);
      Assoc(Content(files, hi - 1), Lines(files, mid, hi - 1), Lines(files, lo, mid));
    } else {
      NothingBefore(Lines(files, lo, mid));
    }
  }

  lemma LinesOne(files: Directory, i: nat)
    ensures Lines(files, i, i + 1) == Content(files, i)
  {
    assert Lines(files, i, i) == [];
  }

  lemma {:induction false} LinesMoved(a: Directory, b: Directory, shift: nat, lo: nat, hi: nat)
    requires forall i: nat | lo <= i < hi :: Content(a, i) == Content(b, i + shift)
    ensures Lines(a, lo, hi) == Lines(b, lo + shift, hi + shift)
    decreases hi - lo
  {
    if lo < hi {
      LinesMoved(a, b, shift, lo, hi - 1);
      assert Content(a, hi - 1) == Content(b, hi - 1 + shift);
    }
  }

  // Number of files after a rotation of a directory of n files and the next append.
  function CountAfter(n: nat, retention: int): nat {
    if n <= retention then n + 1 else n
  }

  // A rotation keeps the generations contiguous, with no active file until the next append.
  lemma ShiftedContiguous(files: Directory, n: nat, retention: int)
    requires Contiguous(files, n) && n >= 1 && retention >= 1
    ensures forall i: nat :: i in Shifted(files, retention) <==> 1 <= i < CountAfter(n, retention)
  {
    var out := Shifted(files, retention);
    forall i: nat
      ensures i in out <==> 1 <= i < CountAfter(n, retention)
    {
      assert At(out, i) == ShiftedAt(files, retention, i);
      assert i in files <==> i < n;
      if i > 0 {
        assert i - 1 in files <==> i - 1 < n;
      }
    }
  }

  lemma ShiftedContent(files: Directory, retention: int, i: nat)
    ensures Content(Shifted(files, retention), i) ==
            if i == 0 then [] else Content(files, if i <= retention then i - 1 else i)
  {
    assert At(Shifted(files, retention), i) == ShiftedAt(files, retention, i);
  }

  // A rotation takes the lines of generation `retention` out and moves no other line.
  lemma ShiftedLines(files: Directory, n: nat, retention: nat) returns (older: File, lost: File, newer: File)
    requires Contiguous(files, n) && n >= 1 && retention >= 1
    ensures older == Lines(files, retention + 1, n)
    ensures lost == Content(files, retention)
    ensures Lines(files, 0, n) == older + lost + newer
    ensures Lines(Shifted(files, retention), 1, CountAfter(n, retention)) == older + newer
  {
    var out := Shifted(files, retention);
    older, lost := Lines(files, retention + 1, n), Content(files, retention);
    if n <= retention {
      newer := Lines(files, 0, n);
      ShiftedUp(files, n, retention);
      NothingBefore(newer);
    } else {
      newer := Lines(files, 0, retention);
      ShiftedUp(files, retention, retention);
      forall i: nat | retention + 1 <= i < n
        ensures Content(files, i) == Content(out, i + 0)
      {
        ShiftedContent(files, retention, i);
      }
      LinesMoved(files, out, 0, retention + 1, n);
      LinesSplit(out, 1, retention + 1, n);
      LinesAround(files, retention, n);
    }
  }

  lemma ShiftedUp(files: Directory, n: nat, retention: nat)
    requires n <= retention
    ensures Lines(Shifted(files, retention), 1, n + 1) == Lines(files, 0, n)
  {
    var out := Shifted(files, retention);
    forall i: nat | 0 <= i < n
      ensures Content(files, i) == Content(out, i + 1)
    {
      ShiftedContent(files, retention, i + 1);
    }
    LinesMoved(files, out, 1, 0, n);
  }

  lemma LinesAround(files: Directory, i: nat, n: nat)
    requires i < n
    ensures Lines(files, 0, n) == Lines(files, i + 1, n) + Content(files, i) + Lines(files, 0, i)
  {
    LinesSplit(files, 0, i + 1, n);
    LinesSplit(files, 0, i, i + 1);
    LinesOne(files, i);
    Assoc(Lines(files, i + 1, n), Content(files, i), Lines(files, 0, i));
  }

  // ---- Whole runs

  datatype Op = SetPolicy(maxBytes: int, retention: int) | Append(timestamp: string, eventType: string, payload: Value)

  datatype State = State(policy: Policy, files: Directory)

  function Written(op: Op): Record
    requires op.Append?
  {
    Record(op.timestamp, op.eventType, Sanitize(op.payload))
  }

  function Step(s: State, op: Op, length: LineLength): (s': State)
    requires s.policy.Valid()
    ensures s'.policy.Valid()
  {
    match op
    case SetPolicy(maxBytes, retention) => s.(policy := Clamped(maxBytes, retention))
    case Append(_, _, _) => s.(files := Appended(s.files, s.policy, length, Written(op)))
  }

  function Run(ops: seq<Op>, length: LineLength): (s: State)
    ensures s.policy.Valid()
  {
    if ops == [] then State(DEFAULT_POLICY, map[]) else Step(Run(ops[..|ops| - 1], length), ops[|ops| - 1], length)
  }

  // Every record ever appended.
  function History(ops: seq<Op>): File {
    if ops == [] then [] else
    var before, op := ops[..|ops| - 1], ops[|ops| - 1];
    if op.Append? then History(before) + [Written(op)] else History(before)
  }

  function NextCount(files: Directory, n: nat, policy: Policy, length: LineLength): nat {
    if Due(files, policy, length) then CountAfter(n, policy.retention) else if n == 0 then 1 else n
  }

  // An append adds the record at the end of what is on disk, after the rotation's loss.
  lemma AppendedLines(files: Directory, n: nat, policy: Policy, length: LineLength, record: Record)
    returns (older: File, lost: File, newer: File)
    requires Contiguous(files, n) && policy.Valid()
    ensures Contiguous(Appended(files, policy, length, record), NextCount(files, n, policy, length))
    ensures Lines(files, 0, n) == older + lost + newer
    ensures Lines(Appended(files, policy, length, record), 0, NextCount(files, n, policy, length)) == older + newer + [record]
    ensures lost == if Due(files, policy, length) then Content(files, policy.retention) else []
    ensures older == if Due(files, policy, length) then Lines(files, policy.retention + 1, n) else []
  {
    var files', n' := Appended(files, policy, length, record), NextCount(files, n, policy, length);
    if Due(files, policy, length) {
      older, lost, newer := ShiftedLines(files, n, policy.retention);
      ShiftedContiguous(files, n, policy.retention);
      ActiveLast(Shifted(files, policy.retention), files', n');
      ShiftedContent(files, policy.retention, 0);
    } else {
      older, lost, newer := [], [], Lines(files, 0, n);
      NothingBefore(newer);
      ActiveLast(files, files', n');
      LinesSplit(files, 0, if n == 0 then 0 else 1, n);
      LinesOne(files, 0);
      Assoc(Lines(files, 1, n), Content(files, 0), [record]);
    }
  }

  // Only the active file differs.
  lemma ActiveLast(before: Directory, after: Directory, n: nat)
    requires n >= 1 && forall i: nat | i != 0 :: Content(before, i) == Content(after, i)
    ensures Lines(after, 0, n) == Lines(before, 1, n) + Content(after, 0)
  {
    LinesSplit(after, 0, 1, n);
    forall i: nat | 1 <= i < n
      ensures Content(before, i) == Content(after, i + 0)
    {
      assert Content(before, i) == Content(after, i);
    }
    LinesMoved(before, after, 0, 1, n);
    LinesOne(after, 0);
  }

  // Number of files after a run.
  function Count(ops: seq<Op>, length: LineLength): nat {
    if ops == [] then 0 else
    var before, op := ops[..|ops| - 1], ops[|ops| - 1];
    var n, s := Count(before, length), Run(before, length);
    if op.SetPolicy? then n else NextCount(s.files, n, s.policy, length)
  }

  // Everything on disk after a run, oldest generation first, the active file last.
  function OnDisk(ops: seq<Op>, length: LineLength): File {
    Lines(Run(ops, length).files, 0, Count(ops, length))
  }

  // The run up to its last operation.
  function Init(ops: seq<Op>): seq<Op>
    requires ops != []
  {
    ops[..|ops| - 1]
  }

  lemma {:induction false} RunContiguous(ops: seq<Op>, length: LineLength)
    ensures Contiguous(Run(ops, length).files, Count(ops, length))
    decreases |ops|
  {
    if ops != [] {
      RunContiguous(Init(ops), length);
      var op, s := ops[|ops| - 1], Run(Init(ops), length);
      if op.Append? {
        var older, lost, newer := AppendedLines(s.files, Count(Init(ops), length), s.policy, length, Written(op));
      }
    }
  }

  // Whatever the policies, what is on disk is in the order it was appended in, and nothing is
  // there twice.
  lemma {:induction false} RunKeepsOrder(ops: seq<Op>, length: LineLength)
    ensures Subsequence(OnDisk(ops, length), History(ops))
    decreases |ops|
  {
    if ops != [] {
      RunKeepsOrder(Init(ops), length);
      RunContiguous(Init(ops), length);
      var op, s := ops[|ops| - 1], Run(Init(ops), length);
      if op.Append? {
        AppendKeepsOrder(s.files, Count(Init(ops), length), s.policy, length, Written(op), History(Init(ops)));
      }
    }
  }

  lemma AppendKeepsOrder(files: Directory, n: nat, policy: Policy, length: LineLength, record: Record, history: File)
    requires Contiguous(files, n) && policy.Valid()
    requires Subsequence(Lines(files, 0, n), history)
    ensures Subsequence(Lines(Appended(files, policy, length, record), 0, NextCount(files, n, policy, length)), history + [record])
  {
    var older, lost, newer := AppendedLines(files, n, policy, length, record);
    SubsequenceStep(older, lost, newer, history, record);
  }

  // ---- The newest part without a gap

  lemma AppendKeepsSuffix(files: Directory, n: nat, policy: Policy, length: LineLength, record: Record, history: File)
    requires Contiguous(files, n) && policy.Valid()
    requires Due(files, policy, length) ==> n <= policy.retention + 1
    requires Suffix(Lines(files, 0, n), history)
    ensures Suffix(Lines(Appended(files, policy, length, record), 0, NextCount(files, n, policy, length)), history + [record])
  {
    var older, lost, newer := AppendedLines(files, n, policy, length, record);
    SuffixStep(older, lost, newer, history, record);
  }

  // From a state that holds the newest part of a history without a gap, with no record
  // twice, an append keeps it so exactly when it does not rotate a directory that has
  // generations above `retention`: the generation it drops is then not the oldest.
  lemma SuffixKeptWhen(files: Directory, n: nat, policy: Policy, length: LineLength, record: Record, history: File)
    requires Contiguous(files, n) && policy.Valid()
    requires forall i: nat | i < n :: files[i] != []
    requires forall i, j | 0 <= i < j < |history| :: history[i] != history[j]
    requires Suffix(Lines(files, 0, n), history)
    ensures Suffix(Lines(Appended(files, policy, length, record), 0, NextCount(files, n, policy, length)), history + [record]) <==>
            !(Due(files, policy, length) && policy.retention + 1 in files)
  {
    if Due(files, policy, length) && policy.retention + 1 in files {
      var older, lost, newer := AppendedLines(files, n, policy, length, record);
      SuffixSnoc(older + newer, history, record);
      assert older == Content(files, n - 1) + Lines(files, policy.retention + 1, n - 1);
      CutIsNoSuffix(older, lost, newer, history);
    } else {
      assert n > policy.retention + 1 ==> policy.retention + 1 in files;
      AppendKeepsSuffix(files, n, policy, length, record, history);
    }
  }

  // ---- Every state of a run

  // The state in which operation k finds the log.
  function StateAt(ops: seq<Op>, k: nat, length: LineLength): (s: State)
    requires k <= |ops|
    ensures s.policy.Valid()
  {
    Run(ops[..k], length)
  }

  lemma InitStates(ops: seq<Op>, length: LineLength)
    requires ops != []
    ensures forall k | 0 <= k < |ops| :: StateAt(Init(ops), k, length) == StateAt(ops, k, length)
    ensures StateAt(ops, |ops| - 1, length) == Run(Init(ops), length)
  {
    forall k | 0 <= k < |ops|
      ensures StateAt(Init(ops), k, length) == StateAt(ops, k, length)
    {
      assert Init(ops)[..k] == ops[..k];
    }
  }

  // The disk holds the newest part of the history.
  ghost predicate SuffixOnDisk(ops: seq<Op>, length: LineLength) {
    Suffix(OnDisk(ops, length), History(ops))
  }

  ghost predicate SuffixAfter(ops: seq<Op>, k: nat, length: LineLength)
    requires k <= |ops|
  {
    SuffixOnDisk(ops[..k], length)
  }

  // And so it does after each operation of the run.
  ghost predicate NewestKept(ops: seq<Op>, length: LineLength) {
    forall k | 0 <= k <= |ops| :: SuffixAfter(ops, k, length)
  }

  lemma SuffixAtEnd(ops: seq<Op>, length: LineLength)
    ensures SuffixAfter(ops, |ops|, length) <==> SuffixOnDisk(ops, length)
  {
    assert ops[..|ops|] == ops;
  }

  lemma SuffixBefore(ops: seq<Op>, k: nat, length: LineLength)
    requires k < |ops|
    ensures SuffixAfter(Init(ops), k, length) <==> SuffixAfter(ops, k, length)
  {
    assert Init(ops)[..k] == ops[..k];
  }

  lemma NewestKeptInit(ops: seq<Op>, length: LineLength)
    requires ops != []
    ensures NewestKept(ops, length) <==> NewestKept(Init(ops), length) && SuffixOnDisk(ops, length)
  {
    SuffixAtEnd(ops, length);
    forall k | 0 <= k < |ops|
      ensures SuffixAfter(Init(ops), k, length) <==> SuffixAfter(ops, k, length)
    {
      SuffixBefore(ops, k, length);
    }
  }

  // An append to this state rotates while generations above the retention exist.
  predicate Strands(s: State, length: LineLength) {
    Due(s.files, s.policy, length) && s.policy.retention + 1 in s.files
  }

  ghost predicate NeverStrands(ops: seq<Op>, length: LineLength) {
    forall k | 0 <= k < |ops| :: ops[k].Append? ==> !Strands(StateAt(ops, k, length), length)
  }

  lemma NeverStrandsInit(ops: seq<Op>, length: LineLength)
    requires ops != []
    ensures NeverStrands(ops, length) <==>
            NeverStrands(Init(ops), length) && (ops[|ops| - 1].Append? ==> !Strands(Run(Init(ops), length), length))
  {
    InitStates(ops, length);
  }

  lemma NoneAbove(files: Directory, n: nat, retention: nat)
    requires Contiguous(files, n) && retention + 1 !in files
    ensures n <= retention + 1
  {
    assert n > retention + 1 ==> retention + 1 in files;
  }

  lemma {:induction false} RunKeepsSuffix(ops: seq<Op>, length: LineLength)
    requires NeverStrands(ops, length)
    ensures NewestKept(ops, length)
    decreases |ops|
  {
    if ops != [] {
      NeverStrandsInit(ops, length);
      RunKeepsSuffix(Init(ops), length);
      NewestKeptInit(ops, length);
      LastKept(Init(ops), length);
      StepKeepsSuffix(ops, length);
    }
  }

  lemma LastOp(ops: seq<Op>, length: LineLength)
    requires ops != []
    ensures var op, s, n := ops[|ops| - 1], Run(Init(ops), length), Count(Init(ops), length);
            if op.Append? then
              && OnDisk(ops, length) == Lines(Appended(s.files, s.policy, length, Written(op)), 0, NextCount(s.files, n, s.policy, length))
              && History(ops) == History(Init(ops)) + [Written(op)]
            else OnDisk(ops, length) == OnDisk(Init(ops), length) && History(ops) == History(Init(ops))
  {
  }

  lemma StepKeepsSuffix(ops: seq<Op>, length: LineLength)
    requires ops != [] && SuffixOnDisk(Init(ops), length)
    requires ops[|ops| - 1].Append? ==> !Strands(Run(Init(ops), length), length)
    ensures SuffixOnDisk(ops, length)
  {
    var op, s, n := ops[|ops| - 1], Run(Init(ops), length), Count(Init(ops), length);
    LastOp(ops, length);
    if op.Append? {
      RunContiguous(Init(ops), length);
      if Due(s.files, s.policy, length) {
        NoneAbove(s.files, n, s.policy.retention);
      }
      AppendKeepsSuffix(s.files, n, s.policy, length, Written(op), History(Init(ops)));
    }
  }

  lemma LastKept(ops: seq<Op>, length: LineLength)
    requires NewestKept(ops, length)
    ensures SuffixOnDisk(ops, length)
  {
    SuffixAtEnd(ops, length);
  }

  predicate Distinct(file: File) {
    forall i, j | 0 <= i < j < |file| :: file[i] != file[j]
  }

  lemma DistinctInit(ops: seq<Op>)
    requires ops != [] && Distinct(History(ops))
    ensures Distinct(History(Init(ops)))
  {
    var h := History(Init(ops));
    assert History(ops)[..|h|] == h;
  }

  // Where no record is appended twice, this is exact: the disk holds the newest part of the
  // history throughout the run exactly when no append rotates while generations above the
  // retention in force exist.
  lemma {:induction false} NewestKeptExactlyWhen(ops: seq<Op>, length: LineLength)
    requires Distinct(History(ops))
    ensures NewestKept(ops, length) <==> NeverStrands(ops, length)
    decreases |ops|
  {
    if ops == [] {
      RunKeepsSuffix(ops, length);
    } else {
      DistinctInit(ops);
      NewestKeptExactlyWhen(Init(ops), length);
      NewestKeptInit(ops, length);
      NeverStrandsInit(ops, length);
      if NewestKept(Init(ops), length) {
        LastKept(Init(ops), length);
        StepKeptWhen(ops, length);
      }
    }
  }

  lemma StepKeptWhen(ops: seq<Op>, length: LineLength)
    requires ops != [] && SuffixOnDisk(Init(ops), length) && Distinct(History(Init(ops)))
    ensures SuffixOnDisk(ops, length) <==> (ops[|ops| - 1].Append? ==> !Strands(Run(Init(ops), length), length))
  {
    var op, s := ops[|ops| - 1], Run(Init(ops), length);
    LastOp(ops, length);
    if op.Append? {
      RunContiguous(Init(ops), length);
      NoFileEmpty(Init(ops), length);
      SuffixKeptWhen(s.files, Count(Init(ops), length), s.policy, length, Written(op), History(Init(ops)));
    }
  }

  // After the first record, no operation lowers the retention.
  ghost predicate NeverLowered(ops: seq<Op>, length: LineLength) {
    forall k | 0 <= k < |ops| :: History(ops[..k]) != [] ==>
      StateAt(ops, k, length).policy.retention <= StateAt(ops, k + 1, length).policy.retention
  }

  lemma NeverLoweredInit(ops: seq<Op>, length: LineLength)
    requires ops != [] && NeverLowered(ops, length)
    ensures NeverLowered(Init(ops), length)
    ensures History(Init(ops)) != [] ==> Run(Init(ops), length).policy.retention <= Run(ops, length).policy.retention
  {
    var init, last := Init(ops), |ops| - 1;
    InitStates(ops, length);
    assert ops[..last + 1] == ops;
    assert StateAt(ops, last + 1, length) == Run(ops, length);
    forall k | 0 <= k < |init| && History(init[..k]) != []
      ensures StateAt(init, k, length).policy.retention <= StateAt(init, k + 1, length).policy.retention
    {
      assert init[..k] == ops[..k];
    }
  }

  lemma {:induction false} NoRecordNoFile(ops: seq<Op>, length: LineLength)
    ensures Count(ops, length) == 0 <==> History(ops) == []
    decreases |ops|
  {
    if ops != [] {
      NoRecordNoFile(Init(ops), length);
    }
  }

  // Then there are at most retention + 1 files, and only the oldest generation is ever
  // dropped.
  lemma {:induction false} NeverLoweredNeverStrands(ops: seq<Op>, length: LineLength)
    requires NeverLowered(ops, length)
    ensures Count(ops, length) <= Run(ops, length).policy.retention + 1
    ensures NeverStrands(ops, length)
    decreases |ops|
  {
    if ops != [] {
      NeverLoweredInit(ops, length);
      NeverLoweredNeverStrands(Init(ops), length);
      NoRecordNoFile(Init(ops), length);
      RunContiguous(Init(ops), length);
      NeverStrandsInit(ops, length);
    }
  }

  // ---- File sizes

  // Where file i of a log comes from in an append.
  function Origin(files: Directory, policy: Policy, length: LineLength, i: nat): nat
    requires i >= 1
  {
    if Due(files, policy, length) && i <= policy.retention then i - 1 else i
  }

  lemma AppendedFiles(files: Directory, policy: Policy, length: LineLength, record: Record, i: nat)
    requires policy.Valid() && i in Appended(files, policy, length, record)
    ensures Appended(files, policy, length, record)[i] ==
            if i == 0 then (if Due(files, policy, length) then [] else Content(files, 0)) + [record]
            else Content(files, Origin(files, policy, length, i))
    ensures i != 0 ==> Origin(files, policy, length, i) in files
  {
    if Due(files, policy, length) {
      assert At(Shifted(files, policy.retention), i) == ShiftedAt(files, policy.retention, i);
    }
  }

  lemma {:induction false} NoFileEmpty(ops: seq<Op>, length: LineLength)
    ensures forall i: nat | i in Run(ops, length).files :: Run(ops, length).files[i] != []
    decreases |ops|
  {
    if ops != [] {
      NoFileEmpty(Init(ops), length);
      var op, s := ops[|ops| - 1], Run(Init(ops), length);
      if op.Append? {
        forall i: nat | i in Appended(s.files, s.policy, length, Written(op))
          ensures Appended(s.files, s.policy, length, Written(op))[i] != []
        {
          AppendedFiles(s.files, s.policy, length, Written(op), i);
        }
      }
    }
  }

  // A file is closed to further lines as soon as it is larger than the limit.
  predicate Bounded(file: File, maxBytes: int, length: LineLength) {
    file != [] && Size(file[..|file| - 1], length) <= maxBytes
  }

  ghost predicate AllBounded(files: Directory, maxBytes: int, length: LineLength) {
    forall i: nat | i in files :: Bounded(files[i], maxBytes, length)
  }

  // The policies that appends find in force.
  ghost predicate PoliciesWithin(ops: seq<Op>, length: LineLength, maxBytes: int, retention: int) {
    forall k | 0 <= k < |ops| :: ops[k].Append? ==>
      StateAt(ops, k, length).policy.maxBytes <= maxBytes && StateAt(ops, k, length).policy.retention <= retention
  }

  lemma PoliciesWithinInit(ops: seq<Op>, length: LineLength, maxBytes: int, retention: int)
    requires ops != [] && PoliciesWithin(ops, length, maxBytes, retention)
    ensures PoliciesWithin(Init(ops), length, maxBytes, retention)
    ensures ops[|ops| - 1].Append? ==>
              Run(Init(ops), length).policy.maxBytes <= maxBytes && Run(Init(ops), length).policy.retention <= retention
  {
    InitStates(ops, length);
  }

  // In every reachable state each file holds a line, and at most the limit besides its last
  // line; and there are at most retention + 1 files, for the largest limit and retention that
  // an append found in force.
  lemma {:induction false} RunSizes(ops: seq<Op>, length: LineLength, maxBytes: nat, retention: nat)
    requires PoliciesWithin(ops, length, maxBytes, retention)
    ensures Count(ops, length) <= retention + 1
    ensures AllBounded(Run(ops, length).files, maxBytes, length)
    decreases |ops|
  {
    if ops != [] {
      PoliciesWithinInit(ops, length, maxBytes, retention);
      RunSizes(Init(ops), length, maxBytes, retention);
      var op, s := ops[|ops| - 1], Run(Init(ops), length);
      if op.Append? {
        AppendedBounded(s.files, s.policy, length, Written(op), maxBytes);
      }
    }
  }

  lemma AppendedBounded(files: Directory, policy: Policy, length: LineLength, record: Record, maxBytes: nat)
    requires policy.Valid() && policy.maxBytes <= maxBytes && AllBounded(files, maxBytes, length)
    ensures AllBounded(Appended(files, policy, length, record), maxBytes, length)
  {
    forall i: nat | i in Appended(files, policy, length, record)
      ensures Bounded(Appended(files, policy, length, record)[i], maxBytes, length)
    {
      AppendedFiles(files, policy, length, record, i);
      if i == 0 {
        var kept := if Due(files, policy, length) then [] else Content(files, 0);
        assert (kept + [record])[..|kept|] == kept;
      }
    }
  }

  function TotalSize(files: Directory, n: nat, length: LineLength): nat {
    if n == 0 then 0 else Size(Content(files, n - 1), length) + TotalSize(files, n - 1, length)
  }

  predicate LinesWithin(file: File, length: LineLength, maxLine: nat) {
    forall r <- file :: length(r) + 1 <= maxLine
  }

  predicate DiskUseWithin(files: Directory, n: nat, length: LineLength, maxBytes: int, retention: int, maxLine: nat) {
    TotalSize(files, n, length) <= (retention + 1) * (maxBytes + maxLine)
  }

  // Disk use: retention + 1 files of at most the limit and one line each, where no record ever
  // appended makes a longer line.
  lemma RunDiskUse(ops: seq<Op>, length: LineLength, maxBytes: nat, retention: nat, maxLine: nat)
    requires PoliciesWithin(ops, length, maxBytes, retention) && LinesWithin(History(ops), length, maxLine)
    ensures DiskUseWithin(Run(ops, length).files, Count(ops, length), length, maxBytes, retention, maxLine)
  {
    var files, n := Run(ops, length).files, Count(ops, length);
    RunSizes(ops, length, maxBytes, retention);
    RunContiguous(ops, length);
    RunLinesWithin(ops, length, maxLine);
    TotalWithin(files, n, length, maxBytes, maxLine, retention + 1);
  }

  lemma RunLinesWithin(ops: seq<Op>, length: LineLength, maxLine: nat)
    requires LinesWithin(History(ops), length, maxLine)
    ensures forall i: nat | i in Run(ops, length).files :: LinesWithin(Run(ops, length).files[i], length, maxLine)
  {
    var files, n := Run(ops, length).files, Count(ops, length);
    RunContiguous(ops, length);
    RunKeepsOrder(ops, length);
    forall i: nat, r | i in files && r in files[i]
      ensures length(r) + 1 <= maxLine
    {
      LineOnDisk(files, i, n, r);
      SubsequenceMembers(OnDisk(ops, length), History(ops), r);
    }
  }

  lemma LineOnDisk(files: Directory, i: nat, n: nat, r: Record)
    requires i < n && i in files && r in files[i]
    ensures r in Lines(files, 0, n)
  {
    LinesAround(files, i, n);
  }

  lemma TotalWithin(files: Directory, n: nat, length: LineLength, maxBytes: nat, maxLine: nat, most: nat)
    requires Contiguous(files, n) && n <= most
    requires forall i: nat | i in files :: Bounded(files[i], maxBytes, length)
    requires forall i: nat | i in files :: LinesWithin(files[i], length, maxLine)
    ensures TotalSize(files, n, length) <= most * (maxBytes + maxLine)
  {
    FilesWithin(files, n, length, maxBytes, maxLine);
    TotalBounded(files, n, length, maxBytes + maxLine);
    MonotoneProduct(n, most, maxBytes + maxLine);
  }

  lemma FilesWithin(files: Directory, n: nat, length: LineLength, maxBytes: nat, maxLine: nat)
    requires Contiguous(files, n)
    requires forall i: nat | i in files :: Bounded(files[i], maxBytes, length)
    requires forall i: nat | i in files :: LinesWithin(files[i], length, maxLine)
    ensures forall i: nat | i < n :: i in files && Size(files[i], length) <= maxBytes + maxLine
  {
    forall i: nat | i < n
      ensures i in files && Size(files[i], length) <= maxBytes + maxLine
    {
      assert i in files;
      SizeWithin(files[i], length, maxBytes, maxLine);
    }
  }

  lemma SizeWithin(file: File, length: LineLength, maxBytes: nat, maxLine: nat)
    requires Bounded(file, maxBytes, length) && LinesWithin(file, length, maxLine)
    ensures Size(file, length) <= maxBytes + maxLine
  {
    assert length(file[|file| - 1]) + 1 <= maxLine;
  }

  lemma MonotoneProduct(a: int, b: int, c: nat)
    requires a <= b
    ensures a * c <= b * c
  {
  }

  lemma {:induction false} TotalBounded(files: Directory, n: nat, length: LineLength, most: nat)
    requires forall i: nat | i < n :: i in files && Size(files[i], length) <= most
    ensures TotalSize(files, n, length) <= n * most
  {
    if n > 0 {
      TotalBounded(files, n - 1, length, most);
      assert n * most == (n - 1) * most + most;
    }
  }

  // ---- Secrets

  lemma {:induction false} HistoryMasked(ops: seq<Op>)
    ensures forall r <- History(ops) :: Masked(r.payload)
    decreases |ops|
  {
    if ops != [] {
      HistoryMasked(Init(ops));
      if ops[|ops| - 1].Append? {
        SanitizeMasks(ops[|ops| - 1].payload);
      }
    }
  }

  // No line in any generation, in any reachable state, shows a value under a secret key.
  lemma RunMasked(ops: seq<Op>, length: LineLength, r: Record)
    requires r in OnDisk(ops, length)
    ensures Masked(r.payload)
  {
    RunKeepsOrder(ops, length);
    SubsequenceMembers(OnDisk(ops, length), History(ops), r);
    HistoryMasked(ops);
  }

  // ---- Nothing rotates, and nothing is lost, before the limit

  // Line lengths and newlines, added up from the first line on.
  function ByteCount(file: File, length: LineLength): nat {
    if file == [] then 0 else length(file[0]) + 1 + ByteCount(file[1..], length)
  }

  lemma {:induction false} SizeIsByteCount(file: File, length: LineLength)
    ensures Size(file, length) == ByteCount(file, length)
    decreases |file|
  {
    if file != [] {
      SizeIsByteCount(file[..|file| - 1], length);
      ByteCountSnoc(file[..|file| - 1], file[|file| - 1], length);
      assert file == file[..|file| - 1] + [file[|file| - 1]];
    }
  }

  lemma {:induction false} ByteCountSnoc(file: File, r: Record, length: LineLength)
    ensures ByteCount(file + [r], length) == ByteCount(file, length) + length(r) + 1
  {
    if file == [] {
      assert (file + [r])[1..] == [];
    } else {
      assert (file + [r])[1..] == file[1..] + [r];
      ByteCountSnoc(file[1..], r, length);
    }
  }

  // Every append finds no more bytes in all the history before it than the limit then in force.
  ghost predicate AlwaysFits(ops: seq<Op>, length: LineLength) {
    forall k | 0 <= k < |ops| :: ops[k].Append? ==> Fits(ops, k, length)
  }

  ghost predicate Fits(ops: seq<Op>, k: nat, length: LineLength)
    requires k <= |ops|
  {
    ByteCount(History(ops[..k]), length) <= StateAt(ops, k, length).policy.maxBytes
  }

  lemma AlwaysFitsInit(ops: seq<Op>, length: LineLength)
    requires ops != []
    ensures AlwaysFits(ops, length) <==>
            AlwaysFits(Init(ops), length) && (ops[|ops| - 1].Append? ==> Fits(Init(ops), |ops| - 1, length))
  {
    forall k | 0 <= k < |ops|
      ensures Fits(Init(ops), k, length) <==> Fits(ops, k, length)
    {
      assert Init(ops)[..k] == ops[..k];
    }
  }

  // A log that is one file, if it is any.
  function OneFile(history: File): Directory {
    if history == [] then map[] else map[0 := history]
  }

  lemma AppendToOneFile(history: File, policy: Policy, length: LineLength, record: Record)
    requires policy.Valid()
    ensures if ByteCount(history, length) <= policy.maxBytes
            then Appended(OneFile(history), policy, length, record) == OneFile(history + [record])
            else 1 in Appended(OneFile(history), policy, length, record)
  {
    SizeIsByteCount(history, length);
    assert [] + [record] == [record];
    if ByteCount(history, length) > policy.maxBytes {
      assert At(Shifted(OneFile(history), policy.retention), 1) == ShiftedAt(OneFile(history), policy.retention, 1);
    }
  }

  // A run that always fits is one file with the whole history.
  lemma {:induction false} FittingRun(ops: seq<Op>, length: LineLength)
    requires AlwaysFits(ops, length)
    ensures Run(ops, length).files == OneFile(History(ops))
    decreases |ops|
  {
    if ops != [] {
      AlwaysFitsInit(ops, length);
      FittingRun(Init(ops), length);
      var op, s := ops[|ops| - 1], Run(Init(ops), length);
      if op.Append? {
        assert Init(ops)[..|ops| - 1] == Init(ops);
        AppendToOneFile(History(Init(ops)), s.policy, length, Written(op));
      }
    }
  }

  lemma StaysRotated(ops: seq<Op>, length: LineLength)
    requires ops != [] && 1 in Run(Init(ops), length).files
    ensures 1 in Run(ops, length).files
  {
    RunContiguous(Init(ops), length);
    RunContiguous(ops, length);
  }

  // And a run that once does not fit has rotated.
  lemma {:induction false} RotatedRun(ops: seq<Op>, length: LineLength)
    requires !AlwaysFits(ops, length)
    ensures 1 in Run(ops, length).files
    decreases |ops|
  {
    if ops != [] {
      AlwaysFitsInit(ops, length);
      if AlwaysFits(Init(ops), length) {
        var op, s := ops[|ops| - 1], Run(Init(ops), length);
        FittingRun(Init(ops), length);
        assert Init(ops)[..|ops| - 1] == Init(ops);
        AppendToOneFile(History(Init(ops)), s.policy, length, Written(op));
      } else {
        RotatedRun(Init(ops), length);
        StaysRotated(ops, length);
      }
    }
  }

  lemma OneFileLines(history: File)
    ensures Lines(OneFile(history), 0, if history == [] then 0 else 1) == history
  {
    LinesOne(OneFile(history), 0);
  }

  // The log is its active file with the whole history exactly as long as that fits: the first
  // rotation comes with the first append that finds more bytes than the limit in force.
  lemma OneFileExactlyWhen(ops: seq<Op>, length: LineLength)
    ensures 1 !in Run(ops, length).files <==> AlwaysFits(ops, length)
    ensures AlwaysFits(ops, length) ==> Run(ops, length).files == OneFile(History(ops)) && OnDisk(ops, length) == History(ops)
  {
    if AlwaysFits(ops, length) {
      FittingRun(ops, length);
      RunContiguous(ops, length);
      OneFileCount(History(ops), Count(ops, length));
      OneFileLines(History(ops));
    } else {
      RotatedRun(ops, length);
    }
  }

  lemma OneFileCount(history: File, n: nat)
    requires Contiguous(OneFile(history), n)
    ensures n == if history == [] then 0 else 1
  {
    assert 0 in OneFile(history) <==> 0 < n;
    assert 1 in OneFile(history) <==> 1 < n;
  }

  // The policies that appends find in force.
  ghost predicate PoliciesAtLeast(ops: seq<Op>, length: LineLength, maxBytes: int, retention: int) {
    forall k | 0 <= k < |ops| :: ops[k].Append? ==>
      StateAt(ops, k, length).policy.maxBytes >= maxBytes && StateAt(ops, k, length).policy.retention >= retention
  }

  lemma PoliciesAtLeastInit(ops: seq<Op>, length: LineLength, maxBytes: int, retention: int)
    requires ops != [] && PoliciesAtLeast(ops, length, maxBytes, retention)
    ensures PoliciesAtLeast(Init(ops), length, maxBytes, retention)
    ensures ops[|ops| - 1].Append? ==>
              Run(Init(ops), length).policy.maxBytes >= maxBytes && Run(Init(ops), length).policy.retention >= retention
  {
    InitStates(ops, length);
  }

  // Every file out of use is larger than the limit.
  ghost predicate OldFilesFull(files: Directory, maxBytes: int, length: LineLength) {
    forall i: nat | i >= 1 && i in files :: ByteCount(files[i], length) > maxBytes
  }

  lemma AppendedFull(files: Directory, policy: Policy, length: LineLength, record: Record, maxBytes: int)
    requires policy.Valid() && policy.maxBytes >= maxBytes && OldFilesFull(files, maxBytes, length)
    ensures OldFilesFull(Appended(files, policy, length, record), maxBytes, length)
  {
    forall i: nat | i >= 1 && i in Appended(files, policy, length, record)
      ensures ByteCount(Appended(files, policy, length, record)[i], length) > maxBytes
    {
      AppendedFiles(files, policy, length, record, i);
      if Origin(files, policy, length, i) == 0 {
        SizeIsByteCount(files[0], length);
      }
    }
  }

  // An append loses nothing from fewer than retention + 1 files.
  lemma AppendKeepsAll(files: Directory, n: nat, policy: Policy, length: LineLength, record: Record)
    requires Contiguous(files, n) && policy.Valid() && n <= policy.retention
    ensures Lines(Appended(files, policy, length, record), 0, NextCount(files, n, policy, length)) == Lines(files, 0, n) + [record]
  {
    var older, lost, newer := AppendedLines(files, n, policy, length, record);
    assert lost == [];
    assert older + lost + newer == older + newer;
  }

  // In every reachable state each generation from 1 up is larger than the smallest limit an
  // append found in force; and unless more generations exist than the smallest retention, the
  // whole history is on disk.
  lemma {:induction false} RunKeepsEnough(ops: seq<Op>, length: LineLength, maxBytes: int, retention: int)
    requires PoliciesAtLeast(ops, length, maxBytes, retention)
    ensures OldFilesFull(Run(ops, length).files, maxBytes, length)
    ensures OnDisk(ops, length) == History(ops) || Count(ops, length) > retention
    decreases |ops|
  {
    if ops != [] {
      PoliciesAtLeastInit(ops, length, maxBytes, retention);
      RunKeepsEnough(Init(ops), length, maxBytes, retention);
      RunContiguous(Init(ops), length);
      LastOp(ops, length);
      var op, s, n := ops[|ops| - 1], Run(Init(ops), length), Count(Init(ops), length);
      if op.Append? {
        AppendedFull(s.files, s.policy, length, Written(op), maxBytes);
        if n <= retention {
          AppendKeepsAll(s.files, n, s.policy, length, Written(op));
        }
      }
    }
  }

  // ---- The policy set once, as the daemon does at start-up

  lemma {:induction false} PolicyStays(maxBytes: int, retention: int, appends: seq<Op>, length: LineLength)
    requires forall op <- appends :: op.Append?
    ensures Run([SetPolicy(maxBytes, retention)] + appends, length).policy == Clamped(maxBytes, retention)
    decreases |appends|
  {
    var ops := [SetPolicy(maxBytes, retention)] + appends;
    if appends == [] {
      assert ops[..0] == [];
    } else {
      var before := appends[..|appends| - 1];
      PolicyStays(maxBytes, retention, before, length);
      assert ops[..|ops| - 1] == [SetPolicy(maxBytes, retention)] + before;
      assert ops[|ops| - 1] == appends[|appends| - 1] && appends[|appends| - 1] in appends;
    }
  }

  lemma FixedStates(maxBytes: int, retention: int, appends: seq<Op>, length: LineLength, k: nat)
    requires (forall op <- appends :: op.Append?) && 1 <= k <= |appends| + 1
    ensures StateAt([SetPolicy(maxBytes, retention)] + appends, k, length).policy == Clamped(maxBytes, retention)
  {
    PolicyStays(maxBytes, retention, appends[..k - 1], length);
    assert ([SetPolicy(maxBytes, retention)] + appends)[..k] == [SetPolicy(maxBytes, retention)] + appends[..k - 1];
  }

  // What one policy guarantees, with its own clamped numbers: the newest part of the history is
  // on disk without a gap, in at most retention + 1 files, each within the limit but for its
  // last line, and the disk use is bounded; and nothing is lost before there are `retention`
  // old files, each larger than the limit.
  ghost predicate Guaranteed(ops: seq<Op>, p: Policy, length: LineLength, maxLine: nat) {
    var files, n := Run(ops, length).files, Count(ops, length);
    && NewestKept(ops, length)
    && n <= p.retention + 1
    && AllBounded(files, p.maxBytes, length)
    && OldFilesFull(files, p.maxBytes, length)
    && (OnDisk(ops, length) == History(ops) || n == p.retention + 1)
    && (LinesWithin(History(ops), length, maxLine) ==> DiskUseWithin(files, n, length, p.maxBytes, p.retention, maxLine))
  }

  lemma PolicyGuarantees(ops: seq<Op>, p: Policy, length: LineLength, maxLine: nat)
    requires p.Valid() && NeverLowered(ops, length)
    requires PoliciesWithin(ops, length, p.maxBytes, p.retention) && PoliciesAtLeast(ops, length, p.maxBytes, p.retention)
    ensures Guaranteed(ops, p, length, maxLine)
  {
    NeverLoweredNeverStrands(ops, length);
    RunKeepsSuffix(ops, length);
    RunSizes(ops, length, p.maxBytes, p.retention);
    RunKeepsEnough(ops, length, p.maxBytes, p.retention);
    if LinesWithin(History(ops), length, maxLine) {
      RunDiskUse(ops, length, p.maxBytes, p.retention, maxLine);
    }
  }

  lemma FixedPolicy(maxBytes: int, retention: int, appends: seq<Op>, length: LineLength, maxLine: nat)
    requires forall op <- appends :: op.Append?
    ensures Guaranteed([SetPolicy(maxBytes, retention)] + appends, Clamped(maxBytes, retention), length, maxLine)
  {
    FixedWithin(maxBytes, retention, appends, length);
    PolicyGuarantees([SetPolicy(maxBytes, retention)] + appends, Clamped(maxBytes, retention), length, maxLine);
  }

  lemma FixedWithin(maxBytes: int, retention: int, appends: seq<Op>, length: LineLength)
    requires forall op <- appends :: op.Append?
    ensures var ops, p := [SetPolicy(maxBytes, retention)] + appends, Clamped(maxBytes, retention);
            NeverLowered(ops, length) && PoliciesWithin(ops, length, p.maxBytes, p.retention)
            && PoliciesAtLeast(ops, length, p.maxBytes, p.retention)
  {
    var ops, p := [SetPolicy(maxBytes, retention)] + appends, Clamped(maxBytes, retention);
    forall k | 1 <= k <= |ops|
      ensures StateAt(ops, k, length).policy == p
    {
      FixedStates(maxBytes, retention, appends, length, k);
    }
    assert History(ops[..0]) == [];
  }

  // ---- A gap

  // Such a directory is reachable: keep two generations, fill both, then keep one. The next
  // append drops the second record and leaves the first.
  lemma LoweredRetentionLeavesGap(a: Op, b: Op, c: Op, d: Op, length: LineLength)
    requires a.Append? && b.Append? && c.Append? && d.Append?
    requires forall r: Record :: length(r) >= 1
    ensures OnDisk([SetPolicy(1, 2)] + [a] + [b] + [c] + [SetPolicy(1, 1)] + [d], length) == [Written(a), Written(c), Written(d)]
  {
    PolicyFirst(length);
    GapFrom([SetPolicy(1, 2)], a, b, c, SetPolicy(1, 1), d, length);
  }

  lemma PolicyFirst(length: LineLength)
    ensures Run([SetPolicy(1, 2)], length) == State(Policy(1, 2), map[]) && Count([SetPolicy(1, 2)], length) == 0
  {
    assert [SetPolicy(1, 2)][..0] == [];
  }

  lemma GapFrom(ops: seq<Op>, a: Op, b: Op, c: Op, lower: Op, d: Op, length: LineLength)
    requires a.Append? && b.Append? && c.Append? && d.Append? && lower == SetPolicy(1, 1)
    requires forall r: Record :: length(r) >= 1
    requires Run(ops, length) == State(Policy(1, 2), map[]) && Count(ops, length) == 0
    ensures OnDisk(ops + [a] + [b] + [c] + [lower] + [d], length) == [Written(a), Written(c), Written(d)]
  {
    var ra, rb, rc := Written(a), Written(b), Written(c);
    StepTo(ops, a, 2, map[], 0, map[0 := [ra]], length);
    StepTo(ops + [a], b, 2, map[0 := [ra]], 1, map[0 := [rb], 1 := [ra]], length);
    var full := ops + [a] + [b] + [c];
    StepTo(ops + [a] + [b], c, 2, map[0 := [rb], 1 := [ra]], 2, map[0 := [rc], 1 := [rb], 2 := [ra]], length);
    OneMore(full, lower, length);
    GapAfter(full + [lower], d, ra, rb, rc, length);
  }

  lemma GapAfter(ops: seq<Op>, d: Op, ra: Record, rb: Record, rc: Record, length: LineLength)
    requires d.Append? && forall r: Record :: length(r) >= 1
    requires Run(ops, length) == State(Policy(1, 1), map[0 := [rc], 1 := [rb], 2 := [ra]]) && Count(ops, length) == 3
    ensures OnDisk(ops + [d], length) == [ra, rc, Written(d)]
  {
    GapStep(ops, d, ra, rb, rc, length);
    ThreeLines(map[0 := [Written(d)], 1 := [rc], 2 := [ra]], ra, rc, Written(d));
  }

  lemma GapStep(ops: seq<Op>, d: Op, ra: Record, rb: Record, rc: Record, length: LineLength)
    requires d.Append? && forall r: Record :: length(r) >= 1
    requires Run(ops, length) == State(Policy(1, 1), map[0 := [rc], 1 := [rb], 2 := [ra]]) && Count(ops, length) == 3
    ensures Run(ops + [d], length).files == map[0 := [Written(d)], 1 := [rc], 2 := [ra]] && Count(ops + [d], length) == 3
  {
    StepTo(ops, d, 1, map[0 := [rc], 1 := [rb], 2 := [ra]], 3, map[0 := [Written(d)], 1 := [rc], 2 := [ra]], length);
  }

  lemma ThreeLines(files: Directory, x: Record, y: Record, z: Record)
    requires 0 in files && 1 in files && 2 in files
    requires files[0] == [z] && files[1] == [y] && files[2] == [x]
    ensures Lines(files, 0, 3) == [x, y, z]
  {
    LinesOne(files, 0);
    assert Lines(files, 0, 2) == [y] + [z];
    assert Lines(files, 0, 3) == [x] + ([y] + [z]);
  }

  lemma StepTo(ops: seq<Op>, op: Op, retention: int, files: Directory, n: nat, out: Directory, length: LineLength)
    requires op.Append? && retention >= 1 && (0 in files ==> |files[0]| == 1 && length(files[0][0]) >= 1)
    requires Run(ops, length) == State(Policy(1, retention), files) && Count(ops, length) == n
    requires forall i: nat {:trigger At(out, i)} :: At(out, i) ==
               if i == 0 then Some([Written(op)]) else if 0 in files then ShiftedAt(files, retention, i) else At(files, i)
    ensures Run(ops + [op], length) == State(Policy(1, retention), out)
    ensures Count(ops + [op], length) == if 0 in files then CountAfter(n, retention) else if n == 0 then 1 else n
  {
    OneMore(ops, op, length);
    SmallAppend(files, retention, Written(op), length, out);
  }

  lemma OneMore(ops: seq<Op>, op: Op, length: LineLength)
    ensures Run(ops + [op], length) == Step(Run(ops, length), op, length)
    ensures Count(ops + [op], length) ==
            if op.Append? then NextCount(Run(ops, length).files, Count(ops, length), Run(ops, length).policy, length)
            else Count(ops, length)
  {
    assert (ops + [op])[..|ops|] == ops;
  }

  // An append to a directory whose active file, if any, is over a one-byte limit.
  lemma SmallAppend(files: Directory, retention: int, record: Record, length: LineLength, out: Directory)
    requires retention >= 1 && (0 in files ==> |files[0]| == 1 && length(files[0][0]) >= 1)
    requires forall i: nat {:trigger At(out, i)} :: At(out, i) ==
               if i == 0 then Some([record]) else if 0 in files then ShiftedAt(files, retention, i) else At(files, i)
    ensures Appended(files, Policy(1, retention), length, record) == out
    ensures Due(files, Policy(1, retention), length) <==> 0 in files
  {
    var result := Appended(files, Policy(1, retention), length, record);
    assert [] + [record] == [record];
    if 0 in files {
      assert files[0][..0] == [];
      assert Due(files, Policy(1, retention), length);
      assert At(Shifted(files, retention), 0) == None;
    }
    forall i: nat
      ensures At(result, i) == At(out, i)
    {
      if 0 in files && i > 0 {
        assert At(Shifted(files, retention), i) == ShiftedAt(files, retention, i);
      }
    }
    SameFiles(result, out);
  }
}

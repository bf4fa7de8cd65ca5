/** Any sequence of writes that fit, to any files, from an image on. */
module FatRuns {
  import opened FatModel
  import opened FatWrite
  import opened FatSafety
  import opened FatRead
  import opened FatCode
  import opened FatDirectory
  import opened FatImage
  import opened MkfsCode

  /** The volume, and the chains that its blocks are split into. */
  datatype State = State(v: Vol, free: seq<int>, files: map<int, seq<int>>)

  /** The file that starts at s is written. */
  datatype Op = Op(s: int, buf: seq<byte>)

  ghost predicate Good(st: State, first: int) {
    && Partition(st.v.fat, st.v.avail, st.free, st.files, first)
    && 0 < |st.v.fat| == |st.v.disk| && st.v.fat[0] == 0 && Sectors(st.v.disk)
  }

  function JobOf(st: State, op: Op): Job
    requires op.s in st.files
  {
    Job(st.v, st.files[op.s], st.free, op.buf)
  }

  /** The write fits. */
  predicate Legal(st: State, op: Op) {
    op.s in st.files && |op.buf| < 0x1_0000_0000 && Enough(JobOf(st, op))
  }

  /** What a write leaves behind: the device may put anything behind the data in a sector. */
  ghost predicate Step(st: State, op: Op, after: State)
    requires Legal(st, op)
  {
    var job := JobOf(st, op);
    Finished(job, after.v) && after.free == NewFree(job) && after.files == st.files[op.s := NewChain(job)]
  }

  ghost predicate Run(sts: seq<State>, ops: seq<Op>, first: int) {
    && |sts| == |ops| + 1 && Good(sts[0], first)
    && forall i {:trigger ops[i]} :: 0 <= i < |ops| && Good(sts[i], first) ==> Legal(sts[i], ops[i]) && Step(sts[i], ops[i], sts[i + 1])
  }

  lemma ReadyAt(st: State, op: Op, first: int)
    requires Good(st, first) && Legal(st, op)
    ensures JobFor(JobOf(st, op), st.files, first, op.s)
  {
    assert FileChain(st.v.fat, st.free, st.files, op.s);
  }

  lemma StepGood(st: State, op: Op, after: State, first: int)
    requires Good(st, first) && Legal(st, op) && Step(st, op, after)
    ensures Good(after, first) && after.files.Keys == st.files.Keys
  {
    ReadyAt(st, op, first);
    FinishedPartition(JobOf(st, op), after.v, st.files, first, op.s);
  }

  /** What open, the stored length and reading tell of the file that starts at s. */
  ghost predicate FileIs(st: State, s: int, text: seq<byte>) {
    && s in st.files && OnDisk(st.v.disk, st.files[s]) && 0 <= s < |st.v.disk|
    && |text| + 8 <= SECTOR * |st.files[s]|
    && StoredLength(st.v.disk, s) == |text| && Content(st.v.disk, st.files[s], |text|) == text
  }

  lemma StepWritten(st: State, op: Op, after: State, first: int)
    requires Good(st, first) && Legal(st, op) && Step(st, op, after)
    ensures FileIs(after, op.s, op.buf)
  {
    ReadyAt(st, op, first);
    WriteReadsBack(JobOf(st, op), after.v);
  }

  lemma StepOther(st: State, op: Op, after: State, first: int, t: int, text: seq<byte>)
    requires Good(st, first) && Legal(st, op) && Step(st, op, after) && t != op.s && FileIs(st, t, text)
    ensures FileIs(after, t, text)
  {
    hide Partition;
    ReadyAt(st, op, first);
    var job, c := JobOf(st, op), st.files[t];
    OtherBytesKept(job, after.v, st.files, first, op.s, t, 0);
    forall j | 0 <= j < |text|
      ensures Content(after.v.disk, c, |text|)[j] == text[j]
    {
      OtherBytesKept(job, after.v, st.files, first, op.s, t, j);
      assert text[j] == FileByte(st.v.disk, c, j);
    }
    assert Content(after.v.disk, c, |text|) == text;
  }

  /** The last buffer written to s by the first n operations; the text before them if there is none. */
  function LastWritten(ops: seq<Op>, n: nat, s: int, before: seq<byte>): seq<byte>
    requires n <= |ops|
  {
    if n == 0 then before
    else if ops[n - 1].s == s then ops[n - 1].buf
    else LastWritten(ops, n - 1, s, before)
  }

  /** After any sequence of writes the data blocks are still split exactly into the chains of the
      files and the free chain. */
  lemma {:induction false} RunKeepsPartition(sts: seq<State>, ops: seq<Op>, first: int, i: nat)
    requires Run(sts, ops, first) && i < |sts|
    ensures Good(sts[i], first) && sts[i].files.Keys == sts[0].files.Keys
  {
    hide Good, Legal, Enough, Finished;
    if i > 0 {
      RunKeepsPartition(sts, ops, first, i - 1);
      StepGood(sts[i - 1], ops[i - 1], sts[i], first);
    }
  }

  /** And every file holds what was written to it last, whatever happened to the others. */
  lemma {:induction false} RunHolds(sts: seq<State>, ops: seq<Op>, first: int, i: nat, s: int, before: seq<byte>)
    requires Run(sts, ops, first) && i < |sts| && FileIs(sts[0], s, before)
    ensures FileIs(sts[i], s, LastWritten(ops, i, s, before))
  {
    hide Good, Legal, FileIs, Step;
    if i > 0 {
      RunKeepsPartition(sts, ops, first, i - 1);
      RunHolds(sts, ops, first, i - 1, s, before);
      if ops[i - 1].s == s {
        StepWritten(sts[i - 1], ops[i - 1], sts[i], first);
      } else {
        StepOther(sts[i - 1], ops[i - 1], sts[i], first, s, LastWritten(ops, i - 1, s, before));
      }
    }
  }

  // ---------------------------------------------------------------- from mkfs on

  ghost function Mounted(image: Image): State
    reads image, image.fat, image.disk
  {
    State(Vol(image.fat[..], image.avail, image.disk[..]), image.free, image.files)
  }

  /** From an image that mkfs has built: the partition holds after any writes, and a file that was
      put into the image holds its last buffer, or what mkfs stored if it has not been written. */
  lemma ImageRun(image: Image, names: seq<seq<byte>>, contents: seq<seq<byte>>, starts: seq<int>, k: nat,
                 sts: seq<State>, ops: seq<Op>, i: nat)
    requires image.Built(names, contents, starts) && k < |starts| && |contents[k]| < 0x1_0000_0000
    requires i < |sts| && sts != [] && sts[0] == Mounted(image) && |sts| == |ops| + 1
    requires forall j {:trigger ops[j]} :: 0 <= j < |ops| && Good(sts[j], image.first) ==> Legal(sts[j], ops[j]) && Step(sts[j], ops[j], sts[j + 1])
    ensures Good(sts[i], image.first)
    ensures FileIs(sts[i], starts[k], LastWritten(ops, i, starts[k], contents[k]))
  {
    hide Partition, FileIs, Legal, Step;
    MountedGood(image, names, contents, starts);
    MountedFile(image, names, contents, starts, k);
    RunKeepsPartition(sts, ops, image.first, i);
    RunHolds(sts, ops, image.first, i, starts[k], contents[k]);
  }

  lemma MountedGood(image: Image, names: seq<seq<byte>>, contents: seq<seq<byte>>, starts: seq<int>)
    requires image.Built(names, contents, starts)
    ensures Good(Mounted(image), image.first)
  {
  }

  lemma MountedFile(image: Image, names: seq<seq<byte>>, contents: seq<seq<byte>>, starts: seq<int>, k: nat)
    requires image.Built(names, contents, starts) && k < |starts| && |contents[k]| < 0x1_0000_0000
    ensures FileIs(Mounted(image), starts[k], contents[k])
  {
    FileReadable(image, names, contents, starts, k);
    assert image.disk[..][starts[k]] == image.disk[starts[k]];
  }
}

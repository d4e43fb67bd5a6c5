/**
 * The parallel recorder: one capture driver fills a ring of memory buckets, and
 * a number of writer processes copy every W-th block to disk.  Processes share
 * only the `captured` count of each bucket and one stop byte.
 *
 * Everything is a state machine: `Step` performs one atomic action, `Run` folds
 * a schedule of actions, so a statement about all schedules is a statement
 * about all interleavings.  A disabled action leaves the state alone.
 */
module Recorder {

  // The contents of one separately copied piece of a bucket.
  type Chunk = int

  // `table` pieces are copied before a bucket is released and `data` pieces
  // after.  The program uses 1 and 31; larger numbers are finer interleavings.
  datatype Config = Config(writers: nat, buckets: nat, table: nat, data: nat, maxBlocks: nat)

  predicate Sane(cfg: Config) { 1 <= cfg.writers <= cfg.buckets && 1 <= cfg.maxBlocks }

  // One bucket more than writers.
  predicate Enough(cfg: Config) { Sane(cfg) && cfg.writers + 1 <= cfg.buckets }

  // What the configuration reader insists on.
  predicate Accepted(cfg: Config) { Sane(cfg) && cfg.writers + 2 <= cfg.buckets }

  datatype Block = Block(count: nat, pieces: seq<Chunk>)

  datatype File = File(count: nat, last: bool, stalled: bool, pieces: seq<Chunk>)

  datatype Bucket = Bucket(captured: nat, last: bool, stalled: bool, pieces: seq<Chunk>)

  datatype Phase =
    | Top                    // head of the loop: stop byte not yet read
    | Poll                   // about to read the bucket's count
    | Slept                  // found it empty, slept, about to read the stop byte
    | Test                   // found it filled, about to run the stall test
    | Mark                   // stall detected, stop byte set
    | Header                 // about to create the file
    | Table(next: nat)       // copying the length table
    | Release                // about to clear the count
    | Data(next: nat)        // copying the packet data
    | After                  // file complete
    | Exited

  datatype Writer = Writer(
    phase: Phase, file: nat, cur: nat, delayStop: nat, endCnt: nat,
    blocks: nat, stalled: bool, last: bool)

  // `counts` and `content` are the history of published counts and of finished
  // blocks; `early` collects the blocks whose copying began before the driver
  // had finished them.
  datatype State = State(
    stop: bool, driverDone: bool, counts: seq<nat>, content: seq<Block>,
    buckets: seq<Bucket>, writers: seq<Writer>, disk: map<nat, File>, early: set<nat>)

  datatype Action =
    | Touch(ahead: bool, piece: nat, value: Chunk)  // driver or NIC writes the current or the next bucket
    | Publish(count: nat)                           // alloc thread stores the count of the current block
    | Repeat                                        // alloc thread stores it again, for a later slot of the row
    | Finish                                        // process thread moves on to the next block
    | DriverLast(count: nat)                        // process thread ends after a stop
    | UserStop
    | Write(id: nat)                                // one step of a writer

  function Pieces(cfg: Config): nat { cfg.table + cfg.data }

  function Fresh(cfg: Config): Bucket {
    Bucket(0, false, false, seq(Pieces(cfg), _ => 0))
  }

  function Start(cfg: Config): State
    requires Sane(cfg)
  {
    State(false, false, [], [], seq(cfg.buckets, _ => Fresh(cfg)),
          seq(cfg.writers, i requires 0 <= i < cfg.writers => Writer(Top, i, i, 0, 0, 0, false, false)),
          map[], {})
  }

  predicate WriterShape(cfg: Config, w: Writer) {
    && w.cur < cfg.buckets
    && (w.phase.Slept? ==> w.endCnt > 0)
    && (w.phase.Table? ==> w.phase.next <= cfg.table)
    && (w.phase.Data? ==> w.phase.next <= cfg.data)
  }

  predicate Shape(cfg: Config, s: State) {
    && Sane(cfg)
    && |s.buckets| == cfg.buckets
    && |s.writers| == cfg.writers
    && |s.content| <= |s.counts| <= |s.content| + 1
    && (forall b :: 0 <= b < cfg.buckets ==> |s.buckets[b].pieces| == Pieces(cfg))
    && (forall i :: 0 <= i < cfg.writers ==> WriterShape(cfg, s.writers[i]))
  }

  // ----- the driver

  // The refill thread moves on to the next bucket only after it has stored the
  // count of the current one.
  function TouchStep(cfg: Config, s: State, ahead: bool, piece: nat, value: Chunk): (t: State)
    requires Shape(cfg, s)
    ensures Shape(cfg, t)
  {
    if s.driverDone || Pieces(cfg) <= piece || (ahead && |s.counts| == |s.content|) then s else
    var b := (|s.content| + if ahead then 1 else 0) % cfg.buckets;
    var k := s.buckets[b];
    s.(buckets := s.buckets[b := k.(pieces := k.pieces[piece := value])])
  }

  function PublishStep(cfg: Config, s: State, count: nat): (t: State)
    requires Shape(cfg, s)
    ensures Shape(cfg, t)
  {
    if s.driverDone || |s.counts| != |s.content| || count == 0 then s else
    var b := |s.counts| % cfg.buckets;
    s.(buckets := s.buckets[b := s.buckets[b].(captured := count)], counts := s.counts + [count])
  }

  // Every slot of the row that is past the limit stores the count, until the row
  // is complete.
  function RepeatStep(cfg: Config, s: State): (t: State)
    requires Shape(cfg, s)
    ensures Shape(cfg, t)
  {
    if s.driverDone || |s.counts| == |s.content| then s else
    var j := |s.content|;
    var b := j % cfg.buckets;
    s.(buckets := s.buckets[b := s.buckets[b].(captured := s.counts[j])])
  }

  function FinishStep(cfg: Config, s: State): (t: State)
    requires Shape(cfg, s)
    ensures Shape(cfg, t)
  {
    if s.driverDone || |s.counts| == |s.content| then s else
    var j := |s.content|;
    s.(content := s.content + [Block(s.counts[j], s.buckets[j % cfg.buckets].pieces)])
  }

  function DriverLastStep(cfg: Config, s: State, count: nat): (t: State)
    requires Shape(cfg, s)
    ensures Shape(cfg, t)
  {
    if s.driverDone || !s.stop then s else
    var b := |s.content| % cfg.buckets;
    s.(driverDone := true, buckets := s.buckets[b := s.buckets[b].(captured := count, last := true)])
  }

  // ----- one writer: w is its own state and k the bucket it looks at

  predicate DetectsStall(w: Writer) {
    w.phase == Test && w.endCnt == 0 && w.delayStop == 0
  }

  function NextWriter(cfg: Config, stop: bool, w: Writer, k: Bucket): (v: Writer)
    requires Sane(cfg) && WriterShape(cfg, w)
    ensures WriterShape(cfg, v)
  {
    match w.phase
    case Top =>
      if stop && w.delayStop > 2 then w.(phase := Exited, delayStop := w.delayStop + 1)
      else w.(phase := Poll, endCnt := 0, delayStop := w.delayStop + if stop then 1 else 0)
    case Poll =>
      if k.captured == 0 then w.(phase := Slept, endCnt := w.endCnt + 1) else w.(phase := Test)
    case Slept =>
      if stop && w.endCnt > 40 then w.(phase := Top) else w.(phase := Poll)
    case Test =>
      if DetectsStall(w) then w.(phase := Mark) else w.(phase := Header)
    case Mark => w.(phase := Header, stalled := true)
    case Header => w.(phase := Table(0))
    case Table(i) => w.(phase := if i == cfg.table then Release else Table(i + 1))
    case Release => w.(phase := Data(0), last := k.last)
    case Data(i) => w.(phase := if i == cfg.data then After else Data(i + 1))
    case After =>
      if w.last || w.stalled then w.(phase := Exited)
      else if w.blocks + 1 == cfg.maxBlocks then w.(phase := Exited, blocks := w.blocks + 1)
      else w.(phase := Top, blocks := w.blocks + 1, file := w.file + cfg.writers,
              cur := (w.cur + cfg.writers) % cfg.buckets)
    case Exited => w
  }

  function NextBucket(w: Writer, k: Bucket): Bucket {
    match w.phase
    case Mark => k.(stalled := true)
    case Release => k.(captured := 0)
    case _ => k
  }

  function Append(disk: map<nat, File>, file: nat, c: Chunk): map<nat, File> {
    var f := if file in disk then disk[file] else File(0, false, false, []);
    disk[file := f.(pieces := f.pieces + [c])]
  }

  function NextDisk(cfg: Config, disk: map<nat, File>, w: Writer, k: Bucket): map<nat, File>
    requires WriterShape(cfg, w) && |k.pieces| == Pieces(cfg)
  {
    match w.phase
    case Header => disk[w.file := File(k.captured, k.last, k.stalled, [])]
    case Table(i) => if i == cfg.table then disk else Append(disk, w.file, k.pieces[i])
    case Data(i) => if i == cfg.data then disk else Append(disk, w.file, k.pieces[cfg.table + i])
    case _ => disk
  }

  function WriteStep(cfg: Config, s: State, id: nat): (t: State)
    requires Shape(cfg, s) && id < cfg.writers
    ensures Shape(cfg, t)
  {
    var w := s.writers[id];
    var k := s.buckets[w.cur];
    s.(stop := s.stop || DetectsStall(w),
       writers := s.writers[id := NextWriter(cfg, s.stop, w, k)],
       buckets := s.buckets[w.cur := NextBucket(w, k)],
       disk := NextDisk(cfg, s.disk, w, k),
       early := if w.phase == Header && |s.content| <= w.file then s.early + {w.file} else s.early)
  }

  // ----- schedules

  function Step(cfg: Config, s: State, a: Action): (t: State)
    requires Shape(cfg, s)
    ensures Shape(cfg, t)
  {
    match a
    case Touch(ahead, piece, value) => TouchStep(cfg, s, ahead, piece, value)
    case Publish(count) => PublishStep(cfg, s, count)
    case Repeat => RepeatStep(cfg, s)
    case Finish => FinishStep(cfg, s)
    case DriverLast(count) => DriverLastStep(cfg, s, count)
    case UserStop => s.(stop := true)
    case Write(id) => if id < cfg.writers then WriteStep(cfg, s, id) else s
  }

  function RunFrom(cfg: Config, s: State, schedule: seq<Action>): (t: State)
    requires Shape(cfg, s)
    ensures Shape(cfg, t)
    decreases |schedule|
  {
    if schedule == [] then s
    else Step(cfg, RunFrom(cfg, s, schedule[..|schedule| - 1]), schedule[|schedule| - 1])
  }

  function Run(cfg: Config, schedule: seq<Action>): (t: State)
    requires Sane(cfg)
    ensures Shape(cfg, t)
  {
    RunFrom(cfg, Start(cfg), schedule)
  }
}

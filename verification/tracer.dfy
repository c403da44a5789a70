/**
 The flush daemon, its control operations and the ring as one state machine. Every
 transition is a whole rbtrace call, a whole control operation or one turn of the
 daemon's loop.
 */
module Tracer {
  import opened Records
  import opened TraceFiles
  import opened Ring

  /** The RBTRACE_DO_ bits of ri_flags. */
  datatype Flags = Flags(open: bool, disk: bool, wrap: bool, zap: bool, close: bool, flush: bool)

  /** A full buffer that was taken out of use: handed to the daemon, or overwritten. */
  datatype Retired = Retired(records: seq<Record>, kept: bool)

  /**
   What happened since the last accepted open, for the proofs only: the records emitted,
   the full buffers retired, the records written to files, the losses told by the daemon
   and the number of files that existed before.
   */
  datatype History = History(log: seq<Record>, retired: seq<Retired>, stream: seq<Record>, told: nat, base: nat)

  /**
   fd says whether the last file is open for writing; seek and wrapPos are the daemon's
   write position and its copy of the header field. crashed records that write_data ran
   without a file, where the original dereferences a null pointer.
   */
  datatype State = State(
    ring: RingState, flags: Flags, limit: nat, fd: bool, seek: nat, wrapPos: nat,
    path: string, files: seq<Image>, crashed: bool, hist: History)
  {
    predicate Wf() {
      && ring.Wf()
      && (fd ==> files != [] && seek >= H && (wrapPos == 0 || wrapPos >= H))
    }

    function File(): Image
      requires files != []
    {
      files[|files| - 1]
    }
  }

  const MAX_PATH: nat := 1024

  /** ri_slot is 0 in cleared memory: until the first open the buffer holds one empty record. */
  function Init(n: nat): State {
    State(RingState(n, [ZERO], [], 0, 0), Flags(false, false, false, false, false, false),
          0x8000_0000, false, 0, 0, "", [], false, History([], [], [], 0, 0))
  }

  // ---------- rbtrace ----------

  function Logged(h: History, ring: RingState, r: Record, mark: Marker): History {
    if |ring.active| < ring.n then h.(log := h.log + [r])
    else h.(log := h.log + (if ring.flush == 0 && ring.lost > 0 then [mark(ring.lost), r] else [r]),
            retired := h.retired + [Retired(ring.active, ring.flush == 0)])
  }

  function Trace(s: State, r: Record, mark: Marker): (s': State)
    requires s.Wf()
    ensures s'.Wf()
  {
    s.(ring := Emit(s.ring, r, mark), hist := Logged(s.hist, s.ring, r, mark))
  }

  // ---------- rbtrace_write_header ----------

  function WriteHeader(s: State, ok: bool): (s': State)
    requires s.Wf()
    ensures s'.Wf()
  {
    var flags := s.flags.(open := false);
    if s.fd || !ok then s.(flags := flags, fd := false, seek := 0)
    else s.(flags := flags.(disk := true), fd := true, seek := H, wrapPos := 0,
            files := s.files + [Image(0, s.ring.n, [])])
  }

  // ---------- rbtrace_write_data ----------

  predicate Wrapping(s: State) {
    s.wrapPos != 0 && s.flags.wrap
  }

  /** The buffer goes to the write position, which is wrap_pos once the file has wrapped. */
  function Written(s: State, b: seq<byte>): (s': State)
    requires s.Wf() && s.fd
    ensures s'.Wf() && s'.fd
  {
    var at := if Wrapping(s) then s.wrapPos else s.seek;
    s.(seek := at + |b|,
       wrapPos := if Wrapping(s) then s.wrapPos + |b| else s.wrapPos,
       files := s.files[|s.files| - 1 := s.File().(data := Pwrite(s.File().data, at - H, b))])
  }

  function LimitReached(s: State, ok: bool): (s': State)
    requires s.Wf()
    ensures s'.Wf()
  {
    if s.flags.close then s
    else if s.flags.wrap then s.(wrapPos := H)
    else if s.flags.zap then WriteHeader(s.(fd := false), ok)
    else s.(fd := false, flags := s.flags.(disk := false))
  }

  function HeaderUpdated(s: State): (s': State)
    requires s.Wf()
    ensures s'.Wf()
  {
    if s.fd then s.(files := s.files[|s.files| - 1 := s.File().(wrapPos := s.wrapPos)]) else s
  }

  function CountersTaken(s: State): (s': State)
    requires s.Wf()
    ensures s'.Wf()
  {
    s.(ring := s.ring.(lost := 0, flush := 0, pending := []))
  }

  /** The daemon records that so many records were lost. */
  function Told(s: State, lost: nat, mark: Marker): (s': State)
    requires s.Wf()
    ensures s'.Wf()
  {
    Trace(s.(hist := s.hist.(told := s.hist.told + lost)), mark(lost), mark)
  }

  /** Records of buffers overwritten since ri_flush was last reset. */
  function Overwritten(ring: RingState): nat {
    if ring.flush > 1 then (ring.flush - 1) * ring.n else 0
  }

  /** What the daemon finds missing when it drains the counters. */
  function Missing(ring: RingState): nat {
    ring.lost + Overwritten(ring)
  }

  /** Both counters are reset, and the daemon tells of what was lost. */
  function Drained(s: State, mark: Marker): (s': State)
    requires s.Wf()
    ensures s'.Wf()
  {
    if s.ring.flush > 1 || s.ring.lost > 0 then Told(CountersTaken(s), Missing(s.ring), mark)
    else CountersTaken(s)
  }

  function Zeroed(rs: seq<Record>): (z: seq<Record>)
    ensures |z| == |rs|
  {
    seq(|rs|, _ => ZERO)
  }

  function Buffer(s: State, doFlush: bool): seq<Record> {
    if doFlush then s.ring.active else s.ring.pending
  }

  /** One of the two buffers is cleared. */
  function Emptied(r: RingState, doFlush: bool): (r': RingState)
    requires r.Wf()
    ensures r'.Wf()
  {
    if doFlush then r.(active := Zeroed(r.active)) else r.(pending := Zeroed(r.pending))
  }

  /** The buffer written is cleared; its records join the stream of records written. */
  function Taken(s: State, doFlush: bool): (s': State)
    requires s.Wf()
    ensures s'.Wf()
  {
    s.(ring := Emptied(s.ring, doFlush),
       hist := s.hist.(stream := s.hist.stream + Buffer(s, doFlush)))
  }

  /** The end-of-file policy, and the header when wrap_pos has moved. */
  function Settled(s: State, wrapping: bool, ok: bool): (s': State)
    requires s.Wf()
    ensures s'.Wf()
  {
    var full := s.seek >= s.limit;
    var s2 := if full then LimitReached(s, ok) else s;
    if wrapping || (full && !s.flags.close && s.flags.wrap) then HeaderUpdated(s2) else s2
  }

  function WriteData(s: State, doFlush: bool, ok: bool, mark: Marker): (s': State)
    requires s.Wf()
    ensures s'.Wf()
  {
    if !s.fd then s.(crashed := true)
    else
      var s1 := Taken(Written(s, Flatten(Buffer(s, doFlush))), doFlush);
      Drained(Settled(s1, Wrapping(s), ok), mark)
  }

  // ---------- one turn of rbtrace_thread_fn ----------

  /** What the environment decides during one turn: whether an open succeeds, and the clock. */
  datatype Turn = Turn(ok: bool, mark: Marker, mark2: Marker)

  function FlushPending(s: State, t: Turn): (s': State)
    requires s.Wf()
    ensures s'.Wf()
  {
    if s.ring.flush > 0 then WriteData(s, false, t.ok, t.mark) else s
  }

  function FlushActive(s: State, t: Turn): (s': State)
    requires s.Wf()
    ensures s'.Wf()
  {
    if s.flags.flush && !s.crashed then
      var s1 := WriteData(s, true, t.ok, t.mark2);
      if s1.crashed then s1 else s1.(flags := s1.flags.(flush := false))
    else s
  }

  function FileClosed(s: State): (s': State)
    requires s.Wf()
    ensures s'.Wf()
  {
    if s.crashed then s
    else if s.fd then s.(fd := false, path := "", seek := 0, flags := s.flags.(close := false))
    else s.(seek := 0, flags := s.flags.(close := false))
  }

  function Iterate(s: State, t: Turn): (s': State)
    requires s.Wf()
    ensures s'.Wf()
  {
    if s.crashed then s
    else if s.flags.close then FileClosed(FlushActive(FlushPending(s, t), t))
    else if s.flags.open then WriteHeader(s, t.ok)
    else if s.flags.disk then FlushActive(FlushPending(s, t), t)
    else s
  }

  // ---------- rbtrace_ctrl ----------

  function CtrlOpen(s: State, path: string): (r: (State, int))
    requires s.Wf()
    ensures r.0.Wf()
  {
    if s.flags.open || s.flags.disk || |path| >= MAX_PATH then (s, -1)
    else (s.(path := path, ring := RingState(s.ring.n, [], [], 0, 0),
             flags := s.flags.(open := true), hist := History([], [], [], 0, |s.files|)), 0)
  }

  function CtrlClose(s: State): (r: (State, int))
    requires s.Wf()
    ensures r.0.Wf()
  {
    if s.flags.disk then (s.(flags := s.flags.(disk := false, flush := true, close := true)), 0)
    else (s, -1)
  }

  function CtrlWrap(s: State, enable: bool): (r: (State, int))
    requires s.Wf()
    ensures r.0.Wf()
  {
    if s.flags.zap then (s, -1) else (s.(flags := s.flags.(wrap := enable)), 0)
  }

  function CtrlZap(s: State, enable: bool): (r: (State, int))
    requires s.Wf()
    ensures r.0.Wf()
  {
    if s.flags.wrap then (s, -1) else (s.(flags := s.flags.(zap := enable)), 0)
  }

  // ---------- runs ----------

  datatype Op =
    | DoTrace(r: Record, mark: Marker)
    | DoIterate(t: Turn)
    | DoOpen(path: string)
    | DoClose
    | DoSize(limit: nat)
    | DoWrap(enable: bool)
    | DoZap(enable: bool)

  function Step(s: State, op: Op): (s': State)
    requires s.Wf()
    ensures s'.Wf()
  {
    match op
    case DoTrace(r, mark) => Trace(s, r, mark)
    case DoIterate(t) => Iterate(s, t)
    case DoOpen(path) => CtrlOpen(s, path).0
    case DoClose => CtrlClose(s).0
    case DoSize(limit) => s.(limit := limit)
    case DoWrap(enable) => CtrlWrap(s, enable).0
    case DoZap(enable) => CtrlZap(s, enable).0
  }

  function Run(s: State, ops: seq<Op>): (s': State)
    requires s.Wf()
    ensures s'.Wf()
  {
    if ops == [] then s else Step(Run(s, ops[..|ops| - 1]), ops[|ops| - 1])
  }
}

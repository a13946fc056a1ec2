/** The life of journal slurps: one reader of journal lines, one publisher and
    one pid watcher per slurp. Reader and publisher may both shut a slurp down;
    a sync.Once lets one of them do it while the other waits. */
module SlurpMachine {
  import opened Prelude

  type Name = string

  datatype Kind = App | StartUnit | Stopping | Failed | Stopped | Unknown

  /** A journal line for a known service, with the service's MinionEnabled flag
      as the reader finds it. */
  datatype Line = Line(service: Name, kind: Kind, text: string, enabled: bool)

  datatype Once = NotYet | Busy(byReader: bool, sent: bool) | Finished

  datatype PublisherPc = Capturing | Leaving | Finishing | Gone

  datatype Slurp = Slurp(service: Name, cancelled: bool, once: Once, publisher: PublisherPc,
                         queue: seq<Line>, taken: seq<Line>)

  datatype ReaderPc =
    | Idle
    | Stop(line: Line)
    | ShuttingDown(line: Line)
    | Start(line: Line)
    | Put(line: Line)
    | Dead(line: Line)

  /** What the outside sees, in order. A process uid is the number of slurps
      started before it: the random uids are taken to be fresh. */
  datatype Entry = Started(service: Name, uid: nat) | Completed(uid: nat) | Queued(uid: nat, line: Line)

  datatype State = State(current: map<Name, nat>, slurps: seq<Slurp>, reader: ReaderPc,
                         // history
                         log: seq<Entry>, accepted: seq<Line>)

  datatype Action =
    | Read(line: Line)
    | ReaderEnter | ReaderSend | ReaderEnd
    | ReaderStart(ok: bool)
    | ReaderPut
    | Take(uid: nat) | SeeDone(uid: nat)
    | PublisherEnter(uid: nat) | PublisherSend(uid: nat) | PublisherEnd(uid: nat)
    | Cancel(uid: nat)

  const CHANNEL_CAPACITY := 100

  function Init(): State {
    State(map[], [], Idle, [], [])
  }

  // ----- steps -----

  function Update(s: State, u: nat, slurp: Slurp): State
    requires u < |s.slurps|
  {
    s.(slurps := s.slurps[u := slurp])
  }

  /** After the current slurp of the line's service has been let go. */
  function Detached(s: State, line: Line): State {
    s.(current := s.current - {line.service}, reader := if line.kind == StartUnit then Start(line) else Idle)
  }

  function ReadStep(s: State, line: Line): State {
    var attached := line.service in s.current;
    if !line.enabled && !attached then s else
    match line.kind
    case App => s.(reader := if attached then Put(line) else Start(line), accepted := s.accepted + [line])
    case StartUnit => s.(reader := if attached then Stop(line) else Start(line))
    case Failed => if attached then s.(reader := Stop(line)) else s
    case Stopped => if attached then s.(reader := Stop(line)) else s
    case Stopping => s
    case Unknown => s
  }

  /** A started slurp; a failed start leaves a nil pointer, which an app line
      would go on to dereference. */
  function StartStep(s: State, line: Line, ok: bool): State {
    if !ok then s.(reader := if line.kind == App then Dead(line) else Idle) else
    var uid := |s.slurps|;
    s.(slurps := s.slurps + [Slurp(line.service, false, NotYet, Capturing, [], [])],
       current := s.current[line.service := uid],
       log := s.log + [Started(line.service, uid)],
       reader := if line.kind == App then Put(line) else Idle)
  }

  /** The reader at work on the slurp attached to the service of its line. */
  function AttachedStep(s: State, line: Line, u: nat, a: Action): Option<State>
    requires u < |s.slurps|
  {
    var slurp := s.slurps[u];
    if a.ReaderEnter? then
      if !s.reader.Stop? || slurp.once.Busy? then None
      else if slurp.once.Finished? then Some(Detached(s, line))
      else Some(Update(s, u, slurp.(once := Busy(true, false))).(reader := ShuttingDown(line)))
    else if a.ReaderSend? then
      if !s.reader.ShuttingDown? || slurp.once != Busy(true, false) then None
      else Some(Update(s, u, slurp.(once := Busy(true, true))).(log := s.log + [Completed(u)]))
    else if a.ReaderEnd? then
      if !s.reader.ShuttingDown? || slurp.once != Busy(true, true) then None
      else Some(Detached(Update(s, u, slurp.(once := Finished, cancelled := true)), line))
    else if a.ReaderPut? then
      if !s.reader.Put? || |slurp.queue| >= CHANNEL_CAPACITY then None
      else Some(Update(s, u, slurp.(queue := slurp.queue + [line])).(log := s.log + [Queued(u, line)], reader := Idle))
    else None
  }

  function ReaderStep(s: State, a: Action): Option<State> {
    if a.Read? then
      if s.reader.Idle? then Some(ReadStep(s, a.line)) else None
    else if a.ReaderStart? then
      if s.reader.Start? then Some(StartStep(s, s.reader.line, a.ok)) else None
    else if s.reader.Idle? || s.reader.line.service !in s.current then None
    else
      var u := s.current[s.reader.line.service];
      if u < |s.slurps| then AttachedStep(s, s.reader.line, u, a) else None
  }

  function SlurpStep(s: State, u: nat, a: Action): Option<State>
    requires u < |s.slurps|
  {
    var slurp := s.slurps[u];
    match a
    case Take(_) =>
      if slurp.publisher != Capturing || slurp.queue == [] then None
      else Some(Update(s, u, slurp.(queue := slurp.queue[1..], taken := slurp.taken + [slurp.queue[0]])))
    case SeeDone(_) =>
      if slurp.publisher != Capturing || !slurp.cancelled then None
      else Some(Update(s, u, slurp.(publisher := Leaving)))
    case PublisherEnter(_) =>
      if slurp.publisher != Leaving || slurp.once.Busy? then None
      else if slurp.once.Finished? then Some(Update(s, u, slurp.(publisher := Gone)))
      else Some(Update(s, u, slurp.(publisher := Finishing, once := Busy(false, false))))
    case PublisherSend(_) =>
      if slurp.publisher != Finishing || slurp.once != Busy(false, false) then None
      else Some(Update(s, u, slurp.(once := Busy(false, true))).(log := s.log + [Completed(u)]))
    case PublisherEnd(_) =>
      if slurp.publisher != Finishing || slurp.once != Busy(false, true) then None
      else Some(Update(s, u, slurp.(once := Finished, cancelled := true, publisher := Gone)))
    case Cancel(_) => Some(Update(s, u, slurp.(cancelled := true)))
    case _ => None
  }

  predicate OfSlurp(a: Action) {
    a.Take? || a.SeeDone? || a.PublisherEnter? || a.PublisherSend? || a.PublisherEnd? || a.Cancel?
  }

  /** One step of one goroutine. A nil dereference takes the process down. */
  function Step(s: State, a: Action): Option<State> {
    if s.reader.Dead? then None
    else if !OfSlurp(a) then ReaderStep(s, a)
    else if a.uid < |s.slurps| then SlurpStep(s, a.uid, a)
    else None
  }

  function Run(actions: seq<Action>): Option<State> {
    Fold(Step, Init(), actions)
  }

  // ----- a well-ordered log -----

  /** The services of the slurps started so far, by uid. */
  function Owners(log: seq<Entry>): seq<Name> {
    if log == [] then [] else
    var last := log[|log| - 1];
    Owners(log[..|log| - 1]) + if last.Started? then [last.service] else []
  }

  predicate EntryOk(log: seq<Entry>, e: Entry) {
    var owners := Owners(log);
    match e
    case Started(service, uid) =>
      uid == |owners| && forall v :: 0 <= v < uid && owners[v] == service ==> Completed(v) in log
    case Completed(uid) => uid < |owners| && Completed(uid) !in log
    case Queued(uid, line) =>
      && uid < |owners| && owners[uid] == line.service
      && forall v :: uid < v < |owners| ==> owners[v] != line.service
  }

  predicate LogOk(log: seq<Entry>) {
    log != [] ==> LogOk(log[..|log| - 1]) && EntryOk(log[..|log| - 1], log[|log| - 1])
  }

  function QueuedOn(log: seq<Entry>, u: nat): seq<Line> {
    if log == [] then [] else
    var last := log[|log| - 1];
    QueuedOn(log[..|log| - 1], u) + if last.Queued? && last.uid == u then [last.line] else []
  }

  function QueuedLines(log: seq<Entry>): seq<Line> {
    if log == [] then [] else
    var last := log[|log| - 1];
    QueuedLines(log[..|log| - 1]) + if last.Queued? then [last.line] else []
  }

  // ----- the invariant -----

  /** The app line the reader has accepted but not queued yet. */
  function InHand(r: ReaderPc): seq<Line> {
    if (r.Start? || r.Put? || r.Dead?) && r.line.kind == App then [r.line] else []
  }

  predicate LastOf(slurps: seq<Slurp>, name: Name, u: nat) {
    u < |slurps| && slurps[u].service == name && forall v :: u < v < |slurps| ==> slurps[v].service != name
  }

  /** A service is attached to its newest slurp, and every slurp that no service
      is attached to has been shut down. */
  predicate Attached(current: map<Name, nat>, slurps: seq<Slurp>) {
    && (forall name :: name in current ==> LastOf(slurps, name, current[name]))
    && (forall u :: 0 <= u < |slurps| ==>
          slurps[u].once.Finished? || (slurps[u].service in current && current[slurps[u].service] == u))
  }

  predicate Placed(reader: ReaderPc, current: map<Name, nat>) {
    match reader
    case Start(line) => line.service !in current
    case Stop(line) => line.service in current
    case ShuttingDown(line) => line.service in current
    case Put(line) => line.service in current && line.kind == App
    case _ => true
  }

  /** Only lines that end or restart a slurp lead to a shutdown. */
  predicate Purposeful(reader: ReaderPc) {
    reader.Stop? || reader.ShuttingDown? ==> reader.line.kind != App
  }

  /** Who is inside the Once of a slurp. */
  predicate Inside(slurp: Slurp, reader: ReaderPc) {
    && (slurp.once.Busy? && slurp.once.byReader ==> reader.ShuttingDown? && slurp.service == reader.line.service)
    && (slurp.once.Busy? && !slurp.once.byReader <==> slurp.publisher == Finishing)
  }

  predicate Sent(o: Once) {
    o.Finished? || (o.Busy? && o.sent)
  }

  predicate SlurpLogged(log: seq<Entry>, slurp: Slurp, u: nat) {
    && u < |Owners(log)| && Owners(log)[u] == slurp.service
    && (Completed(u) in log <==> Sent(slurp.once))
    && slurp.taken + slurp.queue == QueuedOn(log, u)
  }

  predicate Matches(log: seq<Entry>, slurps: seq<Slurp>) {
    && LogOk(log)
    && |Owners(log)| == |slurps|
    && forall u :: 0 <= u < |slurps| ==> SlurpLogged(log, slurps[u], u)
  }

  predicate Accounted(log: seq<Entry>, reader: ReaderPc, accepted: seq<Line>) {
    QueuedLines(log) + InHand(reader) == accepted
  }

  predicate Exclusive(slurps: seq<Slurp>, reader: ReaderPc) {
    forall u :: 0 <= u < |slurps| ==> Inside(slurps[u], reader)
  }

  predicate Invariant(s: State) {
    && Attached(s.current, s.slurps) && Placed(s.reader, s.current) && Purposeful(s.reader)
    && Exclusive(s.slurps, s.reader)
    && Matches(s.log, s.slurps)
    && Accounted(s.log, s.reader, s.accepted)
  }
}

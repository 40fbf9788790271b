/** How several processes read and replace one file: each writer fills a temporary
    file and renames it over the published one; readers read whatever inode they
    opened. Steps of different processes interleave freely. */
module StoreProtocol {
  import opened Versioning

  type Pid = nat
  type Inode = nat
  type Client = nat

  /** A writer between opening its temporary file and replacing the published
      one: `written` characters of its payload are in the file it opened. */
  datatype Writer = Writer(pid: Pid, inode: Inode, payload: string, written: nat)

  /** A reader between opening the published file and reaching its end. `since` is
      the number of publications before the file was opened, less one; `attempt`
      counts decode errors. */
  datatype Reader = Reader(inode: Inode, got: string, since: int, attempt: nat)

  /** What one read returned, and the state of the file when it was opened. */
  datatype ReadResult = ReadResult(since: int, value: Option<string>)

  datatype State = State(
    files: map<Inode, string>,
    published: Option<Inode>,
    temps: map<Pid, Inode>,
    writers: map<Client, Writer>,
    readers: map<Client, Reader>,
    results: map<Client, seq<ReadResult>>,
    history: seq<string>)

  datatype Step =
    | OpenTemp(client: Client, pid: Pid, payload: string)
    | WriteChunk(client: Client, size: nat)
    | Replace(client: Client)
    | Crash(client: Client)
    | OpenRead(client: Client)
    | ReadChunk(client: Client, size: nat)
    | FinishRead(client: Client)

  const ATTEMPTS: nat := 5

  function Log(s: State, client: Client): seq<ReadResult>
  {
    if client in s.results then s.results[client] else []
  }

  function Returned(s: State, client: Client, since: int, value: Option<string>): State
  {
    s.(readers := s.readers - {client}, results := s.results[client := Log(s, client) + [ReadResult(since, value)]])
  }

  /** Overwriting a file's content from an offset on. */
  function Splice(content: string, offset: nat, chunk: string): string
  {
    var head := if offset <= |content| then content[..offset] else content + seq(offset - |content|, i => '\0');
    head + chunk + if offset + |chunk| <= |content| then content[offset + |chunk|..] else ""
  }

  /** Whether a step can be taken. `exclusive` is the assumption that a process
      has one writer at a time: the name of the temporary file holds the process
      id only. */
  ghost predicate CanStep(s: State, step: Step, parses: string -> bool, exclusive: bool)
  {
    match step
    case OpenTemp(c, pid, payload) =>
      c !in s.writers && parses(payload) && (exclusive ==> forall d :: d in s.writers ==> s.writers[d].pid != pid)
    case WriteChunk(c, size) => c in s.writers && s.writers[c].written + size <= |s.writers[c].payload| && s.writers[c].inode in s.files
    case Replace(c) => c in s.writers && s.writers[c].written == |s.writers[c].payload| && s.writers[c].pid in s.temps
    case Crash(c) => c in s.writers
    case OpenRead(c) => c !in s.readers
    case ReadChunk(c, size) => c in s.readers && s.readers[c].inode in s.files && |s.readers[c].got| + size <= |s.files[s.readers[c].inode]|
    case FinishRead(c) => c in s.readers && s.readers[c].inode in s.files && |s.readers[c].got| == |s.files[s.readers[c].inode]|
  }

  /** `unused` is an inode nobody uses; opening a temporary file that is still there
      truncates it instead of creating one. */
  function After(s: State, step: Step, parses: string -> bool, unused: Inode): State
    requires CanStep(s, step, parses, false)
  {
    match step
    case OpenTemp(c, pid, payload) =>
      var inode := if pid in s.temps then s.temps[pid] else unused;
      s.(files := s.files[inode := ""], temps := s.temps[pid := inode], writers := s.writers[c := Writer(pid, inode, payload, 0)])
    case WriteChunk(c, size) =>
      var w := s.writers[c];
      s.(files := s.files[w.inode := Splice(s.files[w.inode], w.written, w.payload[w.written..w.written + size])],
         writers := s.writers[c := w.(written := w.written + size)])
    case Replace(c) =>
      var w := s.writers[c];
      s.(published := Some(s.temps[w.pid]), temps := s.temps - {w.pid}, writers := s.writers - {c}, history := s.history + [w.payload])
    case Crash(c) => s.(writers := s.writers - {c})
    case OpenRead(c) =>
      if s.published == None then Returned(s, c, |s.history| - 1, None)
      else s.(readers := s.readers[c := Reader(s.published.value, "", |s.history| - 1, 0)])
    case ReadChunk(c, size) =>
      var r := s.readers[c];
      s.(readers := s.readers[c := r.(got := r.got + s.files[r.inode][|r.got|..|r.got| + size])])
    case FinishRead(c) =>
      var r := s.readers[c];
      if parses(r.got) then Returned(s, c, r.since, Some(r.got))
      else if r.attempt + 1 >= ATTEMPTS || s.published == None then Returned(s, c, r.since, None)
      else s.(readers := s.readers[c := Reader(s.published.value, "", |s.history| - 1, r.attempt + 1)])
  }

  /** Nothing running, and either no file or one complete file. */
  ghost predicate Initial(s: State, parses: string -> bool)
  {
    && s.temps == map[] && s.writers == map[] && s.readers == map[] && s.results == map[]
    && match s.published
       case None => s.history == []
       case Some(i) => i in s.files && s.history == [s.files[i]] && parses(s.files[i])
  }

  /** Replacing goes by the name of the temporary file: it publishes what now stands under
      that name, which need not be the file this writer filled, and the name is free again. */
  lemma ReplaceGoesByName(s: State, c: Client, parses: string -> bool, unused: Inode)
    requires CanStep(s, Replace(c), parses, false)
    ensures var t, pid := After(s, Replace(c), parses, unused), s.writers[c].pid;
      && t.published.Some? && t.published.value == s.temps[pid] && t.temps == s.temps - {pid}
      && t.files == s.files && t.history == s.history + [s.writers[c].payload]
      && t.writers.Keys == s.writers.Keys - {c} && t.readers == s.readers && t.results == s.results
  {
  }

  // ---- The invariant ---------------------------------------------------------------

  ghost predicate PublishedOk(s: State, parses: string -> bool)
  {
    && (s.published == None <==> s.history == [])
    && (s.published.Some? ==> s.published.value in s.files && s.files[s.published.value] == s.history[|s.history| - 1])
    && (forall k :: 0 <= k < |s.history| ==> parses(s.history[k]))
  }

  ghost predicate TempsOk(s: State)
  {
    && (forall p :: p in s.temps ==> s.temps[p] in s.files && s.published != Some(s.temps[p]))
    && (forall p, q :: p in s.temps && q in s.temps && p != q ==> s.temps[p] != s.temps[q])
  }

  ghost predicate WriterOk(s: State, c: Client, parses: string -> bool)
    requires c in s.writers
  {
    var w := s.writers[c];
    && w.pid in s.temps && s.temps[w.pid] == w.inode && w.inode in s.files
    && w.written <= |w.payload| && s.files[w.inode] == w.payload[..w.written] && parses(w.payload)
  }

  ghost predicate WritersOk(s: State, parses: string -> bool)
  {
    && (forall c :: c in s.writers ==> WriterOk(s, c, parses))
    && (forall c, d :: c in s.writers && d in s.writers && c != d ==> s.writers[c].pid != s.writers[d].pid)
  }

  ghost predicate ReaderOk(s: State, c: Client)
    requires c in s.readers
  {
    var r := s.readers[c];
    && r.inode in s.files && 0 <= r.since < |s.history| && r.attempt == 0
    && s.files[r.inode] == s.history[r.since] && r.got <= s.files[r.inode]
    && (forall p :: p in s.temps ==> s.temps[p] != r.inode)
  }

  /** A result is what was published when its read began. */
  ghost predicate ResultOk(s: State, r: ReadResult)
  {
    && -1 <= r.since < |s.history|
    && r.value == if r.since < 0 then None else Some(s.history[r.since])
  }

  ghost predicate LogOk(s: State, c: Client)
  {
    var log := Log(s, c);
    && (forall k :: 0 <= k < |log| ==> ResultOk(s, log[k]))
    && (forall j, k :: 0 <= j < k < |log| ==> log[j].since <= log[k].since)
    && (c in s.readers ==> forall k :: 0 <= k < |log| ==> log[k].since <= s.readers[c].since)
  }

  ghost predicate Inv(s: State, parses: string -> bool)
  {
    && PublishedOk(s, parses) && TempsOk(s) && WritersOk(s, parses)
    && (forall c :: c in s.readers ==> ReaderOk(s, c))
    && (forall c :: LogOk(s, c))
  }

  lemma InitialInv(s: State, parses: string -> bool)
    requires Initial(s, parses)
    ensures Inv(s, parses)
  {
  }

  /** Writing touches no file that is published or being read. */
  lemma ReadersUnaffected(s: State, t: State, parses: string -> bool)
    requires Inv(s, parses) && t.readers == s.readers && t.results == s.results && t.history == s.history
    requires forall c :: c in s.readers ==>
               && s.readers[c].inode in t.files && t.files[s.readers[c].inode] == s.files[s.readers[c].inode]
               && forall p :: p in t.temps ==> t.temps[p] != s.readers[c].inode
    ensures forall c :: c in t.readers ==> ReaderOk(t, c)
    ensures forall c :: LogOk(t, c)
  {
    forall c | c in t.readers ensures ReaderOk(t, c) { assert ReaderOk(s, c); }
    forall c ensures LogOk(t, c) { assert LogOk(s, c); }
  }

  lemma OpenTempKeepsInv(s: State, step: Step, parses: string -> bool, unused: Inode)
    requires Inv(s, parses) && step.OpenTemp? && CanStep(s, step, parses, true) && unused !in s.files
    ensures Inv(After(s, step, parses, unused), parses)
  {
    var t := After(s, step, parses, unused);
    OpenTempKeepsWriters(s, step, parses, unused);
    forall c | c in s.readers
      ensures s.readers[c].inode in t.files && t.files[s.readers[c].inode] == s.files[s.readers[c].inode]
      ensures forall p :: p in t.temps ==> t.temps[p] != s.readers[c].inode
    {
      assert ReaderOk(s, c);
    }
    ReadersUnaffected(s, t, parses);
  }

  lemma OpenTempKeepsWriters(s: State, step: Step, parses: string -> bool, unused: Inode)
    requires Inv(s, parses) && step.OpenTemp? && CanStep(s, step, parses, true) && unused !in s.files
    ensures var t := After(s, step, parses, unused); PublishedOk(t, parses) && TempsOk(t) && WritersOk(t, parses)
  {
    var t := After(s, step, parses, unused);
    forall c | c in t.writers ensures WriterOk(t, c, parses) {
      if c != step.client { assert WriterOk(s, c, parses); }
    }
  }

  lemma WriteChunkKeepsInv(s: State, step: Step, parses: string -> bool, unused: Inode)
    requires Inv(s, parses) && step.WriteChunk? && CanStep(s, step, parses, true)
    ensures Inv(After(s, step, parses, unused), parses)
  {
    var t := After(s, step, parses, unused);
    WriteChunkKeepsWriters(s, step, parses, unused);
    assert WriterOk(s, step.client, parses);
    forall c | c in s.readers
      ensures s.readers[c].inode in t.files && t.files[s.readers[c].inode] == s.files[s.readers[c].inode]
      ensures forall p :: p in t.temps ==> t.temps[p] != s.readers[c].inode
    {
      assert ReaderOk(s, c);
    }
    ReadersUnaffected(s, t, parses);
  }

  lemma WriteChunkKeepsWriters(s: State, step: Step, parses: string -> bool, unused: Inode)
    requires Inv(s, parses) && step.WriteChunk? && CanStep(s, step, parses, true)
    ensures var t := After(s, step, parses, unused); PublishedOk(t, parses) && TempsOk(t) && WritersOk(t, parses)
  {
    var t := After(s, step, parses, unused);
    var w := s.writers[step.client];
    assert WriterOk(s, step.client, parses);
    assert t.files[w.inode] == w.payload[..w.written + step.size];
    forall c | c in t.writers ensures WriterOk(t, c, parses) { assert WriterOk(s, c, parses); }
  }

  lemma ReplaceKeepsInv(s: State, step: Step, parses: string -> bool, unused: Inode)
    requires Inv(s, parses) && step.Replace? && CanStep(s, step, parses, true)
    ensures Inv(After(s, step, parses, unused), parses)
  {
    var t := After(s, step, parses, unused);
    var w := s.writers[step.client];
    assert WriterOk(s, step.client, parses);
    assert w.payload[..w.written] == w.payload;
    assert t.files[t.published.value] == w.payload;
    forall c | c in t.writers ensures WriterOk(t, c, parses) { assert WriterOk(s, c, parses); }
    forall c | c in t.readers ensures ReaderOk(t, c) { assert ReaderOk(s, c); }
    forall c ensures LogOk(t, c) {
      assert LogOk(s, c);
      forall k | 0 <= k < |Log(t, c)| ensures ResultOk(t, Log(t, c)[k]) { assert ResultOk(s, Log(s, c)[k]); }
    }
  }

  /** Reading changes neither the files nor the writers. */
  ghost predicate SameFiles(s: State, t: State)
  {
    && t.files == s.files && t.published == s.published && t.temps == s.temps
    && t.writers == s.writers && t.history == s.history
  }

  lemma WritersUnaffected(s: State, t: State, parses: string -> bool)
    requires Inv(s, parses) && SameFiles(s, t)
    ensures PublishedOk(t, parses) && TempsOk(t) && WritersOk(t, parses)
  {
    forall c | c in t.writers ensures WriterOk(t, c, parses) { assert WriterOk(s, c, parses); }
  }

  /** A client that goes from one reader state to another, none behind its log. */
  lemma ReaderMoves(s: State, t: State, client: Client, parses: string -> bool)
    requires Inv(s, parses) && SameFiles(s, t) && t.results == s.results
    requires client in t.readers && t.readers == s.readers[client := t.readers[client]]
    requires ReaderOk(t, client)
    requires forall k :: 0 <= k < |Log(s, client)| ==> Log(s, client)[k].since <= t.readers[client].since
    ensures Inv(t, parses)
  {
    WritersUnaffected(s, t, parses);
    forall c | c in t.readers ensures ReaderOk(t, c) {
      if c != client { assert ReaderOk(s, c); }
    }
    forall c ensures LogOk(t, c) {
      assert LogOk(s, c);
      forall k | 0 <= k < |Log(s, c)| ensures ResultOk(t, Log(s, c)[k]) { assert ResultOk(s, Log(s, c)[k]); }
    }
  }

  /** A read that returns, not behind the client's log. */
  lemma ReaderReturns(s: State, client: Client, since: int, value: Option<string>, parses: string -> bool)
    requires Inv(s, parses) && ResultOk(s, ReadResult(since, value))
    requires forall k :: 0 <= k < |Log(s, client)| ==> Log(s, client)[k].since <= since
    ensures Inv(Returned(s, client, since, value), parses)
  {
    var t := Returned(s, client, since, value);
    WritersUnaffected(s, t, parses);
    forall c | c in t.readers ensures ReaderOk(t, c) { assert ReaderOk(s, c); }
    forall c ensures LogOk(t, c) {
      assert LogOk(s, c);
      assert Log(t, c) == if c == client then Log(s, c) + [ReadResult(since, value)] else Log(s, c);
      forall k | 0 <= k < |Log(t, c)| ensures ResultOk(t, Log(t, c)[k]) {
        if k < |Log(s, c)| { assert ResultOk(s, Log(s, c)[k]); }
      }
    }
  }

  lemma OpenReadKeepsInv(s: State, step: Step, parses: string -> bool, unused: Inode)
    requires Inv(s, parses) && step.OpenRead? && CanStep(s, step, parses, true)
    ensures Inv(After(s, step, parses, unused), parses)
  {
    var t := After(s, step, parses, unused);
    assert LogOk(s, step.client);
    forall k | 0 <= k < |Log(s, step.client)| ensures Log(s, step.client)[k].since <= |s.history| - 1 {
      assert ResultOk(s, Log(s, step.client)[k]);
    }
    if s.published == None {
      ReaderReturns(s, step.client, |s.history| - 1, None, parses);
    } else {
      ReaderMoves(s, t, step.client, parses);
    }
  }

  lemma ReadChunkKeepsInv(s: State, step: Step, parses: string -> bool, unused: Inode)
    requires Inv(s, parses) && step.ReadChunk? && CanStep(s, step, parses, true)
    ensures Inv(After(s, step, parses, unused), parses)
  {
    assert ReaderOk(s, step.client) && LogOk(s, step.client);
    ReaderMoves(s, After(s, step, parses, unused), step.client, parses);
  }

  /** On this path a read never meets an incomplete file, so it never retries. */
  lemma FinishReadKeepsInv(s: State, step: Step, parses: string -> bool, unused: Inode)
    requires Inv(s, parses) && step.FinishRead? && CanStep(s, step, parses, true)
    ensures Inv(After(s, step, parses, unused), parses)
  {
    var r := s.readers[step.client];
    assert ReaderOk(s, step.client) && LogOk(s, step.client);
    assert r.got == s.files[r.inode] && parses(r.got);
    ReaderReturns(s, step.client, r.since, Some(r.got), parses);
  }

  lemma StepKeepsInv(s: State, step: Step, parses: string -> bool, unused: Inode)
    requires Inv(s, parses) && CanStep(s, step, parses, true) && unused !in s.files
    ensures Inv(After(s, step, parses, unused), parses)
  {
    match step
    case OpenTemp(_, _, _) => OpenTempKeepsInv(s, step, parses, unused);
    case WriteChunk(_, _) => WriteChunkKeepsInv(s, step, parses, unused);
    case Replace(_) => ReplaceKeepsInv(s, step, parses, unused);
    case OpenRead(_) => OpenReadKeepsInv(s, step, parses, unused);
    case ReadChunk(_, _) => ReadChunkKeepsInv(s, step, parses, unused);
    case FinishRead(_) => FinishReadKeepsInv(s, step, parses, unused);
    case Crash(_) =>
      var t := After(s, step, parses, unused);
      forall c | c in t.writers ensures WriterOk(t, c, parses) { assert WriterOk(s, c, parses); }
      forall c | c in t.readers ensures ReaderOk(t, c) { assert ReaderOk(s, c); }
      forall c ensures LogOk(t, c) { assert LogOk(s, c); }
  }

  ghost predicate Takes(s: State, step: Step, t: State, parses: string -> bool, exclusive: bool)
  {
    CanStep(s, step, parses, exclusive) && exists unused :: unused !in s.files && t == After(s, step, parses, unused)
  }

  ghost predicate IsRun(steps: seq<Step>, states: seq<State>, parses: string -> bool, exclusive: bool)
  {
    && |states| == |steps| + 1 && Initial(states[0], parses)
    && forall i {:trigger steps[i]} :: 0 <= i < |steps| ==> Takes(states[i], steps[i], states[i + 1], parses, exclusive)
  }

  lemma {:induction false} RunKeepsInv(steps: seq<Step>, states: seq<State>, parses: string -> bool, n: nat)
    requires IsRun(steps, states, parses, true) && n < |states|
    ensures Inv(states[n], parses)
  {
    if n == 0 {
      InitialInv(states[0], parses);
    } else {
      RunKeepsInv(steps, states, parses, n - 1);
      assert Takes(states[n - 1], steps[n - 1], states[(n - 1) + 1], parses, true);
      var unused :| unused !in states[n - 1].files && states[n] == After(states[n - 1], steps[n - 1], parses, unused);
      StepKeepsInv(states[n - 1], steps[n - 1], parses, unused);
    }
  }

  /** The published file is the complete payload of the latest replacement. */
  ghost predicate PublishesLatest(s: State)
  {
    && (s.published == None <==> s.history == [])
    && (s.published.Some? ==> s.published.value in s.files && s.files[s.published.value] == s.history[|s.history| - 1])
  }

  /** Every read so far returned the complete payload that was published when it
      began, and came back empty only if there was no file then. */
  ghost predicate ReadsWhole(s: State)
  {
    forall c, k :: c in s.results && 0 <= k < |s.results[c]| ==> ResultOk(s, s.results[c][k])
  }

  /** No client ever goes back to an older payload. */
  ghost predicate ReadsForward(s: State)
  {
    forall c, j, k :: c in s.results && 0 <= j < k < |s.results[c]| ==> s.results[c][j].since <= s.results[c][k].since
  }

  /** Safety of the protocol, at every point of every interleaving, with one
      writer per process at a time; and no reader meets a decode error. */
  lemma ReadsAreAtomic(steps: seq<Step>, states: seq<State>, parses: string -> bool, n: nat)
    requires IsRun(steps, states, parses, true) && n < |states|
    ensures PublishesLatest(states[n]) && ReadsWhole(states[n]) && ReadsForward(states[n])
    ensures forall c :: c in states[n].readers ==> states[n].readers[c].attempt == 0
  {
    RunKeepsInv(steps, states, parses, n);
    var s := states[n];
    forall c | c in s.results
      ensures forall k :: 0 <= k < |s.results[c]| ==> ResultOk(s, s.results[c][k])
      ensures forall j, k :: 0 <= j < k < |s.results[c]| ==> s.results[c][j].since <= s.results[c][k].since
    {
      assert LogOk(s, c) && Log(s, c) == s.results[c];
    }
    forall c | c in s.readers ensures s.readers[c].attempt == 0 { assert ReaderOk(s, c); }
  }

  // ---- When a read comes back empty ---------------------------------------------------

  /** The decode errors of a client since it last began a read, or finished one well,
      counted one step further. */
  ghost function CountedOn(s: State, step: Step, parses: string -> bool, c: Client, before: nat): nat
  {
    match step
    case OpenRead(x) => if x == c then 0 else before
    case FinishRead(x) => if x != c || c !in s.readers then before else if parses(s.readers[c].got) then 0 else before + 1
    case _ => before
  }

  ghost function Failures(steps: seq<Step>, states: seq<State>, parses: string -> bool, c: Client, n: nat): nat
    requires n <= |steps| && |states| == |steps| + 1
  {
    if n == 0 then 0 else CountedOn(states[n - 1], steps[n - 1], parses, c, Failures(steps, states, parses, c, n - 1))
  }

  /** A reader's attempts are its failures, fewer than five, and it has a file to read:
      a published file never disappears. */
  ghost predicate CountsFailures(s: State, c: Client, failures: nat)
  {
    && (s.published == None <==> s.history == [])
    && (c in s.readers ==> s.readers[c].attempt == failures < ATTEMPTS && s.published.Some? && 0 <= s.readers[c].since < |s.history|)
  }

  lemma StepCountsFailures(s: State, step: Step, t: State, parses: string -> bool, c: Client, before: nat)
    requires Takes(s, step, t, parses, false) && CountsFailures(s, c, before)
    ensures CountsFailures(t, c, CountedOn(s, step, parses, c, before))
  {
  }

  lemma {:induction false} RunCountsFailures(steps: seq<Step>, states: seq<State>, parses: string -> bool, c: Client, n: nat)
    requires IsRun(steps, states, parses, false) && n <= |steps|
    ensures CountsFailures(states[n], c, Failures(steps, states, parses, c, n))
  {
    if n > 0 {
      RunCountsFailures(steps, states, parses, c, n - 1);
      assert Takes(states[n - 1], steps[n - 1], states[(n - 1) + 1], parses, false);
      StepCountsFailures(states[n - 1], steps[n - 1], states[n], parses, c, Failures(steps, states, parses, c, n - 1));
    }
  }

  /** In any run, however many writers share a process: a read that found a file comes
      back empty exactly when it met five contents in a row that do not parse. One
      that does not return goes on with what is published now. */
  lemma EmptyReadIff(steps: seq<Step>, states: seq<State>, parses: string -> bool, n: nat, c: Client)
    requires IsRun(steps, states, parses, false) && n < |steps| && steps[n] == FinishRead(c)
    ensures c in states[n].readers && 0 <= states[n].readers[c].since < |states[n].history|
    ensures Log(states[n + 1], c) == Log(states[n], c) + [ReadResult(states[n].readers[c].since, None)]
       <==> Failures(steps, states, parses, c, n + 1) == 5
    ensures Log(states[n + 1], c) == Log(states[n], c)
       <==> 0 < Failures(steps, states, parses, c, n + 1) < 5
    ensures 0 < Failures(steps, states, parses, c, n + 1) < 5 ==>
              && c in states[n + 1].readers && states[n].published.Some?
              && states[n + 1].readers[c] == Reader(states[n].published.value, "", |states[n].history| - 1, Failures(steps, states, parses, c, n + 1))
  {
    RunCountsFailures(steps, states, parses, c, n);
    assert Takes(states[n], steps[n], states[n + 1], parses, false);
    var s, t, r := states[n], states[n + 1], states[n].readers[c];
    if parses(r.got) {
      assert t == Returned(s, c, r.since, Some(r.got));
      assert Log(t, c)[|Log(s, c)|] == ReadResult(r.since, Some(r.got));
    } else if r.attempt + 1 < ATTEMPTS {
      assert |Log(t, c)| == |Log(s, c)|;
    }
  }

  // ---- Two writers in one process ---------------------------------------------------

  lemma ExtendRun(steps: seq<Step>, states: seq<State>, step: Step, t: State, parses: string -> bool, exclusive: bool)
    requires IsRun(steps, states, parses, exclusive)
    requires Takes(states[|steps|], step, t, parses, exclusive)
    ensures IsRun(steps + [step], states + [t], parses, exclusive)
  {
    var steps', states' := steps + [step], states + [t];
    forall i | 0 <= i < |steps'| ensures Takes(states'[i], steps'[i], states'[i + 1], parses, exclusive) {
      if i < |steps| {
        assert states'[i] == states[i] && steps'[i] == steps[i] && states'[i + 1] == states[i + 1];
      } else {
        assert states'[i] == states[|steps|] && steps'[i] == step && states'[i + 1] == t;
      }
    }
  }

  lemma {:induction false} Above(inodes: set<Inode>) returns (unused: Inode)
    ensures forall i :: i in inodes ==> i < unused
  {
    if inodes == {} {
      unused := 0;
    } else {
      var i :| i in inodes;
      var rest := Above(inodes - {i});
      unused := if i < rest then rest else i + 1;
      forall j | j in inodes ensures j < unused {
        if j != i { assert j in inodes - {i}; }
      }
    }
  }

  /** A run whose writers have the process ids of their clients. */
  ghost predicate IsAssignedRun(steps: seq<Step>, states: seq<State>, parses: string -> bool, pidOf: Client -> Pid)
  {
    && IsRun(steps, states, parses, false)
    && forall i :: 0 <= i < |steps| && steps[i].OpenTemp? ==> steps[i].pid == pidOf(steps[i].client)
  }

  lemma Goes(steps: seq<Step>, states: seq<State>, step: Step, unused: Inode, parses: string -> bool, pidOf: Client -> Pid)
    returns (steps': seq<Step>, states': seq<State>)
    requires IsAssignedRun(steps, states, parses, pidOf) && (step.OpenTemp? ==> step.pid == pidOf(step.client))
    requires CanStep(states[|steps|], step, parses, false) && unused !in states[|steps|].files
    ensures IsAssignedRun(steps', states', parses, pidOf) && states'[0] == states[0]
    ensures steps' == steps + [step] && states'[|steps'|] == After(states[|steps|], step, parses, unused)
  {
    var t := After(states[|steps|], step, parses, unused);
    ExtendRun(steps, states, step, t, parses, false);
    steps', states' := steps + [step], states + [t];
  }

  /** The state in which the first of two writers that share a process has filled the
      temporary file and the second has opened, and so truncated, the same one. */
  function Truncated(s: State, u: Inode, c: Client, d: Client, pid: Pid, payload: string): State
  {
    s.(files := s.files[u := ""], temps := map[pid := u],
       writers := map[c := Writer(pid, u, payload, |payload|), d := Writer(pid, u, payload, 0)])
  }

  lemma FirstFills(s: State, u: Inode, c: Client, payload: string, parses: string -> bool, pidOf: Client -> Pid)
    returns (steps: seq<Step>, states: seq<State>)
    requires Initial(s, parses) && u !in s.files && parses(payload)
    ensures IsAssignedRun(steps, states, parses, pidOf) && states[0] == s
    ensures states[|steps|] == s.(files := s.files[u := payload], temps := map[pidOf(c) := u],
                                  writers := map[c := Writer(pidOf(c), u, payload, |payload|)])
  {
    var pid := pidOf(c);
    steps, states := [], [s];
    steps, states := Goes(steps, states, OpenTemp(c, pid, payload), u, parses, pidOf);
    var t := s.(files := s.files[u := ""], temps := map[pid := u], writers := map[c := Writer(pid, u, payload, 0)]);
    assert states[|steps|] == t;
    var u' := Above(t.files.Keys);
    Fills(t, u, c, payload, parses, u');
    steps, states := Goes(steps, states, WriteChunk(c, |payload|), u', parses, pidOf);
    assert t.files[u := payload] == s.files[u := payload];
  }

  lemma Fills(t: State, u: Inode, c: Client, payload: string, parses: string -> bool, unused: Inode)
    requires c in t.writers && t.writers[c] == Writer(t.writers[c].pid, u, payload, 0) && u in t.files && t.files[u] == ""
    ensures CanStep(t, WriteChunk(c, |payload|), parses, false)
    ensures After(t, WriteChunk(c, |payload|), parses, unused)
         == t.(files := t.files[u := payload], writers := t.writers[c := Writer(t.writers[c].pid, u, payload, |payload|)])
  {
    assert Splice("", 0, payload) == payload && payload[0..|payload|] == payload;
  }

  lemma SecondTruncates(s: State, u: Inode, c: Client, d: Client, payload: string, parses: string -> bool, pidOf: Client -> Pid)
    returns (steps: seq<Step>, states: seq<State>)
    requires Initial(s, parses) && u !in s.files && c != d && pidOf(c) == pidOf(d) && parses(payload)
    ensures IsAssignedRun(steps, states, parses, pidOf) && states[0] == s
    ensures states[|steps|] == Truncated(s, u, c, d, pidOf(c), payload)
  {
    steps, states := FirstFills(s, u, c, payload, parses, pidOf);
    var t := states[|steps|];
    var u' := Above(t.files.Keys);
    steps, states := Goes(steps, states, OpenTemp(d, pidOf(d), payload), u', parses, pidOf);
    assert t.files[u := ""] == s.files[u := ""] && t.temps[pidOf(d) := u] == t.temps;
  }

  /** Two clients in one process break the protocol from any state without writers and
      readers, for every payload: the second opens, and so truncates, the temporary
      file the first is about to publish, and an empty file replaces whatever was
      published. */
  lemma SharedTempPublishesEmptyFile(s: State, c: Client, d: Client, payload: string, parses: string -> bool, pidOf: Client -> Pid)
    returns (steps: seq<Step>, states: seq<State>)
    requires Initial(s, parses) && c != d && pidOf(c) == pidOf(d) && payload != "" && parses(payload)
    ensures IsAssignedRun(steps, states, parses, pidOf) && states[0] == s
    ensures var t := states[|steps|];
      && t.published.Some? && t.published.value in t.files && t.files[t.published.value] == ""
      && t.history == s.history + [payload] && t.readers == map[] && t.results == map[]
  {
    var u := Above(s.files.Keys);
    steps, states := SecondTruncates(s, u, c, d, payload, parses, pidOf);
    var u' := Above(states[|steps|].files.Keys);
    steps, states := Goes(steps, states, Replace(c), u', parses, pidOf);
  }

  /** A client that then reads, while nothing else happens, fails five times and takes
      the existing file for an absent one. */
  lemma SharedTempEmptiesReads(s: State, c: Client, d: Client, r: Client, payload: string, parses: string -> bool, pidOf: Client -> Pid)
    returns (steps: seq<Step>, states: seq<State>)
    requires Initial(s, parses) && c != d && pidOf(c) == pidOf(d) && payload != "" && parses(payload) && !parses("")
    ensures IsAssignedRun(steps, states, parses, pidOf) && states[0] == s
    ensures var t := states[|steps|];
      t.history == s.history + [payload] && t.results == map[r := [ReadResult(|s.history|, None)]]
  {
    steps, states := SharedTempPublishesEmptyFile(s, c, d, payload, parses, pidOf);
    var t := states[|steps|];
    var u := Above(t.files.Keys);
    steps, states := Goes(steps, states, OpenRead(r), u, parses, pidOf);
    for k := 0 to ATTEMPTS - 1
      invariant IsAssignedRun(steps, states, parses, pidOf) && states[0] == s
      invariant states[|steps|] == t.(readers := map[r := Reader(t.published.value, "", |s.history|, k)])
    {
      steps, states := Goes(steps, states, FinishRead(r), u, parses, pidOf);
    }
    var before := states[|steps|];
    steps, states := Goes(steps, states, FinishRead(r), u, parses, pidOf);
    assert states[|steps|] == Returned(before, r, |s.history|, None);
    assert Log(before, r) + [ReadResult(|s.history|, None)] == [ReadResult(|s.history|, None)];
  }

  // ---- Exactly when the protocol is safe ------------------------------------------------

  /** No two clients share a process. */
  ghost predicate OwnProcesses(pidOf: Client -> Pid)
  {
    forall c, d :: pidOf(c) == pidOf(d) ==> c == d
  }

  lemma {:induction false} WritersHaveTheirPids(steps: seq<Step>, states: seq<State>, parses: string -> bool, pidOf: Client -> Pid, n: nat)
    requires IsAssignedRun(steps, states, parses, pidOf) && n < |states|
    ensures forall c :: c in states[n].writers ==> states[n].writers[c].pid == pidOf(c)
  {
    if n > 0 {
      WritersHaveTheirPids(steps, states, parses, pidOf, n - 1);
      assert Takes(states[n - 1], steps[n - 1], states[(n - 1) + 1], parses, false);
      assert steps[n - 1].OpenTemp? ==> steps[n - 1].pid == pidOf(steps[n - 1].client);
    }
  }

  lemma OwnProcessesAreExclusive(steps: seq<Step>, states: seq<State>, parses: string -> bool, pidOf: Client -> Pid)
    requires IsAssignedRun(steps, states, parses, pidOf) && OwnProcesses(pidOf)
    ensures IsRun(steps, states, parses, true)
  {
    forall i | 0 <= i < |steps| ensures Takes(states[i], steps[i], states[i + 1], parses, true) {
      assert Takes(states[i], steps[i], states[i + 1], parses, false);
      WritersHaveTheirPids(steps, states, parses, pidOf, i);
    }
  }

  function Nothing(): State
  {
    State(map[], None, map[], map[], map[], map[], [])
  }

  /** The published file is always the latest complete payload, in every run, if and
      only if no two clients share a process. */
  lemma PublishesLatestIff(payload: string, parses: string -> bool, pidOf: Client -> Pid)
    requires payload != "" && parses(payload)
    ensures OwnProcesses(pidOf)
       <==> forall steps, states, n: nat :: IsAssignedRun(steps, states, parses, pidOf) && n < |states| ==> PublishesLatest(states[n])
  {
    if OwnProcesses(pidOf) {
      forall steps, states, n: nat | IsAssignedRun(steps, states, parses, pidOf) && n < |states| ensures PublishesLatest(states[n]) {
        OwnProcessesAreExclusive(steps, states, parses, pidOf);
        ReadsAreAtomic(steps, states, parses, n);
      }
    } else {
      var c, d :| pidOf(c) == pidOf(d) && c != d;
      var steps, states := SharedTempPublishesEmptyFile(Nothing(), c, d, payload, parses, pidOf);
      assert !PublishesLatest(states[|steps|]);
    }
  }

  /** Where an empty file does not parse: every read returns what was published when
      it began, in every run, if and only if no two clients share a process. */
  lemma ReadsWholeIff(payload: string, parses: string -> bool, pidOf: Client -> Pid)
    requires payload != "" && parses(payload) && !parses("")
    ensures OwnProcesses(pidOf)
       <==> forall steps, states, n: nat :: IsAssignedRun(steps, states, parses, pidOf) && n < |states| ==> ReadsWhole(states[n])
  {
    if OwnProcesses(pidOf) {
      forall steps, states, n: nat | IsAssignedRun(steps, states, parses, pidOf) && n < |states| ensures ReadsWhole(states[n]) {
        OwnProcessesAreExclusive(steps, states, parses, pidOf);
        ReadsAreAtomic(steps, states, parses, n);
      }
    } else {
      var c, d :| pidOf(c) == pidOf(d) && c != d;
      var steps, states := SharedTempEmptiesReads(Nothing(), c, d, c, payload, parses, pidOf);
      var t := states[|steps|];
      assert c in t.results && !ResultOk(t, t.results[c][0]);
    }
  }
}

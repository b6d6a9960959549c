/**
 * src/fanout-outcome-store.ts: the per-parent outcome records the barrier consults, and their file. Every method is the
 * code between two awaits, so that calls can overlap.
 */
module FanoutOutcomeStore {
  import opened Prelude

  datatype OutcomeType = NotDeclared | Waived | Awaiting | Refused | PendingApproval | Failed

  datatype FanoutOutcome = FanoutOutcome(outcome: OutcomeType, childIdentifiers: Option<seq<string>>)

  type Records = map<string, FanoutOutcome>

  /** The load of the file: not under way, waiting for the file, or holding what the file said. */
  datatype Load = Idle | Reading | Fetched(content: Records)

  /**
   * The module's memory, the file (`None` while there is no parseable one), and the writes on their way to it, each with
   * the whole map as it was when the write was started.
   */
  datatype Store = Store(records: Records, loaded: bool, load: Load, file: Option<Records>, pending: seq<Records>)

  /** A process that has just started. */
  function Started(file: Option<Records>): Store {
    Store(map[], false, Idle, file, [])
  }

  /** The first use clears the memory and marks it loaded, before the file is read. */
  function Claim(s: Store): Store {
    if s.loaded then s else s.(records := map[], loaded := true, load := Reading)
  }

  /** The file is read; a failed read is an empty store. */
  function Scan(s: Store, readable: bool): Store {
    if s.load.Reading? then s.(load := Fetched(if readable then s.file.GetOr(map[]) else map[])) else s
  }

  /** What the file said is written over the memory. */
  function Fill(s: Store): Store {
    if s.load.Fetched? then s.(records := s.records + s.load.content, load := Idle) else s
  }

  /** A record changes the memory and starts a write of all of it. */
  function Put(s: Store, parent: string, outcome: FanoutOutcome): Store {
    if s.loaded then
      var records := s.records[parent := outcome];
      s.(records := records, pending := s.pending + [records])
    else s
  }

  function Drop(s: Store, parent: string): Store {
    if parent in s.records then
      var records := s.records - {parent};
      s.(records := records, pending := s.pending + [records])
    else s
  }

  /** One of the started writes reaches the file, or throws. */
  function Land(s: Store, k: nat, writable: bool): Store {
    if k < |s.pending| then
      s.(file := if writable then Some(s.pending[k]) else s.file, pending := s.pending[..k] + s.pending[k + 1..])
    else s
  }

  class OutcomeStore {
    var records: Records
    var loaded: bool
    var load: Load
    var file: Option<Records>
    var pending: seq<Records>

    ghost function Contents(): Store
      reads this
    {
      Store(records, loaded, load, file, pending)
    }

    constructor (file: Option<Records>)
      ensures Contents() == Started(file)
    {
      this.records, this.loaded, this.load, this.file, this.pending := map[], false, Idle, file, [];
    }

    /** `ensureLoaded` up to its await; only the caller it is true for goes on to read the file. */
    method BeginLoad() returns (mine: bool)
      modifies this
      ensures Contents() == Claim(old(Contents()))
      ensures mine <==> !old(loaded)
    {
      mine := !loaded;
      if mine {
        records := map[];
        loaded := true;
        load := Reading;
      }
    }

    method ReadFile(readable: bool)
      modifies this
      ensures Contents() == Scan(old(Contents()), readable)
    {
      if load.Reading? {
        load := Fetched(if readable then file.GetOr(map[]) else map[]);
      }
    }

    method FinishLoad()
      modifies this
      ensures Contents() == Fill(old(Contents()))
    {
      if load.Fetched? {
        records := records + load.content;
        load := Idle;
      }
    }

    method GetFanoutOutcome(parent: string) returns (r: Option<FanoutOutcome>)
      requires loaded
      ensures r == Lookup(records, parent)
    {
      r := Lookup(records, parent);
    }

    method RecordFanoutOutcome(parent: string, outcome: FanoutOutcome)
      requires loaded
      modifies this
      ensures Contents() == Put(old(Contents()), parent, outcome)
    {
      records := records[parent := outcome];
      pending := pending + [records];
    }

    method RemoveFanoutOutcome(parent: string) returns (had: bool)
      requires loaded
      modifies this
      ensures Contents() == Drop(old(Contents()), parent)
      ensures had <==> parent in old(records)
    {
      had := parent in records;
      if had {
        records := records - {parent};
        pending := pending + [records];
      }
    }

    method FinishWrite(k: nat, writable: bool)
      requires k < |pending|
      modifies this
      ensures Contents() == Land(old(Contents()), k, writable)
    {
      if writable {
        file := Some(pending[k]);
      }
      pending := pending[..k] + pending[k + 1..];
    }
  }

  // ---- Runs ----

  datatype Event =
    | BeginsLoad
    | ReadsFile(readable: bool)
    | FinishesLoad
    | Gets(parent: string)
    | Recording(parent: string, outcome: FanoutOutcome)
    | Removes(parent: string)
    | Lands(k: nat, writable: bool)
    | Restarts

  function Step(s: Store, e: Event): Store {
    match e
    case BeginsLoad => Claim(s)
    case ReadsFile(readable) => Scan(s, readable)
    case FinishesLoad => Fill(s)
    case Gets(_) => s
    case Recording(p, o) => Put(s, p, o)
    case Removes(p) => Drop(s, p)
    case Lands(k, writable) => Land(s, k, writable)
    case Restarts => Started(s.file)
  }

  function Run(s: Store, es: seq<Event>): Store {
    if es == [] then s else Step(Run(s, es[..|es| - 1]), es[|es| - 1])
  }
}

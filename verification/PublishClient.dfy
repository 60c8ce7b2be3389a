/** publish.py, upload and prune, as the sequence of steps between which a process can die.
    A step is one request, one reply, one save, or one stretch of local work. */
module PublishClient {
  import opened Basics
  import opened Publish

  datatype Work = Work(key: string, item: Item)

  /** One command: its desired set is computed before anything else happens. */
  datatype Task =
    | Upload(work: seq<Work>, checkOnly: bool, retryFailed: bool)
    | Prune(desired: seq<string>, apply: bool)

  /** The next thing the process does. */
  datatype Pc =
    | Off                                                        // no process
    | Admission                                                  // 205, 266: check current authorization
    | Between                                                    // 206: take the next desired key
    | Marked(key: string)                                        // 231: save the intent
    | Posting(key: string)                                       // 232: send the creation request
    | Awaiting(key: string)                                      // its answer
    | Reading(key: string, mayRetry: bool)                       // 165: read the document of a known id
    | Fresh(key: string, mayRetry: bool)                         // 171: save what was read
    | Reparsing(key: string)                                     // 223: ask for another parse
    | Listing(key: string, scan: Scan)                           // 177: read one page
    | Rebound(key: string)                                       // 196: save the reconciled record
    | Closing(key: string)                                       // 242: save the record
    | Verifying(left: seq<string>)                               // 267: re-read the desired keys
    | Verified(left: seq<string>)                                // 171 within 271
    | Refusing                                                   // 273: a replacement is not ready
    | Sweeping(unread: set<string>, candidates: seq<string>)       // 275: re-read the obsolete records
    | Swept(unread: set<string>, candidates: seq<string>)          // 171 within 277
    | Retiring(candidates: seq<string>)                          // 282: request a deletion
    | Leaving(candidates: seq<string>)                           // its answer
    | Gone(candidates: seq<string>)                              // 284: save the retirement

  /** `disk` is state.json; `mem` is the process's copy of the records; `reread` are the keys this
      process has re-read as completed. */
  datatype Client = Client(
    disk: map<string, Record>, mem: map<string, Record>,
    task: Task, todo: seq<Work>, reread: set<string>, pc: Pc)

  datatype Event =
    | Begin(task: Task) | Stop
    | Local | Save
    | Post | Delete
    | Got(reply: Reply)                 // the reply to the request the pc waits for
    | GotSweep(key: string, reply: Reply)

  /** What is sent to the service. */
  datatype Request =
    | Check | Fetch(id: string) | Reparse(id: string) | List(page: nat) | Create(filename: string) | Remove(id: string)

  const IDLE := Client(map[], map[], Upload([], true, false), [], {}, Off)

  predicate Startable(t: Task) {
    t.Upload? || t.desired != []
  }

  /** A record prune may retire. */
  predicate Obsolete(mem: map<string, Record>, desired: seq<string>, k: string) {
    k in mem && k !in desired && mem[k].owned && mem[k].id != "" && !mem[k].deleted
  }

  function Put(c: Client, k: string, r: Record, pc: Pc): Client {
    c.(mem := c.mem[k := r], pc := pc)
  }

  function Next(kb: string, c: Client, e: Event): Option<Client> {
    match e
    case Stop => Some(c.(pc := Off))
    case Begin(t) =>
      if c.pc == Off && Startable(t)
      then Some(Client(c.disk, c.disk, t, if t.Upload? then t.work else [], {}, Admission)) else None
    case Local => NextLocal(c)
    case Save => NextSave(c)
    case Post => if c.pc.Posting? then Some(c.(pc := Awaiting(c.pc.key))) else None
    case Delete =>
      if c.pc.Retiring? && c.pc.candidates != [] then Some(c.(pc := Leaving(c.pc.candidates))) else None
    case Got(reply) => NextGot(kb, c, reply)
    case GotSweep(k, reply) =>
      if c.pc.Sweeping? && k in c.pc.unread && k in c.mem then
        match Refreshed(kb, reply, c.mem[k])
        case Err(_) => Some(c.(pc := Off))
        case Ok(r) => Some(Put(c, k, r, Swept(c.pc.unread - {k}, c.pc.candidates + [k])))
      else None
  }

  /** Lines 206-230, and the local decisions of prune. */
  function NextLocal(c: Client): Option<Client> {
    match c.pc
    case Refusing => Some(c.(pc := Off))
    case Between => Some(if c.todo == [] then c.(pc := Off) else Take(c))
    case Verifying(left) =>
      if left == [] then
        if c.task.Prune? then
          Some(c.(pc := Sweeping(set k | k in c.mem && Obsolete(c.mem, c.task.desired, k), [])))
        else None
      else if !Replaceable(c.mem, left[0]) then Some(c.(pc := Off))
      else None
    case Sweeping(left, candidates) =>
      if left != {} then None
      else Some(c.(pc := if c.task.Prune? && c.task.apply then Retiring(candidates) else Off))
    case Retiring(candidates) => if candidates == [] then Some(c.(pc := Off)) else None
    case _ => None
  }

  predicate Replaceable(mem: map<string, Record>, k: string) {
    k in mem && mem[k].id != "" && !mem[k].deleted
  }

  function Take(c: Client): Client
    requires c.todo != []
  {
    var w := c.todo[0];
    var rest := c.(todo := c.todo[1..]);
    var checkOnly := c.task.Upload? && c.task.checkOnly;
    if w.key !in c.mem && checkOnly then rest
    else
      var r := (if w.key in c.mem then c.mem[w.key] else NewRecord(w.item)).(articles := w.item.articles);
      if r.deleted then Put(rest, w.key, OnFailure(RETIRED, r), Closing(w.key))
      else if r.id != "" then Put(rest, w.key, r, Reading(w.key, true))
      else if r.attempted then Put(rest, w.key, r, Listing(w.key, START))
      else if !checkOnly then Put(rest, w.key, r.(attempted := true, parse := "pending"), Marked(w.key))
      else Put(rest, w.key, r.(error := None), Closing(w.key))
  }

  function NextSave(c: Client): Option<Client> {
    var saved := c.(disk := c.mem);
    match c.pc
    case Marked(k) => Some(saved.(pc := Posting(k)))
    case Closing(_) => Some(saved.(pc := Between))
    case Rebound(k) => Some(saved.(pc := Closing(k)))
    case Fresh(k, mayRetry) =>
      if k !in c.mem then None
      else
        var retry := mayRetry && c.task.Upload? && c.task.retryFailed && c.mem[k].parse in {"failed", "cancelled"};
        Some(saved.(pc := if retry then Reparsing(k) else Closing(k)))
    case Verified(left) =>
      if left == [] || left[0] !in c.mem then None
      else Some(saved.(pc := if c.mem[left[0]].parse == "completed" then Verifying(left[1..]) else Refusing))
    case Swept(left, candidates) => Some(saved.(pc := Sweeping(left, candidates)))
    case Gone(candidates) => if candidates == [] then None else Some(saved.(pc := Retiring(candidates[1..])))
    case _ => None
  }

  function NextGot(kb: string, c: Client, reply: Reply): Option<Client> {
    match c.pc
    case Admission =>
      Some(c.(pc := if reply.Broken? then Off
                    else if c.task.Upload? then Between else Verifying(c.task.desired)))
    case Awaiting(k) =>
      if k !in c.mem then None
      else
        match Validated(kb, reply, c.mem[k]) {
          case Ok(d) => Some(Put(c, k, Uploaded(d, c.mem[k]), Closing(k)))
          case Err(f) => Some(Put(c, k, OnFailure(f, c.mem[k]), Closing(k)))
        }
    case Reading(k, mayRetry) =>
      if k !in c.mem then None
      else
        match Refreshed(kb, reply, c.mem[k]) {
          case Ok(r) => Some(Put(c, k, r, Fresh(k, mayRetry)))
          case Err(f) => Some(Put(c, k, OnFailure(f, c.mem[k]), Closing(k)))
        }
    case Reparsing(k) =>
      if k !in c.mem then None
      else if reply.Broken? then Some(Put(c, k, OnFailure(reply.failure, c.mem[k]), Closing(k)))
      else Some(c.(pc := Reading(k, false)))
    case Listing(k, scan) =>
      if k !in c.mem then None
      else
        match ScanPage(kb, c.mem[k], scan, reply) {
          case More(s) => Some(c.(pc := Listing(k, s)))
          case Bound(d) => Some(Put(c, k, Reconciled(d, c.mem[k]), Rebound(k)))
          case Lost(f) => Some(Put(c, k, OnFailure(f, c.mem[k]), Closing(k)))
        }
    case Verifying(left) =>
      if left == [] || !Replaceable(c.mem, left[0]) then None
      else
        match Refreshed(kb, reply, c.mem[left[0]]) {
          case Err(_) => Some(c.(pc := Off))
          case Ok(r) =>
            var read := Put(c, left[0], r, Verified(left));
            Some(if r.parse == "completed" then read.(reread := c.reread + {left[0]}) else read)
        }
    case Leaving(candidates) =>
      if candidates == [] || candidates[0] !in c.mem then None
      else if reply.Broken? then Some(c.(pc := Off))
      else Some(Put(c, candidates[0], c.mem[candidates[0]].(deleted := true), Gone(candidates)))
    case _ => None
  }

  /** The step sequence for one knowledge base, as a value. */
  function Sequence(kb: string): (Client, Event) -> Option<Client> {
    (c, e) => Next(kb, c, e)
  }

  /** The request an event stands for. An upload and a deletion are events of their own, apart from their answers. */
  function Asked(c: Client, e: Event): Option<Request> {
    match e
    case Post => if c.pc.Posting? && c.pc.key in c.mem then Some(Create(c.mem[c.pc.key].filename)) else None
    case Delete =>
      if c.pc.Retiring? && c.pc.candidates != [] && c.pc.candidates[0] in c.mem
      then Some(Remove(c.mem[c.pc.candidates[0]].id)) else None
    case GotSweep(k, _) => if k in c.mem then Some(Fetch(c.mem[k].id)) else None
    case Got(_) =>
      (match c.pc
       case Admission => Some(Check)
       case Listing(_, scan) => Some(List(scan.page))
       case Reading(k, _) => if k in c.mem then Some(Fetch(c.mem[k].id)) else None
       case Reparsing(k) => if k in c.mem then Some(Reparse(c.mem[k].id)) else None
       case Verifying(left) => if left != [] && left[0] in c.mem then Some(Fetch(c.mem[left[0]].id)) else None
       case _ => None)
    case _ => None
  }

  /** Two states that no later step can tell apart: the same, or no process and the same records on disk. */
  predicate Alike(c: Client, d: Client) {
    c == d || (c.pc.Off? && d.pc.Off? && c.disk == d.disk)
  }

  lemma AlikeNext(kb: string, c: Client, d: Client, e: Event)
    requires Alike(c, d) && Next(kb, c, e).Some?
    ensures Next(kb, d, e).Some? && Alike(Next(kb, c, e).value, Next(kb, d, e).value)
  {
  }
}

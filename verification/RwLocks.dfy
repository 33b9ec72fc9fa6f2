/** The read-write lock of a shard as one call meets it while other clients come and go.
    A writer that waits holds back the readers that come after it, and a reader that had
    to queue is let in when a writer leaves. */
module RwLocks {
  /** `readers` are those of other clients; `wanting`: a writer waits for them to leave. */
  datatype Gate<T> = Gate(items: T, writing: bool, wanting: bool, readers: nat)

  /** What other clients do. */
  datatype Visit<T> =
    | Join           // a reader enters
    | Part           // a reader leaves
    | Want           // a writer announces itself
    | Enter          // and enters
    | Leave(items: T)

  /** A reader that comes now need not queue. */
  predicate Open<T>(g: Gate<T>) { !g.writing && !g.wanting }

  /** `ours`: the call holds a read lock. */
  predicate CanVisit<T>(g: Gate<T>, ours: bool, v: Visit<T>) {
    match v
    case Join => Open(g)
    case Part => g.readers > 0
    case Want => Open(g)
    case Enter => g.wanting && g.readers == 0 && !ours
    case Leave(_) => g.writing
  }

  function Visited<T>(g: Gate<T>, v: Visit<T>): Gate<T> {
    match v
    case Join => g.(readers := g.readers + 1)
    case Part => g.(readers := if g.readers > 0 then g.readers - 1 else 0)
    case Want => g.(wanting := true)
    case Enter => g.(wanting := false, writing := true)
    case Leave(items) => g.(items := items, writing := false)
  }

  predicate GateOk<T>(g: Gate<T>, ours: bool) {
    g.writing ==> !g.wanting && g.readers == 0 && !ours
  }

  /** A client goes on towards leaving the lock. */
  predicate Goes<T>(v: Visit<T>) { v.Part? || v.Enter? || v.Leave? }

  /** How many clients have to go on before a queued reader is let in. */
  function Ahead<T>(g: Gate<T>): nat { if g.writing then 0 else 1 + g.readers }

  lemma VisitKeeps<T>(g: Gate<T>, ours: bool, v: Visit<T>)
    requires GateOk(g, ours) && CanVisit(g, ours, v)
    ensures GateOk(Visited(g, v), ours)
  {}

  /** Whoever keeps a reader waiting can go on. */
  lemma SomeoneGoes<T>(g: Gate<T>) returns (v: Visit<T>)
    requires !Open(g)
    ensures Goes(v) && CanVisit(g, false, v) && (v.Leave? ==> v.items == g.items)
  {
    v := if g.writing then Leave(g.items) else if g.readers > 0 then Part else Enter;
  }

  /** While a reader is queued nobody new gets ahead of it. */
  lemma AheadFalls<T>(g: Gate<T>, v: Visit<T>)
    requires GateOk(g, false) && !Open(g) && CanVisit(g, false, v) && !v.Leave?
    ensures !Open(Visited(g, v)) && Ahead(Visited(g, v)) < Ahead(g) && Goes(v)
  {}
}

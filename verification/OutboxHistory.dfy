/** An outbox row read as a history: its columns say how often it was claimed, what
    last happened to it, and when it was last released. */
module OutboxHistory {
  import opened Outbox
  import opened Wrappers

  datatype Touch = Unclaimed | Claimed | Acked | Released

  /** Claims of the row, the last thing a dispatcher did to it, and when one last
      gave it back. */
  datatype History = History(claims: nat, last: Touch, released: Option<int>)

  const NONE := History(0, Unclaimed, None)

  /** The dispatcher's lease is the one on the row. */
  predicate Holds(s: State, token: string, id: string) {
    id in s.rows && s.rows[id].token == token
  }

  function After(c: Config, s: State, a: Action, id: string, h: History): History
    requires Enabled(c, s, a)
  {
    match a
    case Claim(_, _, ids) => if id in ids then h.(claims := h.claims + 1, last := Claimed) else h
    case Ack(w) => if Holds(s, s.workers[w].token, id) then h.(last := Acked) else h
    case Release(w, now) =>
      if Holds(s, s.workers[w].token, id) then h.(last := Released, released := Some(now)) else h
    case _ => h
  }

  ghost function HistoryOf(c: Config, s: State, acts: seq<Action>, id: string, h: History): History
    decreases |acts|
  {
    if acts == [] || !Enabled(c, s, acts[0]) then h
    else HistoryOf(c, Apply(c, s, acts[0]), acts[1..], id, After(c, s, acts[0], id, h))
  }

  predicate Tells(c: Config, r: OutboxRow, h: History) {
    && r.attempts == h.claims
    && r.leaseExpires == (if h.released.Some? then Some(h.released.value + 30) else None)
    && match h.last
       case Unclaimed => r.status.Pending?
       case Claimed => r.status.Publishing?
       case Acked => r.status.Published?
       case Released => if r.attempts >= c.maxAttempts then r.status.Failed? else r.status.Pending?
  }

  predicate TellsAt(c: Config, s: State, id: string, h: History) {
    if id in s.rows then Tells(c, s.rows[id], h) else h == NONE
  }


  lemma StepTells(c: Config, s: State, a: Action, id: string, h: History)
    requires Enabled(c, s, a) && TellsAt(c, s, id, h)
    ensures TellsAt(c, Apply(c, s, a), id, After(c, s, a, id, h))
  {
  }

  lemma {:induction false} RunTells(c: Config, s: State, acts: seq<Action>, t: State, id: string, h: History)
    requires Reaches(c, s, acts, t) && TellsAt(c, s, id, h)
    ensures TellsAt(c, t, id, HistoryOf(c, s, acts, id, h))
    decreases |acts|
  {
    if acts != [] {
      StepTells(c, s, acts[0], id, h);
      RunTells(c, Apply(c, s, acts[0]), acts[1..], t, id, After(c, s, acts[0], id, h));
    }
  }

  /** In every run, with leases stolen and dispatchers crashing anywhere: attempts is
      the number of claims, the lease expiry is half a minute after the last release
      and is absent without one, and the status is what the last claim, ack or
      release made it; a release parks the row exactly when no attempt is left. */
  lemma RowTellsHistory(c: Config, acts: seq<Action>, t: State, id: string)
    requires Reaches(c, EMPTY, acts, t) && id in t.rows
    ensures Tells(c, t.rows[id], HistoryOf(c, EMPTY, acts, id, NONE))
  {
    RunTells(c, EMPTY, acts, t, id, NONE);
  }
}

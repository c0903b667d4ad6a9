/** USSD sessions: the table that tells a first callback from a later one, answers
    retries of a finished session, and forgets old ones; and the wire text. Each
    callback is taken as one atomic action. */
module Ussd {
  import opened Lists
  import opened Text
  import opened Wrappers

  datatype Session = Open | Ended(wire: string)

  datatype Table = Table(cap: nat, order: seq<string>, sessions: map<string, Session>)

  predicate IsOpen(t: Table, id: string) {
    id in t.sessions && t.sessions[id].Open?
  }

  /** Forget from the front down to the cap; an open session met on the way goes
      to the back and stops the sweep. */
  function Evict(t: Table): Table
    decreases |t.order|
  {
    if |t.order| <= t.cap then t
    else
      var oldest, rest := t.order[0], t.order[1..];
      if IsOpen(t, oldest) then t.(order := rest + [oldest])
      else Evict(t.(order := rest, sessions := t.sessions - {oldest}))
  }

  function Opened(t: Table, id: string): Table {
    Evict(t.(sessions := t.sessions[id := Open], order := t.order + [id]))
  }

  function Rewound(t: Table, id: string): Table {
    if IsOpen(t, id) then t.(sessions := t.sessions - {id}) else t
  }

  function Closed(t: Table, id: string, wire: string): Table {
    if id in t.sessions then t.(sessions := t.sessions[id := Ended(wire)]) else t
  }

  // ---- the wire ----

  datatype Reply = Reply(text: string, end: bool)

  predicate HasPrefix(s: string, p: string) {
    p <= s
  }

  datatype Wire = Wire(text: string, end: bool)

  function WireOf(r: Reply): Wire {
    if Blank(r.text) then Wire("", false)
    else if HasPrefix(r.text, "END ") then Wire(r.text, true)
    else if HasPrefix(r.text, "CON ") then Wire(r.text, false)
    else if r.end then Wire("END " + r.text, true)
    else Wire("CON " + r.text, false)
  }

  /** The wire text always says itself whether the session ends, it is the menu
      text with at most one prefix put in front, and the prefix written by the
      menu wins over the flag. */
  lemma WireSpeaksForItself(r: Reply)
    requires !Blank(r.text)
    ensures
      var w := WireOf(r);
      && (w.end <==> HasPrefix(w.text, "END "))
      && (!w.end <==> HasPrefix(w.text, "CON "))
      && (w.text == r.text || w.text == (if r.end then "END " else "CON ") + r.text)
      && (w.end != r.end ==> w.text == r.text)
      && forall flag :: WireOf(Reply(w.text, flag)) == w
  {
    var w := WireOf(r);
    assert w.text[..4] == "END " || w.text[..4] == "CON ";
    assert !Space(w.text[0]);
    assert "END "[0] == 'E' && "CON "[0] == 'C';
  }

  // ---- callbacks ----

  datatype Payload = Undecodable | Fields(sessionId: string, serviceCode: string, phoneNumber: string)

  predicate Acceptable(p: Payload) {
    p.Fields? && !Blank(p.sessionId) && !Blank(p.serviceCode) && !Blank(p.phoneNumber)
  }

  datatype Kind = Started | Continued | Finished

  datatype Event = Event(session: string, kind: Kind)

  datatype Answer = Text(wire: string) | Failure

  /** `answer` is what the menu handler would say to this callback, None an error. */
  datatype Callback = Callback(payload: Payload, answer: Option<Reply>)

  /** The table, the events emitted and the callbacks the handler was run for. */
  datatype State = State(table: Table, events: seq<Event>, handled: seq<string>)

  function Emitted(id: string, started: bool, end: bool): seq<Event> {
    [Event(id, if started then Started else Continued)] + (if end then [Event(id, Finished)] else [])
  }

  function Translated(s: State, cb: Callback): State {
    if !Acceptable(cb.payload) then s
    else
      var id := cb.payload.sessionId;
      var t := s.table;
      if id in t.sessions && t.sessions[id].Ended? then s
      else
        var started := id !in t.sessions;
        var begun := if started then Opened(t, id) else t;
        var ran := s.handled + [id];
        if cb.answer.None? || WireOf(cb.answer.value).text == "" then
          State(if started then Rewound(begun, id) else begun, s.events, ran)
        else
          var w := WireOf(cb.answer.value);
          State(if w.end then Closed(begun, id, w.text) else begun,
                s.events + Emitted(id, started, w.end), ran)
  }

  function AnswerTo(s: State, cb: Callback): Answer {
    if !Acceptable(cb.payload) then Failure
    else
      var id := cb.payload.sessionId;
      if id in s.table.sessions && s.table.sessions[id].Ended? then Text(s.table.sessions[id].wire)
      else if cb.answer.None? || WireOf(cb.answer.value).text == "" then Failure
      else Text(WireOf(cb.answer.value).text)
  }

  datatype Phase = First | Later | Retry(wire: string)

  class Adapter {
    const cap: nat
    var order: seq<string>
    var sessions: map<string, Session>
    ghost var events: seq<Event>
    ghost var handled: seq<string>

    ghost function Abs(): Table
      reads this
    {
      Table(cap, order, sessions)
    }

    ghost function Whole(): State
      reads this
    {
      State(Abs(), events, handled)
    }

    constructor (size: int)
      ensures Whole() == State(Table(if size <= 0 then 65536 else size, [], map[]), [], [])
    {
      cap := if size <= 0 then 65536 else size;
      order, sessions := [], map[];
      events, handled := [], [];
    }

    method EvictLocked()
      modifies this`order, this`sessions
      ensures Abs() == Evict(old(Abs()))
    {
      while |order| > cap
        invariant Evict(Abs()) == Evict(old(Abs()))
        decreases |order|
      {
        var oldest := order[0];
        order := order[1..];
        if oldest in sessions && sessions[oldest].Open? {
          order := order + [oldest];
          return;
        }
        sessions := sessions - {oldest};
      }
    }

    method Begin(id: string) returns (phase: Phase)
      modifies this`order, this`sessions
      ensures Abs() == if id in old(sessions) then old(Abs()) else Opened(old(Abs()), id)
      ensures phase == if id !in old(sessions) then First
                       else if old(sessions)[id].Ended? then Retry(old(sessions)[id].wire) else Later
    {
      if id in sessions {
        if sessions[id].Ended? { return Retry(sessions[id].wire); }
        return Later;
      }
      sessions := sessions[id := Open];
      order := order + [id];
      EvictLocked();
      return First;
    }

    method Rewind(id: string)
      modifies this`sessions
      ensures Abs() == Rewound(old(Abs()), id)
    {
      if id in sessions && sessions[id].Open? { sessions := sessions - {id}; }
    }

    method End(id: string, wire: string)
      modifies this`sessions
      ensures Abs() == Closed(old(Abs()), id, wire)
    {
      if id in sessions { sessions := sessions[id := Ended(wire)]; }
    }

    /** One carrier callback; a retry of a finished session never reaches the menu. */
    method Translate(cb: Callback) returns (answer: Answer)
      modifies this
      ensures Whole() == Translated(old(Whole()), cb)
      ensures answer == AnswerTo(old(Whole()), cb)
    {
      if !Acceptable(cb.payload) { return Failure; }
      var id := cb.payload.sessionId;
      var phase := Begin(id);
      if phase.Retry? { return Text(phase.wire); }
      handled := handled + [id];
      if cb.answer.None? {
        if phase.First? { Rewind(id); }
        return Failure;
      }
      var w := WireOf(cb.answer.value);
      if w.text == "" {
        if phase.First? { Rewind(id); }
        return Failure;
      }
      events := events + Emitted(id, phase.First?, w.end);
      if w.end { End(id, w.text); }
      return Text(w.text);
    }
  }

  // ---- every run ----

  function Init(cap: nat): State {
    State(Table(cap, [], map[]), [], [])
  }

  ghost function Run(s: State, cbs: seq<Callback>): State
    decreases |cbs|
  {
    if cbs == [] then s else Run(Translated(s, cbs[0]), cbs[1..])
  }

  lemma {:induction false} EvictKeepsOpen(t: Table, id: string)
    ensures IsOpen(Evict(t), id) <==> IsOpen(t, id)
    ensures id in Evict(t).sessions ==> id in t.sessions && Evict(t).sessions[id] == t.sessions[id]
    ensures Evict(t).cap == t.cap
    decreases |t.order|
  {
    if |t.order| > t.cap && !IsOpen(t, t.order[0]) {
      EvictKeepsOpen(t.(order := t.order[1..], sessions := t.sessions - {t.order[0]}), id);
    }
  }

  /** Where a session's events leave it, if they follow the grammar
      (started, continued*, ended)*; None once they do not. */
  ghost function Standing(events: seq<Event>, id: string): Option<bool>
    decreases |events|
  {
    if events == [] then Some(false)
    else
      var was, e := Standing(events[..|events| - 1], id), events[|events| - 1];
      if e.session != id then was
      else if e.kind.Started? then (if was == Some(false) then Some(true) else None)
      else if e.kind.Continued? then (if was == Some(true) then Some(true) else None)
      else (if was == Some(true) then Some(false) else None)
  }

  lemma StandingSnoc(events: seq<Event>, e: Event, id: string)
    ensures
      var was := Standing(events, id);
      Standing(events + [e], id) ==
      if e.session != id then was
      else if e.kind.Started? then (if was == Some(false) then Some(true) else None)
      else if e.kind.Continued? then (if was == Some(true) then Some(true) else None)
      else (if was == Some(true) then Some(false) else None)
  {
    assert (events + [e])[..|events|] == events;
  }

  ghost predicate Told(s: State, id: string) {
    Standing(s.events, id) == Some(IsOpen(s.table, id))
  }

  lemma OpenedOpens(t: Table, cid: string, id: string)
    requires cid !in t.sessions
    ensures IsOpen(Opened(t, cid), id) <==> id == cid || IsOpen(t, id)
  {
    EvictKeepsOpen(t.(sessions := t.sessions[cid := Open], order := t.order + [cid]), id);
  }

  lemma EmittedStanding(events: seq<Event>, cid: string, started: bool, end: bool, id: string)
    requires Standing(events, cid) == Some(!started)
    ensures Standing(events + Emitted(cid, started, end), id) == if id == cid then Some(!end) else Standing(events, id)
  {
    var e, f := Event(cid, if started then Started else Continued), Event(cid, Finished);
    StandingSnoc(events, e, id);
    StandingSnoc(events + [e], f, id);
    assert events + Emitted(cid, started, true) == events + [e] + [f];
    assert events + Emitted(cid, started, false) == events + [e];
  }

  /** The table and events after a session's callback was answered, or was not. */
  lemma AnswerTells(s: State, begun: Table, cid: string, started: bool, end: bool, wire: string, id: string)
    requires Told(s, id) && Told(s, cid) && IsOpen(s.table, cid) == !started && IsOpen(begun, cid)
    requires IsOpen(begun, id) <==> id == cid || IsOpen(s.table, id)
    ensures Standing(s.events + Emitted(cid, started, end), id) ==
            Some(IsOpen(if end then Closed(begun, cid, wire) else begun, id))
  {
    EmittedStanding(s.events, cid, started, end, id);
  }

  lemma StepTells(s: State, cb: Callback, id: string)
    requires Told(s, id) && (Acceptable(cb.payload) ==> Told(s, cb.payload.sessionId))
    ensures Told(Translated(s, cb), id)
  {
    if Acceptable(cb.payload) {
      var cid := cb.payload.sessionId;
      var started := cid !in s.table.sessions;
      if started {
        OpenedOpens(s.table, cid, id);
        OpenedOpens(s.table, cid, cid);
      }
      if cb.answer.Some? && (started || IsOpen(s.table, cid)) {
        var w := WireOf(cb.answer.value);
        AnswerTells(s, if started then Opened(s.table, cid) else s.table, cid, started, w.end, w.text, id);
      }
    }
  }

  lemma {:induction false} RunTells(s: State, cbs: seq<Callback>)
    requires forall id :: Told(s, id)
    ensures forall id :: Told(Run(s, cbs), id)
    decreases |cbs|
  {
    if cbs != [] {
      forall id ensures Told(Translated(s, cbs[0]), id) { StepTells(s, cbs[0], id); }
      RunTells(Translated(s, cbs[0]), cbs[1..]);
    }
  }

  /** The events of every session id, over the whole life of the adapter, are
      rounds of started, any number of continued, then ended, the last round
      perhaps unfinished; and it is unfinished exactly while the table holds the
      session open. Evictions and failing menus never break a round. */
  lemma EventsFormRounds(cap: nat, cbs: seq<Callback>, id: string)
    ensures Standing(Run(Init(cap), cbs).events, id) == Some(IsOpen(Run(Init(cap), cbs).table, id))
  {
    forall x ensures Told(Init(cap), x) {}
    RunTells(Init(cap), cbs);
    assert Told(Run(Init(cap), cbs), id);
  }

  /** A callback for another session, or a failing one, never closes an open
      session: only its own END does. */
  lemma OpenStaysOpen(s: State, cb: Callback, id: string)
    requires IsOpen(s.table, id)
    ensures IsOpen(Translated(s, cb).table, id) <==>
            !(Acceptable(cb.payload) && cb.payload.sessionId == id && cb.answer.Some? && WireOf(cb.answer.value).end)
  {
    if Acceptable(cb.payload) && cb.payload.sessionId !in s.table.sessions {
      var cid := cb.payload.sessionId;
      var t := s.table.(sessions := s.table.sessions[cid := Open], order := s.table.order + [cid]);
      EvictKeepsOpen(t, id);
      EvictKeepsOpen(t, cid);
    }
  }

  ghost predicate NewRound(events: seq<Event>, id: string) {
    Event(id, Started) in events
  }

  lemma EndedStays(s: State, cb: Callback, id: string, wire: string)
    requires id in s.table.sessions && s.table.sessions[id] == Ended(wire)
    ensures
      var t := Translated(s, cb);
      && s.events <= t.events
      && (id in t.table.sessions ==> t.table.sessions[id] == Ended(wire))
  {
    if Acceptable(cb.payload) && cb.payload.sessionId !in s.table.sessions {
      var cid := cb.payload.sessionId;
      EvictKeepsOpen(s.table.(sessions := s.table.sessions[cid := Open], order := s.table.order + [cid]), id);
    }
  }

  lemma GoneStays(s: State, cb: Callback, id: string)
    requires id !in s.table.sessions
    ensures s.events <= Translated(s, cb).events
    ensures id in Translated(s, cb).table.sessions ==> Event(id, Started) in Translated(s, cb).events[|s.events|..]
  {
    if Acceptable(cb.payload) && cb.payload.sessionId !in s.table.sessions {
      var cid := cb.payload.sessionId;
      EvictKeepsOpen(s.table.(sessions := s.table.sessions[cid := Open], order := s.table.order + [cid]), id);
      EvictKeepsOpen(s.table.(sessions := s.table.sessions[cid := Open], order := s.table.order + [cid]), cid);
      if cid == id && cb.answer.Some? && WireOf(cb.answer.value).text != "" {
        var w := WireOf(cb.answer.value);
        assert Translated(s, cb).events[|s.events|..] == Emitted(id, true, w.end);
        assert Emitted(id, true, w.end)[0] == Event(id, Started);
      }
    }
  }

  lemma {:induction false} RunKeepsEnded(s: State, cbs: seq<Callback>, id: string, wire: string)
    requires id in s.table.sessions ==> s.table.sessions[id] == Ended(wire)
    ensures s.events <= Run(s, cbs).events
    ensures id in Run(s, cbs).table.sessions && !NewRound(Run(s, cbs).events[|s.events|..], id) ==>
              Run(s, cbs).table.sessions[id] == Ended(wire)
    decreases |cbs|
  {
    if cbs != [] {
      var t, u := Translated(s, cbs[0]), Run(s, cbs);
      if id in s.table.sessions { EndedStays(s, cbs[0], id, wire); } else { GoneStays(s, cbs[0], id); }
      if id in t.table.sessions && t.table.sessions[id] != Ended(wire) {
        RunGrows(t, cbs[1..]);
        assert Event(id, Started) in t.events[|s.events|..];
        assert t.events[|s.events|..] <= u.events[|s.events|..];
      } else {
        RunKeepsEnded(t, cbs[1..], id, wire);
        var later, all := u.events[|t.events|..], u.events[|s.events|..];
        assert later == all[|t.events| - |s.events|..];
        assert Event(id, Started) in later ==> Event(id, Started) in all;
      }
    }
  }

  lemma {:induction false} RunGrows(s: State, cbs: seq<Callback>)
    ensures s.events <= Run(s, cbs).events
    decreases |cbs|
  {
    if cbs != [] { RunGrows(Translated(s, cbs[0]), cbs[1..]); }
  }

  /** A session answered with END stays answered: however many callbacks later,
      as long as the session is remembered and no new round of it began, a retry
      gets the same text, the menu is not run and nothing is emitted. */
  lemma EndIsReplayed(s: State, ending: Callback, cbs: seq<Callback>, retry: Callback)
    requires Acceptable(ending.payload) && Acceptable(retry.payload)
    requires retry.payload.sessionId == ending.payload.sessionId
    requires ending.answer.Some? && WireOf(ending.answer.value).end
    requires ending.payload.sessionId in s.table.sessions ==> IsOpen(s.table, ending.payload.sessionId)
    requires
      var t := Translated(s, ending);
      var u := Run(t, cbs);
      && ending.payload.sessionId in u.table.sessions
      && (t.events <= u.events ==> !NewRound(u.events[|t.events|..], ending.payload.sessionId))
    ensures
      var u := Run(Translated(s, ending), cbs);
      && AnswerTo(u, retry) == AnswerTo(s, ending) == Text(WireOf(ending.answer.value).text)
      && Translated(u, retry) == u
  {
    var id := ending.payload.sessionId;
    var t := Translated(s, ending);
    var w := WireOf(ending.answer.value);
    if id !in s.table.sessions {
      EvictKeepsOpen(s.table.(sessions := s.table.sessions[id := Open], order := s.table.order + [id]), id);
    }
    assert w.text != "";
    RunKeepsEnded(t, cbs, id, w.text);
  }

  /** The sweep brings the order within the cap if and only if no session that is
      still open stands among the entries it has to pass. */
  lemma {:induction false} EvictReachesCapIff(t: Table)
    ensures |Evict(t).order| <= t.cap <==> forall i | 0 <= i < |t.order| - t.cap :: !IsOpen(t, t.order[i])
    decreases |t.order|
  {
    if |t.order| > t.cap && !IsOpen(t, t.order[0]) {
      var next := t.(order := t.order[1..], sessions := t.sessions - {t.order[0]});
      EvictReachesCapIff(next);
      assert forall i | 0 <= i < |next.order| :: next.order[i] == t.order[i + 1];
      assert forall id :: IsOpen(next, id) <==> IsOpen(t, id);
      assert (forall i | 0 <= i < |next.order| - t.cap :: !IsOpen(t, next.order[i])) ==>
             forall j | 0 < j < |t.order| - t.cap :: !IsOpen(t, t.order[j]) by {
        if forall i | 0 <= i < |next.order| - t.cap :: !IsOpen(t, next.order[i]) {
          forall j | 0 < j < |t.order| - t.cap ensures !IsOpen(t, t.order[j]) { assert next.order[j - 1] == t.order[j]; }
        }
      }
    }
  }

  ghost predicate Listed(t: Table) {
    forall id | id in t.sessions :: id in t.order
  }

  lemma {:induction false} EvictListed(t: Table)
    requires Listed(t)
    ensures Listed(Evict(t))
    decreases |t.order|
  {
    if |t.order| > t.cap && !IsOpen(t, t.order[0]) {
      EvictListed(t.(order := t.order[1..], sessions := t.sessions - {t.order[0]}));
    }
  }

  /** Where the sweep gets through, the table is within its cap; so the cap can be
      passed only behind an open session. */
  lemma SweptTableWithinCap(t: Table, id: string)
    requires Listed(t) && id !in t.sessions
    requires forall i | 0 <= i < |t.order| + 1 - t.cap :: !IsOpen(t, (t.order + [id])[i]) && (t.order + [id])[i] != id
    ensures |Opened(t, id).sessions| <= t.cap
  {
    var w := t.(sessions := t.sessions[id := Open], order := t.order + [id]);
    EvictReachesCapIff(w);
    EvictKeepsOpen(w, id);
    EvictListed(w);
    KeysFit(Evict(w).sessions.Keys, Evict(w).order);
  }

  /** A witness: the cap does not bound the table while sessions are open. */
  lemma OpenSessionsOutgrowCap()
    ensures |Opened(Opened(Table(1, [], map[]), "a"), "b").sessions| == 2
  {
    var one := Opened(Table(1, [], map[]), "a");
    assert one == Table(1, ["a"], map["a" := Open]) by { assert [] + ["a"] == ["a"]; }
    assert ["a"] + ["b"] == ["a", "b"];
    assert Opened(one, "b").sessions == map["a" := Open, "b" := Open];
  }

  /** The sweep passes the n oldest entries, none of them an open session, and then
      either the order is down to the cap or an open session stopped it. */
  ghost predicate Sweeps(t: Table, n: nat, u: Table) {
    && n <= |t.order| && u.cap == t.cap
    && (forall i | 0 <= i < n :: !IsOpen(t, t.order[i]))
    && (forall id :: id in u.sessions <==> id in t.sessions && id !in t.order[..n])
    && (forall id | id in u.sessions :: u.sessions[id] == t.sessions[id])
    && if |t.order| - n <= t.cap
       then u.order == t.order[n..] && (n == 0 || |u.order| == t.cap)
       else IsOpen(t, t.order[n]) && u.order == t.order[n + 1..] + [t.order[n]]
  }

  /** What is forgotten is exactly the oldest entries above the cap, up to the first
      session that is still open; that one goes to the back of the order. */
  lemma {:induction false} EvictSweeps(t: Table) returns (n: nat)
    ensures Sweeps(t, n, Evict(t))
    decreases |t.order|
  {
    n := 0;
    if |t.order| > t.cap && !IsOpen(t, t.order[0]) {
      var next := t.(order := t.order[1..], sessions := t.sessions - {t.order[0]});
      var m := EvictSweeps(next);
      n := m + 1;
      SweepsOneMore(t, m, Evict(next));
    }
  }

  lemma SweepsOneMore(t: Table, m: nat, u: Table)
    requires |t.order| > t.cap && !IsOpen(t, t.order[0])
    requires Sweeps(t.(order := t.order[1..], sessions := t.sessions - {t.order[0]}), m, u)
    ensures Sweeps(t, m + 1, u)
  {
    var next := t.(order := t.order[1..], sessions := t.sessions - {t.order[0]});
    assert t.order[..m + 1] == [t.order[0]] + next.order[..m];
    assert t.order[m + 1..] == next.order[m..];
    forall i | 0 <= i < m + 1 ensures !IsOpen(t, t.order[i]) {
      if i > 0 { assert next.order[i - 1] == t.order[i]; }
    }
    if |next.order| - m > t.cap {
      assert next.order[m] == t.order[m + 1] && next.order[m + 1..] == t.order[m + 2..];
    }
  }

  /** The text the carrier is given for a menu's text. */
  predicate Renders(r: Reply, wire: string)
    requires |r.text| >= 4
  {
    if r.text[..4] == "END " || r.text[..4] == "CON " then wire == r.text
    else wire == (if r.end then "END " else "CON ") + r.text
  }

  predicate Answerable(s: State, cb: Callback) {
    Acceptable(cb.payload)
    && !(cb.payload.sessionId in s.table.sessions && s.table.sessions[cb.payload.sessionId].Ended?)
  }

  /** A callback of a session that has not ended runs the menu once and is given what
      the menu says, and a menu that fails or says nothing is a failure without
      events; any other callback does not reach the menu. */
  lemma MenuAnswers(s: State, cb: Callback)
    ensures
      var t := Translated(s, cb);
      if !Answerable(s, cb) then t == s
      else
        && t.handled == s.handled + [cb.payload.sessionId]
        && if cb.answer.None? || Blank(cb.answer.value.text) then AnswerTo(s, cb).Failure? && t.events == s.events
           else
             && AnswerTo(s, cb).Text?
             && |t.events| == |s.events| + (if "END " <= AnswerTo(s, cb).wire then 2 else 1)
             && (|cb.answer.value.text| >= 4 ==> Renders(cb.answer.value, AnswerTo(s, cb).wire))
             && (|cb.answer.value.text| < 4 ==>
                   AnswerTo(s, cb).wire == (if cb.answer.value.end then "END " else "CON ") + cb.answer.value.text)
  {
    if Answerable(s, cb) && cb.answer.Some? && !Blank(cb.answer.value.text) {
      var r := cb.answer.value;
      WireSpeaksForItself(r);
      assert "END "[0] == 'E' && "CON "[0] == 'C';
      assert "END " <= r.text <==> |r.text| >= 4 && r.text[..4] == "END ";
      assert "CON " <= r.text <==> |r.text| >= 4 && r.text[..4] == "CON ";
    }
  }
}

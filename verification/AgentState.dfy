/**
Revisioned agent state: one field hash and revision counter on the server, any number of
agent instances each holding a validated copy, and a network that may delay, repeat or lose
every request and response.  A field value is its JSON text.
 */
module AgentState {
  import opened Options

  type Fields = map<string, string>

  /** A state model: its field names, the defaults of `model()` and `model_validate`. */
  datatype Model = Model(names: set<string>, defaults: Fields, validate: Fields -> Option<Fields>) {
    /** A validated state is complete and validates to itself; missing fields take defaults. */
    ghost predicate LawfulOn(m: Fields) {
      && (validate(m).Some? ==> validate(m).value.Keys == names && validate(validate(m).value) == validate(m))
      && (m.Keys <= names ==> validate(m) == validate(defaults + m))
    }

    ghost predicate Lawful() {
      validate(defaults) == Some(defaults) && defaults.Keys == names && forall m :: LawfulOn(m)
    }
  }

  const MAX_REVISION := 9007199254740990

  datatype Server = Server(fields: Fields, revision: nat)

  datatype Answer = Revision(revision: nat) | Conflict | Invalid

  /** `_UPDATE`: no arguments leave the revision alone. */
  function Update(s: Server, expected: nat, data: Fields): (Server, Answer) {
    if s.revision > MAX_REVISION then (s, Invalid)
    else if s.revision != expected then (s, Conflict)
    else if data == map[] then (s, Revision(s.revision))
    else (Server(s.fields + data, s.revision + 1), Revision(s.revision + 1))
  }

  /** `_RESET`. */
  function Reset(s: Server, expected: nat): (Server, Answer) {
    if s.revision > MAX_REVISION then (s, Invalid)
    else if s.revision != expected then (s, Conflict)
    else (Server(map[], s.revision + 1), Revision(s.revision + 1))
  }

  /** An agent's local copy and the revision it came with. */
  datatype Copy = Copy(state: Fields, revision: nat)

  /** The state `update_state` validates, unless a field is unknown or a value refused. */
  function Updated(m: Model, state: Fields, updates: Fields): Option<Fields> {
    if updates.Keys <= m.names then m.validate(state + updates) else None
  }

  /** The fields sent: those named by the caller and those validation changed. */
  function Changes(state: Fields, updates: Fields, updated: Fields): Fields {
    map k | k in updated && (k in updates || k !in state || updated[k] != state[k]) :: updated[k]
  }

  /** `_load_state` on a snapshot. */
  function Loaded(m: Model, fields: Fields): Option<Fields> {
    if fields == map[] then Some(m.defaults) else m.validate(fields)
  }

  datatype Request =
    | UpdateRequest(expected: nat, data: Fields, target: Fields)
    | ResetRequest(expected: nat)
    | ReadRequest

  datatype Response = Revised(target: Fields, revision: nat) | Snapshot(fields: Fields, revision: nat)

  /** Requests and responses keep their agent's name; once sent they may arrive at any later
      time, any number of times, or never. */
  datatype System = System(
    server: Server,
    copies: map<nat, Copy>,
    requests: set<(nat, Request)>,
    responses: set<(nat, Response)>)

  datatype Step =
    | AskUpdate(id: nat, updates: Fields)
    | AskReset(id: nat)
    | AskRead(id: nat)
    | Serve(sent: (nat, Request))
    | Accept(got: (nat, Response))

  const INITIAL := System(Server(map[], 0), map[], {}, {})

  function Replied(answer: Answer, id: nat, target: Fields): set<(nat, Response)> {
    if answer.Revision? then {(id, Revised(target, answer.revision))} else {}
  }

  function Served(m: Model, s: System, id: nat, request: Request): System {
    match request
    case UpdateRequest(expected, data, target) =>
      var result := Update(s.server, expected, data);
      s.(server := result.0, responses := s.responses + Replied(result.1, id, target))
    case ResetRequest(expected) =>
      var result := Reset(s.server, expected);
      s.(server := result.0, responses := s.responses + Replied(result.1, id, m.defaults))
    case ReadRequest =>
      if s.server.revision > MAX_REVISION then s
      else s.(responses := s.responses + {(id, Snapshot(s.server.fields, s.server.revision))})
  }

  function Accepted(m: Model, s: System, id: nat, response: Response): System {
    match response
    case Revised(target, revision) => s.(copies := s.copies[id := Copy(target, revision)])
    case Snapshot(fields, revision) =>
      match Loaded(m, fields)
      case Some(state) => s.(copies := s.copies[id := Copy(state, revision)])
      case None => s
  }

  function Next(m: Model, s: System, step: Step): System {
    match step
    case AskUpdate(id, updates) =>
      if id !in s.copies then s else
        var copy := s.copies[id];
        (match Updated(m, copy.state, updates)
         case Some(target) =>
           var data := Changes(copy.state, updates, target);
           s.(requests := s.requests + {(id, UpdateRequest(copy.revision, data, target))})
         case None => s)
    case AskReset(id) =>
      if id !in s.copies then s else s.(requests := s.requests + {(id, ResetRequest(s.copies[id].revision))})
    case AskRead(id) => s.(requests := s.requests + {(id, ReadRequest)})
    case Serve(sent) => if sent in s.requests then Served(m, s, sent.0, sent.1) else s
    case Accept(got) => if got in s.responses then Accepted(m, s, got.0, got.1) else s
  }

  function Run(m: Model, steps: seq<Step>): System {
    if steps == [] then INITIAL else Next(m, Run(m, steps[..|steps| - 1]), steps[|steps| - 1])
  }

  /** The server's fields overlaid on the defaults. */
  function Overlay(m: Model, s: Server): Fields { m.defaults + s.fields }

  /** What the overlay was at each revision of a run. */
  function Versions(m: Model, steps: seq<Step>): seq<Fields> {
    if steps == [] then [m.defaults] else
      var before := Versions(m, steps[..|steps| - 1]);
      if Run(m, steps).server.revision > Run(m, steps[..|steps| - 1]).server.revision
      then before + [Overlay(m, Run(m, steps).server)] else before
  }

  ghost predicate ServerInv(m: Model, s: Server, versions: seq<Fields>) {
    && |versions| == s.revision + 1
    && versions[s.revision] == Overlay(m, s) && s.fields.Keys <= m.names
    && forall v :: v in versions ==> m.validate(v) == Some(v) && v.Keys == m.names
  }

  ghost predicate RequestInv(request: Request, versions: seq<Fields>, m: Model) {
    match request
    case UpdateRequest(expected, data, target) =>
      && expected < |versions| && versions[expected] + data == target
      && data.Keys <= m.names && m.validate(target) == Some(target)
    case ResetRequest(expected) => expected < |versions|
    case ReadRequest => true
  }

  ghost predicate ResponseInv(response: Response, versions: seq<Fields>, m: Model) {
    && response.revision < |versions|
    && match response
       case Revised(target, revision) => versions[revision] == target
       case Snapshot(fields, revision) => versions[revision] == m.defaults + fields && fields.Keys <= m.names
  }

  /** Every copy, request and response agrees with the version it names. */
  ghost predicate Inv(m: Model, s: System, versions: seq<Fields>) {
    && ServerInv(m, s.server, versions)
    && (forall id :: id in s.copies ==>
          s.copies[id].revision < |versions| && s.copies[id].state == versions[s.copies[id].revision])
    && (forall q :: q in s.requests ==> RequestInv(q.1, versions, m))
    && (forall a :: a in s.responses ==> ResponseInv(a.1, versions, m))
  }

  /** The fields sent turn the old state into the validated one. */
  lemma ChangesReach(m: Model, state: Fields, updates: Fields, target: Fields)
    requires state.Keys == m.names == target.Keys
    ensures state + Changes(state, updates, target) == target
  {
    var sent := state + Changes(state, updates, target);
    assert forall k :: k in m.names ==> sent[k] == target[k];
  }

  lemma AskKeeps(m: Model, versions: seq<Fields>, copy: Copy, updates: Fields)
    requires m.Lawful() && copy.revision < |versions| && copy.state == versions[copy.revision]
    requires copy.state.Keys == m.names
    requires Updated(m, copy.state, updates).Some?
    ensures var target := Updated(m, copy.state, updates).value;
      RequestInv(UpdateRequest(copy.revision, Changes(copy.state, updates, target), target), versions, m)
  {
    assert m.LawfulOn(copy.state + updates);
    ChangesReach(m, copy.state, updates, Updated(m, copy.state, updates).value);
  }

  /** Loading a snapshot gives the overlay. */
  lemma LoadedIsOverlay(m: Model, fields: Fields)
    requires m.Lawful() && fields.Keys <= m.names && m.validate(m.defaults + fields) == Some(m.defaults + fields)
    ensures Loaded(m, fields) == Some(m.defaults + fields)
  {
    assert m.LawfulOn(fields);
    if fields == map[] { assert m.defaults + fields == m.defaults; }
  }

  function Extended(m: Model, versions: seq<Fields>, before: Server, after: Server): seq<Fields> {
    if after.revision > before.revision then versions + [Overlay(m, after)] else versions
  }

  function Answered(s: Server, request: Request): (Server, Answer)
    requires !request.ReadRequest?
  {
    if request.UpdateRequest? then Update(s, request.expected, request.data) else Reset(s, request.expected)
  }

  lemma ServeKeeps(m: Model, s: Server, versions: seq<Fields>, request: Request, result: (Server, Answer))
    requires m.Lawful() && ServerInv(m, s, versions) && RequestInv(request, versions, m) && !request.ReadRequest?
    requires result == Answered(s, request)
    ensures ServerInv(m, result.0, Extended(m, versions, s, result.0))
    ensures result.1.Revision? ==>
      && Extended(m, versions, s, result.0)[result.0.revision]
         == (if request.UpdateRequest? then request.target else m.defaults)
      && result.1.revision == result.0.revision
  {
    if request.UpdateRequest? && result.1.Revision? {
      assert m.defaults + (s.fields + request.data) == Overlay(m, s) + request.data;
      assert request.data == map[] ==> versions[s.revision] + request.data == versions[s.revision];
    } else {
      assert m.defaults + map[] == m.defaults;
    }
  }

  lemma NextKeeps(m: Model, s: System, versions: seq<Fields>, step: Step)
    requires m.Lawful() && Inv(m, s, versions)
    ensures Inv(m, Next(m, s, step), Extended(m, versions, s.server, Next(m, s, step).server))
  {
    match step
    case AskUpdate(id, updates) =>
      if id in s.copies && Updated(m, s.copies[id].state, updates).Some? {
        AskKeeps(m, versions, s.copies[id], updates);
      }
    case AskReset(id) =>
    case AskRead(id) =>
    case Serve(sent) =>
      if sent in s.requests && !sent.1.ReadRequest? {
        ServeKeeps(m, s.server, versions, sent.1, Answered(s.server, sent.1));
      }
    case Accept(got) =>
      if got in s.responses && got.1.Snapshot? {
        assert ResponseInv(got.1, versions, m);
        assert versions[got.1.revision] in versions;
        LoadedIsOverlay(m, got.1.fields);
      }
  }

  lemma {:induction false} RunKeeps(m: Model, steps: seq<Step>)
    requires m.Lawful()
    ensures Inv(m, Run(m, steps), Versions(m, steps))
  {
    if steps == [] {
      assert m.defaults + map[] == m.defaults;
    } else {
      RunKeeps(m, steps[..|steps| - 1]);
      NextKeeps(m, Run(m, steps[..|steps| - 1]), Versions(m, steps[..|steps| - 1]), steps[|steps| - 1]);
    }
  }

  /**
  In every run, each agent's copy is the overlay the server had at that agent's revision; an
  agent whose revision is the server's therefore holds the server's fields over the defaults.
   */
  lemma CopiesAreVersions(m: Model, steps: seq<Step>, id: nat)
    requires m.Lawful() && id in Run(m, steps).copies
    ensures var s := Run(m, steps); var copy := s.copies[id];
      && copy.revision <= s.server.revision < |Versions(m, steps)|
      && copy.state == Versions(m, steps)[copy.revision]
      && (copy.revision == s.server.revision ==> copy.state == m.defaults + s.server.fields)
  {
    RunKeeps(m, steps);
  }

  /** `after` is one revision on top of `before`, made by this request: a reset, or an update
      whose every other field keeps its value. */
  ghost predicate Commits(m: Model, before: Server, after: Server, request: Request) {
    && !request.ReadRequest? && request.expected == before.revision && after.revision == before.revision + 1
    && before.fields.Keys <= m.names && after.fields.Keys <= m.names && m.defaults.Keys == m.names
    && if request.ResetRequest? then Overlay(m, after) == m.defaults
       else Overlay(m, after) == request.target
            && forall k :: k in m.names && k !in request.data ==> Overlay(m, after)[k] == Overlay(m, before)[k]
  }

  lemma ServeCommits(m: Model, s: Server, versions: seq<Fields>, request: Request, after: Server)
    requires m.Lawful() && ServerInv(m, s, versions) && RequestInv(request, versions, m) && !request.ReadRequest?
    requires after == Answered(s, request).0 && after != s
    ensures Commits(m, s, after, request)
  {
    assert m.defaults + map[] == m.defaults;
    if request.UpdateRequest? {
      assert m.defaults + (s.fields + request.data) == Overlay(m, s) + request.data;
    }
  }

  /** Every step of a run leaves the server alone or commits one revision on top of the newest
      one: a reset, or an update whose every other field keeps the value last committed. */
  lemma NothingIsOverwritten(m: Model, steps: seq<Step>, step: Step)
    requires m.Lawful()
    ensures var before, after := Run(m, steps).server, Run(m, steps + [step]).server;
      after == before || (step.Serve? && Commits(m, before, after, step.sent.1))
  {
    assert (steps + [step])[..|steps|] == steps;
    RunKeeps(m, steps);
    var s := Run(m, steps);
    if step.Serve? && step.sent in s.requests && !step.sent.1.ReadRequest? {
      var after := Answered(s.server, step.sent.1).0;
      assert RequestInv(step.sent.1, Versions(m, steps), m);
      if after != s.server { ServeCommits(m, s.server, Versions(m, steps), step.sent.1, after); }
    }
  }

  // ----- what an update and a read achieve -----

  /** An update is refused exactly for an unknown field or a refused value; if the model takes
      the values as they are, every named field gets its value and every other keeps its own. */
  lemma UpdatedMeans(m: Model, state: Fields, updates: Fields)
    ensures Updated(m, state, updates).None? <==> !(updates.Keys <= m.names) || m.validate(state + updates).None?
    ensures updates.Keys <= m.names && m.validate(state + updates) == Some(state + updates) ==>
      var target := Updated(m, state, updates).value;
      && (forall k :: k in updates ==> k in target && target[k] == updates[k])
      && (forall k :: k in state && k !in updates ==> k in target && target[k] == state[k])
      && target.Keys == state.Keys + updates.Keys
  {
  }

  /** Only what the caller named or validation changed is sent, and all of that. */
  lemma OnlyChangesAreSent(state: Fields, updates: Fields, updated: Fields)
    ensures var sent := Changes(state, updates, updated);
      && (forall k :: k in sent ==> k in updated && sent[k] == updated[k])
      && (forall k :: k in updated ==>
            (k !in sent <==> k !in updates && k in state && state[k] == updated[k]))
  {
  }

  /** The scripts take effect exactly at the expected revision: an update writes its fields and
      leaves the others, and counts a revision only if it writes any; a reset clears them all. */
  lemma ScriptsMean(s: Server, expected: nat, data: Fields)
    ensures var (after, answer) := Update(s, expected, data);
      && (answer.Revision? <==> s.revision == expected <= MAX_REVISION) && (!answer.Revision? ==> after == s)
      && (answer.Conflict? <==> s.revision != expected && s.revision <= MAX_REVISION)
      && (answer.Revision? ==>
            && answer.revision == after.revision == s.revision + (if data == map[] then 0 else 1)
            && after.fields.Keys == s.fields.Keys + data.Keys
            && forall k :: k in after.fields ==> after.fields[k] == if k in data then data[k] else s.fields[k])
    ensures var (after, answer) := Reset(s, expected);
      && (answer.Revision? <==> s.revision == expected <= MAX_REVISION) && (!answer.Revision? ==> after == s)
      && (answer.Conflict? <==> s.revision != expected && s.revision <= MAX_REVISION)
      && (answer.Revision? ==> answer.revision == after.revision == s.revision + 1 && after.fields == map[])
  {
  }

  /** The agent's copy is the newest version and no revision is out of range. */
  ghost predicate InStep(s: System, id: nat) {
    id in s.copies && s.copies[id].revision == s.server.revision <= MAX_REVISION
  }

  /**
  An update that is asked for, served and accepted without interference takes effect on both
  sides: afterwards the agent and the server hold the validated state, and the agent is still
  in step.  If the model takes the values as they are, that is the old state with the updates.
   */
  lemma UpdateTakesEffect(m: Model, steps: seq<Step>, id: nat, updates: Fields, target: Fields)
    requires m.Lawful() && InStep(Run(m, steps), id)
    requires Updated(m, Run(m, steps).copies[id].state, updates) == Some(target)
    ensures var s := Run(m, steps);
      var copy := s.copies[id];
      var sent := (id, UpdateRequest(copy.revision, Changes(copy.state, updates, target), target));
      var served := Next(m, Next(m, s, AskUpdate(id, updates)), Serve(sent));
      var got := (id, Revised(target, served.server.revision));
      var after := Next(m, served, Accept(got));
      && sent in Next(m, s, AskUpdate(id, updates)).requests && got in served.responses
      && id in after.copies && after.copies[id] == Copy(target, after.server.revision)
      && Overlay(m, after.server) == target
  {
    RunKeeps(m, steps);
    var s, versions := Run(m, steps), Versions(m, steps);
    var copy := s.copies[id];
    var request := UpdateRequest(copy.revision, Changes(copy.state, updates, target), target);
    AskKeeps(m, versions, copy, updates);
    ServeKeeps(m, s.server, versions, request, Answered(s.server, request));
  }

  /** A reset likewise leaves both sides with the defaults. */
  lemma ResetTakesEffect(m: Model, steps: seq<Step>, id: nat)
    requires m.Lawful() && InStep(Run(m, steps), id)
    ensures var s := Run(m, steps);
      var sent := (id, ResetRequest(s.copies[id].revision));
      var served := Next(m, Next(m, s, AskReset(id)), Serve(sent));
      var got := (id, Revised(m.defaults, served.server.revision));
      var after := Next(m, served, Accept(got));
      && sent in Next(m, s, AskReset(id)).requests && got in served.responses
      && id in after.copies && after.copies[id] == Copy(m.defaults, after.server.revision)
      && Overlay(m, after.server) == m.defaults
  {
    assert m.defaults + map[] == m.defaults;
  }

  /** A read that is served and accepted brings any agent in step with the server. */
  lemma ReadTakesEffect(m: Model, steps: seq<Step>, id: nat)
    requires m.Lawful() && Run(m, steps).server.revision <= MAX_REVISION
    ensures var s := Run(m, steps);
      var served := Next(m, Next(m, s, AskRead(id)), Serve((id, ReadRequest)));
      var got := (id, Snapshot(s.server.fields, s.server.revision));
      var after := Next(m, served, Accept(got));
      && got in served.responses && after.server == s.server
      && id in after.copies && after.copies[id] == Copy(Overlay(m, s.server), s.server.revision)
  {
    RunKeeps(m, steps);
    var s, versions := Run(m, steps), Versions(m, steps);
    assert versions[s.server.revision] in versions;
    LoadedIsOverlay(m, s.server.fields);
  }

  function Choose(written: Option<Server>, otherwise: Server): Server {
    if written.Some? then written.value else otherwise
  }

  /** What others wrote over `s`: they only add revisions. */
  predicate Overtakes(m: Model, s: Server, written: Option<Server>) {
    written.Some? ==> written.value.revision > s.revision && written.value.fields.Keys <= m.names
  }

  /** The server after serving an update of this copy. */
  function AfterUpdate(m: Model, s: Server, state: Fields, revision: nat, updates: Fields): Server {
    match Updated(m, state, updates)
    case None => s
    case Some(target) => Update(s, revision, Changes(state, updates, target)).0
  }

  /** The server's keys; its scripts change them in place. */
  class StateKeys {
    var fields: Fields
    var revision: nat

    ghost function Value(): Server reads this { Server(fields, revision) }

    /** What other instances left in the keys. */
    method Overwrite(written: Option<Server>)
      modifies this
      ensures Value() == Choose(written, old(Value()))
    {
      if written.Some? { fields, revision := written.value.fields, written.value.revision; }
    }

    method UpdateState(data: Fields, expected: nat) returns (answer: Answer)
      modifies this
      ensures (Value(), answer) == Update(old(Value()), expected, data)
      ensures answer.Revision? <==> old(revision) == expected <= MAX_REVISION
    {
      if revision > MAX_REVISION { return Invalid; }
      if revision != expected { return Conflict; }
      if data != map[] {
        fields := fields + data;
        revision := revision + 1;
      }
      return Revision(revision);
    }

    method ResetState(expected: nat) returns (answer: Answer)
      modifies this
      ensures (Value(), answer) == Reset(old(Value()), expected)
      ensures answer.Revision? <==> old(revision) == expected <= MAX_REVISION
    {
      if revision > MAX_REVISION { return Invalid; }
      if revision != expected { return Conflict; }
      fields := map[];
      revision := revision + 1;
      return Revision(revision);
    }
  }

  /** The state shows what the server held at this revision. */
  ghost predicate Shows(m: Model, state: Fields, revision: nat, s: Server) {
    && state.Keys == m.names && m.validate(state) == Some(state) && s.fields.Keys <= m.names
    && revision <= s.revision && (revision == s.revision ==> state == Overlay(m, s))
  }

  /** An update leaves the old copy right at the old revision, and the new one at the new. */
  lemma UpdateReaches(m: Model, s: Server, state: Fields, revision: nat, data: Fields, updated: Fields)
    requires Shows(m, state, revision, s) && state + data == updated && data.Keys <= m.names
    requires updated.Keys == m.names && m.validate(updated) == Some(updated)
    ensures var (after, answer) := Update(s, revision, data);
      && Shows(m, state, revision, after)
      && (answer.Revision? ==> Shows(m, updated, answer.revision, after) && answer.revision == after.revision)
  {
    assert m.defaults + (s.fields + data) == Overlay(m, s) + data;
    assert data == map[] ==> state + data == state;
  }

  /** An agent that commits its local copy only after a response has come back. */
  class Agent {
    var state: Fields
    var revision: nat

    ghost predicate Current(m: Model, server: StateKeys) reads this, server {
      Shows(m, state, revision, server.Value())
    }

    /**
    `update_state` while other instances write too: `before` is what they left when the request
    arrived, `later` what they left when the response came back, if they wrote at all.  `lost`
    drops the response.
     */
    method UpdateState(m: Model, server: StateKeys, updates: Fields, before: Option<Server>, later: Option<Server>,
                       lost: bool)
      returns (committed: bool)
      requires m.Lawful() && Current(m, server) && Overtakes(m, server.Value(), before)
      requires Overtakes(m, AfterUpdate(m, Choose(before, server.Value()), state, revision, updates), later)
      modifies this, server
      ensures Current(m, server)
      ensures committed ==> Updated(m, old(state), updates) == Some(state)
      ensures committed && later.None? ==> revision == server.revision
      ensures !committed ==> state == old(state) && revision == old(revision)
      ensures committed <==>
        && !lost && Updated(m, old(state), updates).Some?
        && before.None? && old(revision) == old(server.revision) <= MAX_REVISION
      ensures Updated(m, old(state), updates).None? ==> server.Value() == old(server.Value())
      ensures Updated(m, old(state), updates).Some? ==>
        server.Value()
        == Choose(later, AfterUpdate(m, Choose(before, old(server.Value())), old(state), old(revision), updates))
    {
      if !(updates.Keys <= m.names) { return false; }
      var validated := m.validate(state + updates);
      if validated.None? { return false; }
      var updated := validated.value;
      var data := Changes(state, updates, updated);
      assert m.LawfulOn(state + updates);
      ChangesReach(m, state, updates, updated);
      server.Overwrite(before);
      UpdateReaches(m, server.Value(), state, revision, data, updated);
      var answer := server.UpdateState(data, revision);
      server.Overwrite(later);
      if lost || !answer.Revision? { return false; }
      state := updated;
      revision := answer.revision;
      return true;
    }

    /** `reset_state`, likewise. */
    method ResetState(m: Model, server: StateKeys, before: Option<Server>, later: Option<Server>, lost: bool)
      returns (committed: bool)
      requires m.Lawful() && Current(m, server) && Overtakes(m, server.Value(), before)
      requires Overtakes(m, Reset(Choose(before, server.Value()), revision).0, later)
      modifies this, server
      ensures Current(m, server)
      ensures committed ==> state == m.defaults && (later.None? ==> revision == server.revision)
      ensures !committed ==> state == old(state) && revision == old(revision)
      ensures committed <==> !lost && before.None? && old(revision) == old(server.revision) <= MAX_REVISION
      ensures server.Value() == Choose(later, Reset(Choose(before, old(server.Value())), old(revision)).0)
    {
      server.Overwrite(before);
      var answer := server.ResetState(revision);
      server.Overwrite(later);
      if lost || !answer.Revision? { return false; }
      assert m.defaults + map[] == m.defaults;
      assert m.LawfulOn(m.defaults);
      state := m.defaults;
      revision := answer.revision;
      return true;
    }

    /** `_load_state`: fields that do not validate leave the copy as it was. */
    method LoadState(m: Model, server: StateKeys) returns (loaded: bool)
      requires m.Lawful()
      modifies this
      ensures loaded <==> Loaded(m, server.fields).Some?
      ensures loaded ==> Loaded(m, server.fields) == Some(state) && revision == server.revision
      ensures !loaded ==> state == old(state) && revision == old(revision)
      ensures var overlay := Overlay(m, server.Value());
        server.fields.Keys <= m.names && m.validate(overlay) == Some(overlay) ==> loaded && Current(m, server)
    {
      ghost var overlay := Overlay(m, server.Value());
      if server.fields.Keys <= m.names && m.validate(overlay) == Some(overlay) {
        LoadedIsOverlay(m, server.fields);
        assert m.LawfulOn(overlay);
      }
      if server.fields == map[] {
        state := m.defaults;
      } else {
        var validated := m.validate(server.fields);
        if validated.None? { return false; }
        state := validated.value;
      }
      revision := server.revision;
      return true;
    }
  }
}

/** The cached embeddings of the notes, as the view model keeps them while edits, debounce timers, indexing
    calls and model loads interleave. Every event is what runs between two suspension points: a piece of a
    main-actor method, or one call on the actor that owns the embedding model. */
module EmbeddingCache {

  import opened Text

  datatype Note = Note(title: string, content: string, embedding: Option<seq<real>>, model: Option<string>,
      hash: Option<string>)
  {
    /** What is embedded and hashed. */
    function Text(): string {
      title + "\n" + content
    }
  }

  datatype Answer = Waiting | Failed | Done(vector: seq<real>)

  /** An indexing call that is suspended at its embed call, with what it captured before. */
  datatype Call = Call(note: nat, model: string, text: string, hash: string, timer: Option<nat>, answer: Answer)

  /** A load is requested, then turned down before the old model is freed, or fails after it, or succeeds. */
  datatype LoadPhase = Requested | TurnedDown | Lost | Ready

  datatype Load = Load(id: string, phase: LoadPhase)

  datatype Then = KeepSelection | ClearSelection | Forget

  datatype Unload = Unload(done: bool, next: Then)

  datatype Timer = Timer(note: nat, cancelled: bool)

  /** The embedding function of each model and the content hash, which are not modelled further. */
  datatype World = World(embed: (string, string) -> seq<real>, hash: string -> string)
  {
    ghost predicate HashIsInjective() {
      forall x: string, y: string :: hash(x) == hash(y) ==> x == y
    }
  }

  /** The notes, the calls suspended at an embed call, and the debounce timers with the handles kept on them. */
  datatype Cache = Cache(notes: map<nat, Note>, calls: map<nat, Call>, timers: map<nat, Timer>, pending: map<nat, nat>)

  /** `current` is the selected model's id; `engine` is the model that the actor really holds. */
  datatype Models = Models(current: Option<string>, isLoaded: bool, isLoading: bool, engine: Option<string>,
                           loads: map<nat, Load>, unloads: map<nat, Unload>)

  datatype State = State(cache: Cache, models: Models)

  datatype NoteEvent =
    | Edit(note: nat, title: string, content: string)
    | Edited(note: nat, timer: nat)
    | Wake(timer: nat, call: nat)
    | Begin(note: nat, call: nat)
    | Embed(call: nat, succeeds: bool)
    | Finish(call: nat)

  datatype ModelEvent =
    | LoadBegin(load: nat, id: string)
    | LoadRun(load: nat, outcome: LoadPhase)
    | LoadEnd(load: nat)
    | UnloadBegin(unload: nat, next: Then)
    | UnloadRun(unload: nat)
    | UnloadEnd(unload: nat)
    | Background(unload: nat)
    | Normalize(catalog: set<string>)

  datatype Event = OnNotes(n: NoteEvent) | OnModels(m: ModelEvent)

  predicate NoteEventEnabled(s: Cache, e: NoteEvent) {
    match e
    case Edit(n, _, _) => n in s.notes
    case Edited(n, t) => n in s.notes && t !in s.timers
    case Wake(t, c) => t in s.timers && s.timers[t].note in s.notes && c !in s.calls
    case Begin(n, c) => n in s.notes && c !in s.calls
    case Embed(c, _) => c in s.calls && s.calls[c].answer == Waiting
    case Finish(c) => c in s.calls && s.calls[c].answer != Waiting && s.calls[c].note in s.notes
  }

  predicate ModelEventEnabled(s: Models, e: ModelEvent) {
    match e
    case LoadBegin(l, _) => l !in s.loads && !s.isLoading
    case LoadRun(l, outcome) => l in s.loads && s.loads[l].phase == Requested && outcome != Requested
    case LoadEnd(l) => l in s.loads && s.loads[l].phase != Requested
    case UnloadBegin(u, next) => u !in s.unloads && next != Forget
    case UnloadRun(u) => u in s.unloads && !s.unloads[u].done
    case UnloadEnd(u) => u in s.unloads && s.unloads[u].done
    case Background(u) => u !in s.unloads
    case Normalize(_) => true
  }

  predicate Enabled(s: State, e: Event) {
    match e
    case OnNotes(n) => NoteEventEnabled(s.cache, n)
    case OnModels(m) => ModelEventEnabled(s.models, m)
  }

  function Stale(n: Note): Note {
    n.(embedding := None, model := None, hash := None)
  }

  function Cancel(s: Cache, note: nat): map<nat, Timer> {
    if note in s.pending && s.pending[note] in s.timers
    then s.timers[s.pending[note] := s.timers[s.pending[note]].(cancelled := true)]
    else s.timers
  }

  /** What an indexing call captures before it suspends. */
  function Captured(w: World, n: Note, id: nat, model: string, timer: Option<nat>): Call {
    Call(id, model, n.Text(), w.hash(n.Text()), timer, Waiting)
  }

  function Indexed(n: Note, c: Call): Note
    requires c.answer.Done?
  {
    n.(embedding := Some(c.answer.vector), model := Some(c.model), hash := Some(c.hash))
  }

  function Answered(w: World, c: Call, engine: Option<string>, succeeds: bool): Call {
    c.(answer := if engine.None? || !succeeds then Failed else Done(w.embed(engine.value, c.text)))
  }

  function NextCache(w: World, s: Cache, m: Models, e: NoteEvent): Cache
    requires NoteEventEnabled(s, e)
  {
    match e
    case Edit(n, title, content) => s.(notes := s.notes[n := s.notes[n].(title := title, content := content)])
    case Edited(n, t) =>
      s.(notes := s.notes[n := Stale(s.notes[n])], timers := Cancel(s, n)[t := Timer(n, false)],
          pending := s.pending[n := t])
    case Wake(t, c) =>
      var n := s.timers[t].note;
      var rest := s.(timers := s.timers - {t});
      if s.timers[t].cancelled || !m.isLoaded then rest
      else if m.current.None? then rest.(pending := s.pending - {n})
      else rest.(calls := s.calls[c := Captured(w, s.notes[n], n, m.current.value, Some(t))])
    case Begin(n, c) =>
      if m.current.None? then s else s.(calls := s.calls[c := Captured(w, s.notes[n], n, m.current.value, None)])
    case Embed(c, succeeds) => s.(calls := s.calls[c := Answered(w, s.calls[c], m.engine, succeeds)])
    case Finish(c) =>
      var call := s.calls[c];
      s.(calls := s.calls - {c},
         notes := if call.answer.Done? then s.notes[call.note := Indexed(s.notes[call.note], call)] else s.notes,
         pending := if call.timer.Some? then s.pending - {call.note} else s.pending)
  }

  function NextModels(s: Models, e: ModelEvent): Models
    requires ModelEventEnabled(s, e)
  {
    match e
    case LoadBegin(l, id) => s.(loads := s.loads[l := Load(id, Requested)], isLoading := true)
    case LoadRun(l, outcome) =>
      s.(loads := s.loads[l := s.loads[l].(phase := outcome)],
         engine := if outcome == Ready then Some(s.loads[l].id) else if outcome == Lost then None else s.engine)
    case LoadEnd(l) =>
      var ready := s.loads[l].phase == Ready;
      s.(loads := s.loads - {l}, isLoading := false, isLoaded := ready,
         current := if ready then Some(s.loads[l].id) else s.current)
    case UnloadBegin(u, next) => s.(unloads := s.unloads[u := Unload(false, next)])
    case UnloadRun(u) => s.(unloads := s.unloads[u := s.unloads[u].(done := true)], engine := None)
    case UnloadEnd(u) =>
      var next := s.unloads[u].next;
      var rest := s.(unloads := s.unloads - {u});
      if next == Forget then rest
      else rest.(isLoaded := false, isLoading := false, current := if next == ClearSelection then None else s.current)
    case Background(u) => s.(unloads := s.unloads[u := Unload(false, Forget)], isLoaded := false, isLoading := false)
    case Normalize(catalog) => if s.current.Some? && s.current.value !in catalog then s.(current := None) else s
  }

  function Next(w: World, s: State, e: Event): State
    requires Enabled(s, e)
  {
    match e
    case OnNotes(n) => s.(cache := NextCache(w, s.cache, s.models, n))
    case OnModels(m) => s.(models := NextModels(s.models, m))
  }

  /** The test that decides which notes may be served from the cache. */
  predicate IsFresh(w: World, note: Note, current: Option<string>) {
    && note.embedding.Some? && note.embedding.value != []
    && note.model.Some? && current == note.model
    && note.hash == Some(w.hash(note.Text()))
  }

  /** What the test is for. */
  predicate Agrees(w: World, note: Note, current: Option<string>) {
    current.Some? && note.embedding == Some(w.embed(current.value, note.Text()))
  }

  predicate IsCoherent(w: World, s: State) {
    forall n :: n in s.cache.notes && IsFresh(w, s.cache.notes[n], s.models.current) ==>
      Agrees(w, s.cache.notes[n], s.models.current)
  }

  // ---- Which runs are promised to be coherent

  /** No model is being exchanged for another while an embed call that was begun for it is in flight. */
  predicate NoSwapInFlight(s: State) {
    forall c, l :: c in s.cache.calls && s.cache.calls[c].answer == Waiting && l in s.models.loads ==>
      s.models.loads[l].id == s.cache.calls[c].model
  }

  /** Loads that overlap are loads of one model. */
  predicate LoadsAreSerial(s: Models) {
    forall l, m :: l in s.loads && m in s.loads ==> s.loads[l].id == s.loads[m].id
  }

  ghost predicate IsRun(w: World, states: seq<State>, events: seq<Event>) {
    && |states| == |events| + 1
    && forall i :: 0 <= i < |events| ==> Enabled(states[i], events[i]) && states[i + 1] == Next(w, states[i], events[i])
  }

  predicate Disciplined(states: seq<State>) {
    forall i :: 0 <= i < |states| ==> NoSwapInFlight(states[i]) && LoadsAreSerial(states[i].models)
  }

  /** A stored embedding is that of some text with the stored hash, under the stored model. */
  ghost predicate IsHonest(w: World, n: Note) {
    n.embedding.Some? && n.model.Some? && n.hash.Some? ==>
      exists text: string :: n.hash.value == w.hash(text) && n.embedding.value == w.embed(n.model.value, text)
  }

  predicate IsHonestCall(w: World, engine: Option<string>, c: Call) {
    && c.hash == w.hash(c.text)
    && (c.answer == Waiting && engine.Some? ==> engine.value == c.model)
    && (c.answer.Done? ==> c.answer.vector == w.embed(c.model, c.text))
  }

  ghost predicate NotesAreHonest(w: World, s: Cache) {
    forall n :: n in s.notes ==> IsHonest(w, s.notes[n])
  }

  predicate CallsAreHonest(w: World, s: Cache, engine: Option<string>) {
    forall c :: c in s.calls ==> IsHonestCall(w, engine, s.calls[c])
  }

  predicate HasJustLoaded(s: Models, l: nat, id: string) {
    l in s.loads && s.loads[l] == Load(id, Ready)
  }

  /** The actor holds the selected model, or one whose load has not been reported back yet. */
  ghost predicate EngineIsAccountedFor(s: Models) {
    s.current.Some? && s.engine.Some? && s.engine != s.current ==> exists l :: HasJustLoaded(s, l, s.engine.value)
  }

  predicate ReadyLoadsAreHeld(s: Models) {
    forall l :: l in s.loads && s.loads[l].phase == Ready && s.engine.Some? ==> s.engine.value == s.loads[l].id
  }

  ghost predicate Inv(w: World, s: State) {
    && NotesAreHonest(w, s.cache) && CallsAreHonest(w, s.cache, s.models.engine)
    && ReadyLoadsAreHeld(s.models) && EngineIsAccountedFor(s.models)
  }

  /** A state in which nothing is in flight, every stored embedding was honestly made, and the actor holds
      the selected model or none. */
  ghost predicate IsQuiet(w: World, s: State) {
    && s.cache.calls == map[] && s.models.loads == map[]
    && (s.models.engine.Some? ==> s.models.engine == s.models.current)
    && NotesAreHonest(w, s.cache)
  }

  lemma FreshMeansAgrees(w: World, n: Note, current: Option<string>)
    requires w.HashIsInjective() && IsHonest(w, n) && IsFresh(w, n, current)
    ensures Agrees(w, n, current)
  {
    var text: string :| n.hash.value == w.hash(text) && n.embedding.value == w.embed(n.model.value, text);
    assert text == n.Text();
  }

  // ---- Every event keeps the invariant

  lemma NotesStayHonest(w: World, s: Cache, m: Models, e: NoteEvent)
    requires NoteEventEnabled(s, e) && NotesAreHonest(w, s) && CallsAreHonest(w, s, m.engine)
    ensures NotesAreHonest(w, NextCache(w, s, m, e))
  {
    match e
    case Edit(n, title, content) =>
      assert IsHonest(w, s.notes[n]);
    case Finish(c) =>
      var call := s.calls[c];
      assert IsHonestCall(w, m.engine, call);
      if call.answer.Done? {
        assert Indexed(s.notes[call.note], call).hash.value == w.hash(call.text);
      }
    case _ =>
  }

  lemma CallsStayHonest(w: World, s: Cache, m: Models, e: NoteEvent)
    requires NoteEventEnabled(s, e) && CallsAreHonest(w, s, m.engine)
    requires EngineIsAccountedFor(m) && NoSwapInFlight(State(NextCache(w, s, m, e), m))
    ensures CallsAreHonest(w, NextCache(w, s, m, e), m.engine)
  {
    var t := NextCache(w, s, m, e);
    if (e.Begin? || e.Wake?) && e.call in t.calls {
      EngineIsCaptured(t, m, e.call);
    }
  }

  /** A call that has just begun captured the model that the actor holds, if it holds one. */
  lemma EngineIsCaptured(s: Cache, m: Models, c: nat)
    requires EngineIsAccountedFor(m) && NoSwapInFlight(State(s, m))
    requires c in s.calls && s.calls[c].answer == Waiting && m.current == Some(s.calls[c].model)
    ensures m.engine.Some? ==> m.engine.value == s.calls[c].model
  {
    assert forall l, id :: HasJustLoaded(m, l, id) ==> id == s.calls[c].model;
  }

  lemma CallsOutliveModelEvents(w: World, s: Cache, m: Models, e: ModelEvent)
    requires ModelEventEnabled(m, e) && CallsAreHonest(w, s, m.engine) && NoSwapInFlight(State(s, m))
    ensures CallsAreHonest(w, s, NextModels(m, e).engine)
  {
    forall c | c in s.calls
      ensures IsHonestCall(w, NextModels(m, e).engine, s.calls[c])
    {
      assert IsHonestCall(w, m.engine, s.calls[c]);
      assert e.LoadRun? ==> e.load in m.loads;
    }
  }

  lemma LoadsStayHeld(s: Models, e: ModelEvent)
    requires ModelEventEnabled(s, e) && LoadsAreSerial(s) && ReadyLoadsAreHeld(s)
    ensures ReadyLoadsAreHeld(NextModels(s, e))
  {
  }

  lemma EngineStaysAccountedFor(s: Models, e: ModelEvent)
    requires ModelEventEnabled(s, e) && ReadyLoadsAreHeld(s) && EngineIsAccountedFor(s)
    ensures EngineIsAccountedFor(NextModels(s, e))
  {
    var t := NextModels(s, e);
    if t.current.Some? && t.engine.Some? && t.engine != t.current {
      var l := if e.LoadRun? && e.outcome == Ready then e.load else var l :| HasJustLoaded(s, l, s.engine.value); l;
      assert HasJustLoaded(t, l, t.engine.value);
    }
  }

  lemma InvIsKept(w: World, s: State, e: Event)
    requires Inv(w, s) && Enabled(s, e) && NoSwapInFlight(s) && LoadsAreSerial(s.models) &&
        NoSwapInFlight(Next(w, s, e))
    ensures Inv(w, Next(w, s, e))
  {
    match e
    case OnNotes(n) =>
      NotesStayHonest(w, s.cache, s.models, n);
      CallsStayHonest(w, s.cache, s.models, n);
    case OnModels(m) =>
      CallsOutliveModelEvents(w, s.cache, s.models, m);
      LoadsStayHeld(s.models, m);
      EngineStaysAccountedFor(s.models, m);
  }

  lemma {:induction false} InvAt(w: World, states: seq<State>, events: seq<Event>, i: nat)
    requires IsRun(w, states, events) && IsQuiet(w, states[0]) && Disciplined(states) && i < |states|
    ensures Inv(w, states[i])
  {
    if i > 0 {
      InvAt(w, states, events, i - 1);
      assert NoSwapInFlight(states[i - 1]) && NoSwapInFlight(states[i]);
      InvIsKept(w, states[i - 1], events[i - 1]);
    }
  }

  // ---- Runs whose embed calls are answered by the captured model

  /** Unless an embed call fails, the actor answers it with the model whose id the call has captured. */
  predicate IsMatched(s: State, e: Event) {
    e.OnNotes? && e.n.Embed? && e.n.succeeds && e.n.call in s.cache.calls && s.models.engine.Some? ==>
      s.models.engine.value == s.cache.calls[e.n.call].model
  }

  ghost predicate AllMatched(states: seq<State>, events: seq<Event>)
    requires |states| == |events| + 1
  {
    forall i :: 0 <= i < |events| ==> IsMatched(states[i], events[i])
  }

  /** The captured hash is that of the captured text, and an answer is the vector of that text under the captured
      model. */
  predicate IsOwn(w: World, c: Call) {
    c.hash == w.hash(c.text) && (c.answer.Done? ==> c.answer.vector == w.embed(c.model, c.text))
  }

  ghost predicate IsOwned(w: World, s: Cache) {
    NotesAreHonest(w, s) && forall c :: c in s.calls ==> IsOwn(w, s.calls[c])
  }

  /** A state in which every stored embedding was honestly made and no call is in flight. */
  ghost predicate IsIdle(w: World, s: State) {
    s.cache.calls == map[] && NotesAreHonest(w, s.cache)
  }

  /** No two models give one text the same vector. */
  ghost predicate TellsModels(w: World) {
    forall m: string, n: string, text: string {:trigger w.embed(m, text), w.embed(n, text)} ::
      m != n ==> w.embed(m, text) != w.embed(n, text)
  }

  lemma MatchedKeepsOwned(w: World, s: State, e: Event)
    requires IsOwned(w, s.cache) && Enabled(s, e) && IsMatched(s, e)
    ensures IsOwned(w, Next(w, s, e).cache)
  {
    hide IsHonest;
    var t := Next(w, s, e).cache;
    if e.OnNotes? {
      forall n | n in t.notes
        ensures IsHonest(w, t.notes[n])
      {
        NoteStaysHonest(w, s.cache, s.models, e.n, n);
      }
    }
  }

  lemma NoteStaysHonest(w: World, s: Cache, m: Models, e: NoteEvent, n: nat)
    requires NoteEventEnabled(s, e) && IsOwned(w, s) && n in NextCache(w, s, m, e).notes
    ensures IsHonest(w, NextCache(w, s, m, e).notes[n])
  {
    assert n in s.notes && IsHonest(w, s.notes[n]);
    if e.Finish? && s.calls[e.call].answer.Done? && n == s.calls[e.call].note {
      var call := s.calls[e.call];
      assert IsOwn(w, call);
      assert Indexed(s.notes[n], call).hash.value == w.hash(call.text);
    }
  }

  /** A single mismatched answer is not the call's own. */
  lemma MismatchedIsNotOwned(w: World, s: State, e: Event)
    requires TellsModels(w) && Enabled(s, e) && !IsMatched(s, e)
    ensures !IsOwned(w, Next(w, s, e).cache)
  {
    var c := e.n.call;
    var answered := Next(w, s, e).cache.calls[c];
    assert answered.answer == Done(w.embed(s.models.engine.value, s.cache.calls[c].text));
    assert !IsOwn(w, answered);
  }

  lemma {:induction false} OwnedAt(w: World, states: seq<State>, events: seq<Event>, i: nat)
    requires IsRun(w, states, events) && IsIdle(w, states[0]) && AllMatched(states, events) && i < |states|
    ensures IsOwned(w, states[i].cache)
  {
    if i > 0 {
      OwnedAt(w, states, events, i - 1);
      assert IsMatched(states[i - 1], events[i - 1]);
      MatchedKeepsOwned(w, states[i - 1], events[i - 1]);
    }
  }

  /** Over every interleaving, however loads, unloads and calls overlap: if every embed call is answered by the model
      whose id it captured, a note that passes the freshness test carries the embedding of its present text under the
      selected model, at every point. */
  lemma MatchedRunIsCoherent(w: World, states: seq<State>, events: seq<Event>)
    requires w.HashIsInjective()
    requires IsRun(w, states, events) && IsIdle(w, states[0]) && AllMatched(states, events)
    ensures forall i :: 0 <= i < |states| ==> IsCoherent(w, states[i])
  {
    forall i | 0 <= i < |states|
      ensures IsCoherent(w, states[i])
    {
      OwnedAt(w, states, events, i);
      forall n | n in states[i].cache.notes && IsFresh(w, states[i].cache.notes[n], states[i].models.current)
        ensures Agrees(w, states[i].cache.notes[n], states[i].models.current)
      {
        FreshMeansAgrees(w, states[i].cache.notes[n], states[i].models.current);
      }
    }
  }

  /** For models that can be told apart by their vectors: at every point of a run all stored embeddings are honest and
      all answers are those of the captured model and text, exactly if every embed call is so answered. */
  lemma RunIsOwnedExactlyIfMatched(w: World, states: seq<State>, events: seq<Event>)
    requires TellsModels(w) && IsRun(w, states, events) && IsIdle(w, states[0])
    ensures (forall i :: 0 <= i < |states| ==> IsOwned(w, states[i].cache)) <==> AllMatched(states, events)
  {
    hide IsOwned;
    hide IsMatched;
    if AllMatched(states, events) {
      forall i | 0 <= i < |states|
        ensures IsOwned(w, states[i].cache)
      {
        OwnedAt(w, states, events, i);
      }
    } else {
      var i :| 0 <= i < |events| && !IsMatched(states[i], events[i]);
      MismatchedIsNotOwned(w, states[i], events[i]);
      assert states[i + 1] == Next(w, states[i], events[i]);
    }
  }

  /** The discipline is enough: a run in which no model is exchanged for another under a call in flight, and in which
      loads that overlap are loads of one model, is matched and so coherent. */
  lemma EveryRunIsCoherent(w: World, states: seq<State>, events: seq<Event>)
    requires w.HashIsInjective()
    requires IsRun(w, states, events) && IsQuiet(w, states[0]) && Disciplined(states)
    ensures AllMatched(states, events)
    ensures forall i :: 0 <= i < |states| ==> IsCoherent(w, states[i])
  {
    forall i | 0 <= i < |events|
      ensures IsMatched(states[i], events[i])
    {
      InvAt(w, states, events, i);
      assert Enabled(states[i], events[i]);
      HonestCallsMatch(w, states[i], events[i]);
    }
    MatchedRunIsCoherent(w, states, events);
  }

  lemma HonestCallsMatch(w: World, s: State, e: Event)
    requires Inv(w, s) && Enabled(s, e)
    ensures IsMatched(s, e)
  {
    if e.OnNotes? && e.n.Embed? {
      assert IsHonestCall(w, s.models.engine, s.cache.calls[e.n.call]);
    }
  }

  // ---- What goes wrong otherwise

  /** A call that is answered and written back leaves an honest note exactly when the actor held, while
      embedding, no model or the one whose id the call had captured. */
  lemma WriteIsHonestExactlyWhenMatched(w: World, s: Cache, m: Models, c: nat)
    requires w.HashIsInjective() && NotesAreHonest(w, s)
    requires c in s.calls && s.calls[c].answer == Waiting && s.calls[c].note in s.notes
    requires s.calls[c].hash == w.hash(s.calls[c].text)
    requires m.engine.Some? && m.engine.value != s.calls[c].model ==>
               w.embed(m.engine.value, s.calls[c].text) != w.embed(s.calls[c].model, s.calls[c].text)
    ensures var t := NextCache(w, NextCache(w, s, m, Embed(c, true)), m, Finish(c));
            IsHonest(w, t.notes[s.calls[c].note]) <==> m.engine.None? || m.engine.value == s.calls[c].model
  {
    var call := s.calls[c];
    var t := NextCache(w, NextCache(w, s, m, Embed(c, true)), m, Finish(c));
    if m.engine.None? {
      assert t.notes == s.notes;
    } else {
      assert t.notes[call.note] == Indexed(s.notes[call.note], Answered(w, call, m.engine, true));
      if m.engine.value == call.model {
        assert w.hash(call.text) == t.notes[call.note].hash.value;
      } else {
        forall text: string | w.hash(text) == call.hash
          ensures text == call.text
        {
        }
      }
    }
  }

  /** A note that has just been written back is served exactly if neither its text nor the selected model
      has changed since the call captured them, and the vector is not empty. */
  lemma WrittenNoteIsFreshExactlyWhenNothingMoved(w: World, s: Cache, m: Models, c: nat)
    requires w.HashIsInjective()
    requires c in s.calls && s.calls[c].answer.Done? && s.calls[c].note in s.notes
    requires s.calls[c].hash == w.hash(s.calls[c].text)
    ensures var call := s.calls[c];
            IsFresh(w, NextCache(w, s, m, Finish(c)).notes[call.note], m.current) <==>
              call.answer.vector != [] && m.current == Some(call.model) && s.notes[call.note].Text() == call.text
  {
    var call := s.calls[c];
    assert w.hash(s.notes[call.note].Text()) == w.hash(call.text) ==> s.notes[call.note].Text() == call.text;
    assert Indexed(s.notes[call.note], call).Text() == s.notes[call.note].Text();
  }

  lemma WrongModelPasses(w: World, s: State, selected: string, other: string)
    requires s.models.current == Some(selected) && 0 in s.cache.notes
    requires var n := s.cache.notes[0];
             && n.model == Some(selected) && n.embedding == Some(w.embed(other, n.Text()))
             && n.hash == Some(w.hash(n.Text()))
             && w.embed(selected, n.Text()) == [1.0] && w.embed(other, n.Text()) == [2.0]
    ensures !IsCoherent(w, s)
  {
    assert [1.0][0] != [2.0][0];
    assert IsFresh(w, s.cache.notes[0], s.models.current) && !Agrees(w, s.cache.notes[0], s.models.current);
  }

  /** With a swap under a call in flight, the test passes a vector of the wrong model. */
  lemma SwapExample() returns (w: World, states: seq<State>, events: seq<Event>)
    ensures w.HashIsInjective() && IsRun(w, states, events) && IsQuiet(w, states[0])
    ensures forall i :: 0 <= i < |states| ==> LoadsAreSerial(states[i].models)
    ensures !IsCoherent(w, states[|events|])
  {
    hide IsCoherent;
    w := World((m: string, t) => [if m == "a" then 1.0 else 2.0], t => t);
    var note := Note("t", "c", None, None, None);
    var s0 := State(Cache(map[0 := note], map[], map[], map[]),
        Models(Some("a"), true, false, Some("a"), map[], map[]));
    var e0, e1, e2 := OnNotes(Begin(0, 0)), OnModels(LoadBegin(0, "b")), OnModels(LoadRun(0, Ready));
    var e3, e4 := OnNotes(Embed(0, true)), OnNotes(Finish(0));
    var s1 := Next(w, s0, e0);
    var s2 := Next(w, s1, e1);
    var s3 := Next(w, s2, e2);
    var s4 := Next(w, s3, e3);
    var s5 := Next(w, s4, e4);
    states, events := [s0, s1, s2, s3, s4, s5], [e0, e1, e2, e3, e4];
    var n := s5.cache.notes[0];
    assert n.embedding == Some([2.0]) && n.model == Some("a") && n.hash == Some(note.Text());
    assert n.Text() == note.Text();
    WrongModelPasses(w, s5, "a", "b");
  }

  /** Two loads that overlap (going to the background clears the flag that keeps them apart) and are reported back in
      the other order leave the actor with a model that is not the selected one, and nothing in flight. */
  lemma LoadsInTheOtherOrder() returns (states: seq<Models>, events: seq<ModelEvent>)
    ensures |events| == 8 && |states| == 9
    ensures forall i :: 0 <= i < 8 ==>
      ModelEventEnabled(states[i], events[i]) && states[i + 1] == NextModels(states[i], events[i])
    ensures states[0] == Models(Some("a"), true, false, Some("a"), map[], map[])
    ensures states[8].engine == Some("c") && states[8].current == Some("b") && states[8].loads == map[]
  {
    var s0 := Models(Some("a"), true, false, Some("a"), map[], map[]);
    var e0, e1, e2 := LoadBegin(0, "b"), Background(0), LoadBegin(1, "c");
    var e3, e4, e5, e6, e7 := LoadRun(0, Ready), UnloadRun(0), LoadRun(1, Ready), LoadEnd(1), LoadEnd(0);
    var s1 := NextModels(s0, e0);
    var s2 := NextModels(s1, e1);
    var s3 := NextModels(s2, e2);
    var s4 := NextModels(s3, e3);
    var s5 := NextModels(s4, e4);
    var s6 := NextModels(s5, e5);
    var s7 := NextModels(s6, e6);
    var s8 := NextModels(s7, e7);
    states, events := [s0, s1, s2, s3, s4, s5, s6, s7, s8], [e0, e1, e2, e3, e4, e5, e6, e7];
    assert s8.engine == Some("c") && s8.current == Some("b") && s8.loads == map[];
  }

  lemma IndexingWith(w: World, s: State) returns (states: seq<State>, events: seq<Event>)
    requires s.cache == Cache(map[0 := Note("t", "c", None, None, None)], map[], map[], map[])
    requires s.models.current.Some? && s.models.engine.Some? && s.models.loads == map[]
    ensures IsRun(w, states, events) && |events| == 3 && states[0] == s
    ensures forall i :: 0 <= i < |states| ==> states[i].models == s.models
    ensures var n := states[3].cache.notes;
            && 0 in n && n[0].Text() == "t\nc" && n[0].model == s.models.current
            && n[0].embedding == Some(w.embed(s.models.engine.value, "t\nc")) && n[0].hash == Some(w.hash("t\nc"))
  {
    var note := s.cache.notes[0];
    assert note.Text() == "t\nc";
    var e0, e1, e2 := OnNotes(Begin(0, 0)), OnNotes(Embed(0, true)), OnNotes(Finish(0));
    var s1 := Next(w, s, e0);
    var s2 := Next(w, s1, e1);
    var s3 := Next(w, s2, e2);
    states, events := [s, s1, s2, s3], [e0, e1, e2];
    assert s2.cache.calls[0].answer == Done(w.embed(s.models.engine.value, "t\nc"));
    assert s3.cache.notes[0] == Indexed(note, s2.cache.calls[0]);
  }

  lemma OnModelsRun(w: World, cache: Cache, models: seq<Models>, events: seq<ModelEvent>)
    returns (states: seq<State>, steps: seq<Event>)
    requires |models| == |events| + 1
    requires forall i :: 0 <= i < |events| ==>
      ModelEventEnabled(models[i], events[i]) && models[i + 1] == NextModels(models[i], events[i])
    ensures IsRun(w, states, steps) && |steps| == |events|
    ensures forall i :: 0 <= i < |states| ==> states[i] == State(cache, models[i])
  {
    states := seq(|models|, i requires 0 <= i < |models| => State(cache, models[i]));
    steps := seq(|events|, i requires 0 <= i < |events| => OnModels(events[i]));
  }

  lemma RunsTogether(w: World, s1: seq<State>, e1: seq<Event>, s2: seq<State>, e2: seq<Event>)
    requires IsRun(w, s1, e1) && IsRun(w, s2, e2) && s1[|e1|] == s2[0]
    ensures IsRun(w, s1 + s2[1..], e1 + e2)
  {
    var states, events := s1 + s2[1..], e1 + e2;
    forall i | 0 <= i < |events|
      ensures Enabled(states[i], events[i]) && states[i + 1] == Next(w, states[i], events[i])
    {
      if i >= |e1| {
        assert states[i] == s2[i - |e1|] && states[i + 1] == s2[i + 1 - |e1|] && events[i] == e2[i - |e1|];
      } else {
        assert states[i] == s1[i] && states[i + 1] == s1[i + 1] && events[i] == e1[i];
      }
    }
  }

  /** After overlapping loads, the test passes a vector of the wrong model, without any swap under a call in flight. */
  lemma OverlappingLoadsExample() returns (w: World, states: seq<State>, events: seq<Event>)
    ensures w.HashIsInjective() && IsRun(w, states, events) && IsQuiet(w, states[0])
    ensures forall i :: 0 <= i < |states| ==> NoSwapInFlight(states[i])
    ensures !IsCoherent(w, states[|events|])
  {
    w := World((m: string, t) => [if m == "b" then 1.0 else 2.0], t => t);
    var cache := Cache(map[0 := Note("t", "c", None, None, None)], map[], map[], map[]);
    var models, loading := LoadsInTheOtherOrder();
    var s1, e1 := OnModelsRun(w, cache, models, loading);
    var s2, e2 := IndexingWith(w, s1[8]);
    RunsTogether(w, s1, e1, s2, e2);
    states, events := s1 + s2[1..], e1 + e2;
    forall i | 0 <= i < |states|
      ensures NoSwapInFlight(states[i])
    {
      assert states[i] == if i < 9 then s1[i] else s2[i - 8];
      assert if i < 9 then states[i].cache == cache else states[i].models.loads == map[];
    }
    WrongModelPasses(w, states[11], "b", "c");
  }

  // ---- The debounce timers

  predicate IsLive(s: Cache, t: nat, note: nat) {
    t in s.timers && !s.timers[t].cancelled && s.timers[t].note == note
  }

  /** Every sleeping timer that was not cancelled can still be cancelled: its handle is the one kept for its
      note. In particular no note has two of them. */
  ghost predicate TimersAreRegistered(s: Cache) {
    forall t, n :: IsLive(s, t, n) ==> n in s.pending && s.pending[n] == t
  }

  lemma AtMostOneTimerPerNote(s: Cache, t: nat, u: nat, n: nat)
    requires TimersAreRegistered(s) && IsLive(s, t, n) && IsLive(s, u, n)
    ensures t == u
  {
  }

  /** The events that throw a handle away while its timer still sleeps: a task that has finished indexing clears
      the entry of its note even when a newer task is registered there. */
  predicate LosesHandle(s: Cache, e: NoteEvent)
    requires NoteEventEnabled(s, e)
  {
    && e.Finish? && s.calls[e.call].timer.Some?
    && s.calls[e.call].note in s.pending && IsLive(s, s.pending[s.calls[e.call].note], s.calls[e.call].note)
  }

  /** The debounce works as intended up to exactly those events. */
  lemma HandlesAreKeptExactlyOtherwise(w: World, s: Cache, m: Models, e: NoteEvent)
    requires NoteEventEnabled(s, e) && TimersAreRegistered(s)
    ensures TimersAreRegistered(NextCache(w, s, m, e)) <==> !LosesHandle(s, e)
  {
    var t := NextCache(w, s, m, e);
    match e
    case Edited(n, u) =>
      forall v, k | IsLive(t, v, k)
        ensures k in t.pending && t.pending[k] == v
      {
        assert v != u ==> IsLive(s, v, k);
      }
    case Wake(u, c) =>
      forall v, k | IsLive(t, v, k)
        ensures k in t.pending && t.pending[k] == v
      {
        assert IsLive(s, v, k) && IsLive(s, u, s.timers[u].note) == !s.timers[u].cancelled;
      }
    case Finish(c) =>
      assert t.timers == s.timers;
      forall v, k
        ensures IsLive(t, v, k) == IsLive(s, v, k)
      {
      }
    case _ =>
      assert t.timers == s.timers && t.pending == s.pending;
      forall v, k
        ensures IsLive(t, v, k) == IsLive(s, v, k)
      {
      }
  }

  ghost predicate NoHandleIsLost(w: World, states: seq<State>, events: seq<Event>)
    requires IsRun(w, states, events)
  {
    forall i :: 0 <= i < |events| && events[i].OnNotes? ==> !LosesHandle(states[i].cache, events[i].n)
  }

  lemma {:induction false} TimersStayRegistered(w: World, states: seq<State>, events: seq<Event>, i: nat)
    requires IsRun(w, states, events) && NoHandleIsLost(w, states, events) && TimersAreRegistered(states[0].cache)
    requires i < |states|
    ensures TimersAreRegistered(states[i].cache)
  {
    hide TimersAreRegistered;
    hide LosesHandle;
    if i > 0 {
      TimersStayRegistered(w, states, events, i - 1);
      var s, e := states[i - 1], events[i - 1];
      if e.OnNotes? {
        HandlesAreKeptExactlyOtherwise(w, s.cache, s.models, e.n);
      }
    }
  }

  /** Over every run that loses no handle, a note never has two timers. */
  lemma NoNoteHasTwoTimers(w: World, states: seq<State>, events: seq<Event>, i: nat, t: nat, u: nat, n: nat)
    requires IsRun(w, states, events) && NoHandleIsLost(w, states, events) && TimersAreRegistered(states[0].cache)
    requires i < |states| && IsLive(states[i].cache, t, n) && IsLive(states[i].cache, u, n)
    ensures t == u
  {
    TimersStayRegistered(w, states, events, i);
    AtMostOneTimerPerNote(states[i].cache, t, u, n);
  }

  /** A note edited while it is being indexed, and again after that: its last two timers both sleep, and the
      older of them can no longer be cancelled. */
  lemma LostHandleExample(w: World) returns (states: seq<Cache>, events: seq<NoteEvent>, m: Models)
    ensures |states| == |events| + 1
    ensures forall i :: 0 <= i < |events| ==>
      NoteEventEnabled(states[i], events[i]) && states[i + 1] == NextCache(w, states[i], m, events[i])
    ensures TimersAreRegistered(states[0])
    ensures IsLive(states[|events|], 1, 0) && IsLive(states[|events|], 2, 0)
  {
    m := Models(Some("a"), true, false, Some("a"), map[], map[]);
    var s0 := Cache(map[0 := Note("t", "c", None, None, None)], map[], map[], map[]);
    var e0, e1, e2, e3, e4, e5 := Edited(0, 0), Wake(0, 0), Edited(0, 1), Embed(0, true), Finish(0), Edited(0, 2);
    var s1 := NextCache(w, s0, m, e0);
    var s2 := NextCache(w, s1, m, e1);
    var s3 := NextCache(w, s2, m, e2);
    var s4 := NextCache(w, s3, m, e3);
    var s5 := NextCache(w, s4, m, e4);
    var s6 := NextCache(w, s5, m, e5);
    states, events := [s0, s1, s2, s3, s4, s5, s6], [e0, e1, e2, e3, e4, e5];
    assert s1.timers == map[0 := Timer(0, false)] && s1.pending == map[0 := 0];
    assert s2.timers == map[] && 0 in s2.calls && s2.calls[0].timer == Some(0) && s2.calls[0].note == 0;
    assert s3.timers == map[1 := Timer(0, false)];
    assert s5.pending == map[] && s5.timers == s3.timers;
    assert s6.timers[1] == s5.timers[1];
  }

  // ---- The view model itself

  class ViewModel {
    const world: World
    var notes: map<nat, Note>
    var calls: map<nat, Call>
    var timers: map<nat, Timer>
    var pendingAutoIndexTasks: map<nat, nat>
    var currentEmbeddingModelId: Option<string>
    var isEmbeddingModelLoaded: bool
    var isEmbeddingModelLoading: bool
    var engine: Option<string>
    var loads: map<nat, Load>
    var unloads: map<nat, Unload>

    ghost function TheCache(): Cache
      reads this
    {
      Cache(notes, calls, timers, pendingAutoIndexTasks)
    }

    ghost function TheModels(): Models
      reads this
    {
      Models(currentEmbeddingModelId, isEmbeddingModelLoaded, isEmbeddingModelLoading, engine, loads, unloads)
    }

    constructor (world: World, notes: map<nat, Note>, current: Option<string>)
      ensures this.world == world
      ensures TheCache() == Cache(notes, map[], map[], map[])
      ensures TheModels() == Models(current, false, false, None, map[], map[])
    {
      this.world := world;
      this.notes := notes;
      calls, timers, pendingAutoIndexTasks := map[], map[], map[];
      currentEmbeddingModelId := current;
      isEmbeddingModelLoaded, isEmbeddingModelLoading := false, false;
      engine := None;
      loads, unloads := map[], map[];
    }

    method IsNoteEmbeddingFresh(n: nat) returns (passes: bool)
      requires n in notes
      ensures passes == IsFresh(world, notes[n], currentEmbeddingModelId)
    {
      var note := notes[n];
      if note.embedding.None? || note.embedding.value == [] {
        return false;
      }
      if note.model.None? {
        return false;
      }
      if note.model != currentEmbeddingModelId {
        return false;
      }
      if note.hash.None? {
        return false;
      }
      return note.hash.value == world.hash(note.title + "\n" + note.content);
    }

    /** The editor writes through to the note before it reports the edit. */
    method Type(n: nat, title: string, content: string)
      requires n in notes
      modifies this`notes
      ensures TheCache() == NextCache(world, old(TheCache()), TheModels(), Edit(n, title, content))
    {
      notes := notes[n := notes[n].(title := title, content := content)];
    }

    method MarkNoteEmbeddingStale(n: nat)
      requires n in notes
      modifies this`notes
      ensures notes == old(notes)[n := Stale(old(notes)[n])]
    {
      notes := notes[n := notes[n].(embedding := None)];
      notes := notes[n := notes[n].(model := None)];
      notes := notes[n := notes[n].(hash := None)];
    }

    method ScheduleAutoIndex(n: nat, t: nat)
      requires t !in timers
      modifies this`timers, this`pendingAutoIndexTasks
      ensures timers == Cancel(old(TheCache()), n)[t := Timer(n, false)]
      ensures pendingAutoIndexTasks == old(pendingAutoIndexTasks)[n := t]
    {
      if n in pendingAutoIndexTasks {
        var previous := pendingAutoIndexTasks[n];
        if previous in timers {
          timers := timers[previous := timers[previous].(cancelled := true)];
        }
      }
      timers := timers[t := Timer(n, false)];
      pendingAutoIndexTasks := pendingAutoIndexTasks[n := t];
    }

    method HandleNoteEdited(n: nat, t: nat)
      requires NoteEventEnabled(TheCache(), Edited(n, t))
      modifies this`notes, this`timers, this`pendingAutoIndexTasks
      ensures TheCache() == NextCache(world, old(TheCache()), TheModels(), Edited(n, t))
    {
      MarkNoteEmbeddingStale(n);
      ScheduleAutoIndex(n, t);
    }

    /** `indexSingleNote` up to its embed call; it throws when no model is selected. */
    method BeginIndex(n: nat, timer: Option<nat>, c: nat) returns (threw: bool)
      requires n in notes && c !in calls
      modifies this`calls
      ensures threw == currentEmbeddingModelId.None?
      ensures calls == if threw then old(calls)
                       else old(calls)[c := Captured(world, notes[n], n, currentEmbeddingModelId.value, timer)]
    {
      if currentEmbeddingModelId.None? {
        return true;
      }
      var note := notes[n];
      var textToEmbed := note.title + "\n" + note.content;
      calls := calls[c := Call(n, currentEmbeddingModelId.value, textToEmbed, world.hash(note.Text()), timer, Waiting)];
      return false;
    }

    /** An indexing that is not started by a timer. */
    method IndexSingleNote(n: nat, c: nat)
      requires NoteEventEnabled(TheCache(), Begin(n, c))
      modifies this`calls
      ensures TheCache() == NextCache(world, old(TheCache()), TheModels(), Begin(n, c))
    {
      var threw := BeginIndex(n, None, c);
    }

    /** A debounce task when its sleep ends, up to its embed call. */
    method AutoIndexWakes(t: nat, c: nat)
      requires NoteEventEnabled(TheCache(), Wake(t, c))
      modifies this`timers, this`calls, this`pendingAutoIndexTasks
      ensures TheCache() == NextCache(world, old(TheCache()), TheModels(), Wake(t, c))
    {
      var task := timers[t];
      timers := timers - {t};
      if task.cancelled {
        return;
      }
      if !isEmbeddingModelLoaded {
        return;
      }
      var threw := BeginIndex(task.note, Some(t), c);
      if threw {
        pendingAutoIndexTasks := pendingAutoIndexTasks - {task.note};
      }
    }

    /** The embed call on the actor. */
    method EmbedWithEmbeddingModel(c: nat, succeeds: bool)
      requires NoteEventEnabled(TheCache(), NoteEvent.Embed(c, succeeds))
      modifies this`calls
      ensures TheCache() == NextCache(world, old(TheCache()), TheModels(), NoteEvent.Embed(c, succeeds))
    {
      if engine.None? || !succeeds {
        calls := calls[c := calls[c].(answer := Failed)];
        return;
      }
      calls := calls[c := calls[c].(answer := Done(world.embed(engine.value, calls[c].text)))];
    }

    /** `indexSingleNote` after its embed call, and what its caller does then. */
    method FinishIndex(c: nat)
      requires NoteEventEnabled(TheCache(), Finish(c))
      modifies this`notes, this`calls, this`pendingAutoIndexTasks
      ensures TheCache() == NextCache(world, old(TheCache()), TheModels(), Finish(c))
    {
      var call := calls[c];
      calls := calls - {c};
      if call.answer.Done? {
        var n := call.note;
        notes := notes[n := notes[n].(embedding := Some(call.answer.vector))];
        notes := notes[n := notes[n].(model := Some(call.model))];
        notes := notes[n := notes[n].(hash := Some(call.hash))];
      }
      if call.timer.Some? {
        pendingAutoIndexTasks := pendingAutoIndexTasks - {call.note};
      }
    }

    /** `loadEmbeddingModelAsync` up to the load; it does nothing while another one is under way. */
    method LoadEmbeddingModel(l: nat, id: string)
      requires l !in loads
      modifies this`loads, this`isEmbeddingModelLoading
      ensures TheModels() == if old(isEmbeddingModelLoading) then old(TheModels())
          else NextModels(old(TheModels()), LoadBegin(l, id))
    {
      if isEmbeddingModelLoading {
        return;
      }
      isEmbeddingModelLoading := true;
      loads := loads[l := Load(id, Requested)];
    }

    /** The load on the actor: the old model is freed once the file has been looked at. */
    method LoadOnActor(l: nat, fileIsUsable: bool, succeeds: bool)
      requires l in loads && loads[l].phase == Requested
      modifies this`loads, this`engine
      ensures TheModels() == NextModels(old(TheModels()),
                LoadRun(l, if !fileIsUsable then TurnedDown else if succeeds then Ready else Lost))
    {
      if !fileIsUsable {
        loads := loads[l := loads[l].(phase := TurnedDown)];
        return;
      }
      engine := None;
      if !succeeds {
        loads := loads[l := loads[l].(phase := Lost)];
        return;
      }
      engine := Some(loads[l].id);
      loads := loads[l := loads[l].(phase := Ready)];
    }

    method LoadReturns(l: nat)
      requires ModelEventEnabled(TheModels(), LoadEnd(l))
      modifies this`loads, this`isEmbeddingModelLoading, this`isEmbeddingModelLoaded, this`currentEmbeddingModelId
      ensures TheModels() == NextModels(old(TheModels()), LoadEnd(l))
    {
      if loads[l].phase == Ready {
        isEmbeddingModelLoaded := true;
        currentEmbeddingModelId := Some(loads[l].id);
      } else {
        isEmbeddingModelLoaded := false;
      }
      loads := loads - {l};
      isEmbeddingModelLoading := false;
    }

    method UnloadEmbeddingModel(u: nat, clearSelection: bool)
      requires u !in unloads
      modifies this`unloads
      ensures TheModels() == NextModels(old(TheModels()),
          UnloadBegin(u, if clearSelection then ClearSelection else KeepSelection))
    {
      unloads := unloads[u := Unload(false, if clearSelection then ClearSelection else KeepSelection)];
    }

    method UnloadOnActor(u: nat)
      requires ModelEventEnabled(TheModels(), UnloadRun(u))
      modifies this`unloads, this`engine
      ensures TheModels() == NextModels(old(TheModels()), UnloadRun(u))
    {
      engine := None;
      unloads := unloads[u := unloads[u].(done := true)];
    }

    method UnloadReturns(u: nat)
      requires ModelEventEnabled(TheModels(), UnloadEnd(u))
      modifies this`unloads, this`isEmbeddingModelLoading, this`isEmbeddingModelLoaded, this`currentEmbeddingModelId
      ensures TheModels() == NextModels(old(TheModels()), UnloadEnd(u))
    {
      var next := unloads[u].next;
      unloads := unloads - {u};
      if next != Forget {
        isEmbeddingModelLoaded := false;
        isEmbeddingModelLoading := false;
        if next == ClearSelection {
          currentEmbeddingModelId := None;
        }
      }
    }

    /** A selected model that is not in the catalog is no longer selected. */
    method NormalizeStoredModelSelections(catalog: set<string>)
      modifies this`currentEmbeddingModelId
      ensures TheModels() == NextModels(old(TheModels()), Normalize(catalog))
    {
      if currentEmbeddingModelId.Some? && currentEmbeddingModelId.value !in catalog {
        currentEmbeddingModelId := None;
      }
    }

    method HandleSceneDidEnterBackground(u: nat)
      requires u !in unloads
      modifies this`unloads, this`isEmbeddingModelLoading, this`isEmbeddingModelLoaded
      ensures TheModels() == NextModels(old(TheModels()), Background(u))
    {
      unloads := unloads[u := Unload(false, Forget)];
      isEmbeddingModelLoaded := false;
      isEmbeddingModelLoading := false;
    }
  }
}

/** What single events and short runs of the embedding cache do to the notes, the timers and the models. */
module CacheLaws {
  import opened Text
  import opened EmbeddingCache

  /** A note without anything cached. */
  predicate IsBare(n: Note) {
    n.embedding.None? && n.model.None? && n.hash.None?
  }

  predicate SameText(a: Note, b: Note) {
    a.title == b.title && a.content == b.content
  }

  /** All notes but one are as before. */
  predicate OthersStay(s: Cache, t: Cache, n: nat) {
    t.notes.Keys == s.notes.Keys && forall k :: k in s.notes && k != n ==> t.notes[k] == s.notes[k]
  }

  // ---- Single events on notes

  lemma TypedText(w: World, s: Cache, m: Models, n: nat, title: string, content: string)
    requires n in s.notes
    ensures var t := NextCache(w, s, m, Edit(n, title, content));
            && OthersStay(s, t, n) && t.calls == s.calls && t.timers == s.timers && t.pending == s.pending
            && t.notes[n] == Note(title, content, s.notes[n].embedding, s.notes[n].model, s.notes[n].hash)
  {
  }

  /** After an edit the note keeps its text and nothing else; the timer that was registered for it is cancelled, and the
      new one sleeps and is registered. */
  lemma EditedIsBare(w: World, s: Cache, m: Models, n: nat, u: nat)
    requires n in s.notes && u !in s.timers
    ensures var t := NextCache(w, s, m, Edited(n, u));
            && OthersStay(s, t, n) && IsBare(t.notes[n]) && SameText(t.notes[n], s.notes[n]) && t.calls == s.calls
            && IsLive(t, u, n) && n in t.pending && t.pending[n] == u
            && (forall k :: k != n ==>
                (k in t.pending <==> k in s.pending) && (k in s.pending ==> t.pending[k] == s.pending[k]))
            && (n in s.pending && s.pending[n] in s.timers ==>
                  t.timers[s.pending[n]].cancelled && t.timers[s.pending[n]].note == s.timers[s.pending[n]].note)
            && (forall v :: v in s.timers && !(n in s.pending && v == s.pending[n]) ==>
                v in t.timers && t.timers[v] == s.timers[v])
            && (forall v :: v in t.timers ==> v == u || v in s.timers)
  {
  }

  /** A timer that was not cancelled begins a call when the model is loaded and selected; the call has the text, its
      hash and the model of that moment. Otherwise no call begins. */
  lemma WokenTimer(w: World, s: Cache, m: Models, u: nat, c: nat)
    requires u in s.timers && s.timers[u].note in s.notes && c !in s.calls
    ensures var t, n := NextCache(w, s, m, Wake(u, c)), s.timers[u].note;
            var text := s.notes[n].title + "\n" + s.notes[n].content;
            && t.notes == s.notes && u !in t.timers && (forall v :: v != u ==> (v in t.timers <==> v in s.timers))
            && (forall v :: v in t.timers ==> t.timers[v] == s.timers[v])
            && (!s.timers[u].cancelled && m.isLoaded && m.current.Some? ==>
                  && c in t.calls && t.calls[c] == Call(n, m.current.value, text, w.hash(text), Some(u), Waiting)
                  && t.calls - {c} == s.calls)
            && (s.timers[u].cancelled || !m.isLoaded || m.current.None? ==> t.calls == s.calls)
  {
    var t := NextCache(w, s, m, Wake(u, c));
    assert !s.timers[u].cancelled && m.isLoaded && m.current.Some? ==> t.calls - {c} == s.calls;
  }

  lemma BegunCall(w: World, s: Cache, m: Models, n: nat, c: nat)
    requires n in s.notes && c !in s.calls
    ensures var t := NextCache(w, s, m, Begin(n, c));
            var text := s.notes[n].title + "\n" + s.notes[n].content;
            && t.notes == s.notes && t.timers == s.timers && t.pending == s.pending
            && (m.current.Some? ==>
                  c in t.calls && t.calls[c] == Call(n, m.current.value, text, w.hash(text), None, Waiting))
            && (m.current.None? ==> c !in t.calls)
            && (forall d :: d != c ==> (d in t.calls <==> d in s.calls) && (d in s.calls ==> t.calls[d] == s.calls[d]))
  {
  }

  /** The answer is the held model's vector of the captured text. */
  lemma AnsweredCall(w: World, s: Cache, m: Models, c: nat, succeeds: bool)
    requires c in s.calls && s.calls[c].answer == Waiting
    ensures var t := NextCache(w, s, m, Embed(c, succeeds));
            && t.notes == s.notes && t.calls.Keys == s.calls.Keys
            && t.calls[c].answer == (if succeeds && m.engine.Some? then Done(w.embed(m.engine.value, s.calls[c].text))
                else Failed)
            && t.calls[c].note == s.calls[c].note && t.calls[c].model == s.calls[c].model &&
                t.calls[c].text == s.calls[c].text
            && t.calls[c].hash == s.calls[c].hash && t.calls[c].timer == s.calls[c].timer
  {
  }

  /** A finished call writes its vector, model and hash to the note, and nothing if it failed. */
  lemma FinishedCall(w: World, s: Cache, m: Models, c: nat)
    requires c in s.calls && s.calls[c].answer != Waiting && s.calls[c].note in s.notes
    ensures var t, call := NextCache(w, s, m, Finish(c)), s.calls[c];
            && OthersStay(s, t, call.note) && SameText(t.notes[call.note], s.notes[call.note]) && c !in t.calls
            && (call.answer.Done? ==>
                  var n := t.notes[call.note];
                  n.embedding == Some(call.answer.vector) && n.model == Some(call.model) && n.hash == Some(call.hash))
            && (call.answer.Failed? ==> t.notes[call.note] == s.notes[call.note])
            && t.timers == s.timers && (call.timer.None? ==> t.pending == s.pending)
            && (call.timer.Some? ==> call.note !in t.pending)
            && (forall k :: k in s.pending && k != call.note ==> k in t.pending && t.pending[k] == s.pending[k])
            && (forall d :: d != c ==> (d in t.calls <==> d in s.calls) && (d in s.calls ==> t.calls[d] == s.calls[d]))
  {
  }

  // ---- Notes over runs

  /** The event writes something to the note. */
  predicate Writes(s: State, e: Event, n: nat) {
    e.OnNotes? && e.n.Finish? && e.n.call in s.cache.calls && s.cache.calls[e.n.call].note == n &&
    s.cache.calls[e.n.call].answer.Done?
  }

  lemma BareUntilWritten(w: World, s: State, e: Event, n: nat)
    requires Enabled(s, e) && n in s.cache.notes && IsBare(s.cache.notes[n]) && !Writes(s, e, n)
    ensures n in Next(w, s, e).cache.notes && IsBare(Next(w, s, e).cache.notes[n])
  {
  }

  lemma {:induction false} StaysBare(w: World, states: seq<State>, events: seq<Event>, n: nat, i: nat, j: nat)
    requires IsRun(w, states, events) && i <= j < |states|
    requires n in states[i].cache.notes && IsBare(states[i].cache.notes[n])
    requires forall k :: i <= k < j ==> !Writes(states[k], events[k], n)
    ensures n in states[j].cache.notes && IsBare(states[j].cache.notes[n])
  {
    if i < j {
      StaysBare(w, states, events, n, i, j - 1);
      assert Enabled(states[j - 1], events[j - 1]) && states[j] == Next(w, states[j - 1], events[j - 1]);
      BareUntilWritten(w, states[j - 1], events[j - 1], n);
    }
  }

  /** Over every run: once a note has been edited, it does not pass the freshness test again, under whatever model,
      until a call for it has written something; however its text is changed meanwhile. */
  lemma EditedIsNotServed(w: World, states: seq<State>, events: seq<Event>, n: nat, u: nat, i: nat, j: nat)
    requires IsRun(w, states, events) && i < j < |states| && events[i] == OnNotes(Edited(n, u))
    requires forall k :: i < k < j ==> !Writes(states[k], events[k], n)
    ensures n in states[j].cache.notes && forall current :: !IsFresh(w, states[j].cache.notes[n], current)
  {
    assert Enabled(states[i], events[i]) && states[i + 1] == Next(w, states[i], events[i]);
    EditedIsBare(w, states[i].cache, states[i].models, n, u);
    StaysBare(w, states, events, n, i + 1, j);
  }

  /** With the selected model loaded and held, an edited note whose timer wakes and whose call succeeds is served again,
      with the embedding of its text. */
  lemma EditIsIndexed(w: World, s: State, n: nat, u: nat, c: nat) returns (t: State)
    requires n in s.cache.notes && u !in s.cache.timers && c !in s.cache.calls
    requires s.models.isLoaded && s.models.current.Some? && s.models.engine == s.models.current
    ensures var s1 := Next(w, s, OnNotes(Edited(n, u)));
            && Enabled(s1, OnNotes(Wake(u, c)))
            && var s2 := Next(w, s1, OnNotes(Wake(u, c)));
            && Enabled(s2, OnNotes(Embed(c, true)))
            && var s3 := Next(w, s2, OnNotes(Embed(c, true)));
            && Enabled(s3, OnNotes(Finish(c))) && t == Next(w, s3, OnNotes(Finish(c)))
    ensures var note, model := s.cache.notes[n], s.models.current.value;
            var vector := w.embed(model, note.title + "\n" + note.content);
            && n in t.cache.notes && SameText(t.cache.notes[n], note)
            && t.cache.notes[n].embedding == Some(vector)
            && (vector != [] ==> IsFresh(w, t.cache.notes[n], s.models.current))
            && n !in t.cache.pending && c !in t.cache.calls && u !in t.cache.timers
  {
    var s1 := Next(w, s, OnNotes(Edited(n, u)));
    EditedIsBare(w, s.cache, s.models, n, u);
    var s2 := Next(w, s1, OnNotes(Wake(u, c)));
    WokenTimer(w, s1.cache, s1.models, u, c);
    var s3 := Next(w, s2, OnNotes(Embed(c, true)));
    AnsweredCall(w, s2.cache, s2.models, c, true);
    t := Next(w, s3, OnNotes(Finish(c)));
    FinishedCall(w, s3.cache, s3.models, c);
  }

  // ---- Cancelled timers over runs

  /** The timer sleeps no more, or only to do nothing; and no call is under way for it. */
  predicate IsOver(s: Cache, u: nat) {
    (u in s.timers ==> s.timers[u].cancelled) && forall c :: c in s.calls ==> s.calls[c].timer != Some(u)
  }

  lemma OverStaysOver(w: World, s: State, e: Event, u: nat)
    requires Enabled(s, e) && IsOver(s.cache, u) && !(e.OnNotes? && e.n.Edited? && e.n.timer == u)
    ensures IsOver(Next(w, s, e).cache, u)
  {
  }

  /** Over every run: a timer that is cancelled before its call begins never begins one, unless its name is given to a
      new timer. */
  lemma {:induction false} CancelledNeverIndexes(w: World, states: seq<State>, events: seq<Event>, u: nat, i: nat,
      j: nat)
    requires IsRun(w, states, events) && i <= j < |states| && IsOver(states[i].cache, u)
    requires forall k :: i <= k < j && events[k].OnNotes? && events[k].n.Edited? ==> events[k].n.timer != u
    ensures IsOver(states[j].cache, u)
  {
    if i < j {
      CancelledNeverIndexes(w, states, events, u, i, j - 1);
      assert Enabled(states[j - 1], events[j - 1]) && states[j] == Next(w, states[j - 1], events[j - 1]);
      OverStaysOver(w, states[j - 1], events[j - 1], u);
    }
  }

  /** The debounce: an edit puts an end to the timer of the edit before it, if that still sleeps. */
  lemma EditEndsEarlierTimer(w: World, s: State, n: nat, u: nat, v: nat)
    requires n in s.cache.notes && u !in s.cache.timers && n in s.cache.pending && s.cache.pending[n] == v
    requires v in s.cache.timers && forall c :: c in s.cache.calls ==> s.cache.calls[c].timer != Some(v)
    ensures IsOver(Next(w, s, OnNotes(Edited(n, u))).cache, v)
  {
  }

  // ---- Loading and unloading

  /** A load that runs through: the actor holds the model, and it is the selected and loaded one. */
  lemma LoadingSelects(s: Models, l: nat, id: string)
    requires l !in s.loads && !s.isLoading
    ensures var s1 := NextModels(s, LoadBegin(l, id));
            && s1.isLoading && s1.current == s.current && s1.engine == s.engine &&
                ModelEventEnabled(s1, LoadRun(l, Ready))
            && var s2 := NextModels(s1, LoadRun(l, Ready));
            && ModelEventEnabled(s2, LoadEnd(l))
            && NextModels(s2, LoadEnd(l)) == Models(Some(id), true, false, Some(id), s.loads, s.unloads)
  {
  }

  /** A load that fails after the old model was freed holds none; one that is turned down keeps the old one; neither is
      loaded or changes the selection. */
  lemma FailedLoadSelectsNothing(s: Models, l: nat, id: string, outcome: LoadPhase)
    requires l !in s.loads && !s.isLoading && (outcome == Lost || outcome == TurnedDown)
    ensures var s1 := NextModels(s, LoadBegin(l, id));
            && ModelEventEnabled(s1, LoadRun(l, outcome))
            && var s2 := NextModels(s1, LoadRun(l, outcome));
            && ModelEventEnabled(s2, LoadEnd(l))
            && NextModels(s2, LoadEnd(l)) ==
               Models(s.current, false, false, if outcome == Lost then None else s.engine, s.loads, s.unloads)
  {
  }

  lemma UnloadingFrees(s: Models, u: nat, next: Then)
    requires u !in s.unloads && next != Forget
    ensures var s1 := NextModels(s, UnloadBegin(u, next));
            && ModelEventEnabled(s1, UnloadRun(u))
            && var s2 := NextModels(s1, UnloadRun(u));
            && s2.engine == None && s2.isLoaded == s.isLoaded && ModelEventEnabled(s2, UnloadEnd(u))
            && NextModels(s2, UnloadEnd(u)) ==
               Models(if next == ClearSelection then None else s.current, false, false, None, s.loads, s.unloads)
  {
  }

  lemma BackgroundFrees(s: Models, u: nat)
    requires u !in s.unloads
    ensures var s1 := NextModels(s, Background(u));
            && !s1.isLoaded && !s1.isLoading && s1.engine == s.engine && ModelEventEnabled(s1, UnloadRun(u))
            && var s2 := NextModels(s1, UnloadRun(u));
            && ModelEventEnabled(s2, UnloadEnd(u))
            && NextModels(s2, UnloadEnd(u)) == Models(s.current, false, false, None, s.loads, s.unloads)
  {
  }

  lemma NormalizingDeselects(s: Models, catalog: set<string>)
    ensures NextModels(s, Normalize(catalog)) ==
            Models(if s.current.Some? && s.current.value in catalog then s.current else None, s.isLoaded, s.isLoading,
                   s.engine, s.loads, s.unloads)
  {
  }

  /** The freshness test, spelled out. */
  lemma FreshMeans(w: World, n: Note, current: Option<string>)
    ensures IsFresh(w, n, current) <==>
            && n.embedding.Some? && |n.embedding.value| > 0 && current.Some? && n.model == Some(current.value)
            && n.hash == Some(w.hash(n.title + "\n" + n.content))
  {
  }
}

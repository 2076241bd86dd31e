/** The ledger of answer feedback: what a rating does to the boosts of the notes and chunks that an answer cites,
    and what changing the rating takes back. Boosts are counted in hundredths. */
module Feedback {

  datatype Rating = NotRelevant | PartlyWrong | MissingSource

  datatype Kind = Notes | Chunks

  datatype Message = Message(id: nat, isAssistant: bool, sourceNotes: seq<nat>, sourceChunks: seq<nat>)
  {
    function Sources(kind: Kind): seq<nat> {
      if kind == Notes then sourceNotes else sourceChunks
    }
  }

  type Boosts = map<nat, int>

  datatype Book = Book(ratings: map<nat, Rating>, notes: Boosts, chunks: Boosts)
  {
    function Of(kind: Kind): Boosts {
      if kind == Notes then notes else chunks
    }
  }

  function Delta(r: Rating): (d: int)
    ensures -6 <= d <= -1
  {
    match r
    case NotRelevant => -6
    case PartlyWrong => -3
    case MissingSource => -1
  }

  function Clamp(v: int): int {
    if v > 20 then 20 else if v < -20 then -20 else v
  }

  function Boost(b: Boosts, n: nat): int {
    if n in b then b[n] else 0
  }

  function Apply(b: Boosts, sources: seq<nat>, delta: int): Boosts {
    if sources == [] then b
    else
      var n, rest := sources[|sources| - 1], Apply(b, sources[..|sources| - 1], delta);
      rest[n := Clamp(Boost(rest, n) + delta)]
  }

  function ApplyTo(b: Book, m: Message, delta: int): Book {
    b.(notes := Apply(b.notes, m.sourceNotes, delta), chunks := Apply(b.chunks, m.sourceChunks, delta))
  }

  function Record(b: Book, r: Rating, m: Message): Book {
    if !m.isAssistant then b
    else
      var undone := if m.id in b.ratings then ApplyTo(b, m, -Delta(b.ratings[m.id])) else b;
      ApplyTo(undone.(ratings := b.ratings[m.id := r]), m, Delta(r))
  }

  // ---- One application of a delta

  function Times(sources: seq<nat>, n: nat): nat {
    var all: multiset<nat> := multiset(sources);
    all[n]
  }

  predicate InRange(v: int) {
    -20 <= v <= 20
  }

  /** A cited source moves by the delta as often as it is cited, and stops at the bounds. */
  lemma {:induction false} AppliedBoost(b: Boosts, sources: seq<nat>, delta: int, n: nat)
    requires InRange(Boost(b, n))
    ensures Boost(Apply(b, sources, delta), n) == Clamp(Boost(b, n) + delta * Times(sources, n))
  {
    if sources != [] {
      var last, rest := sources[|sources| - 1], sources[..|sources| - 1];
      AppliedBoost(b, rest, delta, n);
      assert sources == rest + [last];
      if delta > 0 {
        MoreIsMore(delta, Times(rest, n));
      } else {
        MoreIsMore(-delta, Times(rest, n));
      }
    }
  }

  lemma MoreIsMore(delta: int, k: nat)
    requires delta >= 0
    ensures 0 <= delta * k && delta * (k + 1) == delta * k + delta
    ensures (-delta) * (k + 1) == (-delta) * k - delta && (-delta) * k <= 0
  {
  }

  lemma {:induction false} UpdatedBoostIsInRange(b: Boosts, sources: seq<nat>, delta: int, n: nat)
    requires n in sources
    ensures n in Apply(b, sources, delta) && InRange(Apply(b, sources, delta)[n])
  {
    var last, rest := sources[|sources| - 1], sources[..|sources| - 1];
    if n != last {
      assert n in rest;
      UpdatedBoostIsInRange(b, rest, delta, n);
    }
  }

  lemma {:induction false} OthersKeepTheirBoost(b: Boosts, sources: seq<nat>, delta: int, n: nat)
    requires n !in sources
    ensures Boost(Apply(b, sources, delta), n) == Boost(b, n)
  {
    if sources != [] {
      OthersKeepTheirBoost(b, sources[..|sources| - 1], delta, n);
    }
  }

  // ---- Runs

  datatype Event = Rate(message: nat, rating: Rating)

  ghost predicate IsRun(ms: seq<Message>, books: seq<Book>, events: seq<Event>) {
    && |books| == |events| + 1
    && books[0].ratings == map[]
    && forall i :: 0 <= i < |events| ==>
         events[i].message < |ms| && books[i + 1] == Record(books[i], events[i].rating, ms[events[i].message])
  }

  predicate DistinctIds(ms: seq<Message>) {
    forall i, j :: 0 <= i < j < |ms| ==> ms[i].id != ms[j].id
  }

  /** Whatever the boosts were before, a recorded rating leaves every boost that it touches within the bounds. */
  lemma RecordedBoostsAreInRange(b: Book, r: Rating, m: Message, kind: Kind, n: nat)
    requires m.isAssistant
    ensures if n in m.Sources(kind) then InRange(Boost(Record(b, r, m).Of(kind), n))
            else Boost(Record(b, r, m).Of(kind), n) == Boost(b.Of(kind), n)
  {
    var undone := if m.id in b.ratings then ApplyTo(b, m, -Delta(b.ratings[m.id])) else b;
    if n in m.Sources(kind) {
      UpdatedBoostIsInRange(undone.Of(kind), m.Sources(kind), Delta(r), n);
    } else {
      OthersKeepTheirBoost(undone.Of(kind), m.Sources(kind), Delta(r), n);
      if m.id in b.ratings {
        OthersKeepTheirBoost(b.Of(kind), m.Sources(kind), -Delta(b.ratings[m.id]), n);
      }
    }
  }

  lemma {:induction false} BoostsStayInRange(ms: seq<Message>, books: seq<Book>, events: seq<Event>, kind: Kind,
          n: nat, i: nat)
    requires IsRun(ms, books, events) && InRange(Boost(books[0].Of(kind), n)) && i < |books|
    ensures InRange(Boost(books[i].Of(kind), n))
  {
    if i > 0 {
      BoostsStayInRange(ms, books, events, kind, n, i - 1);
      var m := ms[events[i - 1].message];
      if m.isAssistant {
        RecordedBoostsAreInRange(books[i - 1], events[i - 1].rating, m, kind, n);
      }
    }
  }

  /** What the latest ratings say about a source: the sum of their deltas, each as often as the message cites it. */
  function Owed(ms: seq<Message>, ratings: map<nat, Rating>, kind: Kind, n: nat): int {
    if ms == [] then 0
    else
      var m := ms[|ms| - 1];
      Owed(ms[..|ms| - 1], ratings, kind, n)
        + if m.id in ratings then Delta(ratings[m.id]) * Times(m.Sources(kind), n) else 0
  }

  lemma {:induction false} OwedIsNeverPositive(ms: seq<Message>, ratings: map<nat, Rating>, kind: Kind, n: nat)
    ensures Owed(ms, ratings, kind, n) <= 0
  {
    if ms != [] {
      var m := ms[|ms| - 1];
      OwedIsNeverPositive(ms[..|ms| - 1], ratings, kind, n);
      if m.id in ratings {
        MoreIsMore(-Delta(ratings[m.id]), Times(m.Sources(kind), n));
      }
    }
  }

  lemma {:induction false} OwedElsewhere(ms: seq<Message>, ratings: map<nat, Rating>, id: nat, kind: Kind, n: nat)
    requires forall i :: 0 <= i < |ms| ==> ms[i].id != id
    ensures Owed(ms, ratings - {id}, kind, n) == Owed(ms, ratings, kind, n)
  {
    if ms != [] {
      OwedElsewhere(ms[..|ms| - 1], ratings, id, kind, n);
    }
  }

  /** The share of one message in the sum. */
  lemma {:induction false} OwedSplits(ms: seq<Message>, ratings: map<nat, Rating>, k: nat, kind: Kind, n: nat)
    requires DistinctIds(ms) && k < |ms|
    ensures Owed(ms, ratings, kind, n) == Owed(ms, ratings - {ms[k].id}, kind, n)
              + if ms[k].id in ratings then Delta(ratings[ms[k].id]) * Times(ms[k].Sources(kind), n) else 0
  {
    var m, rest := ms[|ms| - 1], ms[..|ms| - 1];
    if k == |ms| - 1 {
      OwedElsewhere(rest, ratings, m.id, kind, n);
    } else {
      OwedSplits(rest, ratings, k, kind, n);
      assert rest[k] == ms[k] && m.id != ms[k].id;
    }
  }

  predicate IsExact(ms: seq<Message>, start: int, b: Book, kind: Kind, n: nat) {
    Boost(b.Of(kind), n) == start + Owed(ms, b.ratings, kind, n)
  }

  lemma RecordKeepsExact(ms: seq<Message>, start: int, b: Book, r: Rating, k: nat, kind: Kind, n: nat)
    requires DistinctIds(ms) && k < |ms| && InRange(start)
    requires IsExact(ms, start, b, kind, n) && InRange(Boost(b.Of(kind), n))
    requires start + Owed(ms, Record(b, r, ms[k]).ratings, kind, n) >= -20
    ensures IsExact(ms, start, Record(b, r, ms[k]), kind, n)
  {
    hide Owed;
    hide Apply;
    var m := ms[k];
    if m.isAssistant {
      var cited := Times(m.Sources(kind), n);
      var others := b.ratings - {m.id};
      assert b.ratings[m.id := r] - {m.id} == others;
      OwedSplits(ms, b.ratings, k, kind, n);
      OwedSplits(ms, b.ratings[m.id := r], k, kind, n);
      OwedIsNeverPositive(ms, others, kind, n);
      var undone := if m.id in b.ratings then ApplyTo(b, m, -Delta(b.ratings[m.id])) else b;
      if m.id in b.ratings {
        var previous := Delta(b.ratings[m.id]);
        AppliedBoost(b.Of(kind), m.Sources(kind), -previous, n);
        MoreIsMore(-previous, cited);
      }
      assert Boost(undone.Of(kind), n) == start + Owed(ms, others, kind, n);
      AppliedBoost(undone.Of(kind), m.Sources(kind), Delta(r), n);
      OwedIsNeverPositive(ms, b.ratings[m.id := r], kind, n);
    }
  }

  /** However often ratings are changed: a boost equals its starting value plus what the latest ratings say, all
      through the run, exactly if that sum never falls below the lower bound. */
  lemma LedgerIsExactExactly(ms: seq<Message>, books: seq<Book>, events: seq<Event>, kind: Kind, n: nat)
    requires DistinctIds(ms) && IsRun(ms, books, events) && InRange(Boost(books[0].Of(kind), n))
    ensures var start := Boost(books[0].Of(kind), n);
            (forall i :: 0 <= i < |books| ==> IsExact(ms, start, books[i], kind, n)) <==>
            (forall i :: 0 <= i < |books| ==> start + Owed(ms, books[i].ratings, kind, n) >= -20)
  {
    var start := Boost(books[0].Of(kind), n);
    if forall i :: 0 <= i < |books| ==> IsExact(ms, start, books[i], kind, n) {
      forall i | 0 <= i < |books|
        ensures start + Owed(ms, books[i].ratings, kind, n) >= -20
      {
        BoostsStayInRange(ms, books, events, kind, n, i);
        assert IsExact(ms, start, books[i], kind, n);
      }
    }
    if forall i :: 0 <= i < |books| ==> start + Owed(ms, books[i].ratings, kind, n) >= -20 {
      forall i | 0 <= i < |books|
        ensures IsExact(ms, start, books[i], kind, n)
      {
        ExactAt(ms, books, events, kind, n, i);
      }
    }
  }

  lemma {:induction false} NothingRatedOwesNothing(ms: seq<Message>, kind: Kind, n: nat)
    ensures Owed(ms, map[], kind, n) == 0
  {
    if ms != [] {
      NothingRatedOwesNothing(ms[..|ms| - 1], kind, n);
    }
  }

  lemma {:induction false} ExactAt(ms: seq<Message>, books: seq<Book>, events: seq<Event>, kind: Kind, n: nat, i: nat)
    requires DistinctIds(ms) && IsRun(ms, books, events) && i < |books|
    requires InRange(Boost(books[0].Of(kind), n))
    requires forall j :: 0 <= j < |books| ==> Boost(books[0].Of(kind), n) + Owed(ms, books[j].ratings, kind, n) >= -20
    ensures IsExact(ms, Boost(books[0].Of(kind), n), books[i], kind, n)
  {
    if i == 0 {
      NothingRatedOwesNothing(ms, kind, n);
    } else {
      ExactAt(ms, books, events, kind, n, i - 1);
      BoostsStayInRange(ms, books, events, kind, n, i - 1);
      assert books[i] == Record(books[i - 1], events[i - 1].rating, ms[events[i - 1].message]);
      RecordKeepsExact(ms, Boost(books[0].Of(kind), n), books[i - 1], events[i - 1].rating, events[i - 1].message,
          kind, n);
    }
  }

  /** The rated messages that cite a source. */
  function Citing(ms: seq<Message>, ratings: map<nat, Rating>, kind: Kind, n: nat): nat {
    if ms == [] then 0
    else
      var m := ms[|ms| - 1];
      Citing(ms[..|ms| - 1], ratings, kind, n) + if m.id in ratings && n in m.Sources(kind) then 1 else 0
  }

  lemma {:induction false} FewOweLittle(ms: seq<Message>, ratings: map<nat, Rating>, kind: Kind, n: nat)
    requires forall m :: m in ms ==> Times(m.Sources(kind), n) <= 1
    ensures Owed(ms, ratings, kind, n) >= -6 * Citing(ms, ratings, kind, n)
  {
    if ms != [] {
      FewOweLittle(ms[..|ms| - 1], ratings, kind, n);
      var m := ms[|ms| - 1];
      var times := Times(m.Sources(kind), n);
      assert times == 0 || times == 1;
      assert n in m.Sources(kind) <==> times == 1;
    }
  }

  /** A source that starts at zero and is cited at most once by each message, at most three of which are rated
      at any time, always has the sum of the latest deltas as its boost. */
  lemma ThreeMessagesAreExact(ms: seq<Message>, books: seq<Book>, events: seq<Event>, kind: Kind, n: nat)
    requires DistinctIds(ms) && IsRun(ms, books, events) && Boost(books[0].Of(kind), n) == 0
    requires forall m :: m in ms ==> Times(m.Sources(kind), n) <= 1
    requires forall i :: 0 <= i < |books| ==> Citing(ms, books[i].ratings, kind, n) <= 3
    ensures forall i :: 0 <= i < |books| ==> Boost(books[i].Of(kind), n) == Owed(ms, books[i].ratings, kind, n)
  {
    forall i | 0 <= i < |books|
      ensures Boost(books[0].Of(kind), n) + Owed(ms, books[i].ratings, kind, n) >= -20
    {
      FewOweLittle(ms, books[i].ratings, kind, n);
    }
    forall i | 0 <= i < |books|
      ensures Boost(books[i].Of(kind), n) == Owed(ms, books[i].ratings, kind, n)
    {
      ExactAt(ms, books, events, kind, n, i);
    }
  }

  /** With four messages the bound bites, and a rating changed afterwards is not taken back in full. */
  lemma FourMessagesExample() returns (ms: seq<Message>, books: seq<Book>, events: seq<Event>)
    ensures DistinctIds(ms) && IsRun(ms, books, events) && books[0] == Book(map[], map[], map[])
    ensures Boost(books[|events|].notes, 7) == -15 && Owed(ms, books[|events|].ratings, Notes, 7) == -19
  {
    ms := seq(4, i requires 0 <= i < 4 => Message(i, true, [7], []));
    events := [Rate(0, NotRelevant), Rate(1, NotRelevant), Rate(2, NotRelevant), Rate(3, NotRelevant),
        Rate(3, MissingSource)];
    var b0 := Book(map[], map[], map[]);
    var b1 := Record(b0, NotRelevant, ms[0]);
    var b2 := Record(b1, NotRelevant, ms[1]);
    var b3 := Record(b2, NotRelevant, ms[2]);
    var b4 := Record(b3, NotRelevant, ms[3]);
    var b5 := Record(b4, MissingSource, ms[3]);
    books := [b0, b1, b2, b3, b4, b5];
    hide Record;
    hide Owed;
    hide Clamp;
    NotRelevantOnceMore(b0, 0, 0);
    NotRelevantOnceMore(b1, 1, -6);
    NotRelevantOnceMore(b2, 2, -12);
    NotRelevantOnceMore(b3, 3, -18);
    ChangedToMissing(b4, 3, -20);
    OwedExample(ms, b5.ratings);
  }

  lemma NotRelevantOnceMore(b: Book, id: nat, boost: int)
    requires Boost(b.notes, 7) == boost && id !in b.ratings && -20 <= boost <= 0
    ensures var t := Record(b, NotRelevant, Message(id, true, [7], []));
            Boost(t.notes, 7) == (if boost < -14 then -20 else boost - 6) && t.ratings == b.ratings[id := NotRelevant]
  {
    RecordOne(b, NotRelevant, id);
  }

  lemma ChangedToMissing(b: Book, id: nat, boost: int)
    requires Boost(b.notes, 7) == boost == -20 && id in b.ratings && b.ratings[id] == NotRelevant
    ensures var t := Record(b, MissingSource, Message(id, true, [7], []));
            Boost(t.notes, 7) == -15 && t.ratings == b.ratings[id := MissingSource]
  {
    RecordOne(b, MissingSource, id);
  }

  lemma OwedExample(ms: seq<Message>, ratings: map<nat, Rating>)
    requires |ms| == 4 && forall i :: 0 <= i < 4 ==> ms[i] == Message(i, true, [7], [])
    requires forall id :: 0 <= id < 4 ==> id in ratings && ratings[id] == if id == 3 then MissingSource else NotRelevant
    ensures Owed(ms, ratings, Notes, 7) == -19
  {
    var t1, t2, t3 := ms[..1], ms[..2], ms[..3];
    assert t1[..0] == [] && t2[..1] == t1 && t3[..2] == t2;
    assert Times([7], 7) == 1;
    assert Owed(t1, ratings, Notes, 7) == -6;
    assert Owed(t2, ratings, Notes, 7) == -12;
    assert Owed(t3, ratings, Notes, 7) == -18;
  }

  lemma RecordOne(b: Book, r: Rating, id: nat)
    ensures var undone := if id in b.ratings then Clamp(Boost(b.notes, 7) - Delta(b.ratings[id]))
        else Boost(b.notes, 7);
            Record(b, r, Message(id, true, [7], [])) ==
                Book(b.ratings[id := r], b.notes[7 := Clamp(undone + Delta(r))], b.chunks)
  {
    forall c: Boosts, delta: int
      ensures Apply(c, [7], delta) == c[7 := Clamp(Boost(c, 7) + delta)]
    {
      assert [7][..0] == [];
    }
  }

  // ---- The view model's part

  class Ledger {
    var feedbackByMessage: map<nat, Rating>
    var noteBoosts: Boosts
    var chunkBoosts: Boosts

    ghost function TheBook(): Book
      reads this
    {
      Book(feedbackByMessage, noteBoosts, chunkBoosts)
    }

    constructor (noteBoosts: Boosts, chunkBoosts: Boosts)
      ensures TheBook() == Book(map[], noteBoosts, chunkBoosts)
    {
      feedbackByMessage := map[];
      this.noteBoosts := noteBoosts;
      this.chunkBoosts := chunkBoosts;
    }

    method ApplyFeedbackDelta(delta: int, m: Message)
      modifies this`noteBoosts, this`chunkBoosts
      ensures TheBook() == ApplyTo(old(TheBook()), m, delta)
    {
      for i := 0 to |m.sourceNotes|
        invariant noteBoosts == Apply(old(noteBoosts), m.sourceNotes[..i], delta) && chunkBoosts == old(chunkBoosts)
      {
        var n := m.sourceNotes[i];
        noteBoosts := noteBoosts[n := Clamp(Boost(noteBoosts, n) + delta)];
        assert m.sourceNotes[..i + 1][..i] == m.sourceNotes[..i];
      }
      assert m.sourceNotes[..|m.sourceNotes|] == m.sourceNotes;
      for i := 0 to |m.sourceChunks|
        invariant chunkBoosts == Apply(old(chunkBoosts), m.sourceChunks[..i], delta)
        invariant noteBoosts == Apply(old(noteBoosts), m.sourceNotes, delta)
      {
        var n := m.sourceChunks[i];
        chunkBoosts := chunkBoosts[n := Clamp(Boost(chunkBoosts, n) + delta)];
        assert m.sourceChunks[..i + 1][..i] == m.sourceChunks[..i];
      }
      assert m.sourceChunks[..|m.sourceChunks|] == m.sourceChunks;
    }

    method RecordFeedback(r: Rating, m: Message)
      modifies this
      ensures TheBook() == Record(old(TheBook()), r, m)
    {
      if !m.isAssistant {
        return;
      }
      if m.id in feedbackByMessage {
        ApplyFeedbackDelta(Delta(feedbackByMessage[m.id]) * -1, m);
      }
      feedbackByMessage := feedbackByMessage[m.id := r];
      ApplyFeedbackDelta(Delta(r), m);
    }
  }

  // ---- What a rating costs

  /** The first rating of an answer lowers the boost of each source by 0.06, 0.03 or 0.01 for every time that it is
      cited, down to -0.2 at most; and the rating is remembered. A message that is no answer changes nothing. */
  lemma FirstRatingLowers(b: Book, r: Rating, m: Message, kind: Kind, n: nat)
    requires m.id !in b.ratings && -20 <= Boost(b.Of(kind), n) <= 20
    ensures var after := Record(b, r, m);
            var each := match r case NotRelevant => 6 case PartlyWrong => 3 case MissingSource => 1;
            var lowered := Boost(b.Of(kind), n) - each * multiset(m.Sources(kind))[n];
            if !m.isAssistant then after == b
            else
              && after.ratings == b.ratings[m.id := r]
              && Boost(after.Of(kind), n) == if lowered < -20 then -20 else lowered
  {
    if m.isAssistant {
      AppliedBoost(b.Of(kind), m.Sources(kind), Delta(r), n);
      var times := Times(m.Sources(kind), n);
      MoreIsMore(-Delta(r), times);
      assert Delta(r) * times == -(-Delta(r) * times);
    }
  }
}

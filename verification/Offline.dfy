// aegis/screening/offline.py: the built-in matcher over a fixed watchlist, and
// why a listed name never gets past it.
module Offline {
  import opened Wrappers
  import opened Models
  import opened Screening
  import opened Context
  import opened Sanctions
  import opened ScreenRuns
  import opened Stages
  import opened Decision
  import opened FailClosed
  import opened Jaro
  import opened Phonetic
  import Fuzzy

  datatype WatchlistEntry = WatchlistEntry(
    entityId: string, name: string, listName: string, isPep: bool, kind: string, phonetic: string)

  const PHONETIC_MATCH_BONUS := 0.06

  // ---- Scores ----

  function Score(entry: WatchlistEntry, name: string, text: Text): real {
    var jw := Winkler(text.lower(name), text.lower(entry.name), 0.1);
    Context.Min(jw + (if entry.phonetic == Key(name, text) then PHONETIC_MATCH_BONUS else 0.0), 1.0)
  }

  function CandidateFor(entry: WatchlistEntry, score: real): Candidate {
    Candidate(entry.entityId, entry.name, score, entry.listName, entry.isPep, entry.kind)
  }

  function Hits(entries: seq<WatchlistEntry>, name: string, minScore: real, text: Text): seq<Candidate> {
    if entries == [] then []
    else
      var front := Hits(entries[..|entries| - 1], name, minScore, text);
      var entry := entries[|entries| - 1];
      if Score(entry, name, text) >= minScore then front + [CandidateFor(entry, Score(entry, name, text))] else front
  }

  // Best first; equal scores keep their order.
  function Descending(s: seq<Candidate>): seq<Candidate> {
    if s == [] then [] else InsertDown(Descending(s[..|s| - 1]), s[|s| - 1])
  }

  function InsertDown(s: seq<Candidate>, c: Candidate): seq<Candidate> {
    if s == [] || s[|s| - 1].score >= c.score then s + [c]
    else InsertDown(s[..|s| - 1], c) + [s[|s| - 1]]
  }

  function Matches(entries: seq<WatchlistEntry>, name: string, minScore: real, text: Text): seq<Candidate> {
    if name == "" then [] else Descending(Hits(entries, name, minScore, text))
  }

  // ---- The provider ----

  class OfflineFixtureProvider {
    const entries: seq<WatchlistEntry>
    const minScore: real

    constructor (entries: seq<WatchlistEntry>, minScore: real := MATCH_THRESHOLD)
      ensures this.entries == entries && this.minScore == minScore
    {
      this.entries, this.minScore := entries, minScore;
    }

    method Screen(name: string, text: Text) returns (candidates: seq<Candidate>)
      ensures candidates == Matches(entries, name, minScore, text)
    {
      if name == "" { return []; }
      var phonetic := PhoneticKey(name, text);
      var lowered := text.lower(name);
      var out: seq<Candidate> := [];
      for i := 0 to |entries|
        invariant out == Hits(entries[..i], name, minScore, text)
      {
        assert entries[..i + 1][..i] == entries[..i];
        var entry := entries[i];
        var jw := Fuzzy.JaroWinklerSimilarity(lowered, text.lower(entry.name));
        var bonus := if entry.phonetic == phonetic then PHONETIC_MATCH_BONUS else 0.0;
        var score := Context.Min(jw + bonus, 1.0);
        if score >= minScore { out := out + [CandidateFor(entry, score)]; }
      }
      assert entries[..|entries|] == entries;
      return Descending(out);
    }
  }

  // As the pipeline sees it: no state, no failures, static data.
  function OfflineProvider(entries: seq<WatchlistEntry>, minScore: real, version: string, text: Text): Provider<()> {
    Provider(
      (s: ()) => ((), Got(Provenance("offline-fixture", "aegis-demo-fixtures", version, None))),
      (s: (), name: string) => ((), Got(Matches(entries, name, minScore, text))))
  }

  // ---- What the answer holds ----

  ghost predicate BestFirst(s: seq<Candidate>) {
    forall i, j :: 0 <= i < j < |s| ==> s[i].score >= s[j].score
  }

  lemma {:induction false} DescendingSorts(s: seq<Candidate>)
    ensures BestFirst(Descending(s)) && multiset(Descending(s)) == multiset(s)
  {
    if s == [] {
    } else {
      var front, last := s[..|s| - 1], s[|s| - 1];
      DescendingSorts(front);
      InsertSorts(Descending(front), last);
      DescendingKeeps(s);
    }
  }

  lemma {:induction false} DescendingKeeps(s: seq<Candidate>)
    ensures multiset(Descending(s)) == multiset(s)
  {
    if s == [] {
    } else {
      var front, last := s[..|s| - 1], s[|s| - 1];
      DescendingKeeps(front);
      InsertKeeps(Descending(front), last);
      assert s == front + [last];
    }
  }

  lemma {:induction false} InsertKeeps(s: seq<Candidate>, c: Candidate)
    ensures multiset(InsertDown(s, c)) == multiset(s) + multiset{c}
  {
    if s == [] || s[|s| - 1].score >= c.score {
    } else {
      InsertKeeps(s[..|s| - 1], c);
      assert s == s[..|s| - 1] + [s[|s| - 1]];
    }
  }

  lemma {:induction false} InsertSorts(s: seq<Candidate>, c: Candidate)
    requires BestFirst(s)
    ensures BestFirst(InsertDown(s, c))
  {
    if s == [] || s[|s| - 1].score >= c.score {
    } else {
      var front, last := s[..|s| - 1], s[|s| - 1];
      InsertSorts(front, c);
      var ins := InsertDown(front, c);
      forall i | 0 <= i < |ins| ensures ins[i].score >= last.score {
        InsertKeeps(front, c);
        assert ins[i] in multiset(front) + multiset{c};
      }
    }
  }

  lemma {:induction false} HitsExactly(entries: seq<WatchlistEntry>, name: string, minScore: real, text: Text,
                                       c: Candidate)
    ensures c in Hits(entries, name, minScore, text) <==>
      exists entry :: entry in entries && Score(entry, name, text) >= minScore
        && c == CandidateFor(entry, Score(entry, name, text))
  {
    if entries == [] {
    } else {
      var front, last := entries[..|entries| - 1], entries[|entries| - 1];
      HitsExactly(front, name, minScore, text, c);
      assert entries == front + [last];
    }
  }

  // Exactly the entries that score high enough, best first.
  lemma MatchesExactly(entries: seq<WatchlistEntry>, name: string, minScore: real, text: Text, c: Candidate)
    requires name != ""
    ensures BestFirst(Matches(entries, name, minScore, text))
    ensures c in Matches(entries, name, minScore, text) <==>
      exists entry :: entry in entries && Score(entry, name, text) >= minScore
        && c == CandidateFor(entry, Score(entry, name, text))
  {
    var hits := Hits(entries, name, minScore, text);
    DescendingSorts(hits);
    HitsExactly(entries, name, minScore, text, c);
    assert c in Descending(hits) <==> c in multiset(Descending(hits));
    assert c in hits <==> c in multiset(hits);
  }

  lemma ScoreInRange(entry: WatchlistEntry, name: string, text: Text)
    ensures 0.0 <= Score(entry, name, text) <= 1.0
    ensures text.lower(name) == text.lower(entry.name) ==> Score(entry, name, text) == 1.0
  {
    DefaultWeight(text.lower(name), text.lower(entry.name));
  }

  // The same entry under the key of the name scores 0.06 more, up to 1.
  lemma PhoneticBonus(entry: WatchlistEntry, name: string, text: Text, other: string)
    requires other != Key(name, text)
    ensures var unlike, alike := entry.(phonetic := other), entry.(phonetic := Key(name, text));
      && Score(unlike, name, text) == Winkler(text.lower(name), text.lower(entry.name), 0.1)
      && Score(alike, name, text) == Context.Min(Score(unlike, name, text) + 0.06, 1.0)
  {
    DefaultWeight(text.lower(name), text.lower(entry.name));
  }

  // ---- No listed name gets through ----

  lemma ListedIsMatched(entries: seq<WatchlistEntry>, entry: WatchlistEntry, name: string, minScore: real, text: Text)
    requires entry in entries && !entry.isPep && name != "" && text.lower(name) == text.lower(entry.name)
      && minScore <= 1.0
    ensures !NoMatch(Matches(entries, name, minScore, text))
  {
    var c := CandidateFor(entry, Score(entry, name, text));
    ScoreInRange(entry, name, text);
    MatchesExactly(entries, name, minScore, text, c);
    var i :| 0 <= i < |Matches(entries, name, minScore, text)| && Matches(entries, name, minScore, text)[i] == c;
  }

  // A bundle naming, up to case, an entry that is not a PEP is always BLOCKed.
  lemma ListedNeverCleared(e: Engine, b: Bundle, controls: Controls, now: real, stored: Stored,
                           entries: seq<WatchlistEntry>, minScore: real, version: string, text: Text, id: string,
                           n: Option<string>, entry: WatchlistEntry)
    requires e.lower == text.lower && minScore <= 1.0
    requires n in NamesIn(b) && Given(n) && entry in entries && !entry.isPep
      && text.lower(n.value) == text.lower(entry.name)
    ensures Decide(e, b, controls, now, stored, OfflineProvider(entries, minScore, version, text), (), id)
              .final.envelope.verdict == Block
  {
    var p := OfflineProvider(entries, minScore, version, text);
    var d := Decide(e, b, controls, now, stored, p, (), id);
    DecisionFailsClosed(e, b, controls, now, stored, p, (), id);
    if d.final.envelope.verdict != Block {
      var queries, names := d.final.archive.screening.queries, CandidateNames(b, e.lower);
      assert NameCleared(e, names, n.value, queries, p, Started(p, ()));
      var k :| 0 <= k < |names| && ClearedAt(queries, p, Started(p, ()), names, k) && names[k] != ""
        && e.lower(names[k]) == e.lower(n.value);
      ListedIsMatched(entries, entry, names[k], minScore, text);
    }
  }
}

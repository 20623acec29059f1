/**
 * Persona presets and the slider state of one user session.
 *
 * The session store is modelled as a map from state keys to integers; a
 * persona's defaults are an ordered list of (weight key, value) entries, in
 * the order the presets table lists them.
 */
module Session {
  import opened Sentiment

  /** The nine weight keys, in the order every persona lists them. */
  const WeightKeys: seq<string> :=
    ["power", "fiber", "water", "highway", "rail", "solar", "wind", "flood_risk", "sentiment"]

  /** `PERSONA_WEIGHTS`. */
  const PersonaWeights: map<string, seq<(string, int)>> := map[
    "Data Center" := [("power", 10), ("fiber", 9), ("water", 5), ("highway", 4), ("rail", 2),
                      ("solar", 5), ("wind", 2), ("flood_risk", 9), ("sentiment", 7)],
    "Industrial" := [("power", 8), ("fiber", 6), ("water", 7), ("highway", 9), ("rail", 8),
                     ("solar", 3), ("wind", 3), ("flood_risk", 7), ("sentiment", 6)],
    "Solar" := [("power", 4), ("fiber", 3), ("water", 4), ("highway", 5), ("rail", 3),
                ("solar", 10), ("wind", 7), ("flood_risk", 10), ("sentiment", 6)]
  ]

  /** The session key of a weight's slider, `f"w_{key}"`. */
  function StateKey(key: string): string {
    "w_" + key
  }

  lemma StateKeyInjective(a: string, b: string)
    ensures StateKey(a) == StateKey(b) ==> a == b
  {
    if StateKey(a) == StateKey(b) {
      assert a == StateKey(a)[2..] && b == StateKey(b)[2..];
    }
  }

  /** The session keys written by a loop over `entries`. */
  function StateKeys(entries: seq<(string, int)>): set<string> {
    set i | 0 <= i < |entries| :: StateKey(entries[i].0)
  }

  predicate DistinctKeys(entries: seq<(string, int)>) {
    forall i, j :: 0 <= i < j < |entries| ==> entries[i].0 != entries[j].0
  }

  /** The store after `ensure_slider_state_for_persona`'s loop has visited `entries`. */
  function Seeded(store: map<string, int>, entries: seq<(string, int)>): map<string, int> {
    if entries == [] then store
    else
      var s := Seeded(store, entries[..|entries| - 1]);
      var e := entries[|entries| - 1];
      if StateKey(e.0) in s then s else s[StateKey(e.0) := e.1]
  }

  /** The store after `apply_persona`'s loop has visited `entries`. */
  function Applied(store: map<string, int>, entries: seq<(string, int)>): map<string, int> {
    if entries == [] then store
    else
      var e := entries[|entries| - 1];
      Applied(store, entries[..|entries| - 1])[StateKey(e.0) := e.1]
  }

  /** Forcing the defaults is overriding the store with the defaults alone. */
  lemma {:induction false} AppliedIsOverride(store: map<string, int>, entries: seq<(string, int)>)
    ensures Applied(store, entries) == store + Applied(map[], entries)
  {
    if entries != [] {
      AppliedIsOverride(store, entries[..|entries| - 1]);
    }
  }

  /** `apply_persona` writes every state key of the entries and touches no other key. */
  lemma {:induction false} AppliedKeys(store: map<string, int>, entries: seq<(string, int)>)
    ensures Applied(store, entries).Keys == store.Keys + StateKeys(entries)
    ensures forall k :: k in store && k !in StateKeys(entries) ==> Applied(store, entries)[k] == store[k]
  {
    if entries != [] {
      var init := entries[..|entries| - 1];
      AppliedKeys(store, init);
      assert StateKeys(entries) == StateKeys(init) + {StateKey(entries[|entries| - 1].0)} by {
        forall i | 0 <= i < |init| ensures init[i] == entries[i] { }
      }
    }
  }

  /** With distinct weight keys, each state key holds its entry's default afterwards. */
  lemma {:induction false} AppliedValues(store: map<string, int>, entries: seq<(string, int)>)
    requires DistinctKeys(entries)
    ensures forall i :: 0 <= i < |entries| ==>
      StateKey(entries[i].0) in Applied(store, entries) && Applied(store, entries)[StateKey(entries[i].0)] == entries[i].1
  {
    if entries != [] {
      var init := entries[..|entries| - 1];
      var e := entries[|entries| - 1];
      AppliedValues(store, init);
      forall i | 0 <= i < |entries|
        ensures StateKey(entries[i].0) in Applied(store, entries)
        ensures Applied(store, entries)[StateKey(entries[i].0)] == entries[i].1
      {
        if i < |init| {
          assert init[i] == entries[i];
          StateKeyInjective(entries[i].0, e.0);
        }
      }
    }
  }

  /** `apply_persona` is idempotent. */
  lemma AppliedIdempotent(store: map<string, int>, entries: seq<(string, int)>)
    ensures Applied(Applied(store, entries), entries) == Applied(store, entries)
  {
    AppliedIsOverride(store, entries);
    AppliedIsOverride(Applied(store, entries), entries);
    var d := Applied(map[], entries);
    assert (store + d) + d == store + d;
  }

  /** `ensure_slider_state_for_persona` adds state keys only and never rewrites a present one. */
  lemma {:induction false} SeededKeys(store: map<string, int>, entries: seq<(string, int)>)
    ensures Seeded(store, entries).Keys == store.Keys + StateKeys(entries)
    ensures forall k :: k in store ==> Seeded(store, entries)[k] == store[k]
  {
    if entries != [] {
      var init := entries[..|entries| - 1];
      SeededKeys(store, init);
      assert StateKeys(entries) == StateKeys(init) + {StateKey(entries[|entries| - 1].0)} by {
        forall i | 0 <= i < |init| ensures init[i] == entries[i] { }
      }
    }
  }

  /**
   * With distinct weight keys, seeding is forcing the defaults and then
   * putting back everything the store already held.
   */
  lemma {:induction false} SeededIsAppliedUnderStore(store: map<string, int>, entries: seq<(string, int)>)
    requires DistinctKeys(entries)
    ensures Seeded(store, entries) == Applied(store, entries) + store
  {
    if entries != [] {
      var init := entries[..|entries| - 1];
      var e := entries[|entries| - 1];
      var key := StateKey(e.0);
      assert DistinctKeys(init) by {
        forall i, j | 0 <= i < j < |init| ensures init[i].0 != init[j].0 {
          assert init[i] == entries[i] && init[j] == entries[j];
        }
      }
      SeededIsAppliedUnderStore(store, init);
      assert key !in StateKeys(init) by {
        if key in StateKeys(init) {
          var i :| 0 <= i < |init| && StateKey(init[i].0) == key;
          StateKeyInjective(init[i].0, e.0);
        }
      }
      AppliedKeys(store, init);
      MergeStep(Seeded(store, init), Applied(store, init), store, key, e.1);
    }
  }

  /**
   * One step of both loops on a store `seeded` that is `applied` overridden by
   * `store`, for a key that `applied` does not hold yet.
   */
  lemma MergeStep(seeded: map<string, int>, applied: map<string, int>, store: map<string, int>, key: string, v: int)
    requires seeded == applied + store && (key in applied ==> key in store)
    ensures (if key in seeded then seeded else seeded[key := v]) == applied[key := v] + store
  {
  }

  /** When every state key is already present, seeding changes nothing. */
  lemma {:induction false} SeededNoop(store: map<string, int>, entries: seq<(string, int)>)
    requires StateKeys(entries) <= store.Keys
    ensures Seeded(store, entries) == store
  {
    if entries != [] {
      var init := entries[..|entries| - 1];
      assert StateKeys(init) <= StateKeys(entries) by {
        forall i | 0 <= i < |init| ensures init[i] == entries[i] { }
      }
      SeededNoop(store, init);
      assert StateKey(entries[|entries| - 1].0) in StateKeys(entries);
    }
  }

  /** Seeding twice is seeding once, and seeding after a reset changes nothing. */
  lemma SeededIdempotent(store: map<string, int>, entries: seq<(string, int)>)
    ensures Seeded(Seeded(store, entries), entries) == Seeded(store, entries)
    ensures Seeded(Applied(store, entries), entries) == Applied(store, entries)
  {
    SeededKeys(store, entries);
    SeededNoop(Seeded(store, entries), entries);
    AppliedKeys(store, entries);
    SeededNoop(Applied(store, entries), entries);
  }

  /** Every persona lists the nine weight keys, in the same order, each once. */
  lemma PersonaTableShape(persona: string)
    requires persona in PersonaWeights
    ensures |PersonaWeights[persona]| == |WeightKeys|
    ensures forall i :: 0 <= i < |WeightKeys| ==> PersonaWeights[persona][i].0 == WeightKeys[i]
    ensures DistinctKeys(PersonaWeights[persona])
  {
    assert forall i, j :: 0 <= i < j < |WeightKeys| ==>
      |WeightKeys[i]| != |WeightKeys[j]| || WeightKeys[i][0] != WeightKeys[j][0];
  }

  /**
   * All personas write the same `w_` keys, so once any persona has seeded the
   * store, seeding for another persona changes nothing: switching persona
   * keeps the sliders where they were.
   */
  lemma SwitchingPersonaSeedsNothing(store: map<string, int>, first: string, next: string)
    requires first in PersonaWeights && next in PersonaWeights
    ensures Seeded(Seeded(store, PersonaWeights[first]), PersonaWeights[next]) == Seeded(store, PersonaWeights[first])
  {
    var seeded := Seeded(store, PersonaWeights[first]);
    PersonaTableShape(first);
    PersonaTableShape(next);
    SeededKeys(store, PersonaWeights[first]);
    assert StateKeys(PersonaWeights[next]) <= seeded.Keys by {
      forall i | 0 <= i < |PersonaWeights[next]|
        ensures StateKey(PersonaWeights[next][i].0) in StateKeys(PersonaWeights[first])
      {
        assert PersonaWeights[next][i].0 == PersonaWeights[first][i].0;
      }
    }
    SeededNoop(seeded, PersonaWeights[next]);
  }

  /**
   * The weights the sidebar hands to the scorer, one slider per entry of the
   * persona's defaults: each slider shows its `w_<key>` entry of the store,
   * or the default when the entry is absent.
   */
  function Sliders(store: map<string, int>, entries: seq<(string, int)>): map<string, int> {
    if entries == [] then map[]
    else
      var e := entries[|entries| - 1];
      Sliders(store, entries[..|entries| - 1])[e.0 := SliderValue(store, e)]
  }

  /** `st.session_state.get(f"w_{key}", default)`. */
  function SliderValue(store: map<string, int>, entry: (string, int)): int {
    if StateKey(entry.0) in store then store[StateKey(entry.0)] else entry.1
  }

  function SidebarWeights(store: map<string, int>, persona: string): map<string, int>
    requires persona in PersonaWeights
  {
    Sliders(store, PersonaWeights[persona])
  }

  /** Two stores that show the same value on every slider give the same weights. */
  lemma {:induction false} SlidersAgree(store: map<string, int>, store': map<string, int>, entries: seq<(string, int)>)
    requires forall i :: 0 <= i < |entries| ==> SliderValue(store, entries[i]) == SliderValue(store', entries[i])
    ensures Sliders(store, entries) == Sliders(store', entries)
  {
    if entries != [] {
      var init := entries[..|entries| - 1];
      forall i | 0 <= i < |init| ensures SliderValue(store, init[i]) == SliderValue(store', init[i]) {
        assert init[i] == entries[i];
      }
      SlidersAgree(store, store', init);
    }
  }

  /**
   * Seeding never changes what the sliders show: an absent entry already
   * shows the default that seeding writes into it.
   */
  lemma SeedingKeepsSliders(store: map<string, int>, persona: string)
    requires persona in PersonaWeights
    ensures SidebarWeights(Seeded(store, PersonaWeights[persona]), persona) == SidebarWeights(store, persona)
  {
    var entries := PersonaWeights[persona];
    PersonaTableShape(persona);
    SeededKeys(store, entries);
    SeededIsAppliedUnderStore(store, entries);
    AppliedValues(store, entries);
    SlidersAgree(Seeded(store, entries), store, entries);
  }

  /** After a reset the sliders show exactly the persona's defaults, whatever they showed before. */
  lemma ResetShowsDefaults(store: map<string, int>, persona: string)
    requires persona in PersonaWeights
    ensures SidebarWeights(Applied(store, PersonaWeights[persona]), persona) == SidebarWeights(map[], persona)
  {
    var entries := PersonaWeights[persona];
    PersonaTableShape(persona);
    AppliedValues(store, entries);
    SlidersAgree(Applied(store, entries), map[], entries);
  }

  /** The slider state of one browser session (`st.session_state`). */
  class SessionState {
    var store: map<string, int>

    constructor ()
      ensures store == map[]
    {
      store := map[];
    }

    /**
     * `ensure_slider_state_for_persona`: fills each absent `w_<key>` with the
     * persona's default. An unknown persona is the lookup's KeyError: nothing
     * is written and `found` is false.
     */
    method EnsureSliderStateForPersona(persona: string) returns (found: bool)
      modifies this
      ensures found == (persona in PersonaWeights)
      ensures store == if found then Seeded(old(store), PersonaWeights[persona]) else old(store)
    {
      if persona !in PersonaWeights {
        return false;
      }
      var weights := PersonaWeights[persona];
      for i := 0 to |weights|
        invariant store == Seeded(old(store), weights[..i])
      {
        var (key, val) := weights[i];
        assert weights[..i + 1][..i] == weights[..i];
        var stateKey := StateKey(key);
        if stateKey !in store {
          store := store[stateKey := val];
        }
      }
      assert weights[..|weights|] == weights;
      return true;
    }

    /**
     * `apply_persona`: overwrites all nine `w_<key>` entries with the
     * persona's defaults; an unknown persona writes nothing.
     */
    method ApplyPersona(persona: string) returns (found: bool)
      modifies this
      ensures found == (persona in PersonaWeights)
      ensures store == if found then Applied(old(store), PersonaWeights[persona]) else old(store)
    {
      if persona !in PersonaWeights {
        return false;
      }
      var weights := PersonaWeights[persona];
      for i := 0 to |weights|
        invariant store == Applied(old(store), weights[..i])
      {
        var (key, val) := weights[i];
        assert weights[..i + 1][..i] == weights[..i];
        store := store[StateKey(key) := val];
      }
      assert weights[..|weights|] == weights;
      return true;
    }

    /**
     * The "Run AI Sentiment Scraper" button: the transcript's score divided
     * by ten becomes the sentiment weight, and the score itself is kept.
     */
    method RunSentimentScraper(transcript: string)
      modifies this
      ensures store == old(store)[StateKey("sentiment") := SuggestedWeight(SentimentScore(transcript))]
                                 ["last_scraped_sentiment" := SentimentScore(transcript)]
    {
      var sentimentScore := SentimentScore(transcript);
      var suggestedWeight := SuggestedWeight(sentimentScore);
      store := store[StateKey("sentiment") := suggestedWeight];
      store := store["last_scraped_sentiment" := sentimentScore];
    }
  }
}

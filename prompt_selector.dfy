/**
 * The random-without-repetition prompt choice of App.tsx (the
 * `setUsedPrompts` updater of the intro effect), stated over any catalog;
 * the client applies it to PROMPTS. The random number is a parameter: the
 * index `Math.floor(Math.random() * n)` into the n candidates.
 */
module PromptSelector {
  import opened GameTypes
  import opened Catalog

  /** The entries of `catalog` whose id is not in `used`, in catalog order (`PROMPTS.filter`). */
  function Unused(catalog: seq<PromptItem>, used: set<string>): (r: seq<PromptItem>)
    ensures |r| <= |catalog|
    ensures forall p :: p in r <==> p in catalog && p.id !in used
  {
    if catalog == [] then []
    else (if catalog[0].id in used then [] else [catalog[0]]) + Unused(catalog[1..], used)
  }

  /** The prompts one selection chooses among: the unused ones, or the whole catalog once all are used. */
  function Candidates(catalog: seq<PromptItem>, used: set<string>): (r: seq<PromptItem>) {
    var available := Unused(catalog, used);
    if |available| == 0 then catalog else available
  }

  datatype Selection = Selection(prompt: PromptItem, used: set<string>)

  /** One selection, and the used-set it leaves behind. */
  function SelectPrompt(catalog: seq<PromptItem>, used: set<string>, randomIndex: nat): (s: Selection)
    requires randomIndex < |Candidates(catalog, used)|
  {
    var available := Unused(catalog, used);
    if |available| == 0 then
      var p := catalog[randomIndex];
      Selection(p, {p.id})
    else
      var p := available[randomIndex];
      Selection(p, used + {p.id})
  }

  /**
   * What one selection promises: the prompt is a catalog prompt; while
   * unused prompts remain it is one of them and its id is added to the
   * used-set; once all are used the used-set restarts with just its id.
   * Used ids stay catalog ids.
   */
  lemma SelectPromptSpec(catalog: seq<PromptItem>, used: set<string>, randomIndex: nat)
    requires randomIndex < |Candidates(catalog, used)|
    ensures SelectPrompt(catalog, used, randomIndex).prompt in catalog
    ensures Unused(catalog, used) != [] ==>
      var s := SelectPrompt(catalog, used, randomIndex);
      s.prompt.id !in used && s.prompt in Unused(catalog, used) && s.used == used + {s.prompt.id}
    ensures Unused(catalog, used) == [] ==>
      SelectPrompt(catalog, used, randomIndex).used == {SelectPrompt(catalog, used, randomIndex).prompt.id}
    ensures used <= Ids(catalog) ==> SelectPrompt(catalog, used, randomIndex).used <= Ids(catalog)
  {
    var s := SelectPrompt(catalog, used, randomIndex);
    assert s.prompt in Candidates(catalog, used);
  }

  /**
   * The random index picks among the candidates without bias: every
   * candidate is picked by some index, and different indices pick prompts
   * with different ids, so a uniform index gives a uniform prompt.
   */
  lemma SelectionIsUniform(catalog: seq<PromptItem>, used: set<string>)
    requires DistinctIds(catalog)
    ensures forall p :: p in Candidates(catalog, used) ==>
      exists k :: 0 <= k < |Candidates(catalog, used)| && SelectPrompt(catalog, used, k).prompt == p
    ensures forall k, m :: 0 <= k < m < |Candidates(catalog, used)| ==>
      SelectPrompt(catalog, used, k).prompt.id != SelectPrompt(catalog, used, m).prompt.id
  {
    UnusedDistinct(catalog, used);
    var c := Candidates(catalog, used);
    assert forall k :: 0 <= k < |c| ==> SelectPrompt(catalog, used, k).prompt == c[k];
    forall p | p in c
      ensures exists k :: 0 <= k < |c| && SelectPrompt(catalog, used, k).prompt == p
    {
      var k :| 0 <= k < |c| && c[k] == p;
      assert SelectPrompt(catalog, used, k).prompt == p;
    }
  }

  /** Filtering keeps ids distinct. */
  lemma {:induction false} UnusedDistinct(catalog: seq<PromptItem>, used: set<string>)
    requires DistinctIds(catalog)
    ensures DistinctIds(Unused(catalog, used))
  {
    if catalog != [] {
      UnusedDistinct(catalog[1..], used);
      var rest := Unused(catalog[1..], used);
      forall p | p in rest ensures p.id != catalog[0].id {
        var i :| 0 <= i < |catalog[1..]| && catalog[1..][i] == p;
        assert catalog[i + 1] == p;
      }
    }
  }

  /** Marking as used an id that no entry carries filters nothing more. */
  lemma {:induction false} UnusedIgnoresForeignId(catalog: seq<PromptItem>, used: set<string>, x: string)
    requires forall i :: 0 <= i < |catalog| ==> catalog[i].id != x
    ensures Unused(catalog, used + {x}) == Unused(catalog, used)
  {
    if catalog != [] {
      assert forall i :: 0 <= i < |catalog[1..]| ==> catalog[1..][i] == catalog[i + 1];
      UnusedIgnoresForeignId(catalog[1..], used, x);
    }
  }

  /** Marking the first entry's id as used, when no other entry has it, removes just that entry. */
  lemma UnusedRemovesHead(catalog: seq<PromptItem>, used: set<string>)
    requires catalog != [] && catalog[0].id !in used
    requires forall i :: 1 <= i < |catalog| ==> catalog[i].id != catalog[0].id
    ensures |Unused(catalog, used + {catalog[0].id})| == |Unused(catalog, used)| - 1
  {
    var x, rest := catalog[0].id, catalog[1..];
    forall i | 0 <= i < |rest| ensures rest[i].id != x {
      assert rest[i] == catalog[i + 1];
    }
    UnusedIgnoresForeignId(rest, used, x);
  }

  /** Marking as used the id of one unused entry removes exactly that entry. */
  lemma {:induction false} UnusedRemovesOne(catalog: seq<PromptItem>, used: set<string>, x: string)
    requires DistinctIds(catalog)
    requires exists p :: p in Unused(catalog, used) && p.id == x
    ensures |Unused(catalog, used + {x})| == |Unused(catalog, used)| - 1
  {
    var p :| p in Unused(catalog, used) && p.id == x;
    assert p in catalog && x !in used;
    var head, rest := catalog[0], catalog[1..];
    if head.id == x {
      UnusedRemovesHead(catalog, used);
    } else {
      assert Unused(catalog, used) == (if head.id in used then [] else [head]) + Unused(rest, used);
      assert Unused(catalog, used + {x}) == (if head.id in used then [] else [head]) + Unused(rest, used + {x});
      assert p in rest;
      forall i, j | 0 <= i < j < |rest| ensures rest[i].id != rest[j].id {
        assert rest[i] == catalog[i + 1] && rest[j] == catalog[j + 1];
      }
      UnusedRemovesOne(rest, used, x);
    }
  }

  /** Nothing used: every entry is a candidate. */
  lemma {:induction false} UnusedOfNothing(catalog: seq<PromptItem>)
    ensures Unused(catalog, {}) == catalog
  {
    if catalog != [] {
      UnusedOfNothing(catalog[1..]);
      assert catalog == [catalog[0]] + catalog[1..];
    }
  }

  /**
   * `draws[i]` is a legal random index for the i-th of consecutive
   * selections starting from `used`.
   */
  predicate LegalDraws(catalog: seq<PromptItem>, used: set<string>, draws: seq<nat>)
    decreases |draws|, 0
  {
    draws == [] ||
    (LegalDraws(catalog, used, draws[..|draws| - 1]) &&
     draws[|draws| - 1] < |Candidates(catalog, Select(catalog, used, draws[..|draws| - 1]).used)|)
  }

  datatype Run = Run(chosen: seq<PromptItem>, used: set<string>)

  /**
   * Consecutive selections: the prompts chosen, in order, and the used-set
   * at the end. The last draw selects from the used-set the earlier ones left.
   */
  function Select(catalog: seq<PromptItem>, used: set<string>, draws: seq<nat>): (run: Run)
    requires LegalDraws(catalog, used, draws)
    decreases |draws|, 1
  {
    if draws == [] then Run([], used)
    else
      var before := Select(catalog, used, draws[..|draws| - 1]);
      var last := SelectPrompt(catalog, before.used, draws[|draws| - 1]);
      Run(before.chosen + [last.prompt], last.used)
  }

  /** The ids of a sequence of prompts. */
  function ChosenIds(chosen: seq<PromptItem>): (ids: set<string>) {
    set i | 0 <= i < |chosen| :: chosen[i].id
  }

  /** The ids of a sequence with a prompt added at the end. */
  lemma SnocIds(chosen: seq<PromptItem>, p: PromptItem)
    ensures ChosenIds(chosen + [p]) == ChosenIds(chosen) + {p.id}
  {
    var whole := chosen + [p];
    forall x | x in ChosenIds(whole) ensures x in ChosenIds(chosen) + {p.id} {
      var i :| 0 <= i < |whole| && whole[i].id == x;
      if i < |chosen| { assert chosen[i].id == x; }
    }
    forall x | x in ChosenIds(chosen) ensures x in ChosenIds(whole) {
      var i :| 0 <= i < |chosen| && chosen[i].id == x;
      assert whole[i].id == x;
    }
    assert whole[|chosen|].id == p.id;
  }

  /** A run chooses one prompt per draw. */
  lemma {:induction false} SelectLength(catalog: seq<PromptItem>, used: set<string>, draws: seq<nat>)
    requires LegalDraws(catalog, used, draws)
    ensures |Select(catalog, used, draws).chosen| == |draws|
    decreases |draws|
  {
    if draws != [] {
      SelectLength(catalog, used, draws[..|draws| - 1]);
    }
  }

  /** Every prompt a run chooses comes from the catalog. */
  lemma {:induction false} ChosenFromCatalog(catalog: seq<PromptItem>, used: set<string>, draws: seq<nat>)
    requires LegalDraws(catalog, used, draws)
    ensures forall p :: p in Select(catalog, used, draws).chosen ==> p in catalog
    decreases |draws|
  {
    if draws != [] {
      var front := draws[..|draws| - 1];
      ChosenFromCatalog(catalog, used, front);
      SelectPromptSpec(catalog, Select(catalog, used, front).used, draws[|draws| - 1]);
    }
  }

  /** One selection while unused prompts remain uses up exactly one of them. */
  lemma SelectStep(catalog: seq<PromptItem>, used: set<string>, d: nat)
    requires DistinctIds(catalog)
    requires Unused(catalog, used) != []
    requires d < |Candidates(catalog, used)|
    ensures SelectPrompt(catalog, used, d).prompt.id !in used
    ensures SelectPrompt(catalog, used, d).used == used + {SelectPrompt(catalog, used, d).prompt.id}
    ensures |Unused(catalog, SelectPrompt(catalog, used, d).used)| == |Unused(catalog, used)| - 1
  {
    var s := SelectPrompt(catalog, used, d);
    SelectPromptSpec(catalog, used, d);
    UnusedRemovesOne(catalog, used, s.prompt.id);
  }

  /** Appending a prompt whose id is new to distinct prompts keeps them distinct. */
  lemma SnocDistinct(chosen: seq<PromptItem>, p: PromptItem, used: set<string>)
    requires DistinctIds(chosen)
    requires forall i :: 0 <= i < |chosen| ==> chosen[i].id !in used
    requires p.id !in used + ChosenIds(chosen)
    ensures DistinctIds(chosen + [p])
    ensures forall i :: 0 <= i < |chosen + [p]| ==> (chosen + [p])[i].id !in used
  {
    var whole := chosen + [p];
    forall i | 0 <= i < |whole| ensures whole[i].id !in used {
      if i < |chosen| { assert whole[i] == chosen[i]; }
    }
    forall i, j | 0 <= i < j < |whole| ensures whole[i].id != whole[j].id {
      assert whole[i] == chosen[i];
      if j < |chosen| { assert whole[j] == chosen[j]; }
      else { assert chosen[i].id in ChosenIds(chosen); }
    }
  }

  /**
   * While unused prompts remain, consecutive selections never repeat a
   * prompt, never pick a used one, and use up exactly one prompt each.
   */
  lemma {:induction false} SelectionsDoNotRepeat(catalog: seq<PromptItem>, used: set<string>, draws: seq<nat>)
    requires DistinctIds(catalog)
    requires LegalDraws(catalog, used, draws)
    requires |draws| <= |Unused(catalog, used)|
    ensures |Select(catalog, used, draws).chosen| == |draws|
    ensures DistinctIds(Select(catalog, used, draws).chosen)
    ensures forall i :: 0 <= i < |draws| ==> Select(catalog, used, draws).chosen[i].id !in used
    ensures Select(catalog, used, draws).used == used + ChosenIds(Select(catalog, used, draws).chosen)
    ensures |Unused(catalog, Select(catalog, used, draws).used)| == |Unused(catalog, used)| - |draws|
    decreases |draws|
  {
    if draws == [] {
      assert ChosenIds([]) == {};
    } else {
      var n := |draws| - 1;
      var front := draws[..n];
      SelectionsDoNotRepeat(catalog, used, front);
      var before := Select(catalog, used, front);
      var last := SelectPrompt(catalog, before.used, draws[n]);
      SelectStep(catalog, before.used, draws[n]);
      SnocIds(before.chosen, last.prompt);
      SnocDistinct(before.chosen, last.prompt, used);
    }
  }

  /**
   * From an empty used-set, |catalog| consecutive selections show every
   * prompt once, and the next one starts over: it picks a prompt shown
   * before and the used-set becomes just that prompt's id.
   */
  lemma RunThenReset(catalog: seq<PromptItem>, draws: seq<nat>)
    requires DistinctIds(catalog)
    requires |draws| == |catalog| + 1
    requires LegalDraws(catalog, {}, draws)
    ensures |Select(catalog, {}, draws).chosen| == |draws|
    ensures DistinctIds(Select(catalog, {}, draws).chosen[..|catalog|])
    ensures exists i :: (0 <= i < |catalog| &&
      Select(catalog, {}, draws).chosen[|catalog|].id == Select(catalog, {}, draws).chosen[i].id)
    ensures Select(catalog, {}, draws).used == {Select(catalog, {}, draws).chosen[|catalog|].id}
  {
    var n := |catalog|;
    var first := draws[..n];
    var whole := Select(catalog, {}, draws);
    var head := Select(catalog, {}, first);
    assert Unused(catalog, head.used) == [] && head.used == ChosenIds(head.chosen) &&
           DistinctIds(head.chosen) && |head.chosen| == n by {
      UnusedOfNothing(catalog);
      SelectionsDoNotRepeat(catalog, {}, first);
    }
    var last := SelectPrompt(catalog, head.used, draws[n]);
    SelectPromptSpec(catalog, head.used, draws[n]);
    assert whole.chosen == head.chosen + [last.prompt];
    assert whole.chosen[..n] == head.chosen && whole.chosen[n] == last.prompt && whole.used == last.used;
    assert last.prompt.id in head.used;
    var i :| 0 <= i < |head.chosen| && head.chosen[i].id == last.prompt.id;
    assert whole.chosen[i] == head.chosen[i];
  }

  /** The catalog scenario: five draws from a fresh game show p1..p5 in some order, the sixth repeats one. */
  lemma PromptsRunThenReset(draws: seq<nat>)
    requires |draws| == 6
    requires LegalDraws(PROMPTS, {}, draws)
    ensures |Select(PROMPTS, {}, draws).chosen| == 6
    ensures DistinctIds(Select(PROMPTS, {}, draws).chosen[..5])
    ensures exists i :: 0 <= i < 5 && Select(PROMPTS, {}, draws).chosen[5] == Select(PROMPTS, {}, draws).chosen[i]
  {
    CatalogDistinct();
    RunThenReset(PROMPTS, draws);
    var c := Select(PROMPTS, {}, draws).chosen;
    var i :| 0 <= i < 5 && c[5].id == c[i].id;
    ChosenFromCatalog(PROMPTS, {}, draws);
    assert c[5] in c && c[i] in c;
    assert c[5] in PROMPTS && c[i] in PROMPTS;
  }
}

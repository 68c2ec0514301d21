/** The fixed prompt catalog (constants.ts). */
module Catalog {
  import opened GameTypes

  const PROMPTS: seq<PromptItem> := [
    PromptItem("p1", Guu, Choki, "カニ", "crab", "グーとチョキで「カニ」を作ってね！"),
    PromptItem("p2", Paa, Paa, "ちょうちょ", "butterfly", "パーとパーで「ちょうちょ」を作ってね！"),
    PromptItem("p3", Guu, Paa, "かたつむり", "snail", "グーとパーで「かたつむり」を作ってね！"),
    PromptItem("p4", Choki, Paa, "キツネ", "fox", "チョキとパーで「キツネ」を作ってね！"),
    PromptItem("p5", Guu, Guu, "双眼鏡", "binoculars", "グーとグーで「双眼鏡」を作ってね！")
  ]

  /** No two entries of `prompts` share an id. */
  predicate DistinctIds(prompts: seq<PromptItem>) {
    forall i, j :: 0 <= i < j < |prompts| ==> prompts[i].id != prompts[j].id
  }

  /** The set of ids of `prompts`. */
  function Ids(prompts: seq<PromptItem>): (ids: set<string>)
    ensures forall p :: p in prompts ==> p.id in ids
    ensures forall x :: x in ids ==> exists p :: p in prompts && p.id == x
  {
    if prompts == [] then {} else {prompts[0].id} + Ids(prompts[1..])
  }

  /** Every catalog id is the letter p followed by the entry's 1-based position. */
  lemma CatalogIdDigits()
    ensures |PROMPTS| == 5
    ensures forall i | 0 <= i < 5 :: |PROMPTS[i].id| == 2 && PROMPTS[i].id[1] == "12345"[i]
  {
  }

  /** The catalog holds five prompts with distinct ids. */
  lemma CatalogDistinct()
    ensures |PROMPTS| == 5
    ensures DistinctIds(PROMPTS)
  {
    CatalogIdDigits();
  }
}

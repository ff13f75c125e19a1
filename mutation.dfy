/** The per-episode field dict of `to_strm` and the channel's mutation rules applied to it. */
module Mutation {
  import opened Settings

  /** The `data` dict: field name to text. Only lookups are made, so key order does not matter. */
  type Fields = map<string, string>

  const FieldNames: set<string> :=
    {"season_number", "season", "episode_number", "episode", "url", "playlist_count"}

  /** The dict as first built for an episode. */
  function NewFields(seasonNumber: string, seasonName: string, episodeNumber: string, title: string, url: string)
    : (d: Fields)
    ensures d.Keys == FieldNames
  {
    map["season_number" := seasonNumber, "season" := seasonName, "episode_number" := episodeNumber,
        "episode" := title, "url" := url, "playlist_count" := "1"]
  }

  /** `mutate_values[channel]` when the channel has rules, otherwise no rules. */
  function RulesFor(cfg: Config, entry: string): seq<Rule> {
    if entry in cfg.mutateValues then cfg.mutateValues[entry] else []
  }

  /** One rule: a field that exists and holds exactly `value` is set to `replace`. */
  predicate Matches(d: Fields, r: Rule) {
    r.field in d && d[r.field] == r.value
  }

  function ApplyRule(d: Fields, r: Rule): Fields {
    if Matches(d, r) then d[r.field := r.replace] else d
  }

  /** The rules applied one after another to the same dict: each sees what the earlier ones left. */
  function Mutate(d: Fields, rules: seq<Rule>): (r: Fields)
    ensures r.Keys == d.Keys
    decreases |rules|
  {
    if rules == [] then d else ApplyRule(Mutate(d, rules[..|rules| - 1]), rules[|rules| - 1])
  }

  /** The rule loop, updating the dict in place. */
  method MutateFields(data: Fields, rules: seq<Rule>) returns (d: Fields)
    ensures d == Mutate(data, rules)
  {
    d := data;
    for i := 0 to |rules|
      invariant d == Mutate(data, rules[..i])
    {
      var rule := rules[i];
      if rule.field in d && d[rule.field] == rule.value {
        d := d[rule.field := rule.replace];
      }
      assert rules[..i + 1][..i] == rules[..i];
    }
    assert rules[..|rules|] == rules;
  }

  /** A rule changes the dict exactly when it matches and its replacement differs. */
  lemma ApplyRuleChanges(d: Fields, r: Rule)
    ensures ApplyRule(d, r) != d <==> Matches(d, r) && r.replace != r.value
  {
    if Matches(d, r) && r.replace != r.value {
      assert ApplyRule(d, r)[r.field] != d[r.field];
    }
  }

  /** A field that no rule names keeps its value. */
  lemma {:induction false} MutateUnnamed(d: Fields, rules: seq<Rule>, f: string)
    requires f in d
    requires forall i :: 0 <= i < |rules| ==> rules[i].field != f
    ensures Mutate(d, rules)[f] == d[f]
    decreases |rules|
  {
    if rules != [] {
      MutateUnnamed(d, rules[..|rules| - 1], f);
    }
  }

  /** A field whose value changed was last set by a rule that named it and matched when its
      turn came; the field holds that rule's replacement. */
  lemma {:induction false} MutateChanged(d: Fields, rules: seq<Rule>, f: string)
    requires f in d && Mutate(d, rules)[f] != d[f]
    ensures exists i ::
      && 0 <= i < |rules| && rules[i].field == f && Matches(Mutate(d, rules[..i]), rules[i])
      && Mutate(d, rules)[f] == rules[i].replace
    decreases |rules|
  {
    var n := |rules| - 1;
    var init := rules[..n];
    var before := Mutate(d, init);
    if Matches(before, rules[n]) && rules[n].field == f {
      assert rules[..n] == init;
    } else {
      MutateChanged(d, init, f);
      var i :| 0 <= i < |init| && init[i].field == f && Matches(Mutate(d, init[..i]), init[i])
        && Mutate(d, init)[f] == init[i].replace;
      assert init[..i] == rules[..i] && init[i] == rules[i];
    }
  }

  /** Rules run in order on the current dict: a second rule matches the first one's output. */
  lemma MutateChainExample(d: Fields)
    requires "season" in d && d["season"] == "A"
    ensures Mutate(d, [Rule("season", "A", "B"), Rule("season", "B", "C")])["season"] == "C"
  {
    var rules := [Rule("season", "A", "B"), Rule("season", "B", "C")];
    assert rules[..1] == [Rule("season", "A", "B")];
    assert rules[..1][..0] == [];
  }
}

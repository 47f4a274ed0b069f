/**
 * The export's extraction loops: read every declaration of every rule set
 * in order and keep, for each name on the allow-list, the value of its last
 * declaration.
 */
module TokenExtraction {

  /** One declaration of a rule set: property name and value as the parser renders it. */
  type Declaration = (string, string)
  type RuleSet = seq<Declaration>

  /** All declarations of all rule sets, rule sets in order, rules in order within each. */
  function Flatten(ruleSets: seq<RuleSet>): seq<Declaration>
  {
    if ruleSets == [] then [] else Flatten(ruleSets[..|ruleSets| - 1]) + ruleSets[|ruleSets| - 1]
  }

  /** The token map after reading `decls` in order (specification of the extraction loops). */
  function Collect(allowList: seq<string>, decls: seq<Declaration>): map<string, string>
  {
    if decls == [] then map[]
    else
      var tokens := Collect(allowList, decls[..|decls| - 1]);
      var (name, value) := decls[|decls| - 1];
      if name in allowList then tokens[name := value] else tokens
  }

  ghost predicate Declared(decls: seq<Declaration>, name: string)
  {
    exists i :: 0 <= i < |decls| && decls[i].0 == name
  }

  /** `decls[i]` declares `name`, and no later declaration does. */
  ghost predicate IsLastDeclaration(decls: seq<Declaration>, name: string, i: int)
  {
    0 <= i < |decls| && decls[i].0 == name && forall j :: i < j < |decls| ==> decls[j].0 != name
  }

  /** Reading one more declaration. */
  lemma CollectSnoc(allowList: seq<string>, decls: seq<Declaration>, d: Declaration)
    ensures Collect(allowList, decls + [d]) ==
      if d.0 in allowList then Collect(allowList, decls)[d.0 := d.1] else Collect(allowList, decls)
  {
    assert (decls + [d])[..|decls|] == decls;
  }

  /** Reading one more rule set. */
  lemma FlattenSnoc(ruleSets: seq<RuleSet>, i: nat)
    requires i < |ruleSets|
    ensures Flatten(ruleSets[..i + 1]) == Flatten(ruleSets[..i]) + ruleSets[i]
  {
    assert ruleSets[..i + 1][..i] == ruleSets[..i];
  }

  /** The nested loops of the export, filling the token map in place. */
  method ExtractTokens(allowList: seq<string>, ruleSets: seq<RuleSet>) returns (tokens: map<string, string>)
    ensures tokens == Collect(allowList, Flatten(ruleSets))
  {
    tokens := map[];
    for i := 0 to |ruleSets|
      invariant tokens == Collect(allowList, Flatten(ruleSets[..i]))
    {
      var rules := ruleSets[i];
      ghost var before := Flatten(ruleSets[..i]);
      assert before + rules[..0] == before;
      for j := 0 to |rules|
        invariant tokens == Collect(allowList, before + rules[..j])
      {
        var (name, value) := rules[j];
        assert before + rules[..j + 1] == (before + rules[..j]) + [(name, value)];
        CollectSnoc(allowList, before + rules[..j], (name, value));
        if name in allowList {
          tokens := tokens[name := value];
        }
      }
      assert rules[..|rules|] == rules;
      FlattenSnoc(ruleSets, i);
    }
    assert ruleSets[..|ruleSets|] == ruleSets;
  }

  /** The token map holds exactly the allow-listed names that some declaration sets. */
  lemma {:induction false} CollectKeys(allowList: seq<string>, decls: seq<Declaration>)
    ensures forall name :: name in Collect(allowList, decls) <==> name in allowList && Declared(decls, name)
    decreases |decls|
  {
    if decls != [] {
      var n := |decls| - 1;
      CollectKeys(allowList, decls[..n]);
      forall name
        ensures name in Collect(allowList, decls) <==> name in allowList && Declared(decls, name)
      {
        if Declared(decls, name) {
          var i :| 0 <= i < |decls| && decls[i].0 == name;
          if i < n {
            assert decls[..n][i].0 == name;
          }
        }
        if Declared(decls[..n], name) {
          var i :| 0 <= i < n && decls[..n][i].0 == name;
          assert decls[i].0 == name;
        }
      }
    }
  }

  /** A repeated allow-listed name keeps the value of its last declaration. */
  lemma {:induction false} CollectLastWins(allowList: seq<string>, decls: seq<Declaration>, name: string, i: int)
    requires name in allowList && IsLastDeclaration(decls, name, i)
    ensures name in Collect(allowList, decls) && Collect(allowList, decls)[name] == decls[i].1
    decreases |decls|
  {
    var n := |decls| - 1;
    if i < n {
      assert IsLastDeclaration(decls[..n], name, i);
      CollectLastWins(allowList, decls[..n], name, i);
    }
  }
}

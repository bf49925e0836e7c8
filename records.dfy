/** Building one object from another, as the services do when they map a
    stored row to the object the UI uses or fill a patch field by field:
    a table of rules, each naming the property read, the key written and
    when the value is kept. */
module Records {
  import opened Db

  /** `v || fallback` */
  function Or(v: Value, fallback: Value): (r: Value)
    ensures v.Truthy() ==> r == v
    ensures !v.Truthy() ==> r == fallback
  {
    if v.Truthy() then v else fallback
  }

  /** `v ?? fallback` */
  function Coalesce(v: Value, fallback: Value): (r: Value)
    ensures !v.IsNullish() ==> r == v
    ensures v.IsNullish() ==> r == fallback
  {
    if v.IsNullish() then fallback else v
  }

  /** When a rule copies its value: always (an object literal), when it
      is truthy (`if (x)` or `...(x && {...})`), when it is not
      `undefined`, or when it is not `null` or `undefined` (`!= null`). */
  datatype Keep = Always | WhenTruthy | WhenDefined | WhenNotNull

  predicate Kept(v: Value, keep: Keep) {
    match keep
    case Always => true
    case WhenTruthy => v.Truthy()
    case WhenDefined => v != Undefined
    case WhenNotNull => !v.IsNullish()
  }

  /** Write `source[field]` under `key` when `keep` allows it. */
  datatype Rule = Rule(field: string, key: string, keep: Keep)

  /** No rule after the `i`-th writes its key again. */
  predicate LastWriter(rules: seq<Rule>, i: nat)
    requires i < |rules|
  {
    forall j :: i < j < |rules| ==> rules[j].key != rules[i].key
  }

  /** The object the rules build from `source`, applied in order. */
  function Build(source: Row, rules: seq<Rule>): Row
    decreases |rules|
  {
    if rules == [] then map[]
    else
      var built := Build(source, rules[..|rules| - 1]);
      var rule := rules[|rules| - 1];
      var v := Field(source, rule.field);
      if Kept(v, rule.keep) then built[rule.key := v] else built
  }

  /** A rule's key is present exactly when its value is kept (or an
      earlier rule wrote it), and holds the value it read when kept, as no
      later rule writes that key. */
  lemma {:induction false} BuildRule(source: Row, rules: seq<Rule>, i: nat)
    requires i < |rules| && LastWriter(rules, i)
    ensures var built := Build(source, rules);
      var v := Field(source, rules[i].field);
      (Kept(v, rules[i].keep) ==> rules[i].key in built && built[rules[i].key] == v)
      && (rules[i].key in built <==> Kept(v, rules[i].keep) || rules[i].key in Build(source, rules[..i]))
  {
    var init := rules[..|rules| - 1];
    if i < |rules| - 1 {
      assert init[i] == rules[i];
      assert init[..i] == rules[..i];
      BuildRule(source, init, i);
    } else {
      assert init == rules[..i];
    }
  }

  /** The key a rule writes is absent from what the rules before it
      built when no earlier rule writes it. */
  lemma {:induction false} BuildWithout(source: Row, rules: seq<Rule>, key: string)
    requires forall j :: 0 <= j < |rules| ==> rules[j].key != key
    ensures key !in Build(source, rules)
  {
    if rules != [] {
      BuildWithout(source, rules[..|rules| - 1], key);
    }
  }

  /** No rule but the `i`-th writes its key. */
  predicate OnlyWriter(rules: seq<Rule>, i: nat)
    requires i < |rules|
  {
    forall j :: 0 <= j < |rules| && j != i ==> rules[j].key != rules[i].key
  }

  /** The only rule writing a key decides alone whether the key is
      present and what it holds. */
  lemma BuildOnly(source: Row, rules: seq<Rule>, i: nat)
    requires i < |rules| && OnlyWriter(rules, i)
    ensures var built := Build(source, rules);
      var v := Field(source, rules[i].field);
      (rules[i].key in built <==> Kept(v, rules[i].keep))
      && (rules[i].key in built ==> built[rules[i].key] == v)
  {
    BuildRule(source, rules, i);
    BuildWithout(source, rules[..i], rules[i].key);
  }

  /** Every key of the object was written by a rule whose value was kept. */
  lemma {:induction false} BuildKeys(source: Row, rules: seq<Rule>, key: string)
    requires key in Build(source, rules)
    ensures exists i :: 0 <= i < |rules| && rules[i].key == key && Kept(Field(source, rules[i].field), rules[i].keep)
  {
    var init := rules[..|rules| - 1];
    var last := rules[|rules| - 1];
    if !(key == last.key && Kept(Field(source, last.field), last.keep)) {
      BuildKeys(source, init, key);
      var i :| 0 <= i < |init| && init[i].key == key && Kept(Field(source, init[i].field), init[i].keep);
      assert rules[i] == init[i];
    }
  }

}

/** `asignar_categoria`: the product category decided by an ordered chain of case-insensitive
    keyword tests, the first test that succeeds deciding the label. */
module Category {
  import opened PyStr
  import Seqs

  /** One `elif` arm: the label chosen when any of the keywords occurs in the lower-cased name. */
  datatype Rule = Rule(keywords: seq<string>, category: string)

  /** The arm's condition, `'k1' in producto or 'k2' in producto or ...`. */
  predicate Fires(rule: Rule, name: string)
  {
    exists k | 0 <= k < |rule.keywords| :: Contains(name, rule.keywords[k])
  }

  /** The arms in the order the script tests them. */
  const Rules: seq<Rule> := [
    Rule(["batteries"], "Baterías"),
    Rule(["cable"], "Cables"),
    Rule(["headphones", "airpods", "earpods", "bose"], "Auriculares"),
    Rule(["monitor", "screen"], "Monitores"),
    Rule(["laptop", "macbook", "thinkpad"], "Computadoras"),
    Rule(["phone", "iphone"], "Teléfonos"),
    Rule(["tv", "television"], "Televisores"),
    Rule(["washing", "dryer", "lg"], "Electrodomésticos")
  ]

  /** The `else` label. */
  const Other: string := "Otros"

  /** The closed set of categories: the eight arm labels and the default. */
  const Labels: set<string> :=
    {"Baterías", "Cables", "Auriculares", "Monitores", "Computadoras", "Teléfonos",
     "Televisores", "Electrodomésticos", "Otros"}

  /** The label of the first firing rule, or `default` when none fires. */
  function FirstMatch(rules: seq<Rule>, name: string, default: string): (c: string)
    ensures c == default || exists i :: 0 <= i < |rules| && c == rules[i].category
  {
    var i := Seqs.FirstIndex(rules, r => Fires(r, name));
    if i < |rules| then rules[i].category else default
  }

  /** `asignar_categoria(producto)` on the product name as read from the file. */
  function Categorize(product: string): (c: string)
    ensures c in Labels
  {
    FirstMatch(Rules, Lower(product), Other)
  }

  /** The rules carry pairwise distinct labels, none of them the default. */
  predicate DistinctLabels(rules: seq<Rule>, default: string)
  {
    && (forall j, k :: 0 <= j < k < |rules| ==> rules[j].category != rules[k].category)
    && (forall j :: 0 <= j < |rules| ==> rules[j].category != default)
  }

  /** With distinct labels, the first-match result names rule `i` exactly when rule `i`
      is the first rule that fires. */
  lemma FirstMatchIsFirstFiring(rules: seq<Rule>, name: string, default: string, i: nat)
    requires DistinctLabels(rules, default) && i < |rules|
    ensures FirstMatch(rules, name, default) == rules[i].category <==>
              Fires(rules[i], name) && forall j :: 0 <= j < i ==> !Fires(rules[j], name)
  {
    var f := Seqs.FirstIndex(rules, r => Fires(r, name));
    if f < |rules| {
      assert FirstMatch(rules, name, default) == rules[f].category;
    }
  }

  /** With distinct labels, the first-match result is the default exactly when no rule fires. */
  lemma FirstMatchIsDefault(rules: seq<Rule>, name: string, default: string)
    requires DistinctLabels(rules, default)
    ensures FirstMatch(rules, name, default) == default <==> forall i :: 0 <= i < |rules| ==> !Fires(rules[i], name)
  {
    var f := Seqs.FirstIndex(rules, r => Fires(r, name));
    if f < |rules| {
      assert FirstMatch(rules, name, default) == rules[f].category;
    }
  }

  lemma RulesDistinct()
    ensures DistinctLabels(Rules, Other)
  {
  }

  /** The category is rule `i`'s label exactly when rule `i` is the first rule that fires
      on the lower-cased name. */
  lemma CategorizeFirstFiring(product: string, i: nat)
    requires i < |Rules|
    ensures Categorize(product) == Rules[i].category <==>
              Fires(Rules[i], Lower(product)) && forall j :: 0 <= j < i ==> !Fires(Rules[j], Lower(product))
  {
    RulesDistinct();
    FirstMatchIsFirstFiring(Rules, Lower(product), Other, i);
  }

  /** The category is `'Otros'` exactly when no rule fires on the lower-cased name. */
  lemma CategorizeDefault(product: string)
    ensures Categorize(product) == Other <==> forall i :: 0 <= i < |Rules| ==> !Fires(Rules[i], Lower(product))
  {
    RulesDistinct();
    FirstMatchIsDefault(Rules, Lower(product), Other);
  }

  /** Case does not matter: a name and its lower-case form get the same category. */
  lemma CategorizeLower(product: string)
    ensures Categorize(Lower(product)) == Categorize(product)
  {
    LowerIdempotent(product);
  }

  /** A keyword of rule `i` in the name means the category comes from rule `i` or an earlier one. */
  lemma {:induction false} KeywordBounds(product: string, i: nat, k: nat)
    requires i < |Rules| && k < |Rules[i].keywords|
    requires Contains(Lower(product), Rules[i].keywords[k])
    ensures exists j :: 0 <= j <= i && Categorize(product) == Rules[j].category
  {
    var name := Lower(product);
    assert Fires(Rules[i], name);
    var f := Seqs.FirstIndex(Rules, r => Fires(r, name));
    Seqs.FirstIndexBefore(Rules, r => Fires(r, name), i);
    assert Categorize(product) == Rules[f].category;
  }

  /** The `'screen'` arm comes before the `'tv'` arm: a name containing "screen" is never a television. */
  lemma ScreenBeatsTv(product: string)
    requires Contains(Lower(product), "screen")
    ensures Categorize(product) != "Televisores"
  {
    KeywordBounds(product, 3, 1);
  }

  /** The `'tv'` arm comes before the `'lg'` arm: a name containing "tv" is never an appliance. */
  lemma TvBeatsLg(product: string)
    requires Contains(Lower(product), "tv")
    ensures Categorize(product) != "Electrodomésticos"
  {
    KeywordBounds(product, 6, 0);
  }

  /** The `'iphone'` keyword never decides anything: every name containing it contains `'phone'`. */
  lemma IphoneImpliesPhone(name: string)
    requires Contains(name, "iphone")
    ensures Contains(name, "phone")
  {
    ContainsAt("iphone", "phone", 1);
    ContainsTransitive(name, "iphone", "phone");
  }
}

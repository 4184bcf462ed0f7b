/**
 * The shopping-list aggregation of app/utils.py: every ingredient of every
 * planned recipe is bucketed under its lower-cased name, each bucket's
 * quantity strings are deduplicated by exact equality (never summed), and
 * the rows, named by the capitalized key, are sorted by name. Also the
 * header-plus-rows table handed to the PDF renderer.
 *
 * The specification is the function `Aggregate`; the method
 * `GenerateShoppingListData` computes it the way the source does, with a
 * key-ordered dictionary filled in a nested loop.
 */
module ShoppingList {
  import opened Text
  import opened Models

  /** One row of the list: `{"name": ..., "quantities": ...}`. */
  datatype Item = Item(name: string, quantities: string)

  const QuantitySeparator: string := ", "

  /** The header row of both exports. */
  const Header: seq<string> := ["Ingrédient", "Quantité"]

  // ---------------------------------------------------------------------
  // Specification of the aggregation

  /** Every ingredient occurrence, plan after plan, each recipe's ingredients in order. */
  function Occurrences(plans: seq<LoadedPlan>): seq<Ingredient> {
    if plans == [] then [] else Occurrences(plans[..|plans| - 1]) + plans[|plans| - 1].ingredients
  }

  /** The grouping key of an occurrence: its lower-cased name. */
  function Key(o: Ingredient): string {
    Lower(o.name)
  }

  /** The distinct keys in first-seen order, which is the key order of the dictionary. */
  function Keys(occs: seq<Ingredient>): (ks: seq<string>)
    ensures NoDup(ks)
    ensures |ks| <= |occs|
  {
    if occs == [] then []
    else
      var ks := Keys(occs[..|occs| - 1]);
      var k := Key(occs[|occs| - 1]);
      if k in ks then ks else ks + [k]
  }

  /** The keys are exactly the lower-cased names of the occurrences. */
  lemma {:induction false} KeysMembership(occs: seq<Ingredient>)
    ensures forall o :: o in occs ==> Key(o) in Keys(occs)
    ensures forall k :: k in Keys(occs) ==> exists o :: o in occs && Key(o) == k
  {
    if occs != [] {
      var prefix := occs[..|occs| - 1];
      KeysMembership(prefix);
      assert forall o :: o in occs ==> o in prefix || o == occs[|occs| - 1];
      assert forall o :: o in prefix ==> o in occs;
    }
  }

  lemma KeyIsLowered(occs: seq<Ingredient>, k: string)
    requires k in Keys(occs)
    ensures IsLowered(k)
  {
    KeysMembership(occs);
    var o :| o in occs && Key(o) == k;
    LowerIsLowered(o.name);
  }

  /** The quantity strings appended to the bucket of key `k`, in order, repeats included. */
  function Bucket(occs: seq<Ingredient>, k: string): seq<string> {
    if occs == [] then []
    else
      var last := occs[|occs| - 1];
      Bucket(occs[..|occs| - 1], k) + (if Key(last) == k then [last.quantity] else [])
  }

  /** The bucket of `k` holds exactly the quantities of the occurrences whose key is `k`. */
  lemma {:induction false} BucketMembership(occs: seq<Ingredient>, k: string)
    ensures forall q :: q in Bucket(occs, k) <==> exists o :: o in occs && Key(o) == k && o.quantity == q
  {
    if occs != [] {
      var prefix := occs[..|occs| - 1];
      BucketMembership(prefix, k);
      assert forall o :: o in occs ==> o in prefix || o == occs[|occs| - 1];
      assert forall o :: o in prefix ==> o in occs;
    }
  }

  /**
   * `list(set(qs))` with the order fixed to first occurrence: every string
   * of `qs` exactly once.
   */
  function Dedup(s: seq<string>): (d: seq<string>)
    ensures NoDup(d)
    ensures forall x :: x in d <==> x in s
    ensures |d| <= |s|
  {
    if s == [] then []
    else
      var d := Dedup(s[..|s| - 1]);
      assert forall x :: x in s ==> x in s[..|s| - 1] || x == s[|s| - 1];
      if s[|s| - 1] in d then d else d + [s[|s| - 1]]
  }

  /** The row of key `k`: the capitalized key and its distinct quantities joined by ", ". */
  function Row(occs: seq<Ingredient>, k: string): Item {
    Item(Capitalize(k), Join(Dedup(Bucket(occs, k)), QuantitySeparator))
  }

  function Rows(occs: seq<Ingredient>, ks: seq<string>): seq<Item> {
    seq(|ks|, i requires 0 <= i < |ks| => Row(occs, ks[i]))
  }

  // ---------------------------------------------------------------------
  // sorted(..., key=lambda x: x['name']): a stable sort by name

  /** Places `x` after every element whose name is not greater than its own. */
  function Insert(x: Item, s: seq<Item>): (r: seq<Item>)
    ensures multiset(r) == multiset(s) + multiset{x}
  {
    if s == [] then [x]
    else if Less(x.name, s[0].name) then [x] + s
    else
      assert s == [s[0]] + s[1..];
      [s[0]] + Insert(x, s[1..])
  }

  function SortByName(s: seq<Item>): (r: seq<Item>)
    ensures multiset(r) == multiset(s)
  {
    if s == [] then []
    else
      assert s == s[..|s| - 1] + [s[|s| - 1]];
      Insert(s[|s| - 1], SortByName(s[..|s| - 1]))
  }

  predicate StrictlySorted(s: seq<Item>) {
    forall i, j :: 0 <= i < j < |s| ==> Less(s[i].name, s[j].name)
  }

  predicate DistinctNames(s: seq<Item>) {
    forall i, j :: 0 <= i < j < |s| ==> s[i].name != s[j].name
  }

  lemma {:induction false} InsertStrictlySorted(x: Item, s: seq<Item>)
    requires StrictlySorted(s)
    requires forall y :: y in s ==> y.name != x.name
    ensures StrictlySorted(Insert(x, s))
  {
    if s == [] {
    } else if Less(x.name, s[0].name) {
      forall j | 0 < j < |s| ensures Less(x.name, s[j].name) {
        LessTransitive(x.name, s[0].name, s[j].name);
      }
    } else {
      var t := Insert(x, s[1..]);
      InsertStrictlySorted(x, s[1..]);
      LessTotal(x.name, s[0].name);
      forall y | y in t ensures Less(s[0].name, y.name) {
        assert y in multiset(t);
        if y != x {
          assert y in s[1..];
        }
      }
    }
  }

  lemma {:induction false} SortByNameStrictlySorted(s: seq<Item>)
    requires DistinctNames(s)
    ensures StrictlySorted(SortByName(s))
  {
    if s != [] {
      var prefix := s[..|s| - 1];
      var last := s[|s| - 1];
      SortByNameStrictlySorted(prefix);
      forall y | y in SortByName(prefix) ensures y.name != last.name {
        assert y in multiset(SortByName(prefix));
        assert y in prefix;
      }
      InsertStrictlySorted(last, SortByName(prefix));
    }
  }

  /** The list `generate_shopping_list_data(plans)` returns. */
  function Aggregate(plans: seq<LoadedPlan>): (r: seq<Item>)
    ensures var occs := Occurrences(plans);
      multiset(r) == multiset(Rows(occs, Keys(occs)))
  {
    var occs := Occurrences(plans);
    SortByName(Rows(occs, Keys(occs)))
  }

  // ---------------------------------------------------------------------
  // The source's algorithm

  lemma OccurrencesStep(plans: seq<LoadedPlan>, i: int)
    requires 0 <= i < |plans|
    ensures Occurrences(plans[..i + 1]) == Occurrences(plans[..i]) + plans[i].ingredients
  {
    assert plans[..i + 1][..i] == plans[..i];
  }

  lemma RowsStep(occs: seq<Ingredient>, ks: seq<string>, i: int)
    requires 0 <= i < |ks|
    ensures Rows(occs, ks[..i + 1]) == Rows(occs, ks[..i]) + [Row(occs, ks[i])]
  {
  }

  /**
   * The dictionary `ingredients_map` after the occurrences `occs`: each
   * occurrence appends its quantity to the list of its key, which starts
   * empty the first time the key is seen.
   */
  function Buckets(occs: seq<Ingredient>): (m: map<string, seq<string>>)
    ensures m.Keys == set o | o in occs :: Key(o)
    ensures forall k :: k in m ==> m[k] != []
  {
    if occs == [] then map[]
    else
      var m := Buckets(occs[..|occs| - 1]);
      var o := occs[|occs| - 1];
      m[Key(o) := (if Key(o) in m then m[Key(o)] else []) + [o.quantity]]
  }

  /** One more occurrence: its key is listed if new, and its quantity appended to the key's list. */
  lemma DictionaryStep(seen: seq<Ingredient>, o: Ingredient)
    ensures Keys(seen + [o]) == if Key(o) in Keys(seen) then Keys(seen) else Keys(seen) + [Key(o)]
    ensures var m := Buckets(seen);
      Buckets(seen + [o]) == m[Key(o) := (if Key(o) in m then m[Key(o)] else []) + [o.quantity]]
  {
    assert (seen + [o])[..|seen|] == seen;
  }

  lemma {:induction false} BucketOfUnseenKey(seen: seq<Ingredient>, k: string)
    requires k !in Keys(seen)
    ensures Bucket(seen, k) == []
  {
    if seen != [] {
      BucketOfUnseenKey(seen[..|seen| - 1], k);
    }
  }

  /** The dictionary has exactly the keys `Keys` lists, and under each the list `Bucket` describes. */
  lemma {:induction false} BucketsAgree(occs: seq<Ingredient>, k: string)
    ensures k in Buckets(occs) <==> k in Keys(occs)
    ensures k in Buckets(occs) ==> Buckets(occs)[k] == Bucket(occs, k)
  {
    if occs != [] {
      var prefix := occs[..|occs| - 1];
      BucketsAgree(prefix, k);
      if k !in Keys(prefix) {
        BucketOfUnseenKey(prefix, k);
      }
    }
  }

  /** `ingredients_map[key].append(ing.quantity)`: the dictionary after one more occurrence. */
  method Record(keys: seq<string>, buckets: map<string, seq<string>>, ghost seen: seq<Ingredient>, ing: Ingredient)
    returns (keys': seq<string>, buckets': map<string, seq<string>>)
    requires keys == Keys(seen) && buckets == Buckets(seen)
    ensures keys' == Keys(seen + [ing]) && buckets' == Buckets(seen + [ing])
  {
    var key := Lower(ing.name);
    BucketsAgree(seen, key);
    var bucket := if key in buckets then buckets[key] else [];
    keys' := if key in buckets then keys else keys + [key];
    buckets' := buckets[key := bucket + [ing.quantity]];
    DictionaryStep(seen, ing);
  }

  /** The second loop: one row per key in first-seen order, its quantities deduplicated and joined. */
  method BuildRows(keys: seq<string>, buckets: map<string, seq<string>>, ghost seen: seq<Ingredient>)
    returns (aggregated: seq<Item>)
    requires keys == Keys(seen) && buckets == Buckets(seen)
    ensures aggregated == Rows(seen, keys)
  {
    aggregated := [];
    for i := 0 to |keys|
      invariant aggregated == Rows(seen, keys[..i])
    {
      var name := keys[i];
      BucketsAgree(seen, name);
      var uniqueQuantities := Dedup(buckets[name]);
      RowsStep(seen, keys, i);
      aggregated := aggregated + [Item(Capitalize(name), Join(uniqueQuantities, QuantitySeparator))];
    }
    TakeAll(keys);
  }

  /**
   * `generate_shopping_list_data`: fill the key-ordered `ingredients_map`
   * in a nested loop, build one row per key, then sort by name.
   */
  method GenerateShoppingListData(plans: seq<LoadedPlan>) returns (list: seq<Item>)
    ensures list == Aggregate(plans)
  {
    var keys: seq<string> := [];
    var buckets: map<string, seq<string>> := map[];
    ghost var seen: seq<Ingredient> := [];
    for i := 0 to |plans|
      invariant seen == Occurrences(plans[..i])
      invariant keys == Keys(seen) && buckets == Buckets(seen)
    {
      var ings := plans[i].ingredients;
      OccurrencesStep(plans, i);
      ghost var before := seen;
      for j := 0 to |ings|
        invariant seen == before + ings[..j]
        invariant keys == Keys(seen) && buckets == Buckets(seen)
      {
        keys, buckets := Record(keys, buckets, seen, ings[j]);
        seen := seen + [ings[j]];
        TakeOneMore(ings, j);
      }
      TakeAll(ings);
    }
    TakeAll(plans);
    var aggregated := BuildRows(keys, buckets, seen);
    list := SortByName(aggregated);
  }

  // ---------------------------------------------------------------------
  // Properties of the list

  /** Rows are sorted by name, strictly: no two rows share a name. */
  lemma AggregateSorted(plans: seq<LoadedPlan>)
    ensures StrictlySorted(Aggregate(plans))
  {
    var occs := Occurrences(plans);
    var ks := Keys(occs);
    var rows := Rows(occs, ks);
    forall i, j | 0 <= i < j < |rows| ensures rows[i].name != rows[j].name {
      KeyIsLowered(occs, ks[i]);
      KeyIsLowered(occs, ks[j]);
      CapitalizeInjective(ks[i], ks[j]);
    }
    SortByNameStrictlySorted(rows);
  }

  /** Each row of the list is the row of its own key, which is its name lower-cased. */
  lemma AggregateRowIsRowOfKey(plans: seq<LoadedPlan>, i: int)
    requires 0 <= i < |Aggregate(plans)|
    ensures var occs := Occurrences(plans); var r := Aggregate(plans)[i];
      Lower(r.name) in Keys(occs) && r == Row(occs, Lower(r.name))
  {
    var occs := Occurrences(plans);
    var ks := Keys(occs);
    var rows := Rows(occs, ks);
    var list := Aggregate(plans);
    var r := list[i];
    assert r in multiset(list);
    assert multiset(list) == multiset(rows);
    assert r in rows;
    var j :| 0 <= j < |rows| && rows[j] == r;
    KeyIsLowered(occs, ks[j]);
    LowerCapitalize(ks[j]);
  }

  /**
   * Every row belongs to a key some ingredient has; its name is that key
   * capitalized; its quantities are the raw quantity strings of that key's
   * ingredients, each exactly once, joined by ", ".
   */
  lemma AggregateRowContents(plans: seq<LoadedPlan>, i: int)
    requires 0 <= i < |Aggregate(plans)|
    ensures var occs := Occurrences(plans);
      var r := Aggregate(plans)[i];
      var k := Lower(r.name);
      var qs := Dedup(Bucket(occs, k));
      && r.name == Capitalize(k)
      && (exists o :: o in occs && Key(o) == k)
      && r.quantities == Join(qs, QuantitySeparator)
      && NoDup(qs)
      && (forall q :: q in qs <==> exists o :: o in occs && Key(o) == k && o.quantity == q)
  {
    var occs := Occurrences(plans);
    AggregateRowIsRowOfKey(plans, i);
    var k := Lower(Aggregate(plans)[i].name);
    KeyIsLowered(occs, k);
    LowerCapitalize(k);
    KeysMembership(occs);
    BucketMembership(occs, k);
  }

  /** Every ingredient has a row, the one named after its lower-cased name. */
  lemma AggregateCoversEveryIngredient(plans: seq<LoadedPlan>, o: Ingredient)
    requires o in Occurrences(plans)
    ensures exists i :: 0 <= i < |Aggregate(plans)| && Aggregate(plans)[i].name == Capitalize(Lower(o.name))
  {
    var occs := Occurrences(plans);
    var ks := Keys(occs);
    var rows := Rows(occs, ks);
    KeysMembership(occs);
    var j :| 0 <= j < |ks| && ks[j] == Key(o);
    assert rows[j] in multiset(Aggregate(plans));
  }

  /**
   * Two ingredients land in the same row exactly when their names agree
   * after lower-casing.
   */
  lemma SameRowIffSameKey(plans: seq<LoadedPlan>, a: Ingredient, b: Ingredient, i: int, j: int)
    requires a in Occurrences(plans) && b in Occurrences(plans)
    requires 0 <= i < |Aggregate(plans)| && 0 <= j < |Aggregate(plans)|
    requires Aggregate(plans)[i].name == Capitalize(Key(a))
    requires Aggregate(plans)[j].name == Capitalize(Key(b))
    ensures i == j <==> Key(a) == Key(b)
  {
    AggregateSorted(plans);
    LowerIsLowered(a.name);
    LowerIsLowered(b.name);
    CapitalizeInjective(Key(a), Key(b));
    var r := Aggregate(plans);
    if i < j {
      LessIrreflexive(r[i].name);
    } else if j < i {
      LessIrreflexive(r[j].name);
    }
  }

  /**
   * One row per distinct lower-cased name: the list is as long as the key
   * list, so never longer than the number of ingredient occurrences, and
   * empty exactly when no plan has an ingredient.
   */
  lemma AggregateSize(plans: seq<LoadedPlan>)
    ensures |Aggregate(plans)| == |Keys(Occurrences(plans))|
    ensures |Aggregate(plans)| <= |Occurrences(plans)|
    ensures Aggregate(plans) == [] <==> Occurrences(plans) == []
  {
    var occs := Occurrences(plans);
    var ks := Keys(occs);
    assert |multiset(Aggregate(plans))| == |multiset(Rows(occs, ks))|;
    if occs != [] {
      KeysMembership(occs);
      assert Key(occs[0]) in ks;
    }
  }

  // ---------------------------------------------------------------------
  // Repeated occurrences change nothing

  lemma {:induction false} OccurrencesAppend(a: seq<LoadedPlan>, b: seq<LoadedPlan>)
    ensures Occurrences(a + b) == Occurrences(a) + Occurrences(b)
    decreases |b|
  {
    if b == [] {
      assert a + b == a;
    } else {
      var b', last := b[..|b| - 1], b[|b| - 1];
      OccurrencesAppend(a, b');
      assert (a + b)[..|a + b| - 1] == a + b' && (a + b)[|a + b| - 1] == last;
      assert Occurrences(a + b) == Occurrences(a + b') + last.ingredients;
      assert Occurrences(b) == Occurrences(b') + last.ingredients;
    }
  }

  lemma {:induction false} KeysAppendCovered(a: seq<Ingredient>, b: seq<Ingredient>)
    requires forall o :: o in b ==> Key(o) in Keys(a)
    ensures Keys(a + b) == Keys(a)
    decreases |b|
  {
    if b == [] {
      assert a + b == a;
    } else {
      var b' := b[..|b| - 1];
      KeysAppendCovered(a, b');
      assert (a + b)[..|a + b| - 1] == a + b';
    }
  }

  lemma {:induction false} BucketAppend(a: seq<Ingredient>, b: seq<Ingredient>, k: string)
    ensures Bucket(a + b, k) == Bucket(a, k) + Bucket(b, k)
    decreases |b|
  {
    if b == [] {
      assert a + b == a;
    } else {
      var b' := b[..|b| - 1];
      BucketAppend(a, b', k);
      assert (a + b)[..|a + b| - 1] == a + b';
    }
  }

  /** An occurrence's key is listed. */
  lemma {:induction false} KeyListed(occs: seq<Ingredient>, o: Ingredient)
    requires o in occs
    ensures Key(o) in Keys(occs)
  {
    var prefix := occs[..|occs| - 1];
    if o != occs[|occs| - 1] {
      assert o in prefix;
      KeyListed(prefix, o);
    }
  }

  /** An occurrence's quantity is in the bucket of its key. */
  lemma {:induction false} QuantityInBucket(occs: seq<Ingredient>, o: Ingredient)
    requires o in occs
    ensures o.quantity in Bucket(occs, Key(o))
  {
    var prefix := occs[..|occs| - 1];
    if o != occs[|occs| - 1] {
      assert o in prefix;
      QuantityInBucket(prefix, o);
    }
  }

  /** Occurrences already in `a` add no new quantity string to any bucket. */
  lemma {:induction false} BucketCovered(a: seq<Ingredient>, b: seq<Ingredient>, k: string)
    requires forall o :: o in b ==> o in a
    ensures forall q :: q in Bucket(b, k) ==> q in Bucket(a, k)
  {
    if b != [] {
      var b' := b[..|b| - 1];
      var last := b[|b| - 1];
      assert forall o :: o in b' ==> o in b;
      BucketCovered(a, b', k);
      if Key(last) == k {
        QuantityInBucket(a, last);
      }
    }
  }

  lemma {:induction false} DedupAppendCovered(x: seq<string>, y: seq<string>)
    requires forall e :: e in y ==> e in x
    ensures Dedup(x + y) == Dedup(x)
    decreases |y|
  {
    if y == [] {
      assert x + y == x;
    } else {
      var y' := y[..|y| - 1];
      DedupAppendCovered(x, y');
      assert (x + y)[..|x + y| - 1] == x + y';
    }
  }

  /**
   * Adding plans whose ingredient occurrences all occur already leaves the
   * list unchanged: duplicate quantity strings collapse and nothing is summed.
   */
  lemma AggregateIgnoresRepeats(plans: seq<LoadedPlan>, extra: seq<LoadedPlan>)
    requires forall o :: o in Occurrences(extra) ==> o in Occurrences(plans)
    ensures Aggregate(plans + extra) == Aggregate(plans)
  {
    OccurrencesAppend(plans, extra);
    RowsIgnoreRepeats(Occurrences(plans), Occurrences(extra));
  }

  /** Occurrences that all occurred already add no key and change no row. */
  lemma RowsIgnoreRepeats(a: seq<Ingredient>, b: seq<Ingredient>)
    requires forall o :: o in b ==> o in a
    ensures Keys(a + b) == Keys(a)
    ensures Rows(a + b, Keys(a)) == Rows(a, Keys(a))
  {
    forall o | o in b ensures Key(o) in Keys(a) {
      KeyListed(a, o);
    }
    KeysAppendCovered(a, b);
    var ks := Keys(a);
    forall i | 0 <= i < |ks| ensures Row(a + b, ks[i]) == Row(a, ks[i]) {
      var k := ks[i];
      BucketAppend(a, b, k);
      BucketCovered(a, b, k);
      DedupAppendCovered(Bucket(a, k), Bucket(b, k));
    }
    assert Rows(a + b, ks) == Rows(a, ks);
  }

  /** A second plan of a recipe already planned in the window, in any slot, adds nothing to the list. */
  lemma ScheduledTwice(plans: seq<LoadedPlan>, p: LoadedPlan, q: MealPlan)
    requires p in plans
    ensures Aggregate(plans + [p.(plan := q)]) == Aggregate(plans)
  {
    var i :| 0 <= i < |plans| && plans[i] == p;
    OccurrencesAppend(plans[..i], [p] + plans[i + 1..]);
    OccurrencesAppend([p], plans[i + 1..]);
    assert plans == plans[..i] + ([p] + plans[i + 1..]);
    assert Occurrences([p]) == p.ingredients by { assert [p][..0] == []; }
    var again := p.(plan := q);
    assert Occurrences([again]) == p.ingredients by { assert [again][..0] == []; }
    AggregateIgnoresRepeats(plans, [again]);
  }


  // ---------------------------------------------------------------------
  // The table handed to the renderers

  /** A header row, then one `[name, quantities]` row per item, in the items' order. */
  predicate IsExportTable(data: seq<seq<string>>, list: seq<Item>) {
    && |data| == 1 + |list|
    && data[0] == Header
    && forall i :: 0 <= i < |list| ==> data[i + 1] == [list[i].name, list[i].quantities]
  }

  /** The table is determined by the list: any two tables for the same list are equal. */
  lemma ExportTableUnique(a: seq<seq<string>>, b: seq<seq<string>>, list: seq<Item>)
    requires IsExportTable(a, list) && IsExportTable(b, list)
    ensures a == b
  {
    forall i | 0 <= i < |a| ensures a[i] == b[i] {
      if i > 0 {
        var k := i - 1;
        assert 0 <= k < |list|;
        assert a[k + 1] == [list[k].name, list[k].quantities] == b[k + 1];
      }
    }
  }

  /** The `data` list of `generate_shopping_list_pdf`, appended row by row. */
  method PdfTableData(list: seq<Item>) returns (data: seq<seq<string>>)
    ensures IsExportTable(data, list)
  {
    data := [Header];
    for i := 0 to |list|
      invariant |data| == 1 + i && data[0] == Header
      invariant forall k :: 0 <= k < i ==> data[k + 1] == [list[k].name, list[k].quantities]
    {
      data := data + [[list[i].name, list[i].quantities]];
    }
  }
}

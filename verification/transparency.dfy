/**
 * The product search of `src/pages/Transparency.jsx`: the transparency
 * database filtered by a search term, keeping a product when its name or
 * one of its ingredients includes the term, all compared in lower case.
 */
module Transparency {
  import opened Text
  import opened Data

  /** The name, lower-cased, includes the lower-cased term. */
  predicate NameMatches(p: Product, term: string) {
    Contains(Lower(p.name), Lower(term))
  }

  /** Some ingredient, lower-cased, includes the lower-cased term. */
  predicate IngredientMatches(p: Product, term: string) {
    exists ingredient | ingredient in p.ingredients :: Contains(Lower(ingredient), Lower(term))
  }

  /** The filter's test for one product. */
  predicate Keep(p: Product, term: string) {
    NameMatches(p, term) || IngredientMatches(p, term)
  }

  /** `filteredProducts`: the products of `table` that pass the test, in table order. */
  function Search(table: seq<Product>, term: string): (listed: seq<Product>)
    ensures |listed| <= |table|
  {
    if table == [] then []
    else
      var n := |table| - 1;
      Search(table[..n], term) + (if Keep(table[n], term) then [table[n]] else [])
  }

  /** The positions of the kept products, ascending. */
  function Kept(table: seq<Product>, term: string): seq<nat> {
    if table == [] then []
    else
      var n := |table| - 1;
      Kept(table[..n], term) + (if Keep(table[n], term) then [n] else [])
  }

  /**
   * The result is the table filtered by `Keep`: its k-th product is the
   * product at the k-th kept position, the positions strictly ascend (table
   * order is kept, nothing is listed twice), and a position is kept exactly
   * when its product passes the test.
   */
  lemma {:induction false} SearchIsSelection(table: seq<Product>, term: string)
    ensures var idx := Kept(table, term);
      && |Search(table, term)| == |idx|
      && (forall k | 0 <= k < |idx| :: idx[k] < |table| && Search(table, term)[k] == table[idx[k]])
      && (forall k, l | 0 <= k < l < |idx| :: idx[k] < idx[l])
      && (forall j | 0 <= j < |table| :: j in idx <==> Keep(table[j], term))
  {
    KeptAscending(table, term);
    KeptMembership(table, term);
    SearchAtKept(table, term);
  }

  lemma {:induction false} KeptAscending(table: seq<Product>, term: string)
    ensures forall k | 0 <= k < |Kept(table, term)| :: Kept(table, term)[k] < |table|
    ensures forall k, l | 0 <= k < l < |Kept(table, term)| :: Kept(table, term)[k] < Kept(table, term)[l]
  {
    if table != [] {
      var n := |table| - 1;
      KeptAscending(table[..n], term);
      assert Kept(table, term) == Kept(table[..n], term) + (if Keep(table[n], term) then [n] else []);
    }
  }

  lemma {:induction false} KeptMembership(table: seq<Product>, term: string)
    ensures forall j | 0 <= j < |table| :: j in Kept(table, term) <==> Keep(table[j], term)
  {
    if table != [] {
      var n := |table| - 1;
      var prefix := table[..n];
      KeptMembership(prefix, term);
      KeptAscending(prefix, term);
      assert forall j | 0 <= j < n :: prefix[j] == table[j];
      assert n !in Kept(prefix, term);
    }
  }

  lemma {:induction false} SearchAtKept(table: seq<Product>, term: string)
    ensures var idx := Kept(table, term);
      && |Search(table, term)| == |idx|
      && (forall k | 0 <= k < |idx| :: idx[k] < |table| && Search(table, term)[k] == table[idx[k]])
  {
    if table != [] {
      var n := |table| - 1;
      var prefix := table[..n];
      SearchAtKept(prefix, term);
      KeptAscending(prefix, term);
      var idx := Kept(table, term);
      var pidx := Kept(prefix, term);
      assert forall k | 0 <= k < |pidx| :: idx[k] == pidx[k] && prefix[pidx[k]] == table[pidx[k]];
    }
  }

  /** A product is listed exactly when it is in the table and passes the test. */
  lemma SearchMembership(table: seq<Product>, term: string, p: Product)
    ensures p in Search(table, term) <==> p in table && Keep(p, term)
  {
    SearchIsSelection(table, term);
    var idx := Kept(table, term);
    var result := Search(table, term);
    if p in result {
      var k :| 0 <= k < |result| && result[k] == p;
      assert table[idx[k]] == p;
      assert idx[k] in idx;
    }
    if p in table && Keep(p, term) {
      var j :| 0 <= j < |table| && table[j] == p;
      var k :| 0 <= k < |idx| && idx[k] == j;
      assert result[k] == p;
    }
  }

  /** The empty term is included in every name, so it lists the whole table unchanged. */
  lemma {:induction false} EmptyTermListsAll(table: seq<Product>)
    ensures Search(table, "") == table
  {
    if table != [] {
      var n := |table| - 1;
      EmptyTermListsAll(table[..n]);
      assert Lower("") == "";
      ContainsEmpty(Lower(table[n].name));
      assert table[..n] + [table[n]] == table;
    }
  }

  /** Terms that agree once lower-cased list the same products. */
  lemma {:induction false} SearchCaseInsensitive(table: seq<Product>, t1: string, t2: string)
    requires Lower(t1) == Lower(t2)
    ensures Search(table, t1) == Search(table, t2)
  {
    if table != [] {
      SearchCaseInsensitive(table[..|table| - 1], t1, t2);
    }
  }

  /** A product that passes a term passes every term the first one (lower-cased) includes. */
  lemma KeepNarrowing(p: Product, wide: string, narrow: string)
    requires Contains(Lower(narrow), Lower(wide))
    requires Keep(p, narrow)
    ensures Keep(p, wide)
  {
    if NameMatches(p, narrow) {
      ContainsTrans(Lower(p.name), Lower(narrow), Lower(wide));
    } else {
      var ingredient :| ingredient in p.ingredients && Contains(Lower(ingredient), Lower(narrow));
      ContainsTrans(Lower(ingredient), Lower(narrow), Lower(wide));
    }
  }

  /**
   * Typing more narrows the list: when the longer term includes the shorter
   * one, searching the longer term is the same as searching it within the
   * shorter term's result, so every product it lists the shorter one lists.
   */
  lemma {:induction false} SearchNarrowing(table: seq<Product>, wide: string, narrow: string)
    requires Contains(Lower(narrow), Lower(wide))
    ensures Search(table, narrow) == Search(Search(table, wide), narrow)
    ensures forall p | p in Search(table, narrow) :: p in Search(table, wide)
  {
    if table != [] {
      var n := |table| - 1;
      var p := table[n];
      SearchNarrowing(table[..n], wide, narrow);
      var w := Search(table[..n], wide);
      assert table[..n] + [p] == table;
      if Keep(p, wide) {
        assert Search(table, wide) == w + [p];
        assert (w + [p])[..|w|] == w;
        assert Search(w + [p], narrow)
            == Search(w, narrow) + (if Keep(p, narrow) then [p] else []);
      } else {
        assert Search(table, wide) == w;
        if Keep(p, narrow) { KeepNarrowing(p, wide, narrow); }
      }
    }
    forall p | p in Search(table, narrow) ensures p in Search(table, wide) {
      SearchMembership(table, narrow, p);
      KeepNarrowing(p, wide, narrow);
      SearchMembership(table, wide, p);
    }
  }

  /** The "no products found" card: nothing is listed and the term is non-empty. */
  predicate ShowsNoProducts(table: seq<Product>, term: string) {
    |Search(table, term)| == 0 && term != ""
  }

  /**
   * Over a non-empty table the term test is redundant: the card shows
   * exactly when nothing is listed, since the empty term lists everything.
   */
  lemma NoProductsMessage(table: seq<Product>, term: string)
    requires table != []
    ensures ShowsNoProducts(table, term) <==> Search(table, term) == []
  {
    EmptyTermListsAll(table);
  }

  // ---------------------------------------------------------------------------
  // The worked example: searching "calcium"
  // ---------------------------------------------------------------------------

  lemma LacksLetter(s: string, sub: string, c: char)
    requires c in sub && c !in s
    ensures !Contains(s, sub)
  {
    if Contains(s, sub) { ContainsChar(s, sub, c); }
  }

  /**
   * The test for names where every letter of the term occurs: split the
   * name at a character that is neither a capital nor in the term, and find
   * a letter of the term that neither side holds in either case.
   */
  lemma LacksAcross(s: string, x: string, sep: char, y: string, sub: string, cx: char, cy: char)
    requires s == x + [sep] + y && !IsUpper(sep) && sep !in sub
    requires 'a' <= cx <= 'z' && cx in sub && cx !in x && UpperChar(cx) !in x
    requires 'a' <= cy <= 'z' && cy in sub && cy !in y && UpperChar(cy) !in y
    ensures !Contains(Lower(s), sub)
  {
    LowerAppend(x + [sep], y);
    LowerAppend(x, [sep]);
    assert Lower([sep]) == [sep];
    LowerLacks(x, cx);
    LowerLacks(y, cy);
    var l := Lower(s);
    assert l == Lower(x) + [sep] + Lower(y);
    if Contains(l, sub) {
      ContainsAcross(Lower(x), sep, Lower(y), sub);
      if Contains(Lower(x), sub) { ContainsChar(Lower(x), sub, cx); }
      if Contains(Lower(y), sub) { ContainsChar(Lower(y), sub, cy); }
    }
  }

  lemma CalciumLower()
    ensures Lower("calcium") == "calcium"
  {
  }

  lemma NoCalcium1() ensures !Contains(Lower("Vitamin D3 (Cholecalciferol)"), "calcium") { NotContainsByLetter("Vitamin D3 (Cholecalciferol)", "calcium", 'u'); }
  lemma NoCalcium2() ensures !Contains(Lower("Cholecalciferol 2000 IU"), "calcium") { NotContainsByLetter("Cholecalciferol 2000 IU", "calcium", 'm'); }
  lemma NoCalcium3() ensures !Contains(Lower("Microcrystalline Cellulose"), "calcium") {
    var x, y := "Microcrystalline", "Cellulose";
    assert "Microcrystalline Cellulose" == x + [' '] + y;
    assert 'u' !in x && 'U' !in x && 'a' !in y && 'A' !in y;
    LacksAcross("Microcrystalline Cellulose", x, ' ', y, "calcium", 'u', 'a');
  }
  lemma NoCalcium4() ensures !Contains(Lower("Vegetable Stearate"), "calcium") { NotContainsByLetter("Vegetable Stearate", "calcium", 'c'); }

  lemma VitaminDNoCalcium()
    ensures !Keep(TransparencyDatabase[0], "calcium")
  {
    var p := TransparencyDatabase[0];
    assert p.name == "Vitamin D3 (Cholecalciferol)";
    assert p.ingredients == ["Cholecalciferol 2000 IU", "Microcrystalline Cellulose", "Vegetable Stearate"];
    CalciumLower();
    NoCalcium1();
    NoCalcium2();
    NoCalcium3();
    NoCalcium4();
  }

  lemma NoCalcium5() ensures !Contains(Lower("Magnesium Glycinate"), "calcium") {
    var x, y := "Magnesium", "Glycinate";
    assert "Magnesium Glycinate" == x + [' '] + y;
    assert 'c' !in x && 'C' !in x && 'u' !in y && 'U' !in y;
    LacksAcross("Magnesium Glycinate", x, ' ', y, "calcium", 'c', 'u');
  }
  lemma Pieces6()
    ensures "Magnesium (as Magnesium Glycinate) 400mg" == "Magnesium (as Magnesium" + [' '] + "Glycinate) 400mg"
    ensures 'c' !in "Magnesium (as Magnesium" && 'C' !in "Magnesium (as Magnesium"
    ensures 'u' !in "Glycinate) 400mg" && 'U' !in "Glycinate) 400mg"
  {
  }
  lemma NoCalcium6() ensures !Contains(Lower("Magnesium (as Magnesium Glycinate) 400mg"), "calcium") {
    Pieces6();
    LacksAcross("Magnesium (as Magnesium Glycinate) 400mg", "Magnesium (as Magnesium", ' ', "Glycinate) 400mg", "calcium", 'c', 'u');
  }
  lemma NoCalcium7() ensures !Contains(Lower("Vegetable Capsule"), "calcium") { NotContainsByLetter("Vegetable Capsule", "calcium", 'i'); }
  lemma NoCalcium8() ensures !Contains(Lower("Silicon Dioxide"), "calcium") { NotContainsByLetter("Silicon Dioxide", "calcium", 'u'); }

  lemma MagnesiumNoCalcium()
    ensures !Keep(TransparencyDatabase[1], "calcium")
  {
    var p := TransparencyDatabase[1];
    assert p.name == "Magnesium Glycinate";
    assert p.ingredients == ["Magnesium (as Magnesium Glycinate) 400mg", "Vegetable Capsule", "Silicon Dioxide"];
    CalciumLower();
    NoCalcium5();
    NoCalcium6();
    NoCalcium7();
    NoCalcium8();
  }

  lemma NoCalcium9() ensures !Contains(Lower("Whey Protein Isolate"), "calcium") { NotContainsByLetter("Whey Protein Isolate", "calcium", 'c'); }
  lemma NoCalcium10()
    ensures !Contains(Lower(TransparencyDatabase[2].ingredients[0]), "calcium")
  {
    var a, b, c := "Proprietary ", "Protein Blend ", "25g (Whey ";
    var d, e, f := "Protein Isolate, ", "Whey Protein ", "Concentrate)";
    assert TransparencyDatabase[2].ingredients[0] == a + b + c + d + e + f;
    assert 'u' !in a && 'U' !in a && 'u' !in b && 'U' !in b && 'u' !in c && 'U' !in c;
    assert 'u' !in d && 'U' !in d && 'u' !in e && 'U' !in e && 'u' !in f && 'U' !in f;
    NotContainsByLetter(a + b + c + d + e + f, "calcium", 'u');
  }
  lemma NoCalcium11() ensures !Contains(Lower("Natural Flavors"), "calcium") { NotContainsByLetter("Natural Flavors", "calcium", 'c'); }
  lemma NoCalcium12() ensures !Contains(Lower("Sucralose"), "calcium") { NotContainsByLetter("Sucralose", "calcium", 'i'); }

  lemma WheyNoCalcium()
    ensures !Keep(TransparencyDatabase[2], "calcium")
  {
    var p := TransparencyDatabase[2];
    assert p.name == "Whey Protein Isolate";
    assert p.ingredients[1..] == ["Natural Flavors", "Sucralose"];
    CalciumLower();
    NoCalcium9();
    NoCalcium10();
    NoCalcium11();
    NoCalcium12();
  }

  lemma MultivitaminCalcium()
    ensures Keep(TransparencyDatabase[3], "calcium")
  {
    var p := TransparencyDatabase[3];
    assert p.ingredients[5] == "Calcium 200mg";
    CalciumLower();
    assert Lower("Calcium 200mg") == "calcium" + " 200mg";
    assert OccursAt(Lower(p.ingredients[5]), "calcium", 0);
  }

  lemma NoCalcium13() ensures !Contains(Lower("Omega-3 Fish Oil"), "calcium") { NotContainsByLetter("Omega-3 Fish Oil", "calcium", 'c'); }
  lemma NoCalcium14() ensures !Contains(Lower("EPA 600mg"), "calcium") { NotContainsByLetter("EPA 600mg", "calcium", 'c'); }
  lemma NoCalcium15() ensures !Contains(Lower("DHA 400mg"), "calcium") { NotContainsByLetter("DHA 400mg", "calcium", 'c'); }
  lemma NoCalcium16() ensures !Contains(Lower("Other Omega-3 Fatty Acids 200mg"), "calcium") { NotContainsByLetter("Other Omega-3 Fatty Acids 200mg", "calcium", 'u'); }
  lemma NoCalcium17() ensures !Contains(Lower("Gelatin Capsule"), "calcium") { NotContainsByLetter("Gelatin Capsule", "calcium", 'm'); }
  lemma NoCalcium18() ensures !Contains(Lower("Glycerin"), "calcium") { NotContainsByLetter("Glycerin", "calcium", 'a'); }

  lemma OmegaNoCalcium()
    ensures !Keep(TransparencyDatabase[4], "calcium")
  {
    var p := TransparencyDatabase[4];
    assert p.name == "Omega-3 Fish Oil";
    assert p.ingredients == ["EPA 600mg", "DHA 400mg", "Other Omega-3 Fatty Acids 200mg", "Gelatin Capsule", "Glycerin"];
    CalciumLower();
    NoCalcium13();
    NoCalcium14();
    NoCalcium15();
    NoCalcium16();
    NoCalcium17();
    NoCalcium18();
  }

  lemma NoCalcium19() ensures !Contains(Lower("Creatine Monohydrate"), "calcium") { NotContainsByLetter("Creatine Monohydrate", "calcium", 'u'); }
  lemma NoCalcium20() ensures !Contains(Lower("Creatine Monohydrate 5g"), "calcium") { NotContainsByLetter("Creatine Monohydrate 5g", "calcium", 'u'); }

  lemma CreatineNoCalcium()
    ensures !Keep(TransparencyDatabase[5], "calcium")
  {
    var p := TransparencyDatabase[5];
    assert p.name == "Creatine Monohydrate";
    assert p.ingredients == ["Creatine Monohydrate 5g"];
    CalciumLower();
    NoCalcium19();
    NoCalcium20();
  }

  /** Searching "calcium" lists the multivitamin alone, found through its "Calcium 200mg" ingredient. */
  lemma SearchCalcium()
    ensures Search(TransparencyDatabase, "calcium") == [TransparencyDatabase[3]]
  {
    var t := TransparencyDatabase;
    VitaminDNoCalcium();
    MagnesiumNoCalcium();
    WheyNoCalcium();
    MultivitaminCalcium();
    OmegaNoCalcium();
    CreatineNoCalcium();
    assert t[..1][..0] == [] && t[..2][..1] == t[..1] && t[..3][..2] == t[..2];
    assert t[..4][..3] == t[..3] && t[..5][..4] == t[..4] && t[..6] == t && t[..6][..5] == t[..5];
    assert Search(t[..1], "calcium") == [];
    assert Search(t[..2], "calcium") == [];
    assert Search(t[..3], "calcium") == [];
    assert Search(t[..4], "calcium") == [t[3]];
    assert Search(t[..5], "calcium") == [t[3]];
  }
}

/**
 * The drug-supplement interaction checker of `src/pages/Interactions.jsx`:
 * the two comma-separated fields are cut into trimmed, lower-cased tokens,
 * and a record of the interaction table is reported when some medication
 * token and the record's drug name include one another (in either
 * direction) and likewise some supplement token and the supplement name.
 */
module Interactions {
  import opened Text
  import opened Data

  // ---------------------------------------------------------------------------
  // Tokens
  // ---------------------------------------------------------------------------

  /** One item of a field: trimmed, then lower-cased. */
  function Normalize(item: string): string {
    Lower(Trim(item))
  }

  /** The tokens of a field: the comma-separated items, each trimmed and lower-cased. */
  function Tokens(text: string): (toks: seq<string>)
    ensures toks != []
  {
    var items := Split(text, ',');
    seq(|items|, i requires 0 <= i < |items| => Normalize(items[i]))
  }

  /** Trimming keeps a slice of the item, so it adds no character. */
  lemma TrimAddsNothing(item: string, c: char)
    requires c !in item
    ensures c !in Trim(item)
  {
    TrimSpec(item);
    var i := |item| - |TrimStart(item)|;
    var t := Trim(item);
    forall j | 0 <= j < |t| ensures t[j] != c {
      assert item[i..i + |t|][j] == item[i + j];
      assert item[i + j] in item;
    }
  }

  /** Lower-casing turns no character into a comma. */
  lemma LowerAddsNoComma(s: string)
    requires ',' !in s
    ensures ',' !in Lower(s)
  {
    forall j | 0 <= j < |s| ensures Lower(s)[j] != ',' {
      assert s[j] in s;
    }
  }

  /** A normalised item holds a comma only when the item did. */
  lemma NormalizeNoComma(item: string)
    requires ',' !in item
    ensures ',' !in Normalize(item)
  {
    TrimAddsNothing(item, ',');
    LowerAddsNoComma(Trim(item));
  }

  /** A normalised item neither starts nor ends with whitespace. */
  lemma NormalizeTrimmed(item: string)
    ensures Normalize(item) == [] || (!IsWhitespace(Normalize(item)[0])
                                     && !IsWhitespace(Normalize(item)[|Normalize(item)| - 1]))
  {
    var t := Trim(item);
    TrimSpec(item);
    if t != [] {
      var n := Lower(t);
      assert n[0] == LowerChar(t[0]) && n[|n| - 1] == LowerChar(t[|t| - 1]);
      LowerCharWhitespace(t[0]);
      LowerCharWhitespace(t[|t| - 1]);
    }
  }

  /**
   * A field has one token more than it has commas; every token is the
   * trimmed, lower-cased text between two commas, so it holds no comma, no
   * upper-case letter, and neither starts nor ends with whitespace.
   */
  lemma TokensShape(text: string)
    ensures |Tokens(text)| == Count(text, ',') + 1
    ensures forall k | 0 <= k < |Tokens(text)| ::
      && Tokens(text)[k] == Lower(Trim(Split(text, ',')[k]))
      && ',' !in Tokens(text)[k]
      && (forall j | 0 <= j < |Tokens(text)[k]| :: !IsUpper(Tokens(text)[k][j]))
      && (Tokens(text)[k] == [] || (!IsWhitespace(Tokens(text)[k][0])
                                   && !IsWhitespace(Tokens(text)[k][|Tokens(text)[k]| - 1])))
  {
    SplitShape(text, ',');
    var items := Split(text, ',');
    forall k | 0 <= k < |items|
      ensures ',' !in Normalize(items[k])
      ensures forall j | 0 <= j < |Normalize(items[k])| :: !IsUpper(Normalize(items[k])[j])
      ensures Normalize(items[k]) == [] || (!IsWhitespace(Normalize(items[k])[0])
                                       && !IsWhitespace(Normalize(items[k])[|Normalize(items[k])| - 1]))
    {
      NormalizeNoComma(items[k]);
      LowerHasNoUpper(Trim(items[k]));
      NormalizeTrimmed(items[k]);
    }
  }

  lemma {:induction false} SplitLower(s: string, sep: char)
    requires !IsUpper(sep) && !('a' <= sep <= 'z')
    ensures |Split(Lower(s), sep)| == |Split(s, sep)|
    ensures forall k | 0 <= k < |Split(s, sep)| :: Split(Lower(s), sep)[k] == Lower(Split(s, sep)[k])
  {
    if s != [] {
      var l := Lower(s);
      assert l[0] == LowerChar(s[0]);
      assert l[1..] == Lower(s[1..]);
      SplitLower(s[1..], sep);
      var rest := Split(s[1..], sep);
      var lrest := Split(l[1..], sep);
      if s[0] != sep {
        assert l[0] != sep;
        assert Split(l, sep) == [[l[0]] + lrest[0]] + lrest[1..];
        assert Lower([s[0]] + rest[0]) == [LowerChar(s[0])] + Lower(rest[0]);
      } else {
        assert Split(l, sep) == [""] + lrest;
      }
    }
  }

  /** The tokens of a field depend only on its lower-cased text. */
  lemma TokensLower(text: string)
    ensures Tokens(Lower(text)) == Tokens(text)
  {
    SplitLower(text, ',');
    var items := Split(text, ',');
    forall k | 0 <= k < |items| ensures Normalize(Lower(items[k])) == Normalize(items[k]) {
      TrimLower(items[k]);
      LowerIdempotent(Trim(items[k]));
    }
  }

  /** Text after a comma adds its own tokens after those of the text before it. */
  lemma TokensAppend(a: string, b: string)
    ensures Tokens(a + "," + b) == Tokens(a) + Tokens(b)
  {
    assert a + "," + b == a + [','] + b;
    SplitAppend(a, b, ',');
    var l, r := Split(a, ','), Split(b, ',');
    var items := Split(a + "," + b, ',');
    assert items == l + r;
    forall k | 0 <= k < |items| ensures Tokens(a + "," + b)[k] == (Tokens(a) + Tokens(b))[k] {
      if k < |l| { assert items[k] == l[k]; } else { assert items[k] == r[k - |l|]; }
    }
  }

  // ---------------------------------------------------------------------------
  // Matching
  // ---------------------------------------------------------------------------

  /** A token and a name match when either includes the other. */
  predicate Related(token: string, name: string) {
    Contains(token, name) || Contains(name, token)
  }

  /** Some token matches the name. */
  predicate AnyRelated(tokens: seq<string>, name: string) {
    exists t | t in tokens :: Related(t, name)
  }

  /** Whether the record is reported for these medication and supplement tokens. */
  predicate Matches(meds: seq<string>, sups: seq<string>, r: Interaction) {
    AnyRelated(meds, Lower(r.drug)) && AnyRelated(sups, Lower(r.supplement))
  }

  /** The records of `table` that match, in table order. */
  function Found(meds: seq<string>, sups: seq<string>, table: seq<Interaction>): (found: seq<Interaction>)
    ensures |found| <= |table|
  {
    if table == [] then []
    else
      var last := table[|table| - 1];
      Found(meds, sups, table[..|table| - 1]) + (if Matches(meds, sups, last) then [last] else [])
  }

  /** The positions of the matching records, ascending. */
  function Selected(meds: seq<string>, sups: seq<string>, table: seq<Interaction>): seq<nat> {
    if table == [] then []
    else
      var n := |table| - 1;
      Selected(meds, sups, table[..n]) + (if Matches(meds, sups, table[n]) then [n] else [])
  }

  /**
   * The result is the table filtered by `Matches`: its k-th record is the
   * record at the k-th matching position, the positions strictly ascend (so
   * table order is kept and no record is reported twice), and a position is
   * selected exactly when its record matches.
   */
  lemma {:induction false} FoundIsSelection(meds: seq<string>, sups: seq<string>, table: seq<Interaction>)
    ensures var idx := Selected(meds, sups, table);
      && |Found(meds, sups, table)| == |idx|
      && (forall k | 0 <= k < |idx| :: idx[k] < |table| && Found(meds, sups, table)[k] == table[idx[k]])
      && (forall k, l | 0 <= k < l < |idx| :: idx[k] < idx[l])
      && (forall j | 0 <= j < |table| :: j in idx <==> Matches(meds, sups, table[j]))
  {
    SelectedAscending(meds, sups, table);
    SelectedMembership(meds, sups, table);
    FoundAtSelected(meds, sups, table);
  }

  lemma {:induction false} SelectedAscending(meds: seq<string>, sups: seq<string>, table: seq<Interaction>)
    ensures forall k | 0 <= k < |Selected(meds, sups, table)| :: Selected(meds, sups, table)[k] < |table|
    ensures forall k, l | 0 <= k < l < |Selected(meds, sups, table)| ::
      Selected(meds, sups, table)[k] < Selected(meds, sups, table)[l]
  {
    if table != [] {
      var n := |table| - 1;
      SelectedAscending(meds, sups, table[..n]);
      var idx := Selected(meds, sups, table);
      var pidx := Selected(meds, sups, table[..n]);
      assert idx == pidx + (if Matches(meds, sups, table[n]) then [n] else []);
    }
  }

  lemma {:induction false} SelectedMembership(meds: seq<string>, sups: seq<string>, table: seq<Interaction>)
    ensures forall j | 0 <= j < |table| :: j in Selected(meds, sups, table) <==> Matches(meds, sups, table[j])
  {
    if table != [] {
      var n := |table| - 1;
      var prefix := table[..n];
      SelectedMembership(meds, sups, prefix);
      SelectedAscending(meds, sups, prefix);
      assert forall j | 0 <= j < n :: prefix[j] == table[j];
      assert n !in Selected(meds, sups, prefix);
    }
  }

  lemma {:induction false} FoundAtSelected(meds: seq<string>, sups: seq<string>, table: seq<Interaction>)
    ensures var idx := Selected(meds, sups, table);
      && |Found(meds, sups, table)| == |idx|
      && (forall k | 0 <= k < |idx| :: idx[k] < |table| && Found(meds, sups, table)[k] == table[idx[k]])
  {
    if table != [] {
      var n := |table| - 1;
      var prefix := table[..n];
      FoundAtSelected(meds, sups, prefix);
      SelectedAscending(meds, sups, prefix);
      var idx := Selected(meds, sups, table);
      var pidx := Selected(meds, sups, prefix);
      assert forall k | 0 <= k < |pidx| :: idx[k] == pidx[k] && prefix[pidx[k]] == table[pidx[k]];
    }
  }

  /** A record is reported exactly when it is in the table and matches. */
  lemma FoundMembership(meds: seq<string>, sups: seq<string>, table: seq<Interaction>, r: Interaction)
    ensures r in Found(meds, sups, table) <==> r in table && Matches(meds, sups, r)
  {
    FoundIsSelection(meds, sups, table);
    var idx := Selected(meds, sups, table);
    var found := Found(meds, sups, table);
    if r in found {
      var k :| 0 <= k < |found| && found[k] == r;
      assert table[idx[k]] == r;
      assert idx[k] in idx;
    }
    if r in table && Matches(meds, sups, r) {
      var j :| 0 <= j < |table| && table[j] == r;
      var k :| 0 <= k < |idx| && idx[k] == j;
      assert found[k] == r;
    }
  }

  /**
   * The check behind the submit button: the records of `drugInteractions`
   * that match the tokens of the two fields, in table order.
   */
  method FindInteractions(medications: string, supplements: string) returns (found: seq<Interaction>)
    ensures found == Found(Tokens(medications), Tokens(supplements), DrugInteractions)
  {
    var medicationList := Tokens(medications);
    var supplementList := Tokens(supplements);
    found := [];
    var i := 0;
    while i < |DrugInteractions|
      invariant 0 <= i <= |DrugInteractions|
      invariant found == Found(medicationList, supplementList, DrugInteractions[..i])
    {
      var interaction := DrugInteractions[i];
      var drugMatch := AnyRelated(medicationList, Lower(interaction.drug));
      var supplementMatch := AnyRelated(supplementList, Lower(interaction.supplement));
      assert DrugInteractions[..i + 1][..i] == DrugInteractions[..i];
      if drugMatch && supplementMatch {
        found := found + [interaction];
      }
      i := i + 1;
    }
    assert DrugInteractions[..i] == DrugInteractions;
  }

  // ---------------------------------------------------------------------------
  // Properties of the matcher
  // ---------------------------------------------------------------------------

  /**
   * Every string includes "", so an empty token (a blank field, or the piece
   * after a trailing comma) relates to every name.
   */
  lemma EmptyTokenRelatesToAll(tokens: seq<string>, name: string)
    requires "" in tokens
    ensures AnyRelated(tokens, name)
  {
    ContainsEmpty(name);
    assert Related("", name);
  }

  /** A trailing comma adds the empty token. */
  lemma TrailingCommaAddsEmptyToken(text: string)
    ensures Tokens(text + ",") == Tokens(text) + [""]
  {
    TokensAppend(text, "");
    assert text + "," + "" == text + ",";
  }

  /**
   * With a trailing comma in the medication field ("Warfarin,"), every
   * record's drug side matches, so the result is decided by the supplement
   * field alone.
   */
  lemma TrailingCommaMatchesEveryDrug(medications: string, sups: seq<string>, r: Interaction)
    ensures r in Found(Tokens(medications + ","), sups, DrugInteractions)
        <==> r in DrugInteractions && AnyRelated(sups, Lower(r.supplement))
  {
    TrailingCommaAddsEmptyToken(medications);
    EmptyTokenRelatesToAll(Tokens(medications + ","), Lower(r.drug));
    FoundMembership(Tokens(medications + ","), sups, DrugInteractions, r);
  }

  /**
   * A field that is blank after trimming, the case the disabled submit
   * button rules out, yields the single token "" and so would match every
   * record's side.
   */
  lemma BlankFieldMatchesEverything(text: string, name: string)
    requires Trim(text) == ""
    ensures Tokens(text) == [""]
    ensures AnyRelated(Tokens(text), name)
  {
    TrimEmptyIff(text);
    SplitNoSeparator(text, ',');
    assert Tokens(text) == [Normalize(text)];
    assert Normalize(text) == Lower("") == "";
    assert Tokens(text)[0] == "";
    EmptyTokenRelatesToAll(Tokens(text), name);
  }

  /**
   * Case does not matter: fields that agree once lower-cased report the
   * same records.
   */
  lemma CaseInsensitive(m1: string, m2: string, s1: string, s2: string, table: seq<Interaction>)
    requires Lower(m1) == Lower(m2) && Lower(s1) == Lower(s2)
    ensures Found(Tokens(m1), Tokens(s1), table) == Found(Tokens(m2), Tokens(s2), table)
  {
    TokensLower(m1);
    TokensLower(m2);
    TokensLower(s1);
    TokensLower(s2);
  }

  lemma AnyRelatedMonotone(small: seq<string>, large: seq<string>, name: string)
    requires forall t | t in small :: t in large
    requires AnyRelated(small, name)
    ensures AnyRelated(large, name)
  {
    var t :| t in small && Related(t, name);
    assert t in large;
  }

  /**
   * More tokens can only add records: when every token of the old lists is
   * still among the new ones, every record reported before is reported again.
   */
  lemma FoundGrows(meds: seq<string>, sups: seq<string>, meds': seq<string>, sups': seq<string>,
                   table: seq<Interaction>, r: Interaction)
    requires forall t | t in meds :: t in meds'
    requires forall t | t in sups :: t in sups'
    requires r in Found(meds, sups, table)
    ensures r in Found(meds', sups', table)
  {
    FoundMembership(meds, sups, table, r);
    AnyRelatedMonotone(meds, meds', Lower(r.drug));
    AnyRelatedMonotone(sups, sups', Lower(r.supplement));
    FoundMembership(meds', sups', table, r);
  }

  /** Appending medications, supplements unchanged, keeps every record reported before. */
  lemma MoreMedicationsMoreRecords(medications: string, more: string, supplements: string, r: Interaction)
    requires r in Found(Tokens(medications), Tokens(supplements), DrugInteractions)
    ensures r in Found(Tokens(medications + "," + more), Tokens(supplements), DrugInteractions)
  {
    TokensAppend(medications, more);
    FoundGrows(Tokens(medications), Tokens(supplements), Tokens(medications + "," + more), Tokens(supplements),
               DrugInteractions, r);
  }

  /** Appending supplements, medications unchanged, keeps every record reported before. */
  lemma MoreSupplementsMoreRecords(medications: string, supplements: string, more: string, r: Interaction)
    requires r in Found(Tokens(medications), Tokens(supplements), DrugInteractions)
    ensures r in Found(Tokens(medications), Tokens(supplements + "," + more), DrugInteractions)
  {
    TokensAppend(supplements, more);
    FoundGrows(Tokens(medications), Tokens(supplements), Tokens(medications), Tokens(supplements + "," + more),
               DrugInteractions, r);
  }

  /** Appending to both fields at once keeps every record reported before. */
  lemma MoreItemsMoreRecords(medications: string, moreMeds: string, supplements: string, moreSups: string, r: Interaction)
    requires r in Found(Tokens(medications), Tokens(supplements), DrugInteractions)
    ensures r in Found(Tokens(medications + "," + moreMeds), Tokens(supplements + "," + moreSups), DrugInteractions)
  {
    MoreMedicationsMoreRecords(medications, moreMeds, supplements, r);
    MoreSupplementsMoreRecords(medications + "," + moreMeds, supplements, moreSups, r);
  }

  /**
   * Tokens unrelated to every record's names report nothing: no record is
   * returned when no record matches.
   */
  lemma NoMatchNoRecords(meds: seq<string>, sups: seq<string>, table: seq<Interaction>)
    requires forall r | r in table :: !Matches(meds, sups, r)
    ensures Found(meds, sups, table) == []
  {
    if Found(meds, sups, table) != [] {
      FoundMembership(meds, sups, table, Found(meds, sups, table)[0]);
    }
  }

  // ---------------------------------------------------------------------------
  // The worked example of the table
  // ---------------------------------------------------------------------------

  lemma Unrelated(a: string, b: string, ca: char, cb: char)
    requires ca in a && ca !in b && cb in b && cb !in a
    ensures !Related(a, b)
  {
    if Contains(a, b) { ContainsChar(a, b, cb); }
    if Contains(b, a) { ContainsChar(b, a, ca); }
  }

  lemma SingleToken(text: string, token: string)
    requires text != [] && ',' !in text && !IsWhitespace(text[0]) && !IsWhitespace(text[|text| - 1])
    requires Lower(text) == token
    ensures Tokens(text) == [token]
  {
    SplitNoSeparator(text, ',');
    TrimNoop(text);
  }

  lemma AnyRelatedSingle(token: string, name: string)
    ensures AnyRelated([token], name) <==> Related(token, name)
  {
    if AnyRelated([token], name) {
      var t :| t in [token] && Related(t, name);
      assert t == token;
    }
  }

  /** When only the first record matches, it is the whole result. */
  lemma {:induction false} FoundOnlyFirst(meds: seq<string>, sups: seq<string>, table: seq<Interaction>)
    requires table != [] && Matches(meds, sups, table[0])
    requires forall j | 1 <= j < |table| :: !Matches(meds, sups, table[j])
    ensures Found(meds, sups, table) == [table[0]]
  {
    if |table| > 1 {
      var n := |table| - 1;
      assert table[..n][0] == table[0];
      FoundOnlyFirst(meds, sups, table[..n]);
    }
  }

  /** The lower-cased names of the table's drugs. */
  lemma DrugNames()
    ensures Lower(DrugInteractions[0].drug) == "warfarin"
    ensures Lower(DrugInteractions[1].drug) == "levothyroxine"
    ensures Lower(DrugInteractions[2].drug) == "metformin"
    ensures Lower(DrugInteractions[3].drug) == "digoxin"
    ensures Lower(DrugInteractions[4].drug) == "tetracycline"
    ensures Lower(DrugInteractions[5].drug) == "aspirin"
    ensures Lower(DrugInteractions[0].supplement) == "vitamin e"
  {
  }

  lemma WarfarinNotLevothyroxine() ensures !Related("warfarin", "levothyroxine") { Unrelated("warfarin", "levothyroxine", 'w', 'l'); }
  lemma WarfarinNotMetformin() ensures !Related("warfarin", "metformin") { Unrelated("warfarin", "metformin", 'w', 'e'); }
  lemma WarfarinNotDigoxin() ensures !Related("warfarin", "digoxin") { Unrelated("warfarin", "digoxin", 'w', 'd'); }
  lemma WarfarinNotTetracycline() ensures !Related("warfarin", "tetracycline") { Unrelated("warfarin", "tetracycline", 'w', 't'); }
  lemma WarfarinNotAspirin() ensures !Related("warfarin", "aspirin") { Unrelated("warfarin", "aspirin", 'w', 'p'); }

  /** Of the drug names, only "Warfarin" relates to the token "warfarin". */
  lemma OnlyWarfarinDrug()
    ensures Related("warfarin", Lower(DrugInteractions[0].drug))
    ensures forall j | 1 <= j < |DrugInteractions| :: !Related("warfarin", Lower(DrugInteractions[j].drug))
  {
    DrugNames();
    ContainsSelf("warfarin");
    WarfarinNotLevothyroxine();
    WarfarinNotMetformin();
    WarfarinNotDigoxin();
    WarfarinNotTetracycline();
    WarfarinNotAspirin();
  }

  /** The two fields of the example each hold one token. */
  lemma WarfarinVitaminETokens()
    ensures Tokens("Warfarin") == ["warfarin"]
    ensures Tokens("Vitamin E") == ["vitamin e"]
  {
    SingleToken("Warfarin", "warfarin");
    SingleToken("Vitamin E", "vitamin e");
  }

  /** "Warfarin" against "Vitamin E" reports exactly the High-severity Warfarin record. */
  lemma WarfarinVitaminE()
    ensures Found(Tokens("Warfarin"), Tokens("Vitamin E"), DrugInteractions) == [DrugInteractions[0]]
    ensures DrugInteractions[0].severity == "High"
  {
    var meds, sups := ["warfarin"], ["vitamin e"];
    var t := DrugInteractions;
    WarfarinVitaminETokens();
    OnlyWarfarinDrug();
    DrugNames();
    assert Matches(meds, sups, t[0]) by {
      ContainsSelf("vitamin e");
      AnyRelatedSingle("warfarin", Lower(t[0].drug));
      AnyRelatedSingle("vitamin e", Lower(t[0].supplement));
    }
    forall j | 1 <= j < |t| ensures !Matches(meds, sups, t[j]) {
      AnyRelatedSingle("warfarin", Lower(t[j].drug));
    }
    FoundOnlyFirst(meds, sups, t);
  }

  // ---------------------------------------------------------------------------
  // Severity colours and the submit button
  // ---------------------------------------------------------------------------

  const HighColor := "text-red-600 dark:text-red-400 bg-red-50 dark:bg-red-950 border-red-200 dark:border-red-800"
  const ModerateColor := "text-orange-600 dark:text-orange-400 bg-orange-50 dark:bg-orange-950 border-orange-200 dark:border-orange-800"
  const LowColor := "text-blue-600 dark:text-blue-400 bg-blue-50 dark:bg-blue-950 border-blue-200 dark:border-blue-800"
  const DefaultColor := "text-gray-600 dark:text-gray-400 bg-gray-50 dark:bg-gray-950 border-gray-200 dark:border-gray-800"

  /** `getSeverityColor`: a switch on the lower-cased severity. */
  function SeverityColor(severity: string): (color: string)
    ensures color in {HighColor, ModerateColor, LowColor, DefaultColor}
  {
    match Lower(severity)
    case "high" => HighColor
    case "moderate" => ModerateColor
    case "low" => LowColor
    case _ => DefaultColor
  }

  /**
   * The severity is compared without regard to case; only "high",
   * "moderate" and "low" pick a colour of their own, every other severity
   * falls back to gray, and every record of the table gets its own colour.
   */
  lemma SeverityColorSpec(severity: string, other: string)
    ensures Lower(severity) == Lower(other) ==> SeverityColor(severity) == SeverityColor(other)
    ensures SeverityColor(severity) == DefaultColor
        <==> Lower(severity) != "high" && Lower(severity) != "moderate" && Lower(severity) != "low"
    ensures forall r | r in DrugInteractions :: SeverityColor(r.severity) != DefaultColor
  {
    assert Lower("High") == "high" && Lower("Moderate") == "moderate" && Lower("Low") == "low";
    assert HighColor != DefaultColor && ModerateColor != DefaultColor && LowColor != DefaultColor;
  }

  /** The submit button is enabled when both fields hold more than whitespace and no check is running. */
  predicate CanSubmit(medications: string, supplements: string, isLoading: bool)
    ensures CanSubmit(medications, supplements, isLoading) ==> medications != "" && supplements != ""
  {
    Trim(medications) != "" && Trim(supplements) != "" && !isLoading
  }

  /** An enabled button means neither field is all whitespace and no check is running. */
  lemma CanSubmitSpec(medications: string, supplements: string, isLoading: bool)
    ensures CanSubmit(medications, supplements, isLoading)
        <==> !AllWhitespace(medications) && !AllWhitespace(supplements) && !isLoading
  {
    TrimEmptyIff(medications);
    TrimEmptyIff(supplements);
  }

  // ---------------------------------------------------------------------------
  // The page state
  // ---------------------------------------------------------------------------

  /** The state of the interaction checker page. */
  class Checker {
    var medications: string
    var supplements: string
    var results: seq<Interaction>
    var showResults: bool
    var isLoading: bool

    constructor ()
      ensures medications == "" && supplements == "" && results == []
      ensures !showResults && !isLoading
      ensures !SubmitEnabled()
    {
      medications, supplements := "", "";
      results, showResults, isLoading := [], false, false;
    }

    /** Whether the check button is enabled. */
    predicate SubmitEnabled()
      reads this
    {
      CanSubmit(medications, supplements, isLoading)
    }

    method SetMedications(text: string)
      modifies this
      ensures medications == text && supplements == old(supplements)
      ensures results == old(results) && showResults == old(showResults) && isLoading == old(isLoading)
    {
      medications := text;
    }

    method SetSupplements(text: string)
      modifies this
      ensures supplements == text && medications == old(medications)
      ensures results == old(results) && showResults == old(showResults) && isLoading == old(isLoading)
    {
      supplements := text;
    }

    /** `handleCheckInteractions`: compute the matching records and show them. */
    method CheckInteractions()
      modifies this
      ensures results == Found(Tokens(medications), Tokens(supplements), DrugInteractions)
      ensures showResults && !isLoading
      ensures medications == old(medications) && supplements == old(supplements)
      ensures SubmitEnabled() <==> Trim(medications) != "" && Trim(supplements) != ""
    {
      isLoading := true;
      var found := FindInteractions(medications, supplements);
      results := found;
      showResults := true;
      isLoading := false;
    }
  }
}

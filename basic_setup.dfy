/**
 * The two pre-assembled extension bundles. Every feature and every key-binding
 * list is switched by an optional boolean flag; a feature is in the bundle
 * unless its flag is exactly `false`, except the crosshair cursor, which is in
 * only when its flag is given and not `false`. The bundle is the selected
 * features in a fixed order, then (full bundle only) an indent unit, then one
 * keymap holding the selected key-binding lists in a fixed order.
 */
module BasicSetup {
  import opened Engine

  /**
   * The setup options. A flag absent from the map is an option left
   * undefined. `tabSize` is `None` when it is not given.
   */
  datatype SetupOptions = SetupOptions(
    features: map<Feature, bool>,
    keymaps: map<KeymapGroup, bool>,
    tabSize: Option<nat>)

  const NO_OPTIONS: SetupOptions := SetupOptions(map[], map[], None)

  const MINIMAL_FEATURES: seq<Feature> :=
    [HighlightSpecialChars, History, DrawSelection, SyntaxHighlighting]

  const MINIMAL_KEYMAPS: seq<KeymapGroup> := [DefaultKeymap, HistoryKeymap]

  const BASIC_FEATURES: seq<Feature> :=
    [LineNumbers, HighlightActiveLineGutter, HighlightSpecialChars, History, FoldGutter,
     DrawSelection, DropCursor, AllowMultipleSelections, IndentOnInput, SyntaxHighlighting,
     BracketMatching, CloseBrackets, Autocompletion, RectangularSelection, CrosshairCursor,
     HighlightActiveLine, HighlightSelectionMatches]

  const BASIC_KEYMAPS: seq<KeymapGroup> :=
    [CloseBracketsKeymap, DefaultKeymap, SearchKeymap, HistoryKeymap, FoldKeymap,
     CompletionKeymap, LintKeymap]

  /** The flag test `options.x !== false`. */
  predicate NotFalse<K>(flags: map<K, bool>, k: K) {
    k !in flags || flags[k]
  }

  /** Whether the full bundle includes feature `f`. */
  predicate Includes(o: SetupOptions, f: Feature) {
    if f == CrosshairCursor then f in o.features && o.features[f] else NotFalse(o.features, f)
  }

  predicate IncludesKeymap(o: SetupOptions, k: KeymapGroup) {
    NotFalse(o.keymaps, k)
  }

  /** What `if (cond) extensions.push(f())` appends: the feature when the condition holds, nothing otherwise. */
  function FeatureIf(cond: bool, f: Feature): seq<Extension> {
    if cond then [FeatureOf(f)] else []
  }

  /** What `if (cond) keymaps = keymaps.concat(g)` appends. */
  function KeymapIf(cond: bool, g: KeymapGroup): seq<KeymapGroup> {
    if cond then [g] else []
  }

  /**
   * The first `k` features of `order` that the options include, as
   * extensions, in the order of `order`.
   */
  function SelectFeatures(order: seq<Feature>, k: nat, o: SetupOptions): seq<Extension>
    requires k <= |order|
  {
    if k == 0 then []
    else SelectFeatures(order, k - 1, o) + FeatureIf(Includes(o, order[k - 1]), order[k - 1])
  }

  /** The first `k` key-binding lists of `order` that the options include, in the order of `order`. */
  function SelectKeymaps(order: seq<KeymapGroup>, k: nat, o: SetupOptions): seq<KeymapGroup>
    requires k <= |order|
  {
    if k == 0 then []
    else SelectKeymaps(order, k - 1, o) + KeymapIf(IncludesKeymap(o, order[k - 1]), order[k - 1])
  }

  /** `' '.repeat(n)`. */
  function Spaces(n: nat): (s: string)
    ensures |s| == n
    ensures forall i :: 0 <= i < n ==> s[i] == ' '
  {
    if n == 0 then "" else Spaces(n - 1) + " "
  }

  /**
   * What the full bundle adds for the tab size: an indent unit of that many
   * spaces when the tab size is a nonzero number, nothing otherwise.
   */
  function IndentUnitFor(tabSize: Option<nat>): seq<Extension> {
    if tabSize.Some? && tabSize.value != 0 then [IndentUnit(Spaces(tabSize.value))] else []
  }

  /** The reduced bundle, stated as a selection from the fixed order. */
  function MinimalBundle(o: SetupOptions): seq<Extension> {
    SelectFeatures(MINIMAL_FEATURES, |MINIMAL_FEATURES|, o)
      + [Keymap(SelectKeymaps(MINIMAL_KEYMAPS, |MINIMAL_KEYMAPS|, o))]
  }

  /** The full bundle, stated as a selection from the fixed order. */
  function BasicBundle(o: SetupOptions): seq<Extension> {
    SelectFeatures(BASIC_FEATURES, |BASIC_FEATURES|, o)
      + IndentUnitFor(o.tabSize)
      + [Keymap(SelectKeymaps(BASIC_KEYMAPS, |BASIC_KEYMAPS|, o))]
  }

  // The selections above, spelled out for the fixed orders, one guarded step per entry.

  lemma MinimalFeaturesSpelledOut(o: SetupOptions)
    ensures SelectFeatures(MINIMAL_FEATURES, |MINIMAL_FEATURES|, o) ==
      []
      + FeatureIf(NotFalse(o.features, HighlightSpecialChars), HighlightSpecialChars)
      + FeatureIf(NotFalse(o.features, History), History)
      + FeatureIf(NotFalse(o.features, DrawSelection), DrawSelection)
      + FeatureIf(NotFalse(o.features, SyntaxHighlighting), SyntaxHighlighting)
  {
    assert SelectFeatures(MINIMAL_FEATURES, 1, o) == SelectFeatures(MINIMAL_FEATURES, 0, o) + FeatureIf(NotFalse(o.features, HighlightSpecialChars), HighlightSpecialChars);
    assert SelectFeatures(MINIMAL_FEATURES, 2, o) == SelectFeatures(MINIMAL_FEATURES, 1, o) + FeatureIf(NotFalse(o.features, History), History);
    assert SelectFeatures(MINIMAL_FEATURES, 3, o) == SelectFeatures(MINIMAL_FEATURES, 2, o) + FeatureIf(NotFalse(o.features, DrawSelection), DrawSelection);
    assert SelectFeatures(MINIMAL_FEATURES, 4, o) == SelectFeatures(MINIMAL_FEATURES, 3, o) + FeatureIf(NotFalse(o.features, SyntaxHighlighting), SyntaxHighlighting);
  }

  lemma MinimalKeymapsSpelledOut(o: SetupOptions)
    ensures SelectKeymaps(MINIMAL_KEYMAPS, |MINIMAL_KEYMAPS|, o) ==
      []
      + KeymapIf(NotFalse(o.keymaps, DefaultKeymap), DefaultKeymap)
      + KeymapIf(NotFalse(o.keymaps, HistoryKeymap), HistoryKeymap)
  {
    assert SelectKeymaps(MINIMAL_KEYMAPS, 1, o) == SelectKeymaps(MINIMAL_KEYMAPS, 0, o) + KeymapIf(NotFalse(o.keymaps, DefaultKeymap), DefaultKeymap);
    assert SelectKeymaps(MINIMAL_KEYMAPS, 2, o) == SelectKeymaps(MINIMAL_KEYMAPS, 1, o) + KeymapIf(NotFalse(o.keymaps, HistoryKeymap), HistoryKeymap);
  }

  /** The positions of the full bundle's features. */
  lemma BasicFeaturesAt()
    ensures |BASIC_FEATURES| == 17
    ensures BASIC_FEATURES[0] == LineNumbers
    ensures BASIC_FEATURES[1] == HighlightActiveLineGutter
    ensures BASIC_FEATURES[2] == HighlightSpecialChars
    ensures BASIC_FEATURES[3] == History
    ensures BASIC_FEATURES[4] == FoldGutter
    ensures BASIC_FEATURES[5] == DrawSelection
    ensures BASIC_FEATURES[6] == DropCursor
    ensures BASIC_FEATURES[7] == AllowMultipleSelections
    ensures BASIC_FEATURES[8] == IndentOnInput
    ensures BASIC_FEATURES[9] == SyntaxHighlighting
    ensures BASIC_FEATURES[10] == BracketMatching
    ensures BASIC_FEATURES[11] == CloseBrackets
    ensures BASIC_FEATURES[12] == Autocompletion
    ensures BASIC_FEATURES[13] == RectangularSelection
    ensures BASIC_FEATURES[14] == CrosshairCursor
    ensures BASIC_FEATURES[15] == HighlightActiveLine
    ensures BASIC_FEATURES[16] == HighlightSelectionMatches
  {
  }


  lemma BasicFeatures0To4(o: SetupOptions)
    ensures SelectFeatures(BASIC_FEATURES, 4, o) ==
      SelectFeatures(BASIC_FEATURES, 0, o)
      + FeatureIf(NotFalse(o.features, LineNumbers), LineNumbers)
      + FeatureIf(NotFalse(o.features, HighlightActiveLineGutter), HighlightActiveLineGutter)
      + FeatureIf(NotFalse(o.features, HighlightSpecialChars), HighlightSpecialChars)
      + FeatureIf(NotFalse(o.features, History), History)
  {
    BasicFeaturesAt();
    assert SelectFeatures(BASIC_FEATURES, 1, o) == SelectFeatures(BASIC_FEATURES, 0, o) + FeatureIf(NotFalse(o.features, LineNumbers), LineNumbers);
    assert SelectFeatures(BASIC_FEATURES, 2, o) == SelectFeatures(BASIC_FEATURES, 1, o) + FeatureIf(NotFalse(o.features, HighlightActiveLineGutter), HighlightActiveLineGutter);
    assert SelectFeatures(BASIC_FEATURES, 3, o) == SelectFeatures(BASIC_FEATURES, 2, o) + FeatureIf(NotFalse(o.features, HighlightSpecialChars), HighlightSpecialChars);
    assert SelectFeatures(BASIC_FEATURES, 4, o) == SelectFeatures(BASIC_FEATURES, 3, o) + FeatureIf(NotFalse(o.features, History), History);
  }

  lemma BasicFeatures4To8(o: SetupOptions)
    ensures SelectFeatures(BASIC_FEATURES, 8, o) ==
      SelectFeatures(BASIC_FEATURES, 4, o)
      + FeatureIf(NotFalse(o.features, FoldGutter), FoldGutter)
      + FeatureIf(NotFalse(o.features, DrawSelection), DrawSelection)
      + FeatureIf(NotFalse(o.features, DropCursor), DropCursor)
      + FeatureIf(NotFalse(o.features, AllowMultipleSelections), AllowMultipleSelections)
  {
    BasicFeaturesAt();
    assert SelectFeatures(BASIC_FEATURES, 5, o) == SelectFeatures(BASIC_FEATURES, 4, o) + FeatureIf(NotFalse(o.features, FoldGutter), FoldGutter);
    assert SelectFeatures(BASIC_FEATURES, 6, o) == SelectFeatures(BASIC_FEATURES, 5, o) + FeatureIf(NotFalse(o.features, DrawSelection), DrawSelection);
    assert SelectFeatures(BASIC_FEATURES, 7, o) == SelectFeatures(BASIC_FEATURES, 6, o) + FeatureIf(NotFalse(o.features, DropCursor), DropCursor);
    assert SelectFeatures(BASIC_FEATURES, 8, o) == SelectFeatures(BASIC_FEATURES, 7, o) + FeatureIf(NotFalse(o.features, AllowMultipleSelections), AllowMultipleSelections);
  }

  lemma BasicFeatures8To12(o: SetupOptions)
    ensures SelectFeatures(BASIC_FEATURES, 12, o) ==
      SelectFeatures(BASIC_FEATURES, 8, o)
      + FeatureIf(NotFalse(o.features, IndentOnInput), IndentOnInput)
      + FeatureIf(NotFalse(o.features, SyntaxHighlighting), SyntaxHighlighting)
      + FeatureIf(NotFalse(o.features, BracketMatching), BracketMatching)
      + FeatureIf(NotFalse(o.features, CloseBrackets), CloseBrackets)
  {
    BasicFeaturesAt();
    assert SelectFeatures(BASIC_FEATURES, 9, o) == SelectFeatures(BASIC_FEATURES, 8, o) + FeatureIf(NotFalse(o.features, IndentOnInput), IndentOnInput);
    assert SelectFeatures(BASIC_FEATURES, 10, o) == SelectFeatures(BASIC_FEATURES, 9, o) + FeatureIf(NotFalse(o.features, SyntaxHighlighting), SyntaxHighlighting);
    assert SelectFeatures(BASIC_FEATURES, 11, o) == SelectFeatures(BASIC_FEATURES, 10, o) + FeatureIf(NotFalse(o.features, BracketMatching), BracketMatching);
    assert SelectFeatures(BASIC_FEATURES, 12, o) == SelectFeatures(BASIC_FEATURES, 11, o) + FeatureIf(NotFalse(o.features, CloseBrackets), CloseBrackets);
  }

  lemma BasicFeatures12To15(o: SetupOptions)
    ensures SelectFeatures(BASIC_FEATURES, 15, o) ==
      SelectFeatures(BASIC_FEATURES, 12, o)
      + FeatureIf(NotFalse(o.features, Autocompletion), Autocompletion)
      + FeatureIf(NotFalse(o.features, RectangularSelection), RectangularSelection)
      + FeatureIf(CrosshairCursor in o.features && o.features[CrosshairCursor], CrosshairCursor)
  {
    BasicFeaturesAt();
    assert SelectFeatures(BASIC_FEATURES, 13, o) == SelectFeatures(BASIC_FEATURES, 12, o) + FeatureIf(NotFalse(o.features, Autocompletion), Autocompletion);
    assert SelectFeatures(BASIC_FEATURES, 14, o) == SelectFeatures(BASIC_FEATURES, 13, o) + FeatureIf(NotFalse(o.features, RectangularSelection), RectangularSelection);
    assert SelectFeatures(BASIC_FEATURES, 15, o) == SelectFeatures(BASIC_FEATURES, 14, o) + FeatureIf(CrosshairCursor in o.features && o.features[CrosshairCursor], CrosshairCursor);
  }

  lemma BasicFeatures15To17(o: SetupOptions)
    ensures SelectFeatures(BASIC_FEATURES, 17, o) ==
      SelectFeatures(BASIC_FEATURES, 15, o)
      + FeatureIf(NotFalse(o.features, HighlightActiveLine), HighlightActiveLine)
      + FeatureIf(NotFalse(o.features, HighlightSelectionMatches), HighlightSelectionMatches)
  {
    BasicFeaturesAt();
    assert SelectFeatures(BASIC_FEATURES, 16, o) == SelectFeatures(BASIC_FEATURES, 15, o) + FeatureIf(NotFalse(o.features, HighlightActiveLine), HighlightActiveLine);
    assert SelectFeatures(BASIC_FEATURES, 17, o) == SelectFeatures(BASIC_FEATURES, 16, o) + FeatureIf(NotFalse(o.features, HighlightSelectionMatches), HighlightSelectionMatches);
  }

  lemma BasicFeaturesSpelledOut(o: SetupOptions)
    ensures SelectFeatures(BASIC_FEATURES, |BASIC_FEATURES|, o) ==
      []
      + FeatureIf(NotFalse(o.features, LineNumbers), LineNumbers)
      + FeatureIf(NotFalse(o.features, HighlightActiveLineGutter), HighlightActiveLineGutter)
      + FeatureIf(NotFalse(o.features, HighlightSpecialChars), HighlightSpecialChars)
      + FeatureIf(NotFalse(o.features, History), History)
      + FeatureIf(NotFalse(o.features, FoldGutter), FoldGutter)
      + FeatureIf(NotFalse(o.features, DrawSelection), DrawSelection)
      + FeatureIf(NotFalse(o.features, DropCursor), DropCursor)
      + FeatureIf(NotFalse(o.features, AllowMultipleSelections), AllowMultipleSelections)
      + FeatureIf(NotFalse(o.features, IndentOnInput), IndentOnInput)
      + FeatureIf(NotFalse(o.features, SyntaxHighlighting), SyntaxHighlighting)
      + FeatureIf(NotFalse(o.features, BracketMatching), BracketMatching)
      + FeatureIf(NotFalse(o.features, CloseBrackets), CloseBrackets)
      + FeatureIf(NotFalse(o.features, Autocompletion), Autocompletion)
      + FeatureIf(NotFalse(o.features, RectangularSelection), RectangularSelection)
      + FeatureIf(CrosshairCursor in o.features && o.features[CrosshairCursor], CrosshairCursor)
      + FeatureIf(NotFalse(o.features, HighlightActiveLine), HighlightActiveLine)
      + FeatureIf(NotFalse(o.features, HighlightSelectionMatches), HighlightSelectionMatches)
  {
    BasicFeaturesAt();
    BasicFeatures0To4(o);
    BasicFeatures4To8(o);
    BasicFeatures8To12(o);
    BasicFeatures12To15(o);
    BasicFeatures15To17(o);
  }

  lemma BasicKeymapsSpelledOut(o: SetupOptions)
    ensures SelectKeymaps(BASIC_KEYMAPS, |BASIC_KEYMAPS|, o) ==
      []
      + KeymapIf(NotFalse(o.keymaps, CloseBracketsKeymap), CloseBracketsKeymap)
      + KeymapIf(NotFalse(o.keymaps, DefaultKeymap), DefaultKeymap)
      + KeymapIf(NotFalse(o.keymaps, SearchKeymap), SearchKeymap)
      + KeymapIf(NotFalse(o.keymaps, HistoryKeymap), HistoryKeymap)
      + KeymapIf(NotFalse(o.keymaps, FoldKeymap), FoldKeymap)
      + KeymapIf(NotFalse(o.keymaps, CompletionKeymap), CompletionKeymap)
      + KeymapIf(NotFalse(o.keymaps, LintKeymap), LintKeymap)
  {
    assert SelectKeymaps(BASIC_KEYMAPS, 1, o) == SelectKeymaps(BASIC_KEYMAPS, 0, o) + KeymapIf(NotFalse(o.keymaps, CloseBracketsKeymap), CloseBracketsKeymap);
    assert SelectKeymaps(BASIC_KEYMAPS, 2, o) == SelectKeymaps(BASIC_KEYMAPS, 1, o) + KeymapIf(NotFalse(o.keymaps, DefaultKeymap), DefaultKeymap);
    assert SelectKeymaps(BASIC_KEYMAPS, 3, o) == SelectKeymaps(BASIC_KEYMAPS, 2, o) + KeymapIf(NotFalse(o.keymaps, SearchKeymap), SearchKeymap);
    assert SelectKeymaps(BASIC_KEYMAPS, 4, o) == SelectKeymaps(BASIC_KEYMAPS, 3, o) + KeymapIf(NotFalse(o.keymaps, HistoryKeymap), HistoryKeymap);
    assert SelectKeymaps(BASIC_KEYMAPS, 5, o) == SelectKeymaps(BASIC_KEYMAPS, 4, o) + KeymapIf(NotFalse(o.keymaps, FoldKeymap), FoldKeymap);
    assert SelectKeymaps(BASIC_KEYMAPS, 6, o) == SelectKeymaps(BASIC_KEYMAPS, 5, o) + KeymapIf(NotFalse(o.keymaps, CompletionKeymap), CompletionKeymap);
    assert SelectKeymaps(BASIC_KEYMAPS, 7, o) == SelectKeymaps(BASIC_KEYMAPS, 6, o) + KeymapIf(NotFalse(o.keymaps, LintKeymap), LintKeymap);
  }

  /**
   * `minimalSetup(options)`: the key-binding lists and then the features are
   * collected one guarded step at a time, and the keymap goes last.
   */
  method MinimalSetup(options: SetupOptions) returns (r: seq<Extension>)
    ensures r == MinimalBundle(options)
  {
    var keymaps: seq<KeymapGroup> := [];
    keymaps := keymaps + KeymapIf(NotFalse(options.keymaps, DefaultKeymap), DefaultKeymap);
    keymaps := keymaps + KeymapIf(NotFalse(options.keymaps, HistoryKeymap), HistoryKeymap);
    var extensions: seq<Extension> := [];
    extensions := extensions + FeatureIf(NotFalse(options.features, HighlightSpecialChars), HighlightSpecialChars);
    extensions := extensions + FeatureIf(NotFalse(options.features, History), History);
    extensions := extensions + FeatureIf(NotFalse(options.features, DrawSelection), DrawSelection);
    extensions := extensions + FeatureIf(NotFalse(options.features, SyntaxHighlighting), SyntaxHighlighting);
    r := extensions + [Keymap(keymaps)];
    MinimalFeaturesSpelledOut(options);
    MinimalKeymapsSpelledOut(options);
  }

  /**
   * `basicSetup(options)`: as `MinimalSetup` over the longer lists; the
   * crosshair cursor defaults to off, and a nonzero tab size adds an indent
   * unit of that many spaces after the features.
   */
  method BasicSetup(options: SetupOptions) returns (r: seq<Extension>)
    ensures r == BasicBundle(options)
  {
    var crosshairCursor := CrosshairCursor in options.features && options.features[CrosshairCursor];
    var keymaps: seq<KeymapGroup> := [];
    keymaps := keymaps + KeymapIf(NotFalse(options.keymaps, CloseBracketsKeymap), CloseBracketsKeymap);
    keymaps := keymaps + KeymapIf(NotFalse(options.keymaps, DefaultKeymap), DefaultKeymap);
    keymaps := keymaps + KeymapIf(NotFalse(options.keymaps, SearchKeymap), SearchKeymap);
    keymaps := keymaps + KeymapIf(NotFalse(options.keymaps, HistoryKeymap), HistoryKeymap);
    keymaps := keymaps + KeymapIf(NotFalse(options.keymaps, FoldKeymap), FoldKeymap);
    keymaps := keymaps + KeymapIf(NotFalse(options.keymaps, CompletionKeymap), CompletionKeymap);
    keymaps := keymaps + KeymapIf(NotFalse(options.keymaps, LintKeymap), LintKeymap);
    var extensions: seq<Extension> := [];
    extensions := extensions + FeatureIf(NotFalse(options.features, LineNumbers), LineNumbers);
    extensions := extensions + FeatureIf(NotFalse(options.features, HighlightActiveLineGutter), HighlightActiveLineGutter);
    extensions := extensions + FeatureIf(NotFalse(options.features, HighlightSpecialChars), HighlightSpecialChars);
    extensions := extensions + FeatureIf(NotFalse(options.features, History), History);
    extensions := extensions + FeatureIf(NotFalse(options.features, FoldGutter), FoldGutter);
    extensions := extensions + FeatureIf(NotFalse(options.features, DrawSelection), DrawSelection);
    extensions := extensions + FeatureIf(NotFalse(options.features, DropCursor), DropCursor);
    extensions := extensions + FeatureIf(NotFalse(options.features, AllowMultipleSelections), AllowMultipleSelections);
    extensions := extensions + FeatureIf(NotFalse(options.features, IndentOnInput), IndentOnInput);
    extensions := extensions + FeatureIf(NotFalse(options.features, SyntaxHighlighting), SyntaxHighlighting);
    extensions := extensions + FeatureIf(NotFalse(options.features, BracketMatching), BracketMatching);
    extensions := extensions + FeatureIf(NotFalse(options.features, CloseBrackets), CloseBrackets);
    extensions := extensions + FeatureIf(NotFalse(options.features, Autocompletion), Autocompletion);
    extensions := extensions + FeatureIf(NotFalse(options.features, RectangularSelection), RectangularSelection);
    extensions := extensions + FeatureIf(crosshairCursor, CrosshairCursor);
    extensions := extensions + FeatureIf(NotFalse(options.features, HighlightActiveLine), HighlightActiveLine);
    extensions := extensions + FeatureIf(NotFalse(options.features, HighlightSelectionMatches), HighlightSelectionMatches);
    extensions := extensions + IndentUnitFor(options.tabSize);
    r := extensions + [Keymap(keymaps)];
    BasicFeaturesSpelledOut(options);
    BasicKeymapsSpelledOut(options);
  }

  // Properties of the selection

  /** Every element of `s` occurs once. */
  predicate Distinct<T(==)>(s: seq<T>) {
    forall i, j :: 0 <= i < j < |s| ==> s[i] != s[j]
  }

  /** The position of the first occurrence of `x` in `order`. */
  function IndexOf<T(==)>(order: seq<T>, x: T): (i: nat)
    requires x in order
    ensures i < |order| && order[i] == x
    ensures forall j :: 0 <= j < i ==> order[j] != x
  {
    if order[0] == x then 0 else 1 + IndexOf(order[1..], x)
  }

  /** In a list without repetitions, the entry at position `p` is first found at `p`. */
  lemma IndexOfDistinct<T>(order: seq<T>, p: nat)
    requires Distinct(order) && p < |order|
    ensures IndexOf(order, order[p]) == p
  {
  }

  /** A feature is selected iff it is among the first `k` of `order` and the options include it. */
  lemma {:induction false} SelectFeaturesMembers(order: seq<Feature>, k: nat, o: SetupOptions)
    requires k <= |order|
    ensures |SelectFeatures(order, k, o)| <= k
    ensures forall e :: e in SelectFeatures(order, k, o) ==> e.FeatureOf?
    ensures forall f :: FeatureOf(f) in SelectFeatures(order, k, o) <==> f in order[..k] && Includes(o, f)
  {
    if k > 0 {
      SelectFeaturesMembers(order, k - 1, o);
      assert order[..k] == order[..k - 1] + [order[k - 1]];
    }
  }

  /** Every element of `r` is a feature whose first position in `order` is below `k`. */
  predicate FeaturesAmong(r: seq<Extension>, order: seq<Feature>, k: nat) {
    forall i :: 0 <= i < |r| ==> r[i].FeatureOf? && r[i].feature in order && IndexOf(order, r[i].feature) < k
  }

  /** Of two features of `r`, the earlier one comes earlier in `order`. */
  predicate FeaturesInOrder(r: seq<Extension>, order: seq<Feature>)
    requires FeaturesAmong(r, order, |order|)
  {
    forall i, j :: 0 <= i < j < |r| ==> IndexOf(order, r[i].feature) < IndexOf(order, r[j].feature)
  }

  /** The selected features are features of `order`, each first found below `k`. */
  lemma {:induction false} SelectFeaturesAmong(order: seq<Feature>, k: nat, o: SetupOptions)
    requires k <= |order| && Distinct(order)
    ensures FeaturesAmong(SelectFeatures(order, k, o), order, k)
    ensures FeaturesAmong(SelectFeatures(order, k, o), order, |order|)
  {
    if k > 0 {
      SelectFeaturesAmong(order, k - 1, o);
      IndexOfDistinct(order, k - 1);
      var before := SelectFeatures(order, k - 1, o);
      var r := SelectFeatures(order, k, o);
      assert r == before + FeatureIf(Includes(o, order[k - 1]), order[k - 1]);
      forall i | 0 <= i < |r|
        ensures r[i].FeatureOf? && r[i].feature in order && IndexOf(order, r[i].feature) < k
      {
        if i >= |before| {
          assert r[i] == FeatureOf(order[k - 1]);
        } else {
          assert r[i] == before[i];
        }
      }
    }
  }

  /** The selected features keep the relative order they have in `order`. */
  lemma {:induction false} SelectFeaturesInOrder(order: seq<Feature>, k: nat, o: SetupOptions)
    requires k <= |order| && Distinct(order)
    ensures FeaturesAmong(SelectFeatures(order, k, o), order, |order|)
    ensures FeaturesInOrder(SelectFeatures(order, k, o), order)
  {
    SelectFeaturesAmong(order, k, o);
    if k > 0 {
      SelectFeaturesInOrder(order, k - 1, o);
      SelectFeaturesAmong(order, k - 1, o);
      IndexOfDistinct(order, k - 1);
      var before := SelectFeatures(order, k - 1, o);
      var r := SelectFeatures(order, k, o);
      assert r == before + FeatureIf(Includes(o, order[k - 1]), order[k - 1]);
      forall i, j | 0 <= i < j < |r|
        ensures IndexOf(order, r[i].feature) < IndexOf(order, r[j].feature)
      {
        assert r[i] == before[i];
        if j >= |before| {
          assert r[j] == FeatureOf(order[k - 1]);
        } else {
          assert r[j] == before[j];
        }
      }
    }
  }

  /** A key-binding list is selected iff it is among the first `k` of `order` and its flag is not `false`. */
  lemma {:induction false} SelectKeymapsMembers(order: seq<KeymapGroup>, k: nat, o: SetupOptions)
    requires k <= |order|
    ensures forall g :: g in SelectKeymaps(order, k, o) <==> g in order[..k] && IncludesKeymap(o, g)
  {
    if k > 0 {
      SelectKeymapsMembers(order, k - 1, o);
      assert order[..k] == order[..k - 1] + [order[k - 1]];
    }
  }

  /** Every element of `r` has its first position in `order` below `k`. */
  predicate KeymapsAmong(r: seq<KeymapGroup>, order: seq<KeymapGroup>, k: nat) {
    forall i :: 0 <= i < |r| ==> r[i] in order && IndexOf(order, r[i]) < k
  }

  /** Of two key-binding lists of `r`, the earlier one comes earlier in `order`. */
  predicate KeymapsInOrder(r: seq<KeymapGroup>, order: seq<KeymapGroup>)
    requires KeymapsAmong(r, order, |order|)
  {
    forall i, j :: 0 <= i < j < |r| ==> IndexOf(order, r[i]) < IndexOf(order, r[j])
  }

  /** The selected key-binding lists keep the relative order they have in `order`. */
  lemma {:induction false} SelectKeymapsInOrder(order: seq<KeymapGroup>, k: nat, o: SetupOptions)
    requires k <= |order| && Distinct(order)
    ensures KeymapsAmong(SelectKeymaps(order, k, o), order, k)
    ensures KeymapsAmong(SelectKeymaps(order, k, o), order, |order|)
    ensures KeymapsInOrder(SelectKeymaps(order, k, o), order)
  {
    if k > 0 {
      SelectKeymapsInOrder(order, k - 1, o);
      IndexOfDistinct(order, k - 1);
      var before := SelectKeymaps(order, k - 1, o);
      var r := SelectKeymaps(order, k, o);
      assert r == before + KeymapIf(IncludesKeymap(o, order[k - 1]), order[k - 1]);
      forall i | 0 <= i < |r|
        ensures r[i] in order && IndexOf(order, r[i]) < k
      {
        if i >= |before| {
          assert r[i] == order[k - 1];
        } else {
          assert r[i] == before[i];
        }
      }
    }
  }

  // Properties of the two bundles

  /** The full bundle's orders list every feature and every key-binding list. */
  lemma FixedOrdersComplete()
    ensures forall f: Feature :: f in BASIC_FEATURES
    ensures forall g: KeymapGroup :: g in BASIC_KEYMAPS
  {
    BasicFeaturesAt();
    forall f: Feature
      ensures f in BASIC_FEATURES
    {
      match f
        case LineNumbers => assert BASIC_FEATURES[0] == f;
        case HighlightActiveLineGutter => assert BASIC_FEATURES[1] == f;
        case HighlightSpecialChars => assert BASIC_FEATURES[2] == f;
        case History => assert BASIC_FEATURES[3] == f;
        case FoldGutter => assert BASIC_FEATURES[4] == f;
        case DrawSelection => assert BASIC_FEATURES[5] == f;
        case DropCursor => assert BASIC_FEATURES[6] == f;
        case AllowMultipleSelections => assert BASIC_FEATURES[7] == f;
        case IndentOnInput => assert BASIC_FEATURES[8] == f;
        case SyntaxHighlighting => assert BASIC_FEATURES[9] == f;
        case BracketMatching => assert BASIC_FEATURES[10] == f;
        case CloseBrackets => assert BASIC_FEATURES[11] == f;
        case Autocompletion => assert BASIC_FEATURES[12] == f;
        case RectangularSelection => assert BASIC_FEATURES[13] == f;
        case CrosshairCursor => assert BASIC_FEATURES[14] == f;
        case HighlightActiveLine => assert BASIC_FEATURES[15] == f;
        case HighlightSelectionMatches => assert BASIC_FEATURES[16] == f;
    }
    forall g: KeymapGroup
      ensures g in BASIC_KEYMAPS
    {
      match g
        case CloseBracketsKeymap => assert BASIC_KEYMAPS[0] == g;
        case DefaultKeymap => assert BASIC_KEYMAPS[1] == g;
        case SearchKeymap => assert BASIC_KEYMAPS[2] == g;
        case HistoryKeymap => assert BASIC_KEYMAPS[3] == g;
        case FoldKeymap => assert BASIC_KEYMAPS[4] == g;
        case CompletionKeymap => assert BASIC_KEYMAPS[5] == g;
        case LintKeymap => assert BASIC_KEYMAPS[6] == g;
    }
  }

  /** No fixed order lists an entry twice. */
  lemma FixedOrdersDistinct()
    ensures Distinct(BASIC_FEATURES) && Distinct(BASIC_KEYMAPS)
    ensures Distinct(MINIMAL_FEATURES) && Distinct(MINIMAL_KEYMAPS)
  {
    BasicFeaturesAt();
  }

  /** The reduced bundle is its selected features followed by exactly one keymap. */
  lemma MinimalBundleShape(o: SetupOptions)
    ensures var r := MinimalBundle(o);
      |r| >= 1 && r[|r| - 1] == Keymap(SelectKeymaps(MINIMAL_KEYMAPS, |MINIMAL_KEYMAPS|, o))
    ensures var r := MinimalBundle(o);
      forall i :: 0 <= i < |r| - 1 ==> r[i].FeatureOf?
  {
    var feats := SelectFeatures(MINIMAL_FEATURES, |MINIMAL_FEATURES|, o);
    SelectFeaturesMembers(MINIMAL_FEATURES, |MINIMAL_FEATURES|, o);
    var r := MinimalBundle(o);
    forall i | 0 <= i < |r| - 1
      ensures r[i].FeatureOf?
    {
      assert r[i] == feats[i] && feats[i] in feats;
    }
  }

  /**
   * A feature is in the reduced bundle iff it is one of the four it knows
   * and its flag is not `false`; likewise for the key-binding lists.
   */
  lemma MinimalBundleMembers(o: SetupOptions)
    ensures forall f :: FeatureOf(f) in MinimalBundle(o) <==> f in MINIMAL_FEATURES && NotFalse(o.features, f)
    ensures forall g :: g in SelectKeymaps(MINIMAL_KEYMAPS, |MINIMAL_KEYMAPS|, o) <==>
      g in MINIMAL_KEYMAPS && NotFalse(o.keymaps, g)
  {
    var feats := SelectFeatures(MINIMAL_FEATURES, |MINIMAL_FEATURES|, o);
    SelectFeaturesMembers(MINIMAL_FEATURES, |MINIMAL_FEATURES|, o);
    SelectKeymapsMembers(MINIMAL_KEYMAPS, |MINIMAL_KEYMAPS|, o);
    assert MINIMAL_FEATURES[..|MINIMAL_FEATURES|] == MINIMAL_FEATURES;
    assert MINIMAL_KEYMAPS[..|MINIMAL_KEYMAPS|] == MINIMAL_KEYMAPS;
    forall f
      ensures FeatureOf(f) in MinimalBundle(o) <==> f in MINIMAL_FEATURES && NotFalse(o.features, f)
    {
      assert FeatureOf(f) in MinimalBundle(o) <==> FeatureOf(f) in feats;
      if f in MINIMAL_FEATURES {
        assert f != CrosshairCursor;
      }
    }
  }

  /** The reduced bundle's features come in their fixed order. */
  lemma MinimalBundleInOrder(o: SetupOptions)
    ensures var feats := MinimalBundle(o)[..|MinimalBundle(o)| - 1];
      FeaturesAmong(feats, MINIMAL_FEATURES, |MINIMAL_FEATURES|) && FeaturesInOrder(feats, MINIMAL_FEATURES)
  {
    FixedOrdersDistinct();
    SelectFeaturesInOrder(MINIMAL_FEATURES, |MINIMAL_FEATURES|, o);
    var r := MinimalBundle(o);
    assert r[..|r| - 1] == SelectFeatures(MINIMAL_FEATURES, |MINIMAL_FEATURES|, o);
  }

  /**
   * The full bundle is its selected features, then the indent unit when there
   * is one, then exactly one keymap.
   */
  lemma BasicBundleShape(o: SetupOptions)
    ensures var r := BasicBundle(o);
      |r| >= 1 && r[|r| - 1] == Keymap(SelectKeymaps(BASIC_KEYMAPS, |BASIC_KEYMAPS|, o))
    ensures var r := BasicBundle(o);
      forall i :: 0 <= i < |r| - 1 ==> r[i].FeatureOf? || r[i].IndentUnit?
  {
    var feats := SelectFeatures(BASIC_FEATURES, |BASIC_FEATURES|, o);
    SelectFeaturesMembers(BASIC_FEATURES, |BASIC_FEATURES|, o);
    var r := BasicBundle(o);
    forall i | 0 <= i < |r| - 1
      ensures r[i].FeatureOf? || r[i].IndentUnit?
    {
      if i < |feats| {
        assert r[i] == feats[i] && feats[i] in feats;
      }
    }
  }

  /**
   * A feature is in the full bundle iff the options include it, and a
   * key-binding list is in its keymap iff its flag is not `false`.
   */
  lemma BasicBundleMembers(o: SetupOptions)
    ensures forall f :: FeatureOf(f) in BasicBundle(o) <==> Includes(o, f)
    ensures forall g :: g in SelectKeymaps(BASIC_KEYMAPS, |BASIC_KEYMAPS|, o) <==> NotFalse(o.keymaps, g)
  {
    var feats := SelectFeatures(BASIC_FEATURES, |BASIC_FEATURES|, o);
    SelectFeaturesMembers(BASIC_FEATURES, |BASIC_FEATURES|, o);
    SelectKeymapsMembers(BASIC_KEYMAPS, |BASIC_KEYMAPS|, o);
    FixedOrdersComplete();
    assert BASIC_FEATURES[..|BASIC_FEATURES|] == BASIC_FEATURES;
    assert BASIC_KEYMAPS[..|BASIC_KEYMAPS|] == BASIC_KEYMAPS;
    forall f
      ensures FeatureOf(f) in BasicBundle(o) <==> Includes(o, f)
    {
      assert FeatureOf(f) in BasicBundle(o) <==> FeatureOf(f) in feats;
    }
  }

  /** The full bundle's features come in their fixed order. */
  lemma BasicBundleInOrder(o: SetupOptions)
    ensures var feats := BasicBundle(o)[..|SelectFeatures(BASIC_FEATURES, |BASIC_FEATURES|, o)|];
      FeaturesAmong(feats, BASIC_FEATURES, |BASIC_FEATURES|) && FeaturesInOrder(feats, BASIC_FEATURES)
  {
    FixedOrdersDistinct();
    SelectFeaturesInOrder(BASIC_FEATURES, |BASIC_FEATURES|, o);
    var feats := SelectFeatures(BASIC_FEATURES, |BASIC_FEATURES|, o);
    assert BasicBundle(o)[..|feats|] == feats;
  }

  /** The crosshair cursor is in the full bundle only when its flag is given as `true`. */
  lemma CrosshairOnlyOnRequest(o: SetupOptions)
    ensures FeatureOf(CrosshairCursor) in BasicBundle(o) <==>
      CrosshairCursor in o.features && o.features[CrosshairCursor]
  {
    BasicBundleMembers(o);
  }

  /**
   * The full bundle holds an indent unit iff the tab size is a nonzero
   * number; it is then the entry just before the keymap, made of that many
   * spaces.
   */
  lemma IndentUnitIffTabSize(o: SetupOptions)
    ensures var r := BasicBundle(o);
      forall i :: 0 <= i < |r| ==> (r[i].IndentUnit? <==> o.tabSize.Some? && o.tabSize.value != 0 && i == |r| - 2)
    ensures var r := BasicBundle(o);
      o.tabSize.Some? && o.tabSize.value != 0 ==> |r| >= 2 && r[|r| - 2] == IndentUnit(Spaces(o.tabSize.value))
  {
    var feats := SelectFeatures(BASIC_FEATURES, |BASIC_FEATURES|, o);
    SelectFeaturesMembers(BASIC_FEATURES, |BASIC_FEATURES|, o);
    var r := BasicBundle(o);
    forall i | 0 <= i < |feats|
      ensures r[i] == feats[i] && !r[i].IndentUnit?
    {
      assert feats[i] in feats;
    }
  }

  /** Under the same options, every feature and key-binding list of the reduced bundle is in the full one. */
  lemma MinimalWithinBasic(o: SetupOptions)
    ensures forall e :: e in MinimalBundle(o) && e.FeatureOf? ==> e in BasicBundle(o)
    ensures forall g :: g in SelectKeymaps(MINIMAL_KEYMAPS, |MINIMAL_KEYMAPS|, o) ==>
      g in SelectKeymaps(BASIC_KEYMAPS, |BASIC_KEYMAPS|, o)
  {
    MinimalBundleMembers(o);
    BasicBundleMembers(o);
    forall e | e in MinimalBundle(o) && e.FeatureOf?
      ensures e in BasicBundle(o)
    {
      assert e.feature in MINIMAL_FEATURES;
    }
  }

  /** When every one of the first `k` lists is switched on, all of them are selected, in order. */
  lemma {:induction false} SelectAllKeymaps(order: seq<KeymapGroup>, k: nat, o: SetupOptions)
    requires k <= |order|
    requires forall i :: 0 <= i < k ==> IncludesKeymap(o, order[i])
    ensures SelectKeymaps(order, k, o) == order[..k]
  {
    if k > 0 {
      SelectAllKeymaps(order, k - 1, o);
      assert order[..k] == order[..k - 1] + [order[k - 1]];
    }
  }

  /** With no options given, the reduced bundle is its four features and a keymap of two lists. */
  lemma DefaultMinimalBundle()
    ensures MinimalBundle(NO_OPTIONS) ==
      [FeatureOf(HighlightSpecialChars), FeatureOf(History), FeatureOf(DrawSelection),
       FeatureOf(SyntaxHighlighting), Keymap([DefaultKeymap, HistoryKeymap])]
  {
    MinimalFeaturesSpelledOut(NO_OPTIONS);
    SelectAllKeymaps(MINIMAL_KEYMAPS, |MINIMAL_KEYMAPS|, NO_OPTIONS);
    assert MINIMAL_KEYMAPS[..|MINIMAL_KEYMAPS|] == MINIMAL_KEYMAPS;
    var e := NO_OPTIONS.features;
    assert FeatureIf(NotFalse(e, HighlightSpecialChars), HighlightSpecialChars) == [FeatureOf(HighlightSpecialChars)];
    assert FeatureIf(NotFalse(e, History), History) == [FeatureOf(History)];
    assert FeatureIf(NotFalse(e, DrawSelection), DrawSelection) == [FeatureOf(DrawSelection)];
    assert FeatureIf(NotFalse(e, SyntaxHighlighting), SyntaxHighlighting) == [FeatureOf(SyntaxHighlighting)];
  }

  /** With no feature entries given, the first eight of the full list are all kept. */
  lemma DefaultBasicFeaturesTo8(o: SetupOptions)
    requires o.features == map[]
    ensures SelectFeatures(BASIC_FEATURES, 8, o) ==
      [FeatureOf(LineNumbers), FeatureOf(HighlightActiveLineGutter), FeatureOf(HighlightSpecialChars),
       FeatureOf(History), FeatureOf(FoldGutter), FeatureOf(DrawSelection), FeatureOf(DropCursor),
       FeatureOf(AllowMultipleSelections)]
  {
    BasicFeatures0To4(o);
    assert SelectFeatures(BASIC_FEATURES, 4, o) ==
      [FeatureOf(LineNumbers), FeatureOf(HighlightActiveLineGutter), FeatureOf(HighlightSpecialChars), FeatureOf(History)];
    BasicFeatures4To8(o);
  }

  /** With no feature entries given, the next four are kept. */
  lemma DefaultBasicFeatures8To12(o: SetupOptions)
    requires o.features == map[]
    ensures SelectFeatures(BASIC_FEATURES, 12, o) == SelectFeatures(BASIC_FEATURES, 8, o) +
      [FeatureOf(IndentOnInput), FeatureOf(SyntaxHighlighting), FeatureOf(BracketMatching), FeatureOf(CloseBrackets)]
  {
    BasicFeatures8To12(o);
  }

  /** With no feature entries given, the next two are kept and the crosshair cursor, which must be asked for, is not. */
  lemma DefaultBasicFeatures12To15(o: SetupOptions)
    requires o.features == map[]
    ensures SelectFeatures(BASIC_FEATURES, 15, o) == SelectFeatures(BASIC_FEATURES, 12, o) +
      [FeatureOf(Autocompletion), FeatureOf(RectangularSelection)]
  {
    BasicFeatures12To15(o);
  }

  /** With no feature entries given, the full bundle's features are all but the crosshair cursor, in source order. */
  lemma DefaultBasicFeatures(o: SetupOptions)
    requires o.features == map[]
    ensures SelectFeatures(BASIC_FEATURES, |BASIC_FEATURES|, o) ==
      [FeatureOf(LineNumbers), FeatureOf(HighlightActiveLineGutter), FeatureOf(HighlightSpecialChars),
       FeatureOf(History), FeatureOf(FoldGutter), FeatureOf(DrawSelection), FeatureOf(DropCursor),
       FeatureOf(AllowMultipleSelections), FeatureOf(IndentOnInput), FeatureOf(SyntaxHighlighting),
       FeatureOf(BracketMatching), FeatureOf(CloseBrackets), FeatureOf(Autocompletion),
       FeatureOf(RectangularSelection), FeatureOf(HighlightActiveLine), FeatureOf(HighlightSelectionMatches)]
  {
    BasicFeaturesAt();
    DefaultBasicFeaturesTo8(o);
    DefaultBasicFeatures8To12(o);
    DefaultBasicFeatures12To15(o);
    BasicFeatures15To17(o);
  }

  /** With no options given, the full bundle is exactly those sixteen features followed by the keymap of all seven lists. */
  lemma DefaultBasicBundleExact()
    ensures BasicBundle(NO_OPTIONS) ==
      [FeatureOf(LineNumbers), FeatureOf(HighlightActiveLineGutter), FeatureOf(HighlightSpecialChars),
       FeatureOf(History), FeatureOf(FoldGutter), FeatureOf(DrawSelection), FeatureOf(DropCursor),
       FeatureOf(AllowMultipleSelections), FeatureOf(IndentOnInput), FeatureOf(SyntaxHighlighting),
       FeatureOf(BracketMatching), FeatureOf(CloseBrackets), FeatureOf(Autocompletion),
       FeatureOf(RectangularSelection), FeatureOf(HighlightActiveLine), FeatureOf(HighlightSelectionMatches),
       Keymap(BASIC_KEYMAPS)]
  {
    DefaultBasicFeatures(NO_OPTIONS);
    SelectAllKeymaps(BASIC_KEYMAPS, |BASIC_KEYMAPS|, NO_OPTIONS);
    assert BASIC_KEYMAPS[..|BASIC_KEYMAPS|] == BASIC_KEYMAPS;
  }

  /**
   * With no options given, the full bundle holds every feature but the
   * crosshair cursor, no indent unit, and a keymap of all seven lists.
   */
  lemma DefaultBasicBundle()
    ensures var r := BasicBundle(NO_OPTIONS);
      |r| >= 1 && r[|r| - 1] == Keymap(BASIC_KEYMAPS)
    ensures forall f :: FeatureOf(f) in BasicBundle(NO_OPTIONS) <==> f != CrosshairCursor
    ensures forall e :: e in BasicBundle(NO_OPTIONS) ==> !e.IndentUnit?
  {
    BasicBundleShape(NO_OPTIONS);
    BasicBundleMembers(NO_OPTIONS);
    IndentUnitIffTabSize(NO_OPTIONS);
    SelectAllKeymaps(BASIC_KEYMAPS, |BASIC_KEYMAPS|, NO_OPTIONS);
    assert BASIC_KEYMAPS[..|BASIC_KEYMAPS|] == BASIC_KEYMAPS;
  }
}

/**
 * The editor engine, seen from the binding layer. The engine itself is a
 * foreign library; this module keeps only what the binding observes of it:
 * extensions are opaque tokens, an editor state is an immutable value holding
 * the document text, the top-level configuration and the content of each
 * configuration slot (compartment), and a transaction either changes a range
 * of the document, adds to the configuration or reconfigures one slot.
 */
module Engine {

  datatype Option<T> = None | Some(value: T) {
    function GetOr(default: T): T {
      match this
      case Some(v) => v
      case None => default
    }
  }

  /** The single-purpose extensions that the setup bundles are made of. */
  datatype Feature =
    | LineNumbers
    | HighlightActiveLineGutter
    | HighlightSpecialChars
    | History
    | FoldGutter
    | DrawSelection
    | DropCursor
    | AllowMultipleSelections
    | IndentOnInput
    | SyntaxHighlighting
    | BracketMatching
    | CloseBrackets
    | Autocompletion
    | RectangularSelection
    | CrosshairCursor
    | HighlightActiveLine
    | HighlightSelectionMatches

  /** The key-binding lists that the setup bundles concatenate into one keymap. */
  datatype KeymapGroup =
    | CloseBracketsKeymap
    | DefaultKeymap
    | SearchKeymap
    | HistoryKeymap
    | FoldKeymap
    | CompletionKeymap
    | LintKeymap

  /** CSS properties of an inline style, property name to value. */
  type Style = map<string, string>

  /**
   * An extension value. A list of extensions is itself an extension
   * (`Group`); `Token` stands for any value a caller supplies that the
   * binding only passes on.
   */
  datatype Extension =
    | Group(items: seq<Extension>)
    | FeatureOf(feature: Feature)
    | IndentUnit(unit: string)
    | Keymap(groups: seq<KeymapGroup>)
    | OneDark
    | StyleTheme(style: Style)
    | IndentWithTabKeymap
    | Editable(editable: bool)
    | ReadOnly(readOnly: bool)
    | Placeholder(text: string)
    | UpdateListener
    | Token(id: nat)

  /** The empty extension, written `[]` in the source. */
  const EMPTY: Extension := Group([])

  /**
   * The configuration slots (compartments) the binding layer creates: one per
   * option channel, and one for each key-driven toggle, told apart by an id.
   */
  datatype Slot =
    | BasicSetupSlot
    | ThemeSlot
    | CustomStyleSlot
    | IndentWithTabSlot
    | DisabledSlot
    | PlaceholderSlot
    | UserExtensionsSlot
    | KeyToggleSlot(id: nat)

  /** One top-level entry of the configuration: a slot, or an extension added for good. */
  datatype Entry = SlotEntry(slot: Slot) | Fixed(ext: Extension)

  /**
   * An editor state: the document, the top-level configuration in order, and
   * the current content of each slot that the configuration holds.
   */
  datatype EditorState = EditorState(doc: string, config: seq<Entry>, slots: map<Slot, Extension>)

  /** Replace the characters in [from, to) with `insert`. */
  datatype Change = Change(from: nat, to: nat, insert: string)

  datatype Effect =
    | NoEffect
    | AppendSlot(slot: Slot, content: Extension)
    | AppendFixed(ext: Extension)
    | Reconfigure(slot: Slot, content: Extension)

  /** A transaction; `external` is the `ExternalChange` annotation with value true. */
  datatype Transaction = Transaction(change: Option<Change>, effect: Effect, external: bool)

  predicate ChangeFits(doc: string, c: Change) {
    c.from <= c.to <= |doc|
  }

  predicate Applicable(st: EditorState, tr: Transaction) {
    tr.change.Some? ==> ChangeFits(st.doc, tr.change.value)
  }

  /** A change that deletes nothing and inserts nothing leaves the change set empty. */
  predicate ChangesDocument(tr: Transaction) {
    tr.change.Some? && (tr.change.value.from < tr.change.value.to || tr.change.value.insert != "")
  }

  function ApplyChange(doc: string, c: Change): (r: string)
    requires ChangeFits(doc, c)
    ensures |r| == |doc| - (c.to - c.from) + |c.insert|
    ensures r[..c.from] == doc[..c.from] && r[c.from + |c.insert|..] == doc[c.to..]
    ensures r[c.from..c.from + |c.insert|] == c.insert
  {
    doc[..c.from] + c.insert + doc[c.to..]
  }

  /**
   * The state a transaction produces. Reconfiguring a slot the configuration
   * does not hold has no effect.
   */
  function Apply(st: EditorState, tr: Transaction): (r: EditorState)
    requires Applicable(st, tr)
    ensures tr.change.None? ==> r.doc == st.doc
    ensures tr.change.Some? ==> r.doc == ApplyChange(st.doc, tr.change.value)
    ensures !tr.effect.AppendSlot? && !tr.effect.AppendFixed? ==> r.config == st.config
    ensures tr.effect.NoEffect? ==> r.slots == st.slots
    ensures tr.effect.AppendSlot? ==>
      r.config == st.config + [SlotEntry(tr.effect.slot)] && r.slots == st.slots[tr.effect.slot := tr.effect.content]
    ensures tr.effect.AppendFixed? ==> r.config == st.config + [Fixed(tr.effect.ext)] && r.slots == st.slots
    ensures tr.effect.Reconfigure? && tr.effect.slot in st.slots ==>
      r.slots == st.slots[tr.effect.slot := tr.effect.content]
    ensures tr.effect.Reconfigure? && tr.effect.slot !in st.slots ==> r.slots == st.slots
  {
    var doc := if tr.change.Some? then ApplyChange(st.doc, tr.change.value) else st.doc;
    match tr.effect
    case NoEffect => st.(doc := doc)
    case AppendSlot(s, e) => EditorState(doc, st.config + [SlotEntry(s)], st.slots[s := e])
    case AppendFixed(e) => st.(doc := doc, config := st.config + [Fixed(e)])
    case Reconfigure(s, e) => st.(doc := doc, slots := if s in st.slots then st.slots[s := e] else st.slots)
  }

  /** How often an entry occurs in a configuration. */
  function Occurrences(config: seq<Entry>, e: Entry): (n: nat)
    ensures n == 0 <==> e !in config
    ensures n <= |config|
  {
    if config == [] then 0
    else Occurrences(config[..|config| - 1], e) + (if config[|config| - 1] == e then 1 else 0)
  }

  /** Adding an entry at the end counts it once more. */
  lemma OccurrencesAppend(config: seq<Entry>, x: Entry, e: Entry)
    ensures Occurrences(config + [x], e) == Occurrences(config, e) + (if x == e then 1 else 0)
  {
    assert (config + [x])[..|config|] == config;
  }

  /**
   * A state whose configuration holds each slot at most once, exactly the
   * slots it has content for.
   */
  ghost predicate WellFormed(st: EditorState) {
    forall s :: (s in st.slots <==> SlotEntry(s) in st.config) && Occurrences(st.config, SlotEntry(s)) <= 1
  }

  /** A transaction that does not add a slot the configuration already holds. */
  predicate KeepsSlots(st: EditorState, tr: Transaction) {
    tr.effect.AppendSlot? ==> tr.effect.slot !in st.slots
  }

  lemma ApplyKeepsWellFormed(st: EditorState, tr: Transaction)
    requires WellFormed(st) && Applicable(st, tr) && KeepsSlots(st, tr)
    ensures WellFormed(Apply(st, tr))
  {
    var r := Apply(st, tr);
    forall s
      ensures (s in r.slots <==> SlotEntry(s) in r.config) && Occurrences(r.config, SlotEntry(s)) <= 1
    {
      match tr.effect
      case AppendSlot(x, _) => OccurrencesAppend(st.config, SlotEntry(x), SlotEntry(s));
      case AppendFixed(x) => OccurrencesAppend(st.config, Fixed(x), SlotEntry(s));
      case _ =>
    }
  }
}

/**
 * The `VueCodeMirror` component: its props become the controller's options,
 * every hook the controller calls becomes an emitted event, and the methods
 * it exposes read the text, add an extension or replace the whole text
 * without echoing it back as a change.
 */
module Component {
  import opened Engine
  import opened BasicSetup
  import opened UseCodeMirror

  /** The declared props; a prop the parent does not pass is `None`. */
  datatype Props = Props(
    modelValue: Option<string>,
    customStyle: Option<Style>,
    autoFocus: Option<bool>,
    placeholder: Option<string>,
    theme: Option<Theme>,
    basicSetup: Option<SetupSelector>,
    disabled: Option<bool>,
    indentWithTab: Option<bool>,
    extensions: Option<seq<Extension>>)

  /** The component supplies every hook. */
  const ALL_HOOKS: Hooks := Hooks(true, true, true, true, true)

  /**
   * The options computed from the props: the props themselves, the model
   * value as the initial text, and a hook for every event.
   */
  function ToOptions(p: Props): (o: EditorOptions)
    ensures o.value == p.modelValue && o.hooks == ALL_HOOKS
    ensures o.basicSetup == p.basicSetup && o.theme == p.theme && o.customStyle == p.customStyle
    ensures o.indentWithTab == p.indentWithTab && o.disabled == p.disabled
    ensures o.placeholder == p.placeholder && o.extensions == p.extensions && o.autoFocus == p.autoFocus
  {
    EditorOptions(p.modelValue, p.basicSetup, p.theme, p.customStyle, p.indentWithTab, p.disabled,
                  p.placeholder, p.extensions, p.autoFocus, ALL_HOOKS)
  }

  /** The props an options value was computed from. */
  function PropsOf(o: EditorOptions): Props {
    Props(o.value, o.customStyle, o.autoFocus, o.placeholder, o.theme, o.basicSetup,
          o.disabled, o.indentWithTab, o.extensions)
  }

  /** No prop is lost on the way to the controller. */
  lemma ToOptionsKeepsProps(p: Props)
    ensures PropsOf(ToOptions(p)) == p
    ensures forall q :: ToOptions(q) == ToOptions(p) ==> q == p
  {
    forall q | ToOptions(q) == ToOptions(p)
      ensures q == p
    {
      assert PropsOf(ToOptions(q)) == q;
    }
  }

  /** An event the component emits, with its payload. */
  datatype Event =
    | UpdateModelValue(value: string)
    | ChangeEvent(value: string, vu: ViewUpdate)
    | UpdateEvent(vu: ViewUpdate)
    | BlurEvent(vu: ViewUpdate)
    | FocusEvent(vu: ViewUpdate)
    | ReadlyEvent(state: EditorState)

  /**
   * The events one hook call emits: a change emits the new model value and
   * then `change`; every other hook emits its own event.
   */
  function EventsFor(c: HookCall): (es: seq<Event>)
    ensures 1 <= |es| <= 2
    ensures |es| == 2 <==> c.Changed?
    ensures c.Changed? ==> es[0] == UpdateModelValue(c.text) && es[1] == ChangeEvent(c.text, c.vu)
    ensures c.Updated? ==> es == [UpdateEvent(c.vu)]
    ensures c.Focused? ==> es == [FocusEvent(c.vu)]
    ensures c.Blurred? ==> es == [BlurEvent(c.vu)]
    ensures c.Ready? ==> es == [ReadlyEvent(c.state)]
  {
    match c
    case Updated(vu) => [UpdateEvent(vu)]
    case Changed(text, vu) => [UpdateModelValue(text), ChangeEvent(text, vu)]
    case Focused(vu) => [FocusEvent(vu)]
    case Blurred(vu) => [BlurEvent(vu)]
    case Ready(st) => [ReadlyEvent(st)]
  }

  /** The events a sequence of hook calls emits, in order. */
  function Emitted(calls: seq<HookCall>): seq<Event>
  {
    if calls == [] then [] else Emitted(calls[..|calls| - 1]) + EventsFor(calls[|calls| - 1])
  }

  /** Later calls only add events after the earlier ones. */
  lemma {:induction false} EmittedAppend(a: seq<HookCall>, b: seq<HookCall>)
    ensures Emitted(a + b) == Emitted(a) + Emitted(b)
    decreases |b|
  {
    if b == [] {
      assert a + b == a;
    } else {
      var b' := b[..|b| - 1];
      var last := EventsFor(b[|b| - 1]);
      EmittedAppend(a, b');
      assert (a + b)[..|a + b| - 1] == a + b';
      assert (a + b)[|a + b| - 1] == b[|b| - 1];
      assert Emitted(a + b) == Emitted(a + b') + last;
      assert Emitted(b) == Emitted(b') + last;
    }
  }

  /** A model-value update is emitted exactly for a change call, with the same text. */
  lemma {:induction false} EmittedModelValues(calls: seq<HookCall>, v: string)
    ensures UpdateModelValue(v) in Emitted(calls) <==> exists vu :: Changed(v, vu) in calls
    decreases |calls|
  {
    if calls != [] {
      var init := calls[..|calls| - 1];
      var last := calls[|calls| - 1];
      EmittedModelValues(init, v);
      assert calls == init + [last];
      if exists vu :: Changed(v, vu) in calls {
        var vu :| Changed(v, vu) in calls;
        if Changed(v, vu) in init {
        } else {
          assert last == Changed(v, vu);
          assert EventsFor(last)[0] == UpdateModelValue(v);
        }
      }
      if UpdateModelValue(v) in Emitted(calls) {
        if UpdateModelValue(v) !in Emitted(init) {
          assert UpdateModelValue(v) in EventsFor(last);
          assert last == Changed(v, last.vu);
        }
      }
    }
  }

  /** The value a `v-model` binding holds: the last model-value update, or the initial one. */
  function BoundValue(initial: string, events: seq<Event>): (v: string)
    ensures v == initial || UpdateModelValue(v) in events
  {
    if events == [] then initial
    else if events[|events| - 1].UpdateModelValue? then events[|events| - 1].value
    else BoundValue(initial, events[..|events| - 1])
  }

  /** Events without a model-value update leave the binding alone. */
  lemma {:induction false} BoundValueSkips(initial: string, events: seq<Event>, more: seq<Event>)
    requires forall e :: e in more ==> !e.UpdateModelValue?
    ensures BoundValue(initial, events + more) == BoundValue(initial, events)
    decreases |more|
  {
    if more != [] {
      var more' := more[..|more| - 1];
      assert (events + more)[..|events + more| - 1] == events + more';
      BoundValueSkips(initial, events, more');
    } else {
      assert events + more == events;
    }
  }

  /** After a change call the binding holds the changed text, whatever follows that is not a change. */
  lemma BoundValueAfterChange(initial: string, events: seq<Event>, t: string, vu: ViewUpdate, more: seq<Event>)
    requires forall e :: e in more ==> !e.UpdateModelValue?
    ensures BoundValue(initial, events + EventsFor(Changed(t, vu)) + more) == t
  {
    var pre := events + EventsFor(Changed(t, vu));
    BoundValueSkips(initial, pre, more);
    assert pre == events + [UpdateModelValue(t)] + [ChangeEvent(t, vu)];
    assert pre[..|pre| - 1] == events + [UpdateModelValue(t)];
  }

  /**
   * The transaction `forceUpdate` dispatches: the whole text replaced by
   * `v`, marked external.
   */
  function ForceTransaction(doc: string, v: string): (tr: Transaction)
    ensures tr.external && tr.effect.NoEffect?
    ensures tr.change.Some? && ChangeFits(doc, tr.change.value) && ApplyChange(doc, tr.change.value) == v
    ensures v != doc ==> ChangesDocument(tr)
  {
    Transaction(Some(Change(0, |doc|, v)), NoEffect, true)
  }

  /**
   * The component instance, holding the controller it created with the
   * options computed from its props.
   */
  class VueCodeMirror {
    const props: Props
    const editor: CodeMirror

    ghost predicate Valid()
      reads this, editor
    {
      editor.Valid() && editor.options == ToOptions(props)
    }

    /** `setup`: creates the controller; the editor itself comes at mount. */
    constructor(props: Props)
      ensures Valid() && fresh(editor) && this.props == props
      ensures !editor.created && editor.view.None? && editor.calls == []
    {
      this.props := props;
      editor := new CodeMirror(ToOptions(props));
    }

    /** Every event emitted so far. */
    function Events(): seq<Event>
      reads this, editor
    {
      Emitted(editor.calls)
    }

    /** Mounting runs the deferred creation, which emits `readly`. */
    method Mount()
      requires Valid() && !editor.created
      modifies editor
      ensures Valid() && editor.view.Some?
      ensures editor.view.value.doc == props.modelValue.GetOr("")
      ensures editor.view == Some(InitialState(ToOptions(props))) && editor.stateRef == editor.view
      ensures editor.created && editor.watching && editor.hasFocus == old(editor.hasFocus)
      ensures editor.view.value.config == [SlotEntry(BasicSetupSlot), Fixed(UpdateListener)]
      ensures Events() == old(Events()) + [ReadlyEvent(editor.view.value)]
    {
      editor.Init();
      EmittedAppend(old(editor.calls), [Ready(editor.view.value)]);
      assert Emitted([Ready(editor.view.value)]) == [ReadlyEvent(editor.view.value)] by {
        assert [Ready(editor.view.value)][..0] == [];
      }
    }

    /** `getValue()`: the current text. */
    method GetValue() returns (v: string)
      requires Valid() && editor.view.Some?
      ensures v == editor.view.value.doc
    {
      v := editor.view.value.doc;
    }

    /** `inject(e)`: adds `e` to the configuration for good. */
    method Inject(e: Extension)
      requires Valid() && editor.view.Some?
      modifies editor
      ensures Valid() && editor.view.Some?
      ensures editor.view.value.doc == old(editor.view.value.doc)
      ensures editor.view.value.config == old(editor.view.value.config) + [Fixed(e)]
      ensures editor.view.value.slots == old(editor.view.value.slots)
      ensures editor.calls == old(editor.calls) +
        [Updated(UpdateFor(old(editor.view.value), Transaction(None, AppendFixed(e), false), old(editor.hasFocus)))]
      ensures editor.stateRef == old(editor.stateRef) && editor.hasFocus == old(editor.hasFocus)
    {
      editor.InjectExtension(e);
    }

    /**
     * `forceUpdate(v)`: a text different from the current one replaces it
     * in one transaction marked external, so the update is reported but no
     * change and no new model value is emitted. The same text does nothing.
     */
    method ForceUpdate(v: string)
      requires Valid() && editor.view.Some?
      modifies editor
      ensures Valid() && editor.view.Some?
      ensures editor.view.value.doc == v
      ensures v == old(editor.view.value.doc) ==> unchanged(editor)
      ensures |old(editor.calls)| <= |editor.calls| && editor.calls[..|old(editor.calls)|] == old(editor.calls)
      ensures forall i :: |old(editor.calls)| <= i < |editor.calls| ==> !editor.calls[i].Changed?
      ensures v != old(editor.view.value.doc) ==> |editor.calls| == |old(editor.calls)| + 1
      ensures v != old(editor.view.value.doc) ==>
        var tr := ForceTransaction(old(editor.view.value.doc), v);
        editor.view == Some(Apply(old(editor.view.value), tr))
        && editor.calls == old(editor.calls) + [Updated(UpdateFor(old(editor.view.value), tr, old(editor.hasFocus)))]
      ensures editor.stateRef == old(editor.stateRef) && editor.hasFocus == old(editor.hasFocus)
      ensures editor.created == old(editor.created) && editor.watching == old(editor.watching)
    {
      var current := GetValue();
      if v != current {
        var tr := ForceTransaction(current, v);
        ExternalNeverChanges(editor.options.hooks, editor.view.value, tr, editor.hasFocus);
        editor.Dispatch(tr);
        assert editor.calls[|old(editor.calls)|..] == Notifications(editor.options.hooks, UpdateFor(old(editor.view.value), tr, editor.hasFocus));
      }
    }
  }

  /** One more hook call adds its own events at the end. */
  lemma EmittedSnoc(calls: seq<HookCall>, c: HookCall)
    ensures Emitted(calls + [c]) == Emitted(calls) + EventsFor(c)
  {
    assert (calls + [c])[..|calls|] == calls;
  }

  /** A user edit reported as an update and then a change leaves the binding on the new text. */
  lemma EditBindsValue(initial: string, calls: seq<HookCall>, vu: ViewUpdate, t: string)
    ensures BoundValue(initial, Emitted(calls + [Updated(vu), Changed(t, vu)])) == t
  {
    var x := calls + [Updated(vu)];
    assert calls + [Updated(vu), Changed(t, vu)] == x + [Changed(t, vu)];
    EmittedSnoc(x, Changed(t, vu));
    BoundValueAfterChange(initial, Emitted(x), t, vu, []);
    assert Emitted(x) + EventsFor(Changed(t, vu)) + [] == Emitted(x) + EventsFor(Changed(t, vu));
  }

  /**
   * A `v-model` binding follows a user edit: mounted with `initial`, then
   * edited to `edited` by replacing the whole text, the component's text and
   * the bound value are both `edited`.
   */
  method VModelFollowsEdit(initial: string, edited: string) returns (text: string, bound: string)
    requires initial != "" || edited != ""
    ensures text == edited && bound == edited
  {
    var c := new VueCodeMirror(Props(Some(initial), None, None, None, None, None, None, None, None));
    c.Mount();
    assert c.editor.view.value.doc == initial;
    assert c.editor.options.hooks == ALL_HOOKS;
    var tr := Transaction(Some(Change(0, |initial|, edited)), NoEffect, false);
    assert ChangesDocument(tr);
    var st, hf := c.editor.view.value, c.editor.hasFocus;
    var vu := UpdateFor(st, tr, hf);
    EditNotifies(ALL_HOOKS, st, tr, hf);
    var before := c.editor.calls;
    c.editor.Dispatch(tr);
    assert c.editor.calls == before + Notifications(ALL_HOOKS, vu);
    EditBindsValue(initial, before, vu, edited);
    text := c.GetValue();
    bound := BoundValue(initial, c.Events());
  }
}

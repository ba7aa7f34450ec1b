/**
 * The three modal-visibility stores that `handleKeyDown` writes directly
 * (`shortcutsModalOpen`, `addFeedModalOpen`, `searchDialogOpen` in
 * src/hooks/useHotkeys.js), held as fields of one object and updated in place
 * by the handler.
 */
module ModalStore {
  import opened Wrappers
  import opened Hotkeys

  datatype ModalFlags = ModalFlags(shortcutsOpen: bool, addFeedOpen: bool, searchOpen: bool)

  /** The flags after one effect: the toggles flip, opening search forces it open. */
  function ApplyEffect(m: ModalFlags, e: Effect): (r: ModalFlags)
    ensures !e.IsModal() ==> r == m
    ensures e == ToggleShortcuts ==> r == m.(shortcutsOpen := !m.shortcutsOpen)
    ensures e == ToggleAddFeed ==> r == m.(addFeedOpen := !m.addFeedOpen)
    ensures e == OpenSearch ==> r == m.(searchOpen := true)
  {
    match e
    case ToggleShortcuts => m.(shortcutsOpen := !m.shortcutsOpen)
    case ToggleAddFeed => m.(addFeedOpen := !m.addFeedOpen)
    case OpenSearch => m.(searchOpen := true)
    case _ => m
  }

  /** The flags after the effects of one key press, in order. */
  function ApplyEffects(m: ModalFlags, es: seq<Effect>): ModalFlags
    decreases |es|
  {
    if es == [] then m else ApplyEffects(ApplyEffect(m, es[0]), es[1..])
  }

  /** Effects that touch no modal leave the flags as they are. */
  lemma {:induction false} NoModalKeepsFlags(m: ModalFlags, es: seq<Effect>)
    requires NoModal(es)
    ensures ApplyEffects(m, es) == m
  {
    if es != [] {
      assert es[0] in es;
      assert forall e :: e in es[1..] ==> e in es;
      NoModalKeepsFlags(ApplyEffect(m, es[0]), es[1..]);
    }
  }

  /**
   * The modal flags after a key press: only `Shift+?`, `Shift+N` and `f`
   * change them, each changing its own flag alone.
   */
  lemma KeyDownFlags(m: ModalFlags, ev: KeyEvent, v: View)
    ensures var r := ApplyEffects(m, KeyDown(ev, v).effects);
      if !IsTextEntry(ev.target) && IsShortcutsCombo(ev) then r == m.(shortcutsOpen := !m.shortcutsOpen)
      else if !IsTextEntry(ev.target) && IsAddFeedCombo(ev) then r == m.(addFeedOpen := !m.addFeedOpen)
      else if Pressed(ev, F) then r == m.(searchOpen := true)
      else r == m
  {
    var es := KeyDown(ev, v).effects;
    ModalEffectsAlone(ev, v);
    ModifierCombos(ev, v);
    if NoModal(es) {
      NoModalKeepsFlags(m, es);
    } else {
      var e :| e in es && e.IsModal();
      assert es == [e];
      assert ApplyEffects(m, es) == ApplyEffect(m, e);
    }
  }

  /** Pressing the same combo twice restores every flag. */
  lemma ToggleTwiceRestores(m: ModalFlags, ev: KeyEvent, v1: View, v2: View)
    requires !IsTextEntry(ev.target) && (IsShortcutsCombo(ev) || IsAddFeedCombo(ev))
    ensures ApplyEffects(ApplyEffects(m, KeyDown(ev, v1).effects), KeyDown(ev, v2).effects) == m
  {
    KeyDownFlags(m, ev, v1);
    KeyDownFlags(ApplyEffects(m, KeyDown(ev, v1).effects), ev, v2);
  }

  /** Search is forced open, not toggled: a second `f` changes nothing. */
  lemma SearchOpenIdempotent(m: ModalFlags, ev: KeyEvent, v1: View, v2: View)
    requires Pressed(ev, F)
    ensures ApplyEffects(m, KeyDown(ev, v1).effects).searchOpen
    ensures ApplyEffects(ApplyEffects(m, KeyDown(ev, v1).effects), KeyDown(ev, v2).effects)
            == ApplyEffects(m, KeyDown(ev, v1).effects)
  {
    KeyDownFlags(m, ev, v1);
    KeyDownFlags(ApplyEffects(m, KeyDown(ev, v1).effects), ev, v2);
  }

  /** The hook's handler with the modal stores it writes. */
  class Handler {
    var shortcutsModalOpen: bool
    var addFeedModalOpen: bool
    var searchDialogOpen: bool

    function Flags(): ModalFlags
      reads this
    {
      ModalFlags(shortcutsModalOpen, addFeedModalOpen, searchDialogOpen)
    }

    constructor (initial: ModalFlags)
      ensures Flags() == initial
    {
      shortcutsModalOpen := initial.shortcutsOpen;
      addFeedModalOpen := initial.addFeedOpen;
      searchDialogOpen := initial.searchOpen;
    }

    /**
     * One key press: the modal stores are set in place, and the outcome is
     * the dispatcher's; the new flags are the old ones after its effects.
     */
    method HandleKeyDown(ev: KeyEvent, v: View) returns (o: Outcome)
      modifies this
      ensures o == KeyDown(ev, v)
      ensures Flags() == ApplyEffects(old(Flags()), o.effects)
    {
      KeyDownFlags(Flags(), ev, v);
      if IsTextEntry(ev.target) {
        return Ignored;
      }
      if IsShortcutsCombo(ev) {
        shortcutsModalOpen := !shortcutsModalOpen;
        return Outcome(true, [ToggleShortcuts], false);
      }
      if IsAddFeedCombo(ev) {
        addFeedModalOpen := !addFeedModalOpen;
        return Outcome(true, [ToggleAddFeed], false);
      }
      var key := KeyOf(Lower(ev.key));
      if key == Some(F) {
        searchDialogOpen := true;
        return Outcome(true, [OpenSearch], false);
      }
      o := if key.Some? then Command(key.value, ev, v) else Ignored;
    }

    /** Two presses of `Shift+?` or `Shift+N` leave the stores as they were. */
    method PressTwice(ev: KeyEvent, v: View)
      requires !IsTextEntry(ev.target) && (IsShortcutsCombo(ev) || IsAddFeedCombo(ev))
      modifies this
      ensures Flags() == old(Flags())
    {
      var first := HandleKeyDown(ev, v);
      var second := HandleKeyDown(ev, v);
      ToggleTwiceRestores(old(Flags()), ev, v, v);
    }
  }
}

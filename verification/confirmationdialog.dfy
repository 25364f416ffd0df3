/** The shared confirmation dialog. Confirm runs the screen's `onConfirm`
    and then its `onCancel` (which hides the dialog); the cancel button and
    the dialog's own close run `onCancel` alone. */
module ConfirmationDialog {
  import opened Effects

  /** What the user does with an open dialog. */
  datatype Action = ConfirmClicked | CancelClicked | Closed

  /** The two callbacks a screen hands to the dialog. */
  datatype Callback = OnConfirm | OnCancel

  /** The callbacks an action runs, in order. */
  function Callbacks(a: Action): (cbs: seq<Callback>)
    ensures |cbs| >= 1 && cbs[|cbs| - 1] == OnCancel
  {
    if a == ConfirmClicked then [OnConfirm, OnCancel] else [OnCancel]
  }

  /** How many times a callback occurs in a list. */
  function Count(cbs: seq<Callback>, c: Callback): nat {
    if |cbs| == 0 then 0 else (if cbs[0] == c then 1 else 0) + Count(cbs[1..], c)
  }

  /** Runs the callbacks on a screen state: `onConfirm` may emit effects,
      `onCancel` only changes the state. */
  function Apply<S>(cbs: seq<Callback>, s: S, onConfirm: S -> (S, seq<Effect>), onCancel: S -> S): (S, seq<Effect>)
  {
    if |cbs| == 0 then (s, [])
    else
      var first := if cbs[0] == OnConfirm then onConfirm(s) else (onCancel(s), []);
      var rest := Apply(cbs[1..], first.0, onConfirm, onCancel);
      (rest.0, first.1 + rest.1)
  }

  /** What an action does to a screen wired to the dialog: the effects are
      exactly those of `onConfirm` for the confirm button and none for the
      other actions. */
  function Run<S>(a: Action, s: S, onConfirm: S -> (S, seq<Effect>), onCancel: S -> S): (r: (S, seq<Effect>))
    ensures r.1 == (if a == ConfirmClicked then onConfirm(s).1 else [])
  {
    var cbs := Callbacks(a);
    if a == ConfirmClicked then
      assert cbs[1..] == [OnCancel];
      CancelStep(cbs[1..], onConfirm(s).0, onConfirm, onCancel);
      assert onConfirm(s).1 + [] == onConfirm(s).1;
      Apply(cbs, s, onConfirm, onCancel)
    else
      CancelStep(cbs, s, onConfirm, onCancel);
      Apply(cbs, s, onConfirm, onCancel)
  }

  /** Every action runs `onCancel` exactly once, and `onConfirm` runs (once,
      and before `onCancel`) only for the confirm button. */
  lemma CallbackCounts(a: Action)
    ensures Count(Callbacks(a), OnCancel) == 1
    ensures Count(Callbacks(a), OnConfirm) == (if a == ConfirmClicked then 1 else 0)
    ensures a == ConfirmClicked ==> Callbacks(a)[0] == OnConfirm
  {
    var cbs := Callbacks(a);
    if a == ConfirmClicked {
      assert cbs[1..] == [OnCancel];
      assert cbs[1..][1..] == [];
      assert Count(cbs[1..], OnCancel) == 1 + Count(cbs[1..][1..], OnCancel);
      assert Count(cbs[1..], OnConfirm) == Count(cbs[1..][1..], OnConfirm);
    } else {
      assert cbs[1..] == [];
    }
  }

  /** Confirm: the screen's confirm handler, with all its effects, and then
      the cancel handler on the state it left. */
  lemma ConfirmThenCancel<S>(s: S, onConfirm: S -> (S, seq<Effect>), onCancel: S -> S)
    ensures Run(ConfirmClicked, s, onConfirm, onCancel) == (onCancel(onConfirm(s).0), onConfirm(s).1)
  {
    var cbs := Callbacks(ConfirmClicked);
    assert cbs[1..] == [OnCancel];
    assert cbs[1..][1..] == [];
    var s1 := onConfirm(s).0;
    CancelStep(cbs[1..], s1, onConfirm, onCancel);
    assert onConfirm(s).1 + [] == onConfirm(s).1;
  }

  /** Cancel and close never run the confirm handler and emit nothing. */
  lemma CancelOnly<S>(a: Action, s: S, onConfirm: S -> (S, seq<Effect>), onCancel: S -> S)
    requires a != ConfirmClicked
    ensures Run(a, s, onConfirm, onCancel) == (onCancel(s), [])
  {
    CancelStep(Callbacks(a), s, onConfirm, onCancel);
  }

  lemma CancelStep<S>(cbs: seq<Callback>, s: S, onConfirm: S -> (S, seq<Effect>), onCancel: S -> S)
    requires cbs == [OnCancel]
    ensures Apply(cbs, s, onConfirm, onCancel) == (onCancel(s), [])
  {
    assert cbs[1..] == [];
    var first: (S, seq<Effect>) := (onCancel(s), []);
    var rest := Apply(cbs[1..], first.0, onConfirm, onCancel);
    assert rest == (onCancel(s), []);
    assert first.1 + rest.1 == [];
  }

  /** `cancelText || t('cancel')` */
  function CancelLabel(cancelText: Option<string>, t: string -> string): string {
    if cancelText.Some? && cancelText.value != "" then cancelText.value else t("cancel")
  }

  /** `confirmText || t('delete')` */
  function ConfirmLabel(confirmText: Option<string>, t: string -> string): string {
    if confirmText.Some? && confirmText.value != "" then confirmText.value else t("delete")
  }

  /** A given, non-empty text is shown as is; a missing or empty one falls back
      to the translated default, so a label is never blank while the
      translations are not. */
  lemma LabelsFallBack(cancelText: Option<string>, confirmText: Option<string>, t: string -> string)
    ensures cancelText.Some? && cancelText.value != "" ==> CancelLabel(cancelText, t) == cancelText.value
    ensures cancelText.None? || cancelText == Some("") ==> CancelLabel(cancelText, t) == t("cancel")
    ensures confirmText.Some? && confirmText.value != "" ==> ConfirmLabel(confirmText, t) == confirmText.value
    ensures confirmText.None? || confirmText == Some("") ==> ConfirmLabel(confirmText, t) == t("delete")
    ensures t("cancel") != "" && t("delete") != "" ==> CancelLabel(cancelText, t) != "" && ConfirmLabel(confirmText, t) != ""
  {
  }
}

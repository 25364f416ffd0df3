/** The part of formik every account and team form relies on: the values,
    the values the form was (re)initialised with, the submitting flag, and the
    submit-button guard built from them. */
module Forms {

  /** `dirty` is derived as formik derives it: the current values differ
      from the initial values. Validity is supplied by each screen's schema. */
  datatype Form<T(==)> = Form(initial: T, values: T, submitting: bool) {

    predicate Dirty() {
      values != initial
    }
  }

  /** A fresh form: values are the initial values, nothing is in flight. */
  function Fresh<T(==)>(initial: T): (f: Form<T>)
    ensures !f.Dirty() && !f.submitting && f.initial == initial
  {
    Form(initial, initial, false)
  }

  /** The edit a user makes to a field: the form holds the typed values, and
      nothing else changes. */
  function Edit<T(==)>(f: Form<T>, values: T): (g: Form<T>)
    ensures g.values == values
    ensures g.initial == f.initial && g.submitting == f.submitting
    ensures g.Dirty() <==> values != f.initial
  {
    f.(values := values)
  }

  /** `formik.resetForm()`: back to the initial values, not dirty. */
  function Reset<T(==)>(f: Form<T>): (g: Form<T>)
    ensures !g.Dirty() && g.values == f.initial && !g.submitting
  {
    Fresh(f.initial)
  }

  /** `enableReinitialize`: when the initial values handed to formik change,
      the form is reset to them; otherwise in-progress edits are kept. */
  function Reinitialize<T(==)>(f: Form<T>, newInitial: T): (g: Form<T>)
    ensures newInitial != f.initial ==> g.values == newInitial && !g.Dirty()
    ensures newInitial == f.initial ==> g == f
  {
    if newInitial != f.initial then Fresh(newInitial) else f
  }

  /** `!formik.dirty || !formik.isValid || formik.isSubmitting` */
  predicate Disabled<T(==)>(f: Form<T>, valid: bool) {
    !f.Dirty() || !valid || f.submitting
  }

  /** `!formik.dirty || !formik.isValid`: the variant without a submitting
      guard, used by the API-key and invitation forms. */
  predicate DisabledIgnoringSubmit<T(==)>(f: Form<T>, valid: bool) {
    !f.Dirty() || !valid
  }

  /** The submit control is enabled exactly when the form is dirty, valid and
      not submitting. */
  lemma EnabledIff<T>(f: Form<T>, valid: bool)
    ensures !Disabled(f, valid) <==> f.values != f.initial && valid && !f.submitting
  {
  }

  /** A pristine or freshly reset form can never be submitted. */
  lemma PristineDisabled<T>(f: Form<T>, valid: bool)
    requires f.values == f.initial
    ensures Disabled(f, valid) && DisabledIgnoringSubmit(f, valid)
    ensures Disabled(Reset(f), valid) && DisabledIgnoringSubmit(Reset(f), valid)
  {
  }

  /** The two guards differ only while a submission is in flight. */
  lemma GuardsDifferOnlyWhileSubmitting<T>(f: Form<T>, valid: bool)
    ensures Disabled(f, valid) != DisabledIgnoringSubmit(f, valid)
        <==> f.submitting && f.Dirty() && valid
  {
  }
}

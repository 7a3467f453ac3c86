/** The add-attachment dialog (src/components/AddAttachment.tsx): the
    attachment schema, the form's defaults and the submit that hands the
    attachment to the store, resets the form and closes the dialog. */
module AddAttachment {
  import opened Optional
  import opened TaskTypes
  import opened TaskReducer
  import opened TaskContext

  /** The raw field values of the dialog's form. */
  datatype AttachmentValues = AttachmentValues(kind: string, name: string, url: string)

  /** `attachmentSchema` (lines 36-44): a type among "file", "link" and
      "email", a non-empty name and a non-empty URL. */
  function ValidateAttachment(v: AttachmentValues): (r: Option<NewAttachment>)
    ensures r.Some? <==> v.kind in {"file", "link", "email"} && |v.name| >= 1 && |v.url| >= 1
    ensures r.Some? ==> KindName(r.value.kind) == v.kind && r.value.name == v.name && r.value.url == v.url
  {
    var k := ParseKind(v.kind);
    if k.Some? && |v.name| >= 1 && |v.url| >= 1 then Some(NewAttachment(k.value, v.name, v.url)) else None
  }

  /** `defaultValues` (lines 57-61). */
  const DefaultValues := AttachmentValues("file", "", "")

  /** The untouched form, and the form after a reset, are rejected. */
  lemma DefaultsInvalid()
    ensures ValidateAttachment(DefaultValues).None?
  {
  }

  /** Every attachment the store can receive is what the schema returns for
      its own fields. */
  lemma ValidateRoundTrip(a: NewAttachment)
    requires a.name != [] && a.url != []
    ensures ValidateAttachment(AttachmentValues(KindName(a.kind), a.name, a.url)) == Some(a)
  {
  }

  /** The dialog: its open flag and its form's current values, for the task
      it was rendered on. */
  class AttachmentDialog {
    const taskId: string
    var values: AttachmentValues
    var isOpen: bool

    /** Lines 50-62: closed, with the default values. */
    constructor (taskId: string)
      ensures this.taskId == taskId && values == DefaultValues && !isOpen
    {
      this.taskId := taskId;
      values := DefaultValues;
      isOpen := false;
    }

    /** `onOpenChange={setIsOpen}` (line 76). */
    method SetOpen(open: bool)
      modifies this
      ensures isOpen == open && values == old(values)
    {
      isOpen := open;
    }

    /** The user typing into the form. */
    method Edit(v: AttachmentValues)
      modifies this
      ensures values == v && isOpen == old(isOpen)
    {
      values := v;
    }

    /** `form.handleSubmit(onSubmit)` (lines 65-73, 91): values the schema
        rejects leave everything as it was; accepted ones go to
        `addAttachment` for this task, and the form is reset and closed. */
    method Submit(store: TaskProvider, id: string, now: string)
      modifies this, store
      ensures ValidateAttachment(old(values)).None? ==>
        values == old(values) && isOpen == old(isOpen) &&
        store.state == old(store.state) && store.stored == old(store.stored)
      ensures ValidateAttachment(old(values)).Some? ==>
        values == DefaultValues && !isOpen &&
        store.state == old(store.state).(tasks := AddAttachmentTo(old(store.state.tasks), taskId,
          NewAttachmentRecord(ValidateAttachment(old(values)).value, id, now))) &&
        store.stored == Some(store.state.tasks)
      ensures ValidateAttachment(values).None?
    {
      var parsed := ValidateAttachment(values);
      if parsed.Some? {
        store.AddAttachment(taskId, parsed.value, id, now);
        values := DefaultValues;
        isOpen := false;
      }
      DefaultsInvalid();
    }
  }
}

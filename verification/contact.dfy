/** The Contact page's form: the shared validation with Vietnamese error texts. */
module Contact {
  import Forms
  import MainPage

  const FormMessages: Forms.Messages := Forms.Messages(
    "Tên là bắt buộc", "Email là bắt buộc", "Email không hợp lệ",
    "Tin nhắn là bắt buộc", "Tin nhắn phải có ít nhất 10 ký tự")

  /** `handleSubmit` on the Contact page. */
  function Submit(s: Forms.FormState): (r: Forms.FormState)
    ensures r.errors == Forms.Validate(s.form, FormMessages)
    ensures Forms.NoErrors(r.errors) ==> r.form == Forms.EmptyForm && r.success
    ensures !Forms.NoErrors(r.errors) ==> r.form == s.form
  {
    Forms.HandleSubmit(s, FormMessages)
  }

  /** The Contact page and the main page's contact section accept and reset exactly the same forms. */
  lemma SameFormsAccepted(s: Forms.FormState)
    ensures Forms.NoErrors(Submit(s).errors) == Forms.NoErrors(Forms.HandleSubmit(s, MainPage.FormMessages).errors)
    ensures Submit(s).form == Forms.HandleSubmit(s, MainPage.FormMessages).form
  {
    Forms.AcceptanceIgnoresTexts(s.form, FormMessages, MainPage.FormMessages);
  }
}

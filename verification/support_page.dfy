/** The support page: the empty-field check, the support request it writes,
    and the status line and form after the write succeeds or fails. The
    outcome of the write and the clock are inputs. */
module SupportPage {
  import opened Common
  import opened LoginPage

  const Thanks := "Thanks! We will get back to you soon."
  const SendFailed := "Could not send message. Please try again."

  datatype SupportForm = SupportForm(name: string, email: string, message: string, status: Option<string>, submitting: bool)

  /** The document added to `support_requests`; a missing user id is null. */
  datatype SupportRequest = SupportRequest(name: string, email: string, message: string, userId: Option<string>, createdAt: string)

  /** `handleSubmit`: a blank field stops with the fill-in status and writes
      nothing; otherwise the trimmed request is written and the status says
      how it went; only a success clears the message. */
  function HandleSubmit(f: SupportForm, userId: Option<string>, now: string, ok: bool): (r: (SupportForm, Option<SupportRequest>))
  {
    if Trim(f.name) == "" || Trim(f.email) == "" || Trim(f.message) == "" then
      (f.(status := Some(FillInAll)), None)
    else
      var req := SupportRequest(Trim(f.name), Trim(f.email), Trim(f.message), userId, now);
      if ok then (f.(status := Some(Thanks), message := "", submitting := false), Some(req))
      else (f.(status := Some(SendFailed), submitting := false), Some(req))
  }

  /** A request is attempted exactly when no field is blank, and it carries
      the trimmed fields and the user's id (null when signed out). Name and
      email are always kept; the message is cleared only after a success; a
      status is always shown and the form never stays submitting when it
      was not. */
  lemma HandleSubmitSpec(f: SupportForm, userId: Option<string>, now: string, ok: bool)
    ensures var (f', req) := HandleSubmit(f, userId, now, ok);
            && (req.Some? <==> !AllSpace(f.name) && !AllSpace(f.email) && !AllSpace(f.message))
            && (req.Some? ==> req.value == SupportRequest(Trim(f.name), Trim(f.email), Trim(f.message), userId, now)
                              && req.value.name != "" && req.value.email != "" && req.value.message != "")
            && f'.name == f.name && f'.email == f.email
            && (f'.message == "" <==> (req.Some? && ok) || f.message == "")
            && f'.status.Some?
            && (req.Some? ==> f'.status == Some(if ok then Thanks else SendFailed) && !f'.submitting)
            && (req.None? ==> f'.status == Some(FillInAll))
  {
    TrimEmptyIffAllSpace(f.name);
    TrimEmptyIffAllSpace(f.email);
    TrimEmptyIffAllSpace(f.message);
  }
}

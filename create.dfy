/**
 * The create-certificate page: a form, the token of the last successful issue, a status line, and
 * the "cert-draft" entry of local storage. Each handler is a method that changes only the fields it
 * names in its `modifies` clause.
 */
module Create {
  import opened JsString
  import opened Storage
  import opened Token
  import opened Email

  /** The form state object: field name to text, as `{ ...s, [name]: value }` updates it. */
  type Form = map<string, string>

  const FullName: string := "fullName"
  const EmailField: string := "email"
  const CompletionDate: string := "completionDate"
  const CertificateTitle: string := "certificateTitle"
  const Program: string := "program"
  const TemplateField: string := "template"

  const FormFields: set<string> := {FullName, EmailField, CompletionDate, CertificateTitle, Program, TemplateField}

  /** The form the page starts with and `handleReset` restores. */
  const DefaultForm: Form := map[
    FullName := "", EmailField := "", CompletionDate := "", CertificateTitle := "", Program := "",
    TemplateField := "Academic Degree"]

  const DraftKey: string := "cert-draft"

  const NameRequired: string := "Recipient full name is required."
  const ProgramRequired: string := "Please select a program."
  const EmailInvalid: string := "Please enter a valid email address."
  const Issued: string := "Certificate issued."
  const IssueFirst: string := "Issue the certificate first before sending."
  const RecipientInvalid: string := "Enter a valid recipient email first."
  const SentTo: string := "Certificate sent to "
  const NoHash: string := "No hash to copy."
  const Copied: string := "Unique hash copied to clipboard."
  const CopyFailed: string := "Copy failed — please copy manually."
  const DraftSaved: string := "Draft saved locally."
  const NoDraft: string := "No draft found."
  const DraftLoaded: string := "Draft loaded."
  const DraftFailed: string := "Failed to load draft."
  const Cleared: string := "Form cleared."

  class CreateCertificate {
    var form: Form
    var uniqueHash: string
    var statusMessage: string
    /** The page's view of local storage; only the "cert-draft" key is read or written. */
    var storage: Store<Form>

    /** Every field the handlers read is present (the default form has them all, and no update removes one). */
    ghost predicate Valid()
      reads this
    {
      FormFields <= form.Keys
    }

    constructor (storage: Store<Form>)
      ensures Valid()
      ensures form == DefaultForm && uniqueHash == "" && statusMessage == "" && this.storage == storage
    {
      form := DefaultForm;
      uniqueHash := "";
      statusMessage := "";
      this.storage := storage;
    }

    /** `handleChange`: one input writes its own field and nothing else. */
    method HandleChange(name: string, value: string)
      requires Valid()
      modifies this`form
      ensures Valid()
      ensures form == old(form)[name := value]
    {
      form := form[name := value];
    }

    /** A template button: `setForm((s) => ({ ...s, template: t }))`. */
    method SelectTemplate(t: string)
      requires Valid()
      modifies this`form
      ensures Valid()
      ensures form == old(form)[TemplateField := t]
    {
      form := form[TemplateField := t];
    }

    /**
     * `handleIssue`, with the clock and the random text as inputs. The three checks run in order and
     * the first that fails sets its message and stops; only when all pass is a new token made.
     * The form and the storage are never written.
     */
    method HandleIssue(now: nat, randomText: string)
      requires Valid()
      modifies this`uniqueHash, this`statusMessage
      ensures AllSpace(form[FullName]) ==>
        uniqueHash == old(uniqueHash) && statusMessage == NameRequired
      ensures !AllSpace(form[FullName]) && form[Program] == "" ==>
        uniqueHash == old(uniqueHash) && statusMessage == ProgramRequired
      ensures !AllSpace(form[FullName]) && form[Program] != "" && !IsValidEmail(form[EmailField]) ==>
        uniqueHash == old(uniqueHash) && statusMessage == EmailInvalid
      ensures !AllSpace(form[FullName]) && form[Program] != "" && IsValidEmail(form[EmailField]) ==>
        uniqueHash == GenerateUniqueHash(now, randomText) && statusMessage == Issued
    {
      TrimEmptyIff(form[FullName]);
      NoAtSignRejected("");
      if Trim(form[FullName]) == "" {
        statusMessage := NameRequired;
        return;
      }
      if form[Program] == "" {
        statusMessage := ProgramRequired;
        return;
      }
      if form[EmailField] == "" || !IsValidEmail(form[EmailField]) {
        statusMessage := EmailInvalid;
        return;
      }
      var hash := GenerateUniqueHash(now, randomText);
      uniqueHash := hash;
      statusMessage := Issued;
    }

    /** `handleSendEmail`: refused without a token, then refused for an invalid address. */
    method HandleSendEmail()
      requires Valid()
      modifies this`statusMessage
      ensures uniqueHash == "" ==> statusMessage == IssueFirst
      ensures uniqueHash != "" && !IsValidEmail(form[EmailField]) ==> statusMessage == RecipientInvalid
      ensures uniqueHash != "" && IsValidEmail(form[EmailField]) ==> statusMessage == SentTo + form[EmailField]
    {
      NoAtSignRejected("");
      if uniqueHash == "" {
        statusMessage := IssueFirst;
        return;
      }
      if form[EmailField] == "" || !IsValidEmail(form[EmailField]) {
        statusMessage := RecipientInvalid;
        return;
      }
      statusMessage := SentTo + form[EmailField];
    }

    /**
     * `handleCopyHash`: the guard on an empty token; `copied` is whether the clipboard write
     * succeeded.
     */
    method HandleCopyHash(copied: bool)
      modifies this`statusMessage
      ensures statusMessage == if uniqueHash == "" then NoHash else if copied then Copied else CopyFailed
    {
      if uniqueHash == "" {
        statusMessage := NoHash;
        return;
      }
      if copied {
        statusMessage := Copied;
      } else {
        statusMessage := CopyFailed;
      }
    }

    /** `handleSaveDraft`: the whole form is written under "cert-draft". */
    method HandleSaveDraft()
      modifies this`storage, this`statusMessage
      ensures storage == old(storage)[DraftKey := Json(form)]
      ensures statusMessage == DraftSaved
    {
      storage := storage[DraftKey := Json(form)];
      statusMessage := DraftSaved;
    }

    /**
     * `handleLoadDraft`: a missing or empty entry and one that does not parse leave the form alone,
     * each with its own message; a parsed draft is merged over the form, its fields winning.
     */
    method HandleLoadDraft()
      requires Valid()
      modifies this`form, this`statusMessage
      ensures Valid()
      ensures DraftKey !in storage || storage[DraftKey].Blank? ==>
        form == old(form) && statusMessage == NoDraft
      ensures DraftKey in storage && storage[DraftKey].Malformed? ==>
        form == old(form) && statusMessage == DraftFailed
      ensures DraftKey in storage && storage[DraftKey].Json? ==>
        form == old(form) + storage[DraftKey].value && statusMessage == DraftLoaded
    {
      if DraftKey !in storage || storage[DraftKey].Blank? {
        statusMessage := NoDraft;
        return;
      }
      match storage[DraftKey]
      case Malformed =>
        statusMessage := DraftFailed;
      case Json(parsed) =>
        form := form + parsed;
        statusMessage := DraftLoaded;
    }

    /** `handleReset`: the default form, no token. Storage is not touched. */
    method HandleReset()
      modifies this`form, this`uniqueHash, this`statusMessage
      ensures Valid()
      ensures form == DefaultForm && uniqueHash == "" && statusMessage == Cleared
    {
      form := DefaultForm;
      uniqueHash := "";
      statusMessage := Cleared;
    }
  }

  /** Saving a draft and loading it straight back gives the same form and keeps the token. */
  method SaveThenLoad(page: CreateCertificate)
    requires page.Valid()
    modifies page
    ensures page.Valid()
    ensures page.form == old(page.form) && page.uniqueHash == old(page.uniqueHash)
    ensures page.statusMessage == DraftLoaded
  {
    page.HandleSaveDraft();
    page.HandleLoadDraft();
    assert page.form == old(page.form);
  }

  /**
   * A successful issue, whatever is typed or saved afterwards, keeps its token until the next
   * issue or reset.
   */
  method TokenSurvivesEdits(page: CreateCertificate, now: nat, randomText: string, name: string, value: string, copied: bool)
    requires page.Valid()
    requires !AllSpace(page.form[FullName]) && page.form[Program] != "" && IsValidEmail(page.form[EmailField])
    modifies page
    ensures page.uniqueHash == GenerateUniqueHash(now, randomText)
  {
    page.HandleIssue(now, randomText);
    page.HandleChange(name, value);
    page.HandleSendEmail();
    page.HandleCopyHash(copied);
    page.HandleSaveDraft();
    page.HandleLoadDraft();
  }
}

/**
 * The create form: three controlled text fields, the file input's current
 * selection, a `loading` flag that relabels the submit button, and the
 * preview of the chosen image. Submitting runs the create chain (a file is
 * required), sends the multipart upload, and then branches on what the
 * upload came to. The outcome of the upload is a parameter, since the HTTP
 * client is not part of this model.
 */
module AddForm {
  import opened Common
  import opened Validation

  /** The multipart upload: the three text fields as typed (untrimmed) and the file. */
  datatype UploadRequest = UploadRequest(name: string, location: string, contact: string, image: ImageFile)

  /**
   * What the awaited upload came to: a response with its HTTP status and
   * the `message` of its body, if any, or a thrown error.
   */
  datatype UploadOutcome = Responded(status: int, message: Option<string>) | Threw

  /** The status the server answers a successful creation with. */
  const Created201: int := 201

  /** What a submit attempt came to. */
  datatype SubmitResult =
    | Invalid(error: Error)                            // a check failed: nothing is sent
    | Created(request: UploadRequest)                  // sent, answered 201
    | Refused(request: UploadRequest, text: string)    // sent, answered with another status
    | Errored(request: UploadRequest)                  // sent, the call threw

  /**
   * The text shown when the server answers with a status other than 201:
   * its own message when it sent a non-empty one (JavaScript's `||` treats
   * the empty string as absent), the generic text otherwise.
   */
  function RefusalText(message: Option<string>): (t: string)
    ensures t != ""
    ensures message.Some? && message.value != "" ==> t == message.value
    ensures message.None? || message.value == "" ==> t == "Failed to add restaurant"
  {
    match message
    case Some(m) => if m != "" then m else "Failed to add restaurant"
    case None => "Failed to add restaurant"
  }

  /** The upload a valid draft is sent as: the fields untouched and the selected file. */
  function RequestFor(d: Draft): (q: UploadRequest)
    requires d.image.Some?
    ensures q.image == d.image.value
    ensures q.name == d.name && q.location == d.location && q.contact == d.contact
  {
    UploadRequest(d.name, d.location, d.contact, d.image.value)
  }

  /**
   * What submitting the draft comes to, given the outcome the upload would
   * have. Only a draft the create chain accepts reaches the network.
   */
  function SubmitAttempt(d: Draft, outcome: UploadOutcome): (r: SubmitResult)
    ensures r.Invalid? <==> Validate(d, true).Rejected?
    ensures r.Invalid? ==> r.error == Validate(d, true).error
    ensures !r.Invalid? ==> d.image.Some? && r.request == RequestFor(d)
    ensures r.Created? <==> Validate(d, true).Accepted? && outcome.Responded? && outcome.status == Created201
    ensures r.Refused? <==> Validate(d, true).Accepted? && outcome.Responded? && outcome.status != Created201
    ensures r.Refused? ==> r.text == RefusalText(outcome.message)
    ensures r.Errored? <==> Validate(d, true).Accepted? && outcome.Threw?
  {
    match Validate(d, true)
    case Rejected(e) => Invalid(e)
    case Accepted =>
      match outcome
      case Threw => Errored(RequestFor(d))
      case Responded(status, message) =>
        if status == Created201 then Created(RequestFor(d))
        else Refused(RequestFor(d), RefusalText(message))
  }

  /** The notification each submit attempt raises: exactly one, of the right kind. */
  function SubmitToast(r: SubmitResult): (t: Toast)
    ensures t.SuccessToast? <==> r.Created?
    ensures r.Created? ==> t == SuccessToast("Restaurant added successfully!")
    ensures r.Invalid? ==> t == ErrorToast(Message(r.error))
    ensures r.Refused? ==> t == ErrorToast(r.text)
    ensures r.Errored? ==> t == ErrorToast("An unexpected error occurred")
  {
    match r
    case Invalid(e) => ErrorToast(Message(e))
    case Created(_) => SuccessToast("Restaurant added successfully!")
    case Refused(_, text) => ErrorToast(text)
    case Errored(_) => ErrorToast("An unexpected error occurred")
  }

  /**
   * Every upload that is sent satisfies the rules the create chain enforces: non-blank
   * fields, a ten-digit contact, and a JPEG or PNG file of at most 5 MB.
   */
  lemma SentUploadIsWellFormed(d: Draft, outcome: UploadOutcome)
    requires !SubmitAttempt(d, outcome).Invalid?
    ensures var q := SubmitAttempt(d, outcome).request;
      && !Blank(q.name) && !Blank(q.location) && !Blank(q.contact) && IsTenDigits(q.contact)
      && q.image.mimeType in AllowedTypes && q.image.size <= MaxImageBytes
  {
    ValidateAcceptsIffNoViolation(d, true);
    assert !Violates(d, true, NameRequired) && !Violates(d, true, LocationRequired);
    assert !Violates(d, true, ContactRequired);
  }

  /**
   * Every upload the create form sends would also pass the edit modal's
   * checks, so a record the form creates can be saved unchanged.
   */
  lemma SentUploadPassesEditChain(d: Draft, outcome: UploadOutcome)
    requires !SubmitAttempt(d, outcome).Invalid?
    ensures var q := SubmitAttempt(d, outcome).request;
      Validate(Draft(q.name, q.location, q.contact, Some(q.image)), false) == Accepted
  {
    CreateAcceptedImpliesEditAccepted(d);
  }

  class CreateForm {
    var name: string
    var location: string
    var contact: string
    /** The file input's current selection. */
    var file: Option<ImageFile>
    var loading: bool
    var preview: Option<string>

    /** The draft the form holds right now. */
    function Current(): (d: Draft)
      reads this
      ensures d.name == name && d.location == location && d.contact == contact && d.image == file
    {
      Draft(name, location, contact, file)
    }

    /** A fresh form: empty fields, no file, not loading, no preview. */
    constructor ()
      ensures name == "" && location == "" && contact == "" && file == None
      ensures !loading && preview == None
    {
      name, location, contact := "", "", "";
      file := None;
      loading := false;
      preview := None;
    }

    /** Typing into the name field. */
    method SetName(value: string)
      modifies this`name
      ensures name == value
    {
      name := value;
    }

    /** Typing into the location field. */
    method SetLocation(value: string)
      modifies this`location
      ensures location == value
    {
      location := value;
    }

    /** Typing into the contact field. */
    method SetContact(value: string)
      modifies this`contact
      ensures contact == value
    {
      contact := value;
    }

    /** The browser setting the file input's selection (the preview read that follows is not modelled). */
    method ChooseFile(f: Option<ImageFile>)
      modifies this`file
      ensures file == f
    {
      file := f;
    }

    /**
     * The synchronous part of `handleSubmit`, up to the await: the create
     * chain runs on the form's values; a failed check leaves the whole form
     * as it was (in particular `loading` is never set), a passed one sets
     * `loading` and yields the upload to send.
     */
    method BeginSubmit() returns (r: Begun)
      modifies this`loading
      ensures r.Stopped? <==> Validate(old(Current()), true).Rejected?
      ensures r.Stopped? ==> r.error == Validate(old(Current()), true).error && loading == old(loading)
      ensures r.Sending? ==> old(file).Some? && r.request == RequestFor(old(Current())) && loading
    {
      var v := Validate(Current(), true);
      if v.Rejected? {
        return Stopped(v.error);
      }
      loading := true;
      r := Sending(RequestFor(Current()));
    }

    /**
     * The continuation after the await, including the `finally`: on 201 the
     * text fields are emptied, the file input and the preview are cleared;
     * on any other status or a thrown error the fields are kept. Whatever
     * happened, `loading` ends false.
     */
    method FinishSubmit(outcome: UploadOutcome)
      modifies this
      ensures !loading
      ensures outcome.Responded? && outcome.status == Created201 ==>
        name == "" && location == "" && contact == "" && file == None && preview == None
      ensures !(outcome.Responded? && outcome.status == Created201) ==>
        name == old(name) && location == old(location) && contact == old(contact)
        && file == old(file) && preview == old(preview)
    {
      if outcome.Responded? && outcome.status == Created201 {
        name, location, contact := "", "", "";
        file := None;
        preview := None;
      }
      loading := false;
    }

    /**
     * The whole of `handleSubmit`: what it comes to is `SubmitAttempt` on
     * the form's values, a rejected draft changes nothing, and a sent one
     * ends with `loading` false and the fields reset exactly on 201.
     */
    method HandleSubmit(outcome: UploadOutcome) returns (result: SubmitResult, toast: Toast)
      modifies this
      ensures result == SubmitAttempt(old(Current()), outcome)
      ensures toast == SubmitToast(result)
      ensures result.Invalid? ==> unchanged(this)
      ensures !result.Invalid? ==> !loading
      ensures result.Created? ==> Current() == Draft("", "", "", None) && preview == None
      ensures result.Refused? || result.Errored? ==>
        Current() == old(Current()) && preview == old(preview)
    {
      var begun := BeginSubmit();
      if begun.Stopped? {
        result := Invalid(begun.error);
      } else {
        var q := begun.request;
        FinishSubmit(outcome);
        result := match outcome
          case Threw => Errored(q)
          case Responded(status, message) =>
            if status == Created201 then Created(q) else Refused(q, RefusalText(message));
      }
      toast := SubmitToast(result);
    }
  }

  /** What the synchronous part of a submit yields: a failed check, or the upload to send. */
  datatype Begun = Stopped(error: Error) | Sending(request: UploadRequest)

  /**
   * A session of the form: fill it in with a valid draft, submit it and be
   * answered 201; the form is then empty, so submitting again at once is
   * refused for the blank name and sends nothing.
   */
  method CreateThenResubmit(d: Draft, message: Option<string>) returns (first: SubmitResult, second: SubmitResult)
    requires Validate(d, true).Accepted?
    ensures first.Created? && first.request == RequestFor(d)
    ensures second == Invalid(NameRequired)
  {
    var form := new CreateForm();
    form.SetName(d.name);
    form.SetLocation(d.location);
    form.SetContact(d.contact);
    form.ChooseFile(d.image);
    assert form.Current() == d;
    var toast;
    first, toast := form.HandleSubmit(Responded(Created201, message));
    second, toast := form.HandleSubmit(Threw);
    BlankNameReportedFirst(Draft("", "", "", None), true);
  }
}

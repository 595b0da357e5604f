/**
 * The listing view: the local copy of the collection, the record being
 * edited, whether the edit modal is open, and the image shown in it. Each
 * handler is a method; the result of the network call a handler awaits is
 * a parameter, since the HTTP client is not part of this model.
 */
module Home {
  import opened Common
  import opened Validation
  import opened Records

  /** The result of the update request: the record the server returns, or a thrown error. */
  datatype UpdateOutcome = Updated(record: Restaurant) | UpdateFailed

  /** The result of the delete request. */
  datatype DeleteOutcome = Deleted | DeleteFailed

  /**
   * The multipart update request: the record's identifier, the three text
   * fields as typed (untrimmed), and the file only when one was selected.
   */
  datatype UpdateRequest = UpdateRequest(id: string, name: string, location: string, contact: string, image: Option<ImageFile>)

  /** What a save attempt came to. */
  datatype SaveResult =
    | NoTarget                                  // no record is being edited: nothing happens
    | Invalid(error: Error)                     // a check failed: nothing is sent
    | Saved(request: UpdateRequest)             // the request was sent and succeeded
    | NotSaved(request: UpdateRequest)          // the request was sent and failed

  /** The notification each save attempt raises, if any. */
  function SaveToast(r: SaveResult): (t: Option<Toast>)
    ensures t.None? <==> r.NoTarget?
    ensures r.Invalid? ==> t == Some(ErrorToast(Message(r.error)))
    ensures r.Saved? ==> t == Some(SuccessToast("Restaurant Edited!"))
    ensures r.NotSaved? ==> t == Some(ErrorToast("Failed to update restaurant"))
  {
    match r
    case NoTarget => None
    case Invalid(e) => Some(ErrorToast(Message(e)))
    case Saved(_) => Some(SuccessToast("Restaurant Edited!"))
    case NotSaved(_) => Some(ErrorToast("Failed to update restaurant"))
  }

  /** The request a save sends for the record being edited and the values in the modal. */
  function RequestFor(target: Restaurant, d: Draft): (q: UpdateRequest)
    ensures q.id == target.id
    ensures q.image.Some? <==> d.image.Some?
  {
    UpdateRequest(target.id, d.name, d.location, d.contact, d.image)
  }

  /**
   * What a save attempt comes to, given the record being edited, the values
   * in the modal and the outcome the update request would have.
   */
  function SaveAttempt(editing: Option<Restaurant>, d: Draft, outcome: UpdateOutcome): (r: SaveResult)
    ensures r.NoTarget? <==> editing.None?
    ensures r.Invalid? <==> editing.Some? && Validate(d, false).Rejected?
    ensures r.Invalid? ==> r.error == Validate(d, false).error
    ensures r.Saved? <==> editing.Some? && Validate(d, false).Accepted? && outcome.Updated?
    ensures (r.Saved? || r.NotSaved?) ==> r.request == RequestFor(editing.value, d)
  {
    match editing
    case None => NoTarget
    case Some(target) =>
      match Validate(d, false)
      case Rejected(e) => Invalid(e)
      case Accepted =>
        if outcome.Updated? then Saved(RequestFor(target, d)) else NotSaved(RequestFor(target, d))
  }

  /**
   * Every update request that is sent carries non-blank text fields and a
   * ten-digit contact, and a file only if it is a JPEG or PNG of at most 5 MB.
   */
  lemma SentUpdateIsWellFormed(editing: Option<Restaurant>, d: Draft, outcome: UpdateOutcome)
    requires SaveAttempt(editing, d, outcome).Saved? || SaveAttempt(editing, d, outcome).NotSaved?
    ensures var q := SaveAttempt(editing, d, outcome).request;
      && q.id == editing.value.id
      && !Blank(q.name) && !Blank(q.location) && !Blank(q.contact) && IsTenDigits(q.contact)
      && (q.image.Some? ==> q.image.value.mimeType in AllowedTypes && q.image.value.size <= MaxImageBytes)
  {
    ValidateAcceptsIffNoViolation(d, false);
    assert !Violates(d, false, NameRequired) && !Violates(d, false, LocationRequired);
    assert !Violates(d, false, ContactRequired);
  }

  /** The notification a delete raises: a failed delete is only logged. */
  function DeleteToast(outcome: DeleteOutcome): (t: Option<Toast>)
    ensures t.Some? <==> outcome.Deleted?
    ensures t.Some? ==> t == Some(SuccessToast("Restaurant deleted!"))
  {
    match outcome
    case Deleted => Some(SuccessToast("Restaurant deleted!"))
    case DeleteFailed => None
  }

  class Listing {
    var restaurants: seq<Restaurant>
    var editing: Option<Restaurant>
    var modalOpen: bool
    var preview: Option<string>

    /**
     * The modal never opens without a record to edit. The view draws the
     * modal, and the form whose submit runs `SaveChanges`, only while both
     * hold, so a save submitted from the modal always has a target.
     */
    ghost predicate Valid()
      reads this
    {
      modalOpen ==> editing.Some?
    }

    /** The state before the first fetch: an empty list, no target, the modal closed. */
    constructor ()
      ensures Valid()
      ensures restaurants == [] && editing == None && !modalOpen && preview == None
    {
      restaurants := [];
      editing := None;
      modalOpen := false;
      preview := None;
    }

    /** The initial fetch: the local list becomes the server's collection, in the server's order. */
    method Load(data: seq<Restaurant>)
      requires Valid()
      modifies this
      ensures Valid()
      ensures restaurants == data
      ensures editing == old(editing) && modalOpen == old(modalOpen) && preview == old(preview)
    {
      restaurants := data;
    }

    /** Edit: the record becomes the target, the modal opens and shows the record's stored image. */
    method EditClick(r: Restaurant)
      requires Valid()
      modifies this
      ensures Valid()
      ensures editing == Some(r) && modalOpen && preview == Some(r.image)
      ensures restaurants == old(restaurants)
    {
      editing := Some(r);
      modalOpen := true;
      preview := Some(r.image);
    }

    /** The close and cancel buttons: the modal closes, the target and the preview are kept. */
    method CloseModal()
      requires Valid()
      modifies this
      ensures Valid()
      ensures !modalOpen
      ensures restaurants == old(restaurants) && editing == old(editing) && preview == old(preview)
    {
      modalOpen := false;
    }

    /**
     * Save: with no target nothing happens. Otherwise the edit chain runs on
     * the modal's values (a file is optional); a failed check sends nothing
     * and changes nothing. A sent request that succeeds puts the returned
     * record in place of every record with the target's identifier, closes
     * the modal and clears the preview; one that fails changes nothing.
     */
    method SaveChanges(name: string, location: string, contact: string, file: Option<ImageFile>,
                       outcome: UpdateOutcome) returns (result: SaveResult)
      requires Valid()
      modifies this
      ensures Valid()
      ensures result == SaveAttempt(old(editing), Draft(name, location, contact, file), outcome)
      ensures old(modalOpen) ==> !result.NoTarget?
      ensures result.Saved? ==>
        && restaurants == ReplaceById(old(restaurants), old(editing).value.id, outcome.record)
        && !modalOpen && preview == None && editing == old(editing)
      ensures !result.Saved? ==> unchanged(this)
    {
      var draft := Draft(name, location, contact, file);
      result := SaveAttempt(editing, draft, outcome);
      if result.Saved? {
        restaurants := ReplaceById(restaurants, editing.value.id, outcome.record);
        modalOpen := false;
        preview := None;
      }
    }

    /**
     * Delete: a successful request removes every record with that
     * identifier, keeping the others in order; a failed one changes nothing.
     * Neither touches the modal.
     */
    method DeleteClick(resId: string, outcome: DeleteOutcome) returns (toast: Option<Toast>)
      requires Valid()
      modifies this
      ensures Valid()
      ensures toast == DeleteToast(outcome)
      ensures outcome.Deleted? ==> restaurants == RemoveById(old(restaurants), resId)
      ensures outcome.DeleteFailed? ==> restaurants == old(restaurants)
      ensures editing == old(editing) && modalOpen == old(modalOpen) && preview == old(preview)
    {
      if outcome.Deleted? {
        restaurants := RemoveById(restaurants, resId);
      }
      toast := DeleteToast(outcome);
    }
  }

  /**
   * A session of the view: load, open a record for editing, save it with
   * a successful update, delete it. On a list with unique identifiers the
   * update keeps its length and the delete shortens it by one.
   */
  method EditThenDelete(data: seq<Restaurant>, k: nat, newName: string, record: Restaurant)
    returns (lengths: (nat, nat, nat))
    requires UniqueIds(data) && k < |data|
    requires Validate(Draft(newName, data[k].location, data[k].contact, None), false).Accepted?
    requires record.id == data[k].id
    ensures lengths == (|data|, |data|, |data| - 1)
  {
    var view := new Listing();
    view.Load(data);
    var first := |view.restaurants|;
    view.EditClick(data[k]);
    var saved := view.SaveChanges(newName, data[k].location, data[k].contact, None, Updated(record));
    assert saved.Saved?;
    assert !view.modalOpen;
    ReplaceUniqueChangesOne(data, k, record);
    var second := |view.restaurants|;
    ReplaceKeepsIds(data, data[k].id, record);
    var toast := view.DeleteClick(record.id, Deleted);
    RemovePresentShortensByOne(data[k := record], record.id);
    lengths := (first, second, |view.restaurants|);
  }
}

/**
 * The status-update handler: overwrites the status and whichever optional
 * fields the input supplies, on the one request with the given id, and fails
 * with "not found" when there is none. It checks no status transition.
 */
module UpdateHandler {
  import opened Wrappers
  import opened Schema
  import opened DbSchema

  /** A supplied key becomes a SET column; an absent one is left out of the SET clause. */
  function FromOptional<T>(o: Optional<T>): Assign<T> {
    if o.Given? then Set(o.value) else Keep
  }

  /** The SET clause the handler builds from its input. */
  function UpdateData(input: UpdateImageRequestStatus): Patch {
    Patch(FromOptional(input.expanded_prompt), FromOptional(input.image_url),
          Set(input.status), FromOptional(input.completed_at))
  }

  /**
   * A request after an update: the status is the input's whatever it was before;
   * each optional field takes the supplied value (an explicit null clears it) and
   * keeps its old value when absent; id, idea and creation time never change.
   */
  function Updated(r: ImageGenerationRequest, input: UpdateImageRequestStatus): (r': ImageGenerationRequest)
    ensures r'.status == input.status
    ensures r'.id == r.id && r'.user_idea == r.user_idea && r'.created_at == r.created_at
    ensures r'.expanded_prompt == (if input.expanded_prompt.Given? then input.expanded_prompt.value else r.expanded_prompt)
    ensures r'.image_url == (if input.image_url.Given? then input.image_url.value else r.image_url)
    ensures r'.completed_at == (if input.completed_at.Given? then input.completed_at.value else r.completed_at)
  {
    ApplyPatch(r, UpdateData(input))
  }

  /** Updating twice with the same input changes nothing the second time. */
  lemma UpdateIdempotent(r: ImageGenerationRequest, input: UpdateImageRequestStatus)
    ensures Updated(Updated(r, input), input) == Updated(r, input)
  {
  }

  /**
   * The handler does not keep the lifecycle invariant: a consistent pending
   * request can be marked completed with no image.
   */
  lemma UpdateCanBreakLifecycle()
    ensures var r := ImageGenerationRequest(1, "a cat", "a cat, detailed", None, Pending, 0, None);
            var u := UpdateImageRequestStatus(1, Completed, Absent, Absent, Given(Some(5)));
            LifecycleConsistent(r) && !LifecycleConsistent(Updated(r, u))
  {
  }

  /**
   * updateRequestStatus: on a known id, the stored request becomes `Updated` of
   * its old value, that same value is returned, and every other request is
   * untouched; on an unknown id, the result is NotFound and nothing changes.
   */
  method UpdateRequestStatus(db: Store, input: UpdateImageRequestStatus) returns (result: Result<ImageGenerationRequest, Error>)
    requires db.Valid()
    modifies db
    ensures db.Valid()
    ensures input.id in old(db.rows) ==>
      && result == Success(Updated(old(db.rows)[input.id], input))
      && db.rows == old(db.rows)[input.id := result.value]
    ensures input.id !in old(db.rows) ==> result == Failure(NotFound(input.id)) && db.rows == old(db.rows)
    ensures db.nextId == old(db.nextId) && db.clock == old(db.clock)
  {
    var updateData := Patch(Keep, Keep, Set(input.status), Keep);
    if input.expanded_prompt.Given? {
      updateData := updateData.(expanded_prompt := Set(input.expanded_prompt.value));
    }
    if input.image_url.Given? {
      updateData := updateData.(image_url := Set(input.image_url.value));
    }
    if input.completed_at.Given? {
      updateData := updateData.(completed_at := Set(input.completed_at.value));
    }
    assert updateData == UpdateData(input);
    var row := db.Update(input.id, updateData);
    if row.None? {
      return Failure(NotFound(input.id));
    }
    return Success(row.value);
  }
}

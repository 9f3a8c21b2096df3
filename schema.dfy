/**
 * The record shape and the validated input and response shapes of the server:
 * the generation request, its status enum, the create input (an idea of 1 to 500
 * characters), the partial-update input with its three-state fields, and the
 * responses of the prompt expander and the image generator.
 */
module Schema {
  import opened Wrappers

  /** Timestamps are points of an abstract integer clock. */
  type Timestamp = int

  /** The four lifecycle states; `Completed` and `Failed` are terminal. */
  datatype Status = Pending | Processing | Completed | Failed {
    predicate IsTerminal() {
      Completed? || Failed?
    }
  }

  /** The name under which a status travels on the wire and is stored. */
  function StatusName(s: Status): string {
    match s
    case Pending => "pending"
    case Processing => "processing"
    case Completed => "completed"
    case Failed => "failed"
  }

  /** The status enum as a validator: accepts exactly the four status names. */
  function ParseStatus(s: string): (r: Option<Status>)
    ensures r.Some? ==> StatusName(r.value) == s
    ensures r.None? ==> forall st: Status :: StatusName(st) != s
  {
    if s == "pending" then Some(Pending)
    else if s == "processing" then Some(Processing)
    else if s == "completed" then Some(Completed)
    else if s == "failed" then Some(Failed)
    else None
  }

  /** Every status name is accepted, as that very status. */
  lemma ParseStatusName(st: Status)
    ensures ParseStatus(StatusName(st)) == Some(st)
  {
  }

  /**
   * One generation request. Only `image_url` and `completed_at` are nullable;
   * `expanded_prompt` is always a string (possibly empty).
   */
  datatype ImageGenerationRequest = ImageGenerationRequest(
    id: int,
    user_idea: string,
    expanded_prompt: string,
    image_url: Option<string>,
    status: Status,
    created_at: Timestamp,
    completed_at: Option<Timestamp>)

  /** A rejected input, with the message the schema attaches to it. */
  datatype ValidationError = ValidationError(message: string)

  const MinIdeaLength: nat := 1
  const MaxIdeaLength: nat := 500

  /** The input of a create or full-process call. */
  datatype CreateImageRequestInput = CreateImageRequestInput(user_idea: string)

  /** Validates the create input: the idea must be 1 to 500 characters long. */
  function ParseCreateImageRequestInput(user_idea: string): (r: Result<CreateImageRequestInput, ValidationError>)
    ensures r.Success? <==> MinIdeaLength <= |user_idea| <= MaxIdeaLength
    ensures r.Success? ==> r.value.user_idea == user_idea
    ensures |user_idea| < MinIdeaLength ==> r == Failure(ValidationError("User idea cannot be empty"))
    ensures |user_idea| > MaxIdeaLength ==> r == Failure(ValidationError("User idea is too long"))
  {
    if |user_idea| < MinIdeaLength then Failure(ValidationError("User idea cannot be empty"))
    else if |user_idea| > MaxIdeaLength then Failure(ValidationError("User idea is too long"))
    else Success(CreateImageRequestInput(user_idea))
  }

  /** An object key that may be left out altogether (undefined). */
  datatype Optional<+T> = Absent | Given(value: T)

  /**
   * The partial-update input. `id` and `status` are required; `expanded_prompt` may
   * be absent; `image_url` and `completed_at` may be absent, null or a value, which
   * `Optional<Option<_>>` spells `Absent`, `Given(None)` and `Given(Some(v))`.
   */
  datatype UpdateImageRequestStatus = UpdateImageRequestStatus(
    id: int,
    status: Status,
    expanded_prompt: Optional<string>,
    image_url: Optional<Option<string>>,
    completed_at: Optional<Option<Timestamp>>)

  /** Validates an update input whose status arrives as a string. */
  function ParseUpdateImageRequestStatus(
    id: int,
    status: string,
    expanded_prompt: Optional<string>,
    image_url: Optional<Option<string>>,
    completed_at: Optional<Option<Timestamp>>): (r: Result<UpdateImageRequestStatus, ValidationError>)
    ensures r.Success? <==> status in {"pending", "processing", "completed", "failed"}
    ensures r.Success? ==> StatusName(r.value.status) == status
    ensures r.Success? ==> r.value.id == id && r.value.expanded_prompt == expanded_prompt
                           && r.value.image_url == image_url && r.value.completed_at == completed_at
  {
    match ParseStatus(status)
    case None => Failure(ValidationError("Invalid enum value"))
    case Some(st) => Success(UpdateImageRequestStatus(id, st, expanded_prompt, image_url, completed_at))
  }

  /** The prompt expander's reply: exactly one field. */
  datatype ExpandedPromptResponse = ExpandedPromptResponse(expanded_prompt: string)

  /** The image generator's reply: exactly one field. */
  datatype GeneratedImageResponse = GeneratedImageResponse(image_url: string)

  /**
   * The lifecycle invariant a well-behaved request keeps: a completed request has an
   * image and a completion time, a failed one a completion time and no image, and a
   * request still in progress has no completion time. Neither schema enforces it.
   */
  predicate LifecycleConsistent(r: ImageGenerationRequest) {
    && (r.status == Completed ==> r.image_url.Some? && r.completed_at.Some?)
    && (r.status == Failed ==> r.image_url.None? && r.completed_at.Some?)
    && (!r.status.IsTerminal() ==> r.completed_at.None?)
  }
}

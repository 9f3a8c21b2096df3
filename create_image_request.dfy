/** The create handler: stores a pending request whose prompt is a fixed template around the idea. */
module CreateHandler {
  import opened Wrappers
  import opened Schema
  import opened DbSchema
  import opened Templates

  const CreationPrefix: string := "Create a detailed, high-quality artistic image based on this concept: "
  const CreationSuffix: string := ". Make it visually striking, well-composed, and artistically engaging with rich colors and professional lighting."

  /** The opening phrase every created prompt carries. */
  const CreationPhrase: string := "Create a detailed, high-quality artistic image"

  /** The prompt a created request starts with: it holds the idea verbatim and the opening phrase. */
  function CreationPrompt(userIdea: string): (p: string)
    ensures Contains(p, userIdea)
    ensures Contains(p, CreationPhrase)
    ensures Unfill(CreationPrefix, CreationSuffix, p) == Some(userIdea)
    ensures |p| == |CreationPrefix| + |userIdea| + |CreationSuffix|
  {
    FillContainsBody(CreationPrefix, userIdea, CreationSuffix);
    assert CreationPrefix[..|CreationPhrase|] == CreationPhrase;
    FillContainsPrefixPart(CreationPrefix, userIdea, CreationSuffix, |CreationPhrase|);
    UnfillFill(CreationPrefix, userIdea, CreationSuffix);
    Fill(CreationPrefix, userIdea, CreationSuffix)
  }

  /**
   * Inserts a pending request for the idea. The new id is fresh, the idea is stored
   * verbatim, the image and completion time are null, the creation time is the
   * clock's, and no other row changes.
   */
  method CreateImageRequest(db: Store, input: CreateImageRequestInput) returns (r: ImageGenerationRequest)
    requires db.Valid()
    modifies db
    ensures db.Valid()
    ensures r.id == old(db.nextId) && r.id !in old(db.rows) && r.id >= 1
    ensures r.user_idea == input.user_idea
    ensures r.expanded_prompt == CreationPrompt(input.user_idea)
    ensures r.status == Pending && r.image_url.None? && r.completed_at.None?
    ensures old(db.clock) <= r.created_at <= db.clock
    ensures db.rows == old(db.rows)[r.id := r]
    ensures |db.rows| == |old(db.rows)| + 1
    ensures db.nextId == old(db.nextId) + 1 && db.clock == old(db.clock)
  {
    var expandedPrompt := CreationPrompt(input.user_idea);
    r := db.Insert(NewRow(input.user_idea, expandedPrompt, Some(Pending), None, None, None));
  }
}

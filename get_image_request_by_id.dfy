/** The lookup handler: the request with a given id, or null; it never fails for a missing id. */
module LookupHandler {
  import opened Wrappers
  import opened Schema
  import opened DbSchema

  /** SELECT ... WHERE id = `id` LIMIT 1, copied out field by field. */
  function GetImageRequestById(rows: map<int, ImageGenerationRequest>, id: int): (r: Option<ImageGenerationRequest>)
    ensures r.Some? <==> id in rows
    ensures r.Some? ==> r.value == rows[id]
  {
    if id !in rows then None
    else
      var row := rows[id];
      Some(ImageGenerationRequest(
        row.id, row.user_idea, row.expanded_prompt, row.image_url,
        row.status, row.created_at, row.completed_at))
  }

  /**
   * Under the primary-key invariant the lookup finds a request exactly when some
   * stored request carries that id, finds that one, and finds nothing for an id
   * below 1 or not yet handed out by the serial sequence.
   */
  lemma LookupByIdColumn(rows: map<int, ImageGenerationRequest>, nextId: int, id: int)
    requires WellFormed(rows, nextId)
    ensures GetImageRequestById(rows, id).Some? <==> exists k :: k in rows && rows[k].id == id
    ensures GetImageRequestById(rows, id).Some? ==> GetImageRequestById(rows, id).value.id == id
    ensures id < 1 || nextId <= id ==> GetImageRequestById(rows, id).None?
  {
    if id in rows {
      assert rows[id].id == id;
    }
  }

  /** At most one stored request carries any given id. */
  lemma AtMostOneMatch(rows: map<int, ImageGenerationRequest>, nextId: int, k1: int, k2: int)
    requires WellFormed(rows, nextId)
    requires k1 in rows && k2 in rows && rows[k1].id == rows[k2].id
    ensures k1 == k2 && rows[k1] == rows[k2]
  {
  }
}

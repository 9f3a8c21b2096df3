/**
 * The orchestrator: insert a pending request, expand the idea, mark the request
 * processing with the expanded prompt, generate the image, mark it completed with
 * the image and the completion time. Once the request exists, any error in a
 * later step (a failed call or a failed database write) is caught and turns the
 * request failed with a completion time; an error of the insert itself is
 * re-thrown.
 *
 * The expander's and generator's replies are inputs (`Call`), each with the time
 * it took; which database writes fail is an input too (`Faults`).
 */
module ProcessHandler {
  import opened Wrappers
  import opened Schema
  import opened DbSchema

  /** What a remote step did: returned a value or threw, after `took` units of time. */
  datatype Call<T> = Returned(value: T, took: nat) | Threw(took: nat)

  /** Which of the four database writes of one run throw instead of taking effect. */
  datatype Faults = Faults(insertFails: bool, processingFails: bool, completedFails: bool, failedFails: bool)

  /** One run: what it returns or throws, the request it leaves in the table (if any), and the clock at the end. */
  datatype Run = Run(result: Result<ImageGenerationRequest, Error>, record: Option<ImageGenerationRequest>, clock: Timestamp)

  /** The catch block, entered with the request as stored at that moment. */
  function CatchBlock(stored: ImageGenerationRequest, now: Timestamp, faults: Faults): Run {
    if faults.failedFails then Run(Failure(StorageError), Some(stored), now)
    else
      var failed := stored.(status := Failed, completed_at := Some(now));
      Run(Success(failed), Some(failed), now)
  }

  /**
   * The whole pipeline as a value: `id` is the id the insert would receive and
   * `start` the clock when the call begins.
   */
  function Pipeline(
    idea: string, id: int, start: Timestamp,
    expand: Call<ExpandedPromptResponse>, generate: Call<GeneratedImageResponse>, faults: Faults): Run
  {
    if faults.insertFails then Run(Failure(StorageError), None, start)
    else
      var pending := ImageGenerationRequest(id, idea, "", None, Pending, start, None);
      var afterExpand := start + expand.took;
      if expand.Threw? || faults.processingFails then CatchBlock(pending, afterExpand, faults)
      else
        var processing := pending.(expanded_prompt := expand.value.expanded_prompt, status := Processing);
        var afterGenerate := afterExpand + generate.took;
        if generate.Threw? || faults.completedFails then CatchBlock(processing, afterGenerate, faults)
        else
          var completed := processing.(image_url := Some(generate.value.image_url), status := Completed,
                                       completed_at := Some(afterGenerate));
          Run(Success(completed), Some(completed), afterGenerate)
  }

  /**
   * processFullRequest. The run is the pipeline's: the result is its result, a
   * request is added under the next serial id exactly when the insert succeeds,
   * and no other request changes.
   */
  method ProcessFullRequest(
    db: Store, input: CreateImageRequestInput,
    expand: Call<ExpandedPromptResponse>, generate: Call<GeneratedImageResponse>, faults: Faults)
    returns (result: Result<ImageGenerationRequest, Error>)
    requires db.Valid()
    modifies db
    ensures db.Valid()
    ensures var run := Pipeline(input.user_idea, old(db.nextId), old(db.clock), expand, generate, faults);
      && result == run.result
      && db.clock == run.clock
      && (run.record.None? ==> db.rows == old(db.rows) && db.nextId == old(db.nextId))
      && (run.record.Some? ==> db.rows == old(db.rows)[old(db.nextId) := run.record.value]
                               && db.nextId == old(db.nextId) + 1)
  {
    var requestId: Option<int> := None;
    var caught: Option<Error> := None;

    // try
    if faults.insertFails {
      caught := Some(StorageError);
    } else {
      var initialRequest := db.Insert(NewRow(input.user_idea, "", Some(Pending), None, None, None));
      requestId := Some(initialRequest.id);
      db.Advance(expand.took);
      if expand.Returned? && !faults.processingFails {
        var _ := db.Update(initialRequest.id, Patch(Set(expand.value.expanded_prompt), Keep, Set(Processing), Keep));
        db.Advance(generate.took);
        if generate.Returned? && !faults.completedFails {
          var completedResult := db.Update(initialRequest.id,
            Patch(Keep, Set(Some(generate.value.image_url)), Set(Completed), Set(Some(db.clock))));
          return Success(completedResult.value);
        }
      }
    }

    // catch
    if requestId.Some? && requestId.value != 0 {
      if faults.failedFails {
        return Failure(StorageError);
      }
      var failedResult := db.Update(requestId.value, Patch(Keep, Keep, Set(Failed), Set(Some(db.clock))));
      return Success(failedResult.value);
    }
    return Failure(caught.value);
  }
  /** Both remote steps return and every write succeeds: the request ends completed with both outputs. */
  lemma CompletedPath(
    idea: string, id: int, start: Timestamp,
    expand: Call<ExpandedPromptResponse>, generate: Call<GeneratedImageResponse>, faults: Faults)
    requires expand.Returned? && generate.Returned?
    requires !faults.insertFails && !faults.processingFails && !faults.completedFails
    ensures var run := Pipeline(idea, id, start, expand, generate, faults);
      && run.result.Success?
      && run.result.value == ImageGenerationRequest(
           id, idea, expand.value.expanded_prompt, Some(generate.value.image_url),
           Completed, start, Some(start + expand.took + generate.took))
      && run.record == Some(run.result.value)
  {
  }

  /** The generator throws after a successful expansion: failed, no image, the expanded prompt kept. */
  lemma GenerationFailurePath(
    idea: string, id: int, start: Timestamp,
    expand: Call<ExpandedPromptResponse>, generate: Call<GeneratedImageResponse>, faults: Faults)
    requires expand.Returned? && generate.Threw?
    requires !faults.insertFails && !faults.processingFails && !faults.failedFails
    ensures var run := Pipeline(idea, id, start, expand, generate, faults);
      && run.result.Success?
      && run.result.value == ImageGenerationRequest(
           id, idea, expand.value.expanded_prompt, None,
           Failed, start, Some(start + expand.took + generate.took))
      && run.record == Some(run.result.value)
  {
  }

  /**
   * The expander throws: the request goes straight from pending to failed, and its
   * expanded prompt stays the empty string the insert wrote.
   */
  lemma ExpansionFailurePath(
    idea: string, id: int, start: Timestamp,
    expand: Call<ExpandedPromptResponse>, generate: Call<GeneratedImageResponse>, faults: Faults)
    requires expand.Threw?
    requires !faults.insertFails && !faults.failedFails
    ensures var run := Pipeline(idea, id, start, expand, generate, faults);
      && run.result.Success?
      && run.result.value == ImageGenerationRequest(id, idea, "", None, Failed, start, Some(start + expand.took))
      && run.record == Some(run.result.value)
  {
  }

  /**
   * Once the insert has succeeded, and provided the failure write succeeds, the
   * call returns (never throws) a request in a terminal state with a completion
   * time, and what it returns is what is stored.
   */
  lemma TerminalOnceInserted(
    idea: string, id: int, start: Timestamp,
    expand: Call<ExpandedPromptResponse>, generate: Call<GeneratedImageResponse>, faults: Faults)
    requires !faults.insertFails && !faults.failedFails
    ensures var run := Pipeline(idea, id, start, expand, generate, faults);
      && run.result.Success?
      && run.result.value.status.IsTerminal()
      && run.result.value.completed_at.Some?
      && run.record == Some(run.result.value)
  {
  }

  /** The insert fails: the error is re-thrown, no request exists and no time passes. */
  lemma InsertFailureRethrows(
    idea: string, id: int, start: Timestamp,
    expand: Call<ExpandedPromptResponse>, generate: Call<GeneratedImageResponse>, faults: Faults)
    requires faults.insertFails
    ensures Pipeline(idea, id, start, expand, generate, faults) == Run(Failure(StorageError), None, start)
  {
  }

  /**
   * A failed write in a later step is swallowed like a failed call: the request
   * ends failed rather than the error reaching the caller.
   */
  lemma StorageFaultsBecomeFailed(
    idea: string, id: int, start: Timestamp,
    expand: Call<ExpandedPromptResponse>, generate: Call<GeneratedImageResponse>, faults: Faults)
    requires !faults.insertFails && !faults.failedFails
    requires faults.processingFails || (expand.Returned? && faults.completedFails)
    ensures var run := Pipeline(idea, id, start, expand, generate, faults);
      run.result.Success? && run.result.value.status == Failed && run.result.value.image_url.None?
  {
  }

  /**
   * The failure write sets only status and completion time: a failed request keeps
   * its id, idea and creation time, has no image, and keeps the expanded prompt
   * that was stored when the error struck (empty unless the processing write landed).
   */
  lemma FailureWritesOnlyStatusAndTime(
    idea: string, id: int, start: Timestamp,
    expand: Call<ExpandedPromptResponse>, generate: Call<GeneratedImageResponse>, faults: Faults)
    ensures var run := Pipeline(idea, id, start, expand, generate, faults);
      run.result.Success? && run.result.value.status == Failed ==>
        && run.result.value.id == id && run.result.value.user_idea == idea
        && run.result.value.created_at == start && run.result.value.image_url.None?
        && run.result.value.expanded_prompt
             == (if expand.Returned? && !faults.processingFails then expand.value.expanded_prompt else "")
  {
  }

  /** The failure write itself fails: the error escapes and the request is left pending or processing. */
  lemma FailedWriteLeavesRequestInProgress(
    idea: string, id: int, start: Timestamp,
    expand: Call<ExpandedPromptResponse>, generate: Call<GeneratedImageResponse>, faults: Faults)
    requires !faults.insertFails && faults.failedFails
    requires expand.Threw? || generate.Threw? || faults.processingFails || faults.completedFails
    ensures var run := Pipeline(idea, id, start, expand, generate, faults);
      && run.result == Failure(StorageError)
      && run.record.Some? && !run.record.value.status.IsTerminal()
      && run.record.value.completed_at.None?
  {
  }

  /** Whatever a run returns was created no later than it was completed. */
  lemma CreatedNotAfterCompleted(
    idea: string, id: int, start: Timestamp,
    expand: Call<ExpandedPromptResponse>, generate: Call<GeneratedImageResponse>, faults: Faults)
    ensures var run := Pipeline(idea, id, start, expand, generate, faults);
      run.result.Success? ==>
        && run.result.value.completed_at.Some?
        && run.result.value.created_at <= run.result.value.completed_at.value
        && run.result.value.completed_at.value == run.clock
  {
  }

  /**
   * Every request a run leaves behind, finished or not, satisfies the lifecycle
   * invariant, and a returned request is the stored one.
   */
  lemma RunKeepsLifecycle(
    idea: string, id: int, start: Timestamp,
    expand: Call<ExpandedPromptResponse>, generate: Call<GeneratedImageResponse>, faults: Faults)
    ensures var run := Pipeline(idea, id, start, expand, generate, faults);
      && (run.record.Some? ==> LifecycleConsistent(run.record.value) && run.record.value.id == id)
      && (run.result.Success? ==> run.record == Some(run.result.value))
  {
  }

  /**
   * Two calls in a row whose inserts succeed add two requests, under distinct
   * fresh ids, and leave every earlier request as it was.
   */
  method TwoSequentialRequests(
    db: Store, first: CreateImageRequestInput, second: CreateImageRequestInput,
    expand: Call<ExpandedPromptResponse>, generate: Call<GeneratedImageResponse>, faults: Faults)
    returns (r1: Result<ImageGenerationRequest, Error>, r2: Result<ImageGenerationRequest, Error>)
    requires db.Valid()
    requires !faults.insertFails && !faults.failedFails
    modifies db
    ensures db.Valid()
    ensures r1.Success? && r2.Success? && r1.value.id != r2.value.id
    ensures r1.value.id !in old(db.rows) && r2.value.id !in old(db.rows)
    ensures db.rows.Keys == old(db.rows.Keys) + {r1.value.id, r2.value.id}
    ensures forall k :: k in old(db.rows) ==> db.rows[k] == old(db.rows)[k]
  {
    TerminalOnceInserted(first.user_idea, db.nextId, db.clock, expand, generate, faults);
    RunKeepsLifecycle(first.user_idea, db.nextId, db.clock, expand, generate, faults);
    r1 := ProcessFullRequest(db, first, expand, generate, faults);
    TerminalOnceInserted(second.user_idea, db.nextId, db.clock, expand, generate, faults);
    RunKeepsLifecycle(second.user_idea, db.nextId, db.clock, expand, generate, faults);
    r2 := ProcessFullRequest(db, second, expand, generate, faults);
  }
}

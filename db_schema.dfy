/**
 * The requests table: a serial primary key, two required text columns, a status
 * column restricted to the enum and defaulting to pending, a creation time
 * defaulting to now, and nullable image and completion columns. The table itself
 * is the class `Store`, whose rows the handlers insert and update in place.
 */
module DbSchema {
  import opened Wrappers
  import opened Schema

  /** The values of the table's status enum, in declaration order. */
  const RequestStatusEnum: seq<string> := ["pending", "processing", "completed", "failed"]

  /** The table's enum and the record schema's enum admit the same four names. */
  lemma EnumsAgree(s: string)
    ensures s in RequestStatusEnum <==> ParseStatus(s).Some?
  {
  }

  /**
   * The values of an INSERT. `user_idea` and `expanded_prompt` are required;
   * `None` for the others means the column is left to its default.
   */
  datatype NewRow = NewRow(
    user_idea: string,
    expanded_prompt: string,
    status: Option<Status>,
    image_url: Option<string>,
    created_at: Option<Timestamp>,
    completed_at: Option<Timestamp>)

  /** The row an insert of `v` stores when the sequence hands out `id` at time `now`. */
  function ApplyDefaults(v: NewRow, id: int, now: Timestamp): (r: ImageGenerationRequest)
    ensures r.id == id && r.user_idea == v.user_idea && r.expanded_prompt == v.expanded_prompt
    ensures v.status.None? ==> r.status == Pending
    ensures v.created_at.None? ==> r.created_at == now
    ensures v.image_url.None? ==> r.image_url.None?
    ensures v.completed_at.None? ==> r.completed_at.None?
    ensures v.status.Some? ==> r.status == v.status.value
    ensures v.created_at.Some? ==> r.created_at == v.created_at.value
  {
    ImageGenerationRequest(
      id, v.user_idea, v.expanded_prompt, v.image_url,
      v.status.GetOr(Pending), v.created_at.GetOr(now), v.completed_at)
  }

  /** One column of a SET clause: left alone, or set to a value (which may be null). */
  datatype Assign<+T> = Keep | Set(value: T)

  function Assigned<T>(a: Assign<T>, current: T): T {
    if a.Set? then a.value else current
  }

  /** The SET clause of an UPDATE over the columns the handlers write. */
  datatype Patch = Patch(
    expanded_prompt: Assign<string>,
    image_url: Assign<Option<string>>,
    status: Assign<Status>,
    completed_at: Assign<Option<Timestamp>>)

  /** A row after an UPDATE with SET clause `p`: the columns `p` names change, no other. */
  function ApplyPatch(r: ImageGenerationRequest, p: Patch): (r': ImageGenerationRequest)
    ensures r'.id == r.id && r'.user_idea == r.user_idea && r'.created_at == r.created_at
    ensures p.expanded_prompt.Keep? ==> r'.expanded_prompt == r.expanded_prompt
    ensures p.image_url.Keep? ==> r'.image_url == r.image_url
    ensures p.status.Keep? ==> r'.status == r.status
    ensures p.completed_at.Keep? ==> r'.completed_at == r.completed_at
    ensures p.expanded_prompt.Set? ==> r'.expanded_prompt == p.expanded_prompt.value
    ensures p.image_url.Set? ==> r'.image_url == p.image_url.value
    ensures p.status.Set? ==> r'.status == p.status.value
    ensures p.completed_at.Set? ==> r'.completed_at == p.completed_at.value
  {
    r.(expanded_prompt := Assigned(p.expanded_prompt, r.expanded_prompt),
       image_url := Assigned(p.image_url, r.image_url),
       status := Assigned(p.status, r.status),
       completed_at := Assigned(p.completed_at, r.completed_at))
  }

  /**
   * The primary-key invariant: every row is stored under its own id, and every id
   * is positive and below the serial sequence's next value.
   */
  predicate WellFormed(rows: map<int, ImageGenerationRequest>, nextId: int) {
    && 1 <= nextId
    && forall k :: k in rows ==> rows[k].id == k && 1 <= k < nextId
  }

  /**
   * The errors that escape the handlers: a failed database statement, and an
   * update naming an id no row has.
   */
  datatype Error = StorageError | NotFound(id: int)

  /** The table, its serial sequence and the clock its `now()` reads. */
  class Store {
    var rows: map<int, ImageGenerationRequest>
    var nextId: int
    var clock: Timestamp

    ghost predicate Valid()
      reads this
    {
      WellFormed(rows, nextId)
    }

    /** An empty table whose sequence starts at 1. */
    constructor (now: Timestamp)
      ensures Valid()
      ensures rows == map[] && nextId == 1 && clock == now
    {
      rows := map[];
      nextId := 1;
      clock := now;
    }

    /** Time passes; the clock never goes back. */
    method Advance(elapsed: nat)
      modifies this`clock
      ensures clock == old(clock) + elapsed
    {
      clock := clock + elapsed;
    }

    /** INSERT ... RETURNING: takes the next serial id and fills in the defaults. */
    method Insert(v: NewRow) returns (r: ImageGenerationRequest)
      requires Valid()
      modifies this`rows, this`nextId
      ensures Valid()
      ensures r == ApplyDefaults(v, old(nextId), clock)
      ensures r.id !in old(rows) && rows == old(rows)[r.id := r]
      ensures nextId == old(nextId) + 1
    {
      r := ApplyDefaults(v, nextId, clock);
      rows := rows[nextId := r];
      nextId := nextId + 1;
    }

    /** UPDATE ... SET p WHERE id = `id` RETURNING: no row comes back when no row matches. */
    method Update(id: int, p: Patch) returns (r: Option<ImageGenerationRequest>)
      requires Valid()
      modifies this`rows
      ensures Valid()
      ensures id in old(rows) ==> r == Some(ApplyPatch(old(rows)[id], p)) && rows == old(rows)[id := r.value]
      ensures id !in old(rows) ==> r == None && rows == old(rows)
    {
      if id in rows {
        var updated := ApplyPatch(rows[id], p);
        rows := rows[id := updated];
        r := Some(updated);
      } else {
        r := None;
      }
    }
  }
}

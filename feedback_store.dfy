/**
 * The feedback handlers over the Feedback collection. The collection is a map
 * from id to document held by a store object; each handler reads it or updates
 * it in place, and reports the JSON answer it would send (or that it passed an
 * error on to the error middleware). The authenticated caller is an input, and
 * the admin gate of the routes is a precondition of the handlers behind it.
 */
module FeedbackController {
  import opened Wrappers
  import opened JsStrings
  import opened JsNumbers
  import opened FeedbackModel
  import opened Suggestions

  /** `req.user`: the caller's id and role, as the authentication middleware sets them. */
  datatype Caller = Caller(id: ObjectId, role: string)

  predicate IsAdmin(c: Caller)
  {
    c.role == "admin"
  }

  /** `req.file` after the upload middleware accepted it: the name it was stored under. */
  datatype StoredFile = StoredFile(filename: string)

  /** Where an uploaded image is served from. */
  const UploadsPrefix := "/uploads/"

  /** `Number.parseInt(req.body.rating)`: an absent field is `undefined`, which reads as NaN. */
  function RatingArgument(rating: Option<string>): (n: NumberInput)
    ensures n != Missing
    ensures n.Number? <==> rating.Some? && ParseInt(rating.value).Some?
    ensures n.Number? ==> n.n == ParseInt(rating.value).value
  {
    match rating
    case None => NotANumber
    case Some(s) =>
      match ParseInt(s)
      case None => NotANumber
      case Some(v) => Number(v)
  }

  /** `if (rating)` on a query parameter: present and not the empty string. */
  predicate IsTruthy(param: Option<string>)
  {
    param.Some? && param.value != []
  }

  /** The direction of `sort({createdAt: …})`. */
  datatype Order = Ascending | Descending

  /** `sortBy === "oldest"` sorts oldest first; anything else, absent included, newest first. */
  function SortOrder(sortBy: Option<string>): (o: Order)
    ensures o == Ascending <==> sortBy == Some("oldest")
  {
    if sortBy == Some("oldest") then Ascending else Descending
  }

  /** A `find` filter: an exact rating and an exact owner, each optional. */
  datatype Filter = Filter(rating: Option<int>, user: Option<ObjectId>)

  predicate Matches(f: Feedback, q: Filter)
  {
    && (q.rating.Some? ==> f.rating == q.rating.value)
    && (q.user.Some? ==> f.user == q.user.value)
  }

  /** `f` may come before `g` in a listing sorted by creation time in direction `o`. */
  predicate Precedes(f: Feedback, g: Feedback, o: Order)
  {
    match o
    case Ascending => f.createdAt <= g.createdAt
    case Descending => f.createdAt >= g.createdAt
  }

  /** Every listed id is stored, and the listing is ordered by creation time. */
  predicate SortedBy(ids: seq<ObjectId>, at: map<ObjectId, Feedback>, o: Order)
  {
    && (forall i :: 0 <= i < |ids| ==> ids[i] in at)
    && (forall i, j :: 0 <= i < j < |ids| ==> Precedes(at[ids[i]], at[ids[j]], o))
  }

  /** Inserting `id` into a listing: after the leading entries that it does not precede. */
  function InsertSorted(ids: seq<ObjectId>, id: ObjectId, at: map<ObjectId, Feedback>, o: Order): (r: seq<ObjectId>)
    requires id in at && forall i :: 0 <= i < |ids| ==> ids[i] in at
    ensures multiset(r) == multiset(ids) + multiset{id}
    decreases |ids|
  {
    if ids == [] || Precedes(at[id], at[ids[0]], o) then
      [id] + ids
    else
      assert ids == [ids[0]] + ids[1..];
      [ids[0]] + InsertSorted(ids[1..], id, at, o)
  }

  /** An entry that precedes every entry of a sorted listing can be put in front of it. */
  lemma ConsSorted(x: ObjectId, rest: seq<ObjectId>, at: map<ObjectId, Feedback>, o: Order)
    requires x in at && SortedBy(rest, at, o)
    requires forall k :: 0 <= k < |rest| ==> Precedes(at[x], at[rest[k]], o)
    ensures SortedBy([x] + rest, at, o)
  {
    var r := [x] + rest;
    assert forall k :: 1 <= k < |r| ==> r[k] == rest[k - 1];
  }

  /** Inserting into a sorted listing keeps it sorted. */
  lemma {:induction false} InsertSortedIsSorted(ids: seq<ObjectId>, id: ObjectId, at: map<ObjectId, Feedback>, o: Order)
    requires id in at && SortedBy(ids, at, o)
    ensures SortedBy(InsertSorted(ids, id, at, o), at, o)
    decreases |ids|
  {
    if ids == [] || Precedes(at[id], at[ids[0]], o) {
      assert forall k :: 0 <= k < |ids| ==> Precedes(at[id], at[ids[k]], o) by {
        forall k | 0 < k < |ids| ensures Precedes(at[id], at[ids[k]], o) {
          assert Precedes(at[ids[0]], at[ids[k]], o);
        }
      }
      ConsSorted(id, ids, at, o);
    } else {
      var rest := InsertSorted(ids[1..], id, at, o);
      assert SortedBy(ids[1..], at, o) by {
        assert forall k :: 0 <= k < |ids[1..]| ==> ids[1..][k] == ids[k + 1];
      }
      InsertSortedIsSorted(ids[1..], id, at, o);
      forall k | 0 <= k < |rest| ensures Precedes(at[ids[0]], at[rest[k]], o) {
        assert rest[k] in multiset(rest);
        if rest[k] != id {
          assert rest[k] in multiset(ids[1..]);
          var j :| 0 <= j < |ids[1..]| && ids[1..][j] == rest[k];
          assert ids[j + 1] == rest[k];
        }
      }
      ConsSorted(ids[0], rest, at, o);
    }
  }

  /** The answer of `getFeedbackById`. */
  datatype ReadOutcome =
    | ReadNotFound                 // 404 "Feedback not found"
    | ReadForbidden                // 403 "Not authorized to access this feedback"
    | ReadOk(feedback: Feedback)   // 200 {success: true, feedback}
  {
    function Status(): int
    {
      match this
      case ReadNotFound => 404
      case ReadForbidden => 403
      case ReadOk(_) => 200
    }
  }

  /** The answer of `createFeedback`: 201 with the new document, or the validation error passed on. */
  datatype CreateOutcome = Created(id: ObjectId, feedback: Feedback) | CreateRejected(errors: set<FieldError>)

  /** The answer of `addReplyToFeedback`: 404, the failed `save` passed on, or 200 with the document. */
  datatype ReplyOutcome = ReplyNotFound | ReplyRejected(errors: set<FieldError>) | Replied(feedback: Feedback)

  /**
   * The answer of the two listing handlers: the query's cast failure passed on, or
   * 200 with `count` and the documents, listed under their ids.
   */
  datatype ListOutcome = ListCastFailed | Listed(count: nat, ids: seq<ObjectId>, feedbacks: seq<Feedback>)

  /** The Feedback collection. */
  class FeedbackStore {
    /** The stored documents by id. */
    var records: map<ObjectId, Feedback>
    /** The id the next created document receives; no stored id reaches it. */
    var nextId: ObjectId

    /** Every stored document satisfies the schema, and every id was handed out before. */
    ghost predicate Valid()
      reads this
    {
      && (forall id :: id in records ==> id < nextId)
      && (forall id :: id in records ==> ValidFeedback(records[id]))
    }

    /** An empty collection. */
    constructor ()
      ensures Valid() && records == map[] && nextId == 0
    {
      records := map[];
      nextId := 0;
    }

    /** The ids of the stored documents that match `q`. */
    function MatchingIds(q: Filter): (s: set<ObjectId>)
      reads this
    {
      set id | id in records && Matches(records[id], q)
    }

    /** The documents stored under `ids`, in order. */
    function RecordsAt(ids: seq<ObjectId>): (fs: seq<Feedback>)
      reads this
      requires forall i :: 0 <= i < |ids| ==> ids[i] in records
      ensures |fs| == |ids|
      ensures forall i :: 0 <= i < |ids| ==> fs[i] == records[ids[i]]
    {
      if ids == [] then [] else [records[ids[0]]] + RecordsAt(ids[1..])
    }

    /**
     * `Feedback.find(q).sort({createdAt: o})`: every matching document exactly once,
     * ordered by creation time (documents created at the same time in either order).
     */
    method Find(q: Filter, o: Order) returns (ids: seq<ObjectId>)
      ensures multiset(ids) == multiset(MatchingIds(q))
      ensures SortedBy(ids, records, o)
    {
      ids := [];
      var pending := records.Keys;
      ghost var listed: set<ObjectId> := {};
      while pending != {}
        invariant pending <= records.Keys
        invariant forall x :: x in listed <==> x in records && x !in pending && Matches(records[x], q)
        invariant multiset(ids) == multiset(listed)
        invariant SortedBy(ids, records, o)
        decreases |pending|
      {
        var id :| id in pending;
        if Matches(records[id], q) {
          InsertSortedIsSorted(ids, id, records, o);
          assert multiset(listed + {id}) == multiset(listed) + multiset{id} by {
            assert id !in listed;
          }
          ids := InsertSorted(ids, id, records, o);
          listed := listed + {id};
        }
        ghost var before := pending;
        pending := pending - {id};
        assert forall x :: x in listed <==> x in records && x !in pending && Matches(records[x], q) by {
          forall x ensures x in listed <==> x in records && x !in pending && Matches(records[x], q) {
            if x != id {
              assert x in pending <==> x in before;
            }
          }
        }
      }
      assert listed == MatchingIds(q);
    }

    /**
     * `createFeedback`: the caller owns the new document, the rating is parsed from
     * the form field, and `imageUrl` is set only when a file was uploaded. A draft
     * that fails validation leaves the collection unchanged.
     */
    method CreateFeedback(caller: Caller, text: Option<string>, rating: Option<string>, file: Option<StoredFile>,
                          now: Timestamp) returns (r: CreateOutcome)
      requires Valid()
      modifies this
      ensures Valid()
      ensures var draft := FeedbackDraft(Some(caller.id), text, RatingArgument(rating),
                                         if file.Some? then Some(UploadsPrefix + file.value.filename) else None);
              match CreateFeedbackDocument(draft, now)
              case Ok(f) => r == Created(old(nextId), f) && records == old(records)[old(nextId) := f]
                            && nextId == old(nextId) + 1
              case Err(e) => r == CreateRejected(e) && records == old(records) && nextId == old(nextId)
      ensures r.Created? ==> r.id !in old(records) && r.feedback.user == caller.id
                             && (r.feedback.imageUrl.Some? <==> file.Some?)
    {
      var draft := FeedbackDraft(Some(caller.id), text, RatingArgument(rating), None);
      if file.Some? {
        draft := draft.(imageUrl := Some(UploadsPrefix + file.value.filename));
      }
      match CreateFeedbackDocument(draft, now)
      case Err(e) =>
        r := CreateRejected(e);
      case Ok(f) =>
        var id := nextId;
        records := records[id := f];
        nextId := nextId + 1;
        r := Created(id, f);
    }

    /** `getAllFeedbacks` (admin only): an exact-rating filter when `rating` is truthy, sorted by `sortBy`. */
    method GetAllFeedbacks(caller: Caller, rating: Option<string>, sortBy: Option<string>) returns (r: ListOutcome)
      requires IsAdmin(caller)
      ensures r.ListCastFailed? <==> IsTruthy(rating) && ParseInt(rating.value).None?
      ensures r.Listed? ==>
                var wanted := if IsTruthy(rating) then Some(ParseInt(rating.value).value) else None;
                && multiset(r.ids) == multiset(MatchingIds(Filter(wanted, None)))
                && SortedBy(r.ids, records, SortOrder(sortBy))
                && r.count == |r.ids| && r.feedbacks == RecordsAt(r.ids)
    {
      var q := Filter(None, None);
      if IsTruthy(rating) {
        match ParseInt(rating.value)
        case None =>
          return ListCastFailed;
        case Some(n) =>
          q := q.(rating := Some(n));
      }
      var order := SortOrder(sortBy);
      var ids := Find(q, order);
      r := Listed(|ids|, ids, RecordsAt(ids));
    }

    /** `getUserFeedbacks`: the caller's own documents, sorted by `sortBy`; no rating filter applies. */
    method GetUserFeedbacks(caller: Caller, sortBy: Option<string>) returns (r: ListOutcome)
      ensures r.Listed?
      ensures multiset(r.ids) == multiset(MatchingIds(Filter(None, Some(caller.id))))
      ensures SortedBy(r.ids, records, SortOrder(sortBy))
      ensures r.count == |r.ids| && r.feedbacks == RecordsAt(r.ids)
    {
      var ids := Find(Filter(None, Some(caller.id)), SortOrder(sortBy));
      r := Listed(|ids|, ids, RecordsAt(ids));
    }

    /** `getFeedbackById`: 404 when absent, 403 unless the caller owns it or is an admin, else 200. */
    method GetFeedbackById(caller: Caller, id: ObjectId) returns (r: ReadOutcome)
      ensures r.ReadNotFound? <==> id !in records
      ensures r.ReadForbidden? <==> id in records && records[id].user != caller.id && !IsAdmin(caller)
      ensures r.ReadOk? ==> && id in records && r.feedback == records[id]
                            && (records[id].user == caller.id || IsAdmin(caller))
    {
      if id !in records {
        return ReadNotFound;
      }
      var feedback := records[id];
      if feedback.user != caller.id && !IsAdmin(caller) {
        return ReadForbidden;
      }
      r := ReadOk(feedback);
    }

    /**
     * `addReplyToFeedback` (admin only): push a reply with the body's text and the
     * caller as admin, then save; a reply without text fails validation on save,
     * and then nothing is stored.
     */
    method AddReplyToFeedback(caller: Caller, id: ObjectId, text: Option<string>, now: Timestamp)
      returns (r: ReplyOutcome)
      requires Valid() && IsAdmin(caller)
      modifies this
      ensures Valid() && nextId == old(nextId) && records.Keys == old(records).Keys
      ensures r.ReplyNotFound? <==> id !in old(records)
      ensures r.ReplyRejected? <==> id in old(records) && (text.None? || text.value == [])
      ensures !r.Replied? ==> records == old(records)
      ensures r.ReplyRejected? ==> r.errors == {ReplyTextRequired}
      ensures r.Replied? ==> && r.feedback == AppendReply(old(records)[id], Reply(text.value, now, caller.id))
                             && records == old(records)[id := r.feedback]
    {
      if id !in records {
        return ReplyNotFound;
      }
      var feedback := records[id];
      match CreateReplyDocument(ReplyDraft(text, Some(caller.id)), now)
      case Err(e) =>
        r := ReplyRejected(e);
      case Ok(reply) =>
        feedback := AppendReply(feedback, reply);
        records := records[id := feedback];
        r := Replied(feedback);
    }

    /**
     * `getAIReplySuggestions` (admin only): `lookupThrows` stands for a `findById`
     * that raises (a malformed id, a database fault). The prompt posted and the
     * response are those of the suggestion flow for what the lookup found.
     */
    method GetAIReplySuggestions(caller: Caller, id: ObjectId, lookupThrows: bool, upstream: Upstream)
      returns (posted: Option<string>, response: SuggestionResponse)
      requires Valid() && IsAdmin(caller)
      ensures var lookup := if lookupThrows then LookupFailed
                            else if id in records then Found(records[id]) else NotFound;
              posted == PostedPrompt(lookup) && response == Respond(lookup, upstream)
      ensures posted.Some? ==> |posted.value| <= PromptTemplateLength + 2 + SnippetLimit + 1
      ensures response.Success() ==> |response.suggestions| <= MaxSuggestions
    {
      var lookup: Lookup;
      if lookupThrows {
        lookup := LookupFailed;
      } else if id !in records {
        lookup := NotFound;
      } else {
        lookup := Found(records[id]);
        PromptIsBounded(records[id]);
      }
      posted := PostedPrompt(lookup);
      response := Respond(lookup, upstream);
    }
  }

  /** A form without a rating field is a cast failure, never a missing rating. */
  lemma MissingRatingIsCastFailure(caller: Caller, text: Option<string>, file: Option<string>, now: Timestamp)
    ensures var d := CreateFeedbackDocument(FeedbackDraft(Some(caller.id), text, RatingArgument(None), file), now);
            d.Err? && RatingCastFailed in d.error && RatingRequired !in d.error
  {
  }

  /** A well-formed rating field between 1 and 5 with a real text creates the document with that rating. */
  lemma RatingFieldIsParsed(caller: Caller, text: string, n: int, file: Option<string>, now: Timestamp)
    requires ValidRating(n) && !AllWhitespace(text)
    ensures var d := CreateFeedbackDocument(FeedbackDraft(Some(caller.id), Some(text), RatingArgument(Some(IntToString(n))), file), now);
            d.Ok? && d.value.rating == n
  {
    ParseIntOfIntToString(n, []);
    assert IntToString(n) + [] == IntToString(n);
  }
}

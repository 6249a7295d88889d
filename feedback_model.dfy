/**
 * The Feedback document and its embedded Reply sub-documents, with the
 * constraints the schema declares (required paths, `trim`, `min`/`max`,
 * defaults) and the validation Mongoose performs against them when a
 * document is created or saved.
 */
module FeedbackModel {
  import opened Wrappers
  import opened JsStrings

  /** A MongoDB ObjectId (of a Feedback or of a User), abstracted to a number. */
  type ObjectId = nat

  /** A `Date` value, abstracted to a number of milliseconds; the clock is an input. */
  type Timestamp = int

  /** An admin's answer, embedded in its Feedback. */
  datatype Reply = Reply(text: string, createdAt: Timestamp, admin: ObjectId)

  /** A stored Feedback document: owner, trimmed text, rating, optional image path, replies. */
  datatype Feedback = Feedback(
    user: ObjectId,
    text: string,
    rating: int,
    imageUrl: Option<string>,
    replies: seq<Reply>,
    createdAt: Timestamp)

  /** What a Number path receives before casting: nothing, NaN, or an integer. */
  datatype NumberInput = Missing | NotANumber | Number(n: int)

  /** What is handed to `Feedback.create` before validation. */
  datatype FeedbackDraft = FeedbackDraft(
    user: Option<ObjectId>,
    text: Option<string>,
    rating: NumberInput,
    imageUrl: Option<string>)

  /** What is pushed onto `replies` before the document is saved. */
  datatype ReplyDraft = ReplyDraft(text: Option<string>, admin: Option<ObjectId>)

  /** The validation failures the two schemas can report, one per path and rule. */
  datatype FieldError =
    | UserRequired
    | TextRequired
    | RatingRequired
    | RatingCastFailed
    | RatingBelowMin
    | RatingAboveMax
    | ReplyTextRequired
    | ReplyAdminRequired

  /** The messages the schema itself declares; the other errors carry Mongoose's default text. */
  function SchemaMessage(e: FieldError): (m: Option<string>)
    ensures m.Some? <==> e == TextRequired || e == RatingRequired
  {
    match e
    case TextRequired => Some("Feedback text is required")
    case RatingRequired => Some("Rating is required")
    case _ => None
  }

  /** The rating bounds of the schema. */
  const MinRating := 1
  const MaxRating := 5

  predicate ValidRating(n: int)
  {
    MinRating <= n <= MaxRating
  }

  /** A stored text has been through `trim` and passed `required` (a string must be non-empty). */
  predicate ValidText(t: string)
  {
    t != [] && IsTrimmed(t)
  }

  /** A Reply needs a non-empty text; its admin reference is required by its type. */
  predicate ValidReply(r: Reply)
  {
    r.text != []
  }

  /** Every stored Feedback satisfies its schema, and so do all its replies. */
  predicate ValidFeedback(f: Feedback)
  {
    && ValidText(f.text)
    && ValidRating(f.rating)
    && forall i :: 0 <= i < |f.replies| ==> ValidReply(f.replies[i])
  }

  /** The `user` path: required. */
  function UserErrors(user: Option<ObjectId>): (errs: set<FieldError>)
  {
    if user.None? then {UserRequired} else {}
  }

  /** The `text` path: trimmed by its setter, then required (an empty string fails). */
  function TextErrors(text: Option<string>): (errs: set<FieldError>)
  {
    if text.None? || Trim(text.value) == [] then {TextRequired} else {}
  }

  /** The `rating` path: required, cast to a number (NaN fails the cast), then `min` and `max`. */
  function RatingErrors(rating: NumberInput): (errs: set<FieldError>)
  {
    match rating
    case Missing => {RatingRequired}
    case NotANumber => {RatingCastFailed}
    case Number(n) =>
      if n < MinRating then {RatingBelowMin}
      else if n > MaxRating then {RatingAboveMax}
      else {}
  }

  /**
   * `Feedback.create(draft)`: every path is validated and all failures are reported
   * together; a valid draft becomes a document with trimmed text, `imageUrl`
   * defaulting to null, no replies and `createdAt` defaulting to the current time.
   */
  function CreateFeedbackDocument(d: FeedbackDraft, now: Timestamp): (r: Result<Feedback, set<FieldError>>)
    ensures r.Ok? <==> d.user.Some? && d.text.Some? && !AllWhitespace(d.text.value)
                       && d.rating.Number? && ValidRating(d.rating.n)
    ensures r.Ok? ==> ValidFeedback(r.value)
    ensures r.Ok? ==> && r.value.user == d.user.value
                      && r.value.text == Trim(d.text.value)
                      && r.value.rating == d.rating.n
                      && r.value.imageUrl == d.imageUrl
                      && r.value.replies == []
                      && r.value.createdAt == now
    ensures r.Err? ==> r.error != {}
    ensures r.Err? ==> (TextRequired in r.error <==> d.text.None? || AllWhitespace(d.text.value))
    ensures r.Err? ==> (RatingBelowMin in r.error <==> d.rating.Number? && d.rating.n < MinRating)
    ensures r.Err? ==> (RatingAboveMax in r.error <==> d.rating.Number? && d.rating.n > MaxRating)
  {
    var errors := UserErrors(d.user) + TextErrors(d.text) + RatingErrors(d.rating);
    TrimEmptyIff(if d.text.Some? then d.text.value else []);
    if errors != {} then Err(errors)
    else Ok(Feedback(d.user.value, Trim(d.text.value), d.rating.n, d.imageUrl, [], now))
  }

  /**
   * Validation of a pushed reply when its parent is saved: `text` and `admin` are
   * required; `createdAt` defaults to the current time.
   */
  function CreateReplyDocument(d: ReplyDraft, now: Timestamp): (r: Result<Reply, set<FieldError>>)
    ensures r.Ok? <==> d.text.Some? && d.text.value != [] && d.admin.Some?
    ensures r.Ok? ==> ValidReply(r.value) && r.value == Reply(d.text.value, now, d.admin.value)
    ensures r.Err? ==> r.error != {} && r.error <= {ReplyTextRequired, ReplyAdminRequired}
    ensures r.Err? ==> (ReplyTextRequired in r.error <==> d.text.None? || d.text.value == [])
  {
    var errors := (if d.text.None? || d.text.value == [] then {ReplyTextRequired} else {})
                + (if d.admin.None? then {ReplyAdminRequired} else {});
    if errors != {} then Err(errors) else Ok(Reply(d.text.value, now, d.admin.value))
  }

  /** Appending a valid reply keeps a document valid, and the other paths unchanged. */
  function AppendReply(f: Feedback, reply: Reply): (g: Feedback)
    ensures |g.replies| == |f.replies| + 1 && g.replies[..|f.replies|] == f.replies
    ensures g.replies[|f.replies|] == reply
    ensures g.user == f.user && g.text == f.text && g.rating == f.rating
    ensures g.imageUrl == f.imageUrl && g.createdAt == f.createdAt
    ensures ValidFeedback(f) && ValidReply(reply) ==> ValidFeedback(g)
  {
    f.(replies := f.replies + [reply])
  }
}
